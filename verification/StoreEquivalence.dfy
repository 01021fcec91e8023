/** The two implementations of `ResourceStore` are the same machine. */
module StoreEquivalence {
  import opened Store
  import opened MemoryStore
  import opened PostgresStore

  /** The operations the database carried out, given its replies. */
  function Served(ops: seq<Op>, replies: seq<Reply>): seq<Op>
    requires |ops| == |replies|
  {
    if ops == [] then []
    else
      var n := |ops| - 1;
      Served(ops[..n], replies[..n]) + if IsDatabaseError(replies[n]) then [] else [ops[n]]
  }

  function Answered(replies: seq<Reply>): seq<Reply> {
    if replies == [] then []
    else
      var n := |replies| - 1;
      Answered(replies[..n]) + if IsDatabaseError(replies[n]) then [] else [replies[n]]
  }

  lemma {:induction false} AllServed(ops: seq<Op>, replies: seq<Reply>)
    requires |ops| == |replies|
    requires forall i :: 0 <= i < |replies| ==> !IsDatabaseError(replies[i])
    ensures Served(ops, replies) == ops && Answered(replies) == replies
  {
    if ops != [] {
      var n := |ops| - 1;
      AllServed(ops[..n], replies[..n]);
      assert ops == ops[..n] + [ops[n]] && replies == replies[..n] + [replies[n]];
    }
  }

  function After(st: PolicyState, op: Op, reply: Reply): PolicyState {
    if IsDatabaseError(reply) then st else Step(st, op).0
  }

  /** The policy and the replies of a run on a database that refuses the given statements. */
  function RunUnder(st: PolicyState, ops: seq<Op>, refusals: seq<set<nat>>): (PolicyState, seq<Reply>)
    requires |refusals| == |ops|
  {
    if ops == [] then (st, [])
    else
      var n := |ops| - 1;
      var (st', replies) := RunUnder(st, ops[..n], refusals[..n]);
      var (st'', reply) := StepUnder(st', ops[n], refusals[n]);
      (st'', replies + [reply])
  }

  lemma RunUnderSnoc(st: PolicyState, ops: seq<Op>, refusals: seq<set<nat>>, n: nat)
    requires n < |ops| == |refusals|
    ensures var (st', replies) := RunUnder(st, ops[..n], refusals[..n]);
      var (st'', reply) := StepUnder(st', ops[n], refusals[n]);
      RunUnder(st, ops[..n + 1], refusals[..n + 1]) == (st'', replies + [reply])
  {
    assert ops[..n + 1][..n] == ops[..n] && refusals[..n + 1][..n] == refusals[..n];
  }

  lemma ServedSnoc(st: PolicyState, ops: seq<Op>, n: nat, replies: seq<Reply>, reply: Reply)
    requires |replies| == n < |ops|
    ensures Run(st, Served(ops[..n + 1], replies + [reply])) == After(Run(st, Served(ops[..n], replies)), ops[n], reply)
    ensures Answered(replies + [reply]) == Answered(replies) + if IsDatabaseError(reply) then [] else [reply]
  {
    var served := Served(ops[..n], replies);
    assert ops[..n + 1][..n] == ops[..n] && (replies + [reply])[..n] == replies;
    assert Served(ops[..n + 1], replies + [reply]) == served + if IsDatabaseError(reply) then [] else [ops[n]];
    if IsDatabaseError(reply) { assert served + [] == served; } else { RunSnoc(st, served, ops[n]); }
  }

  /** One operation on both stores; the memory store sits out what the database refused. */
  method StepBoth(mem: MemoryResourceStore, pg: PostgresResourceStore, op: Op, refusals: set<nat>)
    returns (fromMemory: seq<Reply>, fromPostgres: Reply)
    requires pg.Valid() && mem.State() == pg.State()
    modifies mem, pg
    ensures pg.Valid() && mem.State() == pg.State()
    ensures mem.State() == After(old(mem.State()), op, fromPostgres)
    ensures fromMemory == if IsDatabaseError(fromPostgres) then [] else [fromPostgres]
    ensures (pg.State(), fromPostgres) == StepUnder(old(pg.State()), op, refusals)
    ensures refusals == {} ==> !IsDatabaseError(fromPostgres)
  {
    RefusedIffAnswered(pg.State(), op, refusals);
    fromPostgres := pg.Apply(op, refusals);
    if IsDatabaseError(fromPostgres) { return [], fromPostgres; }
    var answer := mem.Apply(op);
    fromMemory := [answer];
  }

  /** The memory store gave the replies that the database gave, and `st` is where what the database
      carried out leads. */
  ghost predicate InStep(start: PolicyState, ops: seq<Op>, st: PolicyState, fromMemory: seq<Reply>,
                         fromPostgres: seq<Reply>) {
    && |ops| == |fromPostgres|
    && fromMemory == Answered(fromPostgres)
    && st == Run(start, Served(ops, fromPostgres))
  }

  lemma InStepSnoc(start: PolicyState, ops: seq<Op>, n: nat, st: PolicyState, fromMemory: seq<Reply>,
                   fromPostgres: seq<Reply>, st': PolicyState, reply: Reply)
    requires n < |ops| && InStep(start, ops[..n], st, fromMemory, fromPostgres)
    requires st' == After(st, ops[n], reply)
    ensures InStep(start, ops[..n + 1], st', fromMemory + if IsDatabaseError(reply) then [] else [reply],
                   fromPostgres + [reply])
  {
    ServedSnoc(start, ops, n, fromPostgres, reply);
  }

  /** The database answered as its refusals make it, and never refuses where none is given. */
  ghost predicate Driven(start: PolicyState, ops: seq<Op>, refusals: seq<set<nat>>, st: PolicyState,
                         replies: seq<Reply>) {
    && |refusals| == |ops| == |replies|
    && (st, replies) == RunUnder(start, ops, refusals)
    && forall j :: 0 <= j < |ops| && refusals[j] == {} ==> !IsDatabaseError(replies[j])
  }

  lemma DrivenSnoc(start: PolicyState, ops: seq<Op>, refusals: seq<set<nat>>, n: nat, st: PolicyState,
                   replies: seq<Reply>, st': PolicyState, reply: Reply)
    requires n < |ops| == |refusals| && Driven(start, ops[..n], refusals[..n], st, replies)
    requires (st', reply) == StepUnder(st, ops[n], refusals[n])
    requires refusals[n] == {} ==> !IsDatabaseError(reply)
    ensures Driven(start, ops[..n + 1], refusals[..n + 1], st', replies + [reply])
  {
    RunUnderSnoc(start, ops, refusals, n);
  }

  /** The next operation of a run on both stores. */
  method NextBoth(mem: MemoryResourceStore, pg: PostgresResourceStore, ops: seq<Op>, refusals: seq<set<nat>>, n: nat,
                  ghost start: PolicyState, fromMemory: seq<Reply>, fromPostgres: seq<Reply>)
    returns (fromMemory': seq<Reply>, fromPostgres': seq<Reply>)
    requires n < |ops| == |refusals| && pg.Valid() && mem.State() == pg.State()
    requires InStep(start, ops[..n], mem.State(), fromMemory, fromPostgres)
    requires Driven(start, ops[..n], refusals[..n], mem.State(), fromPostgres)
    modifies mem, pg
    ensures pg.Valid() && mem.State() == pg.State()
    ensures InStep(start, ops[..n + 1], mem.State(), fromMemory', fromPostgres')
    ensures Driven(start, ops[..n + 1], refusals[..n + 1], mem.State(), fromPostgres')
  {
    ghost var st := mem.State();
    var answers, reply := StepBoth(mem, pg, ops[n], refusals[n]);
    InStepSnoc(start, ops, n, st, fromMemory, fromPostgres, mem.State(), reply);
    DrivenSnoc(start, ops, refusals, n, st, fromPostgres, mem.State(), reply);
    return fromMemory + answers, fromPostgres + [reply];
  }

  /** Drives both stores through a run, injecting database refusals at will. The memory store is asked
      only what the database carried out, and then gives the same replies and ends in the same policy;
      without refusals that is every operation. */
  method RunBoth(mem: MemoryResourceStore, pg: PostgresResourceStore, ops: seq<Op>, refusals: seq<set<nat>>)
    returns (fromMemory: seq<Reply>, fromPostgres: seq<Reply>)
    requires |refusals| == |ops|
    requires pg.Valid() && mem.State() == pg.State()
    modifies mem, pg
    ensures pg.Valid() && mem.State() == pg.State()
    ensures |fromPostgres| == |ops|
    ensures (pg.State(), fromPostgres) == RunUnder(old(pg.State()), ops, refusals)
    ensures fromMemory == Answered(fromPostgres)
    ensures mem.State() == Run(old(mem.State()), Served(ops, fromPostgres))
    ensures (forall i :: 0 <= i < |ops| ==> refusals[i] == {}) ==>
      fromMemory == fromPostgres && mem.State() == Run(old(mem.State()), ops)
  {
    fromMemory, fromPostgres := [], [];
    ghost var start := mem.State();
    var i := 0;
    while i < |ops|
      invariant 0 <= i <= |ops|
      invariant pg.Valid() && mem.State() == pg.State()
      invariant InStep(start, ops[..i], mem.State(), fromMemory, fromPostgres)
      invariant Driven(start, ops[..i], refusals[..i], mem.State(), fromPostgres)
    {
      fromMemory, fromPostgres := NextBoth(mem, pg, ops, refusals, i, start, fromMemory, fromPostgres);
      i := i + 1;
    }
    assert ops[..i] == ops && refusals[..i] == refusals;
    if forall j :: 0 <= j < |ops| ==> refusals[j] == {} { AllServed(ops, fromPostgres); }
  }
}
