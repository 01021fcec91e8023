/** The contract of `ResourceStore`: what every operation answers and does to the policy,
    stated once, so that both implementations can be held against it. */
module Store {
  import opened Policy
  import opened ClaimMerge

  type EntryKey = (string, string)
  type Entries = map<EntryKey, ResourceMapping>

  datatype PolicyState = PolicyState(entries: Entries, scopeMappings: ScopeMappings)

  const EMPTY := PolicyState(map[], map[])

  datatype Op =
    | ResolveMapping(client: string, context: string)
    | SaveMapping(mapping: ResourceMapping)
    | UpdateMapping(mapping: ResourceMapping)
    | RemoveMapping(client: string, context: string)
    | RemoveMappingsFor(client: string)
    | SaveScopeMappings(batch: seq<ScopeMapping>)
    | UpdateScopeMapping(scopeMapping: ScopeMapping)
    | RemoveScopeMapping(scope: string)
    | ListMappings
    | ListScopeMappings

  /** Listings are compared as sets: a hash map and a table scan promise no order. */
  datatype Reply =
    | Done
    | Failed(error: ResourceError)
    | Resolved(pair: Option<MappingPair>)
    | Mappings(mappings: set<ResourceMapping>)
    | Scopes(scopes: set<ScopeMapping>)

  predicate IsDatabaseError(reply: Reply) {
    reply.Failed? && reply.error.DatabaseError?
  }

  // ---------------------------------------------------------------- batches

  /** Element `i` of the batch names a scope that exists already or that an earlier element names. */
  predicate Repeats(table: ScopeMappings, batch: seq<ScopeMapping>, i: nat)
    requires i < |batch|
  {
    batch[i].scope in table || exists j :: 0 <= j < i && batch[j].scope == batch[i].scope
  }

  /** The least repeating index from `from` on, or the length of the batch. */
  function FirstRepeat(table: ScopeMappings, batch: seq<ScopeMapping>, from: nat): (i: nat)
    requires from <= |batch|
    ensures from <= i <= |batch|
    ensures i < |batch| ==> Repeats(table, batch, i)
    ensures forall j: nat :: from <= j < i ==> !Repeats(table, batch, j)
    decreases |batch| - from
  {
    if from == |batch| || Repeats(table, batch, from) then from else FirstRepeat(table, batch, from + 1)
  }

  function Inserted(table: ScopeMappings, batch: seq<ScopeMapping>): ScopeMappings {
    if batch == [] then table
    else
      var last := batch[|batch| - 1];
      Inserted(table, batch[..|batch| - 1])[last.scope := last]
  }

  function ScopeNames(batch: seq<ScopeMapping>): set<string> {
    set m | m in batch :: m.scope
  }

  lemma ScopeNamesSnoc(batch: seq<ScopeMapping>, last: ScopeMapping)
    ensures ScopeNames(batch + [last]) == ScopeNames(batch) + {last.scope}
  {
  }

  // ---------------------------------------------------------------- the step

  function GrantedScopes(mapping: ResourceMapping, table: ScopeMappings): ScopeMappings {
    map s | s in mapping.scopes && s in table :: table[s]
  }

  /** The answer when the mapping is read from `first` and its scope mappings from `second`. */
  function ResolveAcross(first: PolicyState, second: PolicyState, client: string,
                         context: string): Option<MappingPair> {
    if (client, context) in first.entries then
      var mapping := first.entries[(client, context)];
      Some(MappingPair(mapping, GrantedScopes(mapping, second.scopeMappings)))
    else None
  }

  function Resolve(st: PolicyState, client: string, context: string): Option<MappingPair> {
    ResolveAcross(st, st, client, context)
  }

  function WithoutClient(entries: Entries, client: string): Entries {
    map k | k in entries && k.0 != client :: entries[k]
  }

  function Step(st: PolicyState, op: Op): (PolicyState, Reply) {
    match op
    case ResolveMapping(client, context) => (st, Resolved(Resolve(st, client, context)))
    case SaveMapping(m) =>
      if m.Key() in st.entries then (st, Failed(Conflict(m.clientIdentifier)))
      else (st.(entries := st.entries[m.Key() := m]), Done)
    case UpdateMapping(m) =>
      if m.Key() !in st.entries then (st, Failed(NotFound(m.clientIdentifier)))
      else (st.(entries := st.entries[m.Key() := m]), Done)
    case RemoveMapping(client, context) => (st.(entries := st.entries - {(client, context)}), Done)
    case RemoveMappingsFor(client) => (st.(entries := WithoutClient(st.entries, client)), Done)
    case SaveScopeMappings(batch) =>
      var i := FirstRepeat(st.scopeMappings, batch, 0);
      if i < |batch| then (st, Failed(Conflict(batch[i].scope)))
      else (st.(scopeMappings := Inserted(st.scopeMappings, batch)), Done)
    case UpdateScopeMapping(m) =>
      if m.scope !in st.scopeMappings then (st, Failed(NotFound(m.scope)))
      else (st.(scopeMappings := st.scopeMappings[m.scope := m]), Done)
    case RemoveScopeMapping(scope) => (st.(scopeMappings := st.scopeMappings - {scope}), Done)
    case ListMappings => (st, Mappings(st.entries.Values))
    case ListScopeMappings => (st, Scopes(st.scopeMappings.Values))
  }

  /** The state after a run, newest operation last. */
  function Run(st: PolicyState, ops: seq<Op>): PolicyState {
    if ops == [] then st else Step(Run(st, ops[..|ops| - 1]), ops[|ops| - 1]).0
  }

  lemma RunSnoc(st: PolicyState, ops: seq<Op>, op: Op)
    ensures Run(st, ops + [op]) == Step(Run(st, ops), op).0
  {
  }

  // ---------------------------------------------------------------- laws of the contract

  /** No element of the batch repeats. */
  ghost predicate Fresh(table: ScopeMappings, batch: seq<ScopeMapping>) {
    forall i: nat :: i < |batch| ==> !Repeats(table, batch, i)
  }

  lemma FreshInit(table: ScopeMappings, batch: seq<ScopeMapping>)
    requires batch != [] && Fresh(table, batch)
    ensures var init, last := batch[..|batch| - 1], batch[|batch| - 1];
      && Fresh(table, init)
      && last.scope !in table && last.scope !in ScopeNames(init)
      && ScopeNames(batch) == ScopeNames(init) + {last.scope}
  {
    var n: nat := |batch| - 1;
    var init := batch[..n];
    forall i: nat | i < n ensures !Repeats(table, init, i) {
      assert !Repeats(table, batch, i);
      assert forall j :: 0 <= j < i ==> init[j] == batch[j];
    }
    assert !Repeats(table, batch, n);
    forall m | m in init ensures m.scope != batch[n].scope {
      var j :| 0 <= j < n && init[j] == m;
      assert batch[j] == m;
    }
    ScopeNamesSnoc(init, batch[n]);
    assert batch == init + [batch[n]];
  }

  lemma {:induction false} InsertedLookup(table: ScopeMappings, batch: seq<ScopeMapping>)
    requires Fresh(table, batch)
    ensures Inserted(table, batch).Keys == table.Keys + ScopeNames(batch)
    ensures forall s :: s in table ==> Inserted(table, batch)[s] == table[s]
    ensures forall m :: m in batch ==> Inserted(table, batch)[m.scope] == m
  {
    if batch != [] {
      var init, last := batch[..|batch| - 1], batch[|batch| - 1];
      FreshInit(table, batch);
      InsertedLookup(table, init);
      forall m | m in batch ensures Inserted(table, batch)[m.scope] == m {
        if m in init { assert m.scope in ScopeNames(init); }
      }
    }
  }

  /** Batch creation is all or nothing. It fails exactly when some element repeats, changes nothing
      then, and names the scope of the first such element; otherwise it adds exactly the batch. */
  lemma BatchIsAllOrNothing(st: PolicyState, batch: seq<ScopeMapping>)
    ensures var (st', reply) := Step(st, SaveScopeMappings(batch));
      && st'.entries == st.entries
      && (reply == Done <==> Fresh(st.scopeMappings, batch))
      && (reply != Done ==> st' == st && exists i: nat ::
           i < |batch| && reply == Failed(Conflict(batch[i].scope)) && Repeats(st.scopeMappings, batch, i) &&
           forall j: nat :: j < i ==> !Repeats(st.scopeMappings, batch, j))
      && (reply == Done ==>
           && st'.scopeMappings.Keys == st.scopeMappings.Keys + ScopeNames(batch)
           && (forall s :: s in st.scopeMappings ==> st'.scopeMappings[s] == st.scopeMappings[s])
           && (forall m :: m in batch ==> st'.scopeMappings[m.scope] == m))
  {
    var i := FirstRepeat(st.scopeMappings, batch, 0);
    if i == |batch| { InsertedLookup(st.scopeMappings, batch); }
  }

  /** What any one pair's entry is after any operation. */
  lemma EntryAfter(st: PolicyState, op: Op, client: string, context: string)
    ensures var was := Lookup(st.entries, (client, context));
      Lookup(Step(st, op).0.entries, (client, context)) ==
        if op.SaveMapping? && op.mapping.clientIdentifier == client && op.mapping.participantContext == context
        then (if was.None? then Some(op.mapping) else was)
        else if op.UpdateMapping? && op.mapping.clientIdentifier == client && op.mapping.participantContext == context
        then (if was.Some? then Some(op.mapping) else None)
        else if op == RemoveMapping(client, context) || op == RemoveMappingsFor(client) then None
        else was
  {
  }

  /** What any one scope's mapping is after any operation. */
  lemma ScopeAfter(st: PolicyState, op: Op, s: string)
    ensures var was, now := Lookup(st.scopeMappings, s), Lookup(Step(st, op).0.scopeMappings, s);
      match op
      case SaveScopeMappings(batch) =>
        if Fresh(st.scopeMappings, batch) && s in ScopeNames(batch)
        then now.Some? && now.value in batch && now.value.scope == s
        else now == was
      case UpdateScopeMapping(m) => now == if m.scope == s && was.Some? then Some(m) else was
      case RemoveScopeMapping(scope) => now == if scope == s then None else was
      case _ => now == was
  {
    if op.SaveScopeMappings? {
      BatchIsAllOrNothing(st, op.batch);
      if m :| m in op.batch && m.scope == s { assert s in ScopeNames(op.batch); }
    }
  }

  /** What any operation answers: which failures it has, whom they name, and what it lists. */
  lemma ReplyOf(st: PolicyState, op: Op)
    ensures var reply := Step(st, op).1;
      match op
      case ResolveMapping(client, context) =>
        reply.Resolved? && reply.pair.Some? == ((client, context) in st.entries) &&
        (reply.pair.Some? ==> reply.pair.value.resourceMapping == st.entries[(client, context)])
      case SaveMapping(m) =>
        reply == if (m.clientIdentifier, m.participantContext) in st.entries
                 then Failed(Conflict(m.clientIdentifier)) else Done
      case UpdateMapping(m) =>
        reply == if (m.clientIdentifier, m.participantContext) in st.entries
                 then Done else Failed(NotFound(m.clientIdentifier))
      case UpdateScopeMapping(m) => reply == if m.scope in st.scopeMappings then Done else Failed(NotFound(m.scope))
      case SaveScopeMappings(batch) => reply == Done || (reply.Failed? && reply.error.Conflict?)
      case RemoveMapping(_, _) => reply == Done
      case RemoveMappingsFor(_) => reply == Done
      case RemoveScopeMapping(_) => reply == Done
      case ListMappings =>
        reply.Mappings? && forall m :: m in reply.mappings <==> exists k :: k in st.entries && st.entries[k] == m
      case ListScopeMappings =>
        reply.Scopes? &&
        forall m :: m in reply.scopes <==> exists s :: s in st.scopeMappings && st.scopeMappings[s] == m
  {
  }

  /** A mapping read at one moment and its scope mappings read at a later one, with any operations
      committed in between: the pair grants only scopes of its own mapping, each as it was at the
      second read; it is the atomic answer of the first moment exactly when no granted scope mapping
      changed, and of the second exactly when the entry itself did not. */
  lemma TwoReadResolve(first: PolicyState, between: seq<Op>, client: string, context: string)
    ensures var second := Run(first, between);
      var key := (client, context);
      var across := ResolveAcross(first, second, client, context);
      && (across.Some? <==> key in first.entries)
      && (across.Some? ==>
           var m := across.value.resourceMapping;
           && m == first.entries[key]
           && (forall s :: s in across.value.scopeMappings <==> s in m.scopes && s in second.scopeMappings)
           && (forall s :: s in across.value.scopeMappings ==>
                across.value.scopeMappings[s] == second.scopeMappings[s]))
      && (across == Resolve(first, client, context) <==>
           (key in first.entries ==>
             AgreeOn(first.entries[key].scopes, first.scopeMappings, second.scopeMappings)))
      && (across == Resolve(second, client, context) <==>
           Lookup(first.entries, key) == Lookup(second.entries, key))
      && (between == [] ==> across == Resolve(first, client, context))
  {
    var second := Run(first, between);
    if (client, context) in first.entries {
      GrantedAgree(first.entries[(client, context)], first.scopeMappings, second.scopeMappings);
    }
  }

  function Lookup<K, V>(m: map<K, V>, k: K): Option<V> {
    if k in m then Some(m[k]) else None
  }

  ghost predicate AgreeOn(names: set<string>, a: ScopeMappings, b: ScopeMappings) {
    forall s :: s in names ==> Lookup(a, s) == Lookup(b, s)
  }

  lemma GrantedAgree(m: ResourceMapping, a: ScopeMappings, b: ScopeMappings)
    ensures GrantedScopes(m, a) == GrantedScopes(m, b) <==> AgreeOn(m.scopes, a, b)
  {
    var x, y := GrantedScopes(m, a), GrantedScopes(m, b);
    if x == y {
      forall s | s in m.scopes ensures Lookup(a, s) == Lookup(b, s) {
        assert s in x <==> s in y;
        if s in x { assert x[s] == y[s]; }
      }
    }
  }

  // ---------------------------------------------------------------- locality

  /** Whether an operation is on the pair `key`, or a removal for its client. */
  predicate Concerns(op: Op, key: EntryKey) {
    match op
    case SaveMapping(m) => m.Key() == key
    case UpdateMapping(m) => m.Key() == key
    case RemoveMapping(client, context) => (client, context) == key
    case RemoveMappingsFor(client) => client == key.0
    case _ => false
  }

  function Concerning(ops: seq<Op>, key: EntryKey): seq<Op> {
    if ops == [] then []
    else
      var last := ops[|ops| - 1];
      Concerning(ops[..|ops| - 1], key) + if Concerns(last, key) then [last] else []
  }

  lemma StepIsLocal(a: PolicyState, b: PolicyState, op: Op, key: EntryKey)
    requires Lookup(a.entries, key) == Lookup(b.entries, key)
    ensures Lookup(Step(a, op).0.entries, key) == Lookup((if Concerns(op, key) then Step(b, op).0 else b).entries, key)
  {
  }

  /** Those are exactly the operations that can change the pair's entry in some policy. */
  lemma ConcernsIff(op: Op, key: EntryKey)
    ensures Concerns(op, key) <==> exists st :: Lookup(Step(st, op).0.entries, key) != Lookup(st.entries, key)
  {
    if Concerns(op, key) {
      var st := PolicyWithChange(op, key);
      assert Lookup(Step(st, op).0.entries, key) != Lookup(st.entries, key);
    }
  }

  /** A policy whose entry for `key` the operation changes. */
  lemma PolicyWithChange(op: Op, key: EntryKey) returns (st: PolicyState)
    requires Concerns(op, key)
    ensures Lookup(Step(st, op).0.entries, key) != Lookup(st.entries, key)
  {
    var none, other := ResourceMapping(key.0, key.1, {}, {}), ResourceMapping(key.0, key.1, {""}, {});
    assert none != other;
    st := if op.SaveMapping? then EMPTY
          else EMPTY.(entries := map[key := if op == UpdateMapping(none) then other else none]);
  }

  /** They are all that is kept, and they are kept in order. */
  lemma {:induction false} ConcerningIs(ops: seq<Op>, key: EntryKey, op: Op)
    ensures forall o :: o in Concerning(ops, key) ==> o in ops && Concerns(o, key)
    ensures Concerning(ops + [op], key) == Concerning(ops, key) + if Concerns(op, key) then [op] else []
  {
    assert (ops + [op])[..|ops|] == ops;
    if ops != [] {
      ConcerningIs(ops[..|ops| - 1], key, op);
      assert ops == ops[..|ops| - 1] + [ops[|ops| - 1]];
    }
  }

  /** The entry of a pair after any run is decided by the operations that concern the pair alone. */
  lemma {:induction false} EntryIsLocal(st: PolicyState, ops: seq<Op>, key: EntryKey)
    ensures Lookup(Run(st, ops).entries, key) == Lookup(Run(st, Concerning(ops, key)).entries, key)
  {
    if ops != [] {
      var init, last := ops[..|ops| - 1], ops[|ops| - 1];
      EntryIsLocal(st, init, key);
      StepIsLocal(Run(st, init), Run(st, Concerning(init, key)), last, key);
      RunSnoc(st, Concerning(init, key), last);
      assert !Concerns(last, key) ==> Concerning(ops, key) == Concerning(init, key);
    }
  }

  /** Whether an operation writes or removes one of the named scope mappings. */
  predicate Touches(op: Op, names: set<string>) {
    match op
    case SaveScopeMappings(batch) => ScopeNames(batch) * names != {}
    case UpdateScopeMapping(m) => m.scope in names
    case RemoveScopeMapping(scope) => scope in names
    case _ => false
  }

  /** Those are exactly the operations that can change one of the mappings in some policy; a batch that
      repeats one of its own names never succeeds, so it changes none. */
  lemma TouchesIff(op: Op, names: set<string>)
    requires op.SaveScopeMappings? ==> Fresh(map[], op.batch)
    ensures Touches(op, names) <==>
      exists st :: !AgreeOn(names, Step(st, op).0.scopeMappings, st.scopeMappings)
  {
    if Touches(op, names) {
      var st := PolicyWithScopeChange(op, names);
      assert !AgreeOn(names, Step(st, op).0.scopeMappings, st.scopeMappings);
    } else {
      forall st ensures AgreeOn(names, Step(st, op).0.scopeMappings, st.scopeMappings) {
        StepIsLocalInScopes(st, st, op, names);
      }
    }
  }

  lemma PolicyWithScopeChange(op: Op, names: set<string>) returns (st: PolicyState)
    requires Touches(op, names) && (op.SaveScopeMappings? ==> Fresh(map[], op.batch))
    ensures !AgreeOn(names, Step(st, op).0.scopeMappings, st.scopeMappings)
  {
    st := EMPTY;
    if op.SaveScopeMappings? {
      BatchIsAllOrNothing(st, op.batch);
      var s :| s in ScopeNames(op.batch) * names;
      assert Lookup(Step(st, op).0.scopeMappings, s) != Lookup(st.scopeMappings, s);
    } else {
      var s := if op.UpdateScopeMapping? then op.scopeMapping.scope else op.scope;
      var none, other := ScopeMapping(s, map[]), ScopeMapping(s, map["" := JOther(0)]);
      assert "" in other.claims;
      st := EMPTY.(scopeMappings := map[s := if op == UpdateScopeMapping(none) then other else none]);
      assert Lookup(Step(st, op).0.scopeMappings, s) != Lookup(st.scopeMappings, s);
    }
  }

  lemma {:induction false} TouchingIs(ops: seq<Op>, names: set<string>, op: Op)
    ensures forall o :: o in Touching(ops, names) ==> o in ops && Touches(o, names)
    ensures Touching(ops + [op], names) == Touching(ops, names) + if Touches(op, names) then [op] else []
  {
    assert (ops + [op])[..|ops|] == ops;
    if ops != [] {
      TouchingIs(ops[..|ops| - 1], names, op);
      assert ops == ops[..|ops| - 1] + [ops[|ops| - 1]];
    }
  }

  /** A batch that creates one of the names creates no other. */
  predicate Within(op: Op, names: set<string>) {
    op.SaveScopeMappings? && Touches(op, names) ==> ScopeNames(op.batch) <= names
  }

  function Touching(ops: seq<Op>, names: set<string>): seq<Op> {
    if ops == [] then []
    else
      var last := ops[|ops| - 1];
      Touching(ops[..|ops| - 1], names) + if Touches(last, names) then [last] else []
  }

  lemma {:induction false} FirstRepeatAgrees(a: ScopeMappings, b: ScopeMappings, batch: seq<ScopeMapping>, from: nat)
    requires from <= |batch| && AgreeOn(ScopeNames(batch), a, b)
    ensures FirstRepeat(a, batch, from) == FirstRepeat(b, batch, from)
    decreases |batch| - from
  {
    if from < |batch| {
      assert batch[from].scope in ScopeNames(batch);
      assert Lookup(a, batch[from].scope) == Lookup(b, batch[from].scope);
      FirstRepeatAgrees(a, b, batch, from + 1);
    }
  }

  lemma {:induction false} InsertedAgrees(names: set<string>, a: ScopeMappings, b: ScopeMappings,
                                          batch: seq<ScopeMapping>)
    requires AgreeOn(names, a, b)
    ensures AgreeOn(names, Inserted(a, batch), Inserted(b, batch))
  {
    if batch != [] { InsertedAgrees(names, a, b, batch[..|batch| - 1]); }
  }

  lemma {:induction false} InsertedElsewhere(names: set<string>, a: ScopeMappings, batch: seq<ScopeMapping>)
    requires forall m :: m in batch ==> m.scope !in names
    ensures AgreeOn(names, Inserted(a, batch), a)
  {
    if batch != [] {
      assert batch[|batch| - 1] in batch;
      InsertedElsewhere(names, a, batch[..|batch| - 1]);
    }
  }

  lemma BatchIsLocal(a: PolicyState, b: PolicyState, batch: seq<ScopeMapping>, names: set<string>)
    requires AgreeOn(names, a.scopeMappings, b.scopeMappings) && Within(SaveScopeMappings(batch), names)
    ensures var op := SaveScopeMappings(batch);
      var b' := if Touches(op, names) then Step(b, op).0 else b;
      AgreeOn(names, Step(a, op).0.scopeMappings, b'.scopeMappings)
  {
    if Touches(SaveScopeMappings(batch), names) {
      FirstRepeatAgrees(a.scopeMappings, b.scopeMappings, batch, 0);
      InsertedAgrees(names, a.scopeMappings, b.scopeMappings, batch);
    } else {
      forall m | m in batch ensures m.scope !in names {
        assert m.scope in ScopeNames(batch);
        assert m.scope in names ==> m.scope in ScopeNames(batch) * names;
      }
      InsertedElsewhere(names, a.scopeMappings, batch);
    }
  }

  lemma StepIsLocalInScopes(a: PolicyState, b: PolicyState, op: Op, names: set<string>)
    requires AgreeOn(names, a.scopeMappings, b.scopeMappings) && Within(op, names)
    ensures var b' := if Touches(op, names) then Step(b, op).0 else b;
      AgreeOn(names, Step(a, op).0.scopeMappings, b'.scopeMappings)
  {
    if op.SaveScopeMappings? { BatchIsLocal(a, b, op.batch, names); }
  }

  /** For a set of scope names that no batch straddles, the mappings of those names after any run are
      decided by the operations that touch them alone. */
  lemma {:induction false} ScopesAreLocal(st: PolicyState, ops: seq<Op>, names: set<string>)
    requires forall op :: op in ops ==> Within(op, names)
    ensures AgreeOn(names, Run(st, ops).scopeMappings, Run(st, Touching(ops, names)).scopeMappings)
  {
    if ops != [] {
      var init, last := ops[..|ops| - 1], ops[|ops| - 1];
      assert last in ops;
      ScopesAreLocal(st, init, names);
      StepIsLocalInScopes(Run(st, init), Run(st, Touching(init, names)), last, names);
      RunSnoc(st, Touching(init, names), last);
      assert !Touches(last, names) ==> Touching(ops, names) == Touching(init, names);
    }
  }

  lemma RunPair(st: PolicyState, one: Op, two: Op)
    ensures Run(st, [one, two]) == Step(Step(st, one).0, two).0
  {
    RunSnoc(st, [], one);
    RunSnoc(st, [one], two);
    assert [] + [one] == [one] && [one] + [two] == [one, two];
  }

  lemma TouchingPair(one: Op, two: Op, names: set<string>)
    requires !Touches(one, names) && Touches(two, names)
    ensures Touching([one, two], names) == [two]
  {
    assert [one, two][..1] == [one] && [one][..0] == [];
    assert Touching([one], names) == [] by { assert Touching([one][..0], names) == []; }
  }

  /** A batch that straddles the set ties the fates of its scopes: here `t` exists already, so the batch
      with `s` and `t` fails, and `s` is missing only because of an operation that does not touch it. */
  lemma StraddlingBatchIsNotLocal(s: ScopeMapping, t: ScopeMapping)
    requires s.scope != t.scope
    ensures var ops := [SaveScopeMappings([t]), SaveScopeMappings([s, t])];
      && Touching(ops, {s.scope}) == [SaveScopeMappings([s, t])]
      && s.scope !in Run(EMPTY, ops).scopeMappings
      && s.scope in Run(EMPTY, Touching(ops, {s.scope})).scopeMappings
  {
    var one, two := SaveScopeMappings([t]), SaveScopeMappings([s, t]);
    RunPair(EMPTY, one, two);
    assert ScopeNames([t]) == {t.scope} && ScopeNames([s, t]) == {s.scope, t.scope};
    assert {s.scope, t.scope} * {s.scope} == {s.scope} && {t.scope} * {s.scope} == {};
    TouchingPair(one, two, {s.scope});
    SaveOne(t);
    SavePair(Step(EMPTY, one).0, s, t);
    SavePair(EMPTY, s, t);
    RunSnoc(EMPTY, [], two);
    assert [] + [two] == [two];
  }

  lemma SaveOne(t: ScopeMapping)
    ensures Step(EMPTY, SaveScopeMappings([t])).0.scopeMappings.Keys == {t.scope}
  {
    BatchIsAllOrNothing(EMPTY, [t]);
    assert Fresh(map[], [t]) && ScopeNames([t]) == {t.scope};
  }

  lemma SavePair(st: PolicyState, s: ScopeMapping, t: ScopeMapping)
    requires s.scope != t.scope && s.scope !in st.scopeMappings
    ensures var st' := Step(st, SaveScopeMappings([s, t])).0;
      if t.scope in st.scopeMappings then st' == st else s.scope in st'.scopeMappings
  {
    BatchIsAllOrNothing(st, [s, t]);
    if t.scope in st.scopeMappings {
      assert Repeats(st.scopeMappings, [s, t], 1);
    } else {
      assert Fresh(st.scopeMappings, [s, t]) && s in [s, t];
    }
  }

  /** `verify` looks at nothing but the pair's entry and the requested scopes' mappings. */
  lemma VerifyIsLocal(a: PolicyState, b: PolicyState, client: string, context: string, scopes: seq<string>)
    requires Lookup(a.entries, (client, context)) == Lookup(b.entries, (client, context))
    requires forall s :: s in scopes ==> Lookup(a.scopeMappings, s) == Lookup(b.scopeMappings, s)
    ensures VerdictFor(Resolve(a, client, context), scopes) == VerdictFor(Resolve(b, client, context), scopes)
  {
    if (client, context) in a.entries {
      var p, q := Resolve(a, client, context).value, Resolve(b, client, context).value;
      forall s | s in scopes
        ensures (s in p.scopeMappings <==> s in q.scopeMappings) &&
                (s in p.scopeMappings ==> p.scopeMappings[s] == q.scopeMappings[s])
      {
        assert Lookup(a.scopeMappings, s) == Lookup(b.scopeMappings, s);
      }
      VerdictIsLocal(p, q, scopes);
    }
  }

  // ---------------------------------------------------------------- when two reads are one

  /** The policy after the first `n` of the operations. */
  function Moment(first: PolicyState, between: seq<Op>, n: nat): PolicyState
    requires n <= |between|
  {
    Run(first, between[..n])
  }

  /** The two-read answer is the atomic answer of moment `n`. */
  ghost predicate AtomicAt(first: PolicyState, between: seq<Op>, client: string, context: string, n: nat) {
    && n <= |between|
    && ResolveAcross(first, Run(first, between), client, context) == Resolve(Moment(first, between, n), client, context)
  }

  /** At moment `n` the entry is still `m`, and the scopes that `m` grants are already as the second read
      finds them. */
  ghost predicate MeetsAt(first: PolicyState, between: seq<Op>, m: ResourceMapping, key: EntryKey, n: nat) {
    && n <= |between|
    && Lookup(Moment(first, between, n).entries, key) == Some(m)
    && AgreeOn(m.scopes, Moment(first, between, n).scopeMappings, Run(first, between).scopeMappings)
  }

  lemma AtomicAtIff(first: PolicyState, between: seq<Op>, client: string, context: string, n: nat)
    requires (client, context) in first.entries
    ensures AtomicAt(first, between, client, context, n) <==>
      MeetsAt(first, between, first.entries[(client, context)], (client, context), n)
  {
    if n <= |between| {
      var m := first.entries[(client, context)];
      GrantedAgree(m, Moment(first, between, n).scopeMappings, Run(first, between).scopeMappings);
    }
  }

  /** The two-statement lookup is atomic, answering as some moment between its reads would, exactly when
      the pair has no entry or some moment has the entry that was read together with the granted scope
      mappings that are read later. */
  lemma AtomicIff(first: PolicyState, between: seq<Op>, client: string, context: string)
    ensures var key := (client, context);
      (exists n: nat :: AtomicAt(first, between, client, context, n)) <==>
        (key in first.entries ==> exists n: nat :: MeetsAt(first, between, first.entries[key], key, n))
  {
    if (client, context) in first.entries {
      forall n: nat { AtomicAtIff(first, between, client, context, n); }
    } else {
      assert between[..0] == [];
      assert AtomicAt(first, between, client, context, 0);
    }
  }

  lemma {:induction false} RunAppend(st: PolicyState, a: seq<Op>, b: seq<Op>)
    ensures Run(st, a + b) == Run(Run(st, a), b)
  {
    if b == [] {
      assert a + b == a;
    } else {
      var init, last := b[..|b| - 1], b[|b| - 1];
      RunAppend(st, a, init);
      assert (a + b)[..|a + b| - 1] == a + init;
    }
  }

  lemma {:induction false} NoneConcerning(ops: seq<Op>, key: EntryKey)
    requires forall op :: op in ops ==> !Concerns(op, key)
    ensures Concerning(ops, key) == []
  {
    if ops != [] {
      assert ops[|ops| - 1] in ops;
      NoneConcerning(ops[..|ops| - 1], key);
    }
  }

  lemma {:induction false} NoneTouching(ops: seq<Op>, names: set<string>)
    requires forall op :: op in ops ==> !Touches(op, names)
    ensures Touching(ops, names) == []
  {
    if ops != [] {
      assert ops[|ops| - 1] in ops;
      NoneTouching(ops[..|ops| - 1], names);
    }
  }

  /** It is atomic whenever the writes to the granted scopes all come before the writes to the entry. */
  lemma AtomicWhenScopesFirst(first: PolicyState, a: seq<Op>, b: seq<Op>, client: string, context: string)
    requires (client, context) in first.entries
    requires forall op :: op in a ==> !Concerns(op, (client, context))
    requires forall op :: op in b ==> !Touches(op, first.entries[(client, context)].scopes)
    ensures AtomicAt(first, a + b, client, context, |a|)
  {
    var key, names := (client, context), first.entries[(client, context)].scopes;
    assert (a + b)[..|a|] == a;
    RunAppend(first, a, b);
    NoneConcerning(a, key);
    EntryIsLocal(first, a, key);
    NoneTouching(b, names);
    ScopesAreLocal(Run(first, a), b, names);
    AtomicAtIff(first, a + b, client, context, |a|);
  }

  /** Scope first, entry second: neither end answers so, the moment in between does. */
  lemma AtomicInBetween(first: PolicyState, m: ResourceMapping, sm: ScopeMapping)
    requires m.Key() in first.entries && m != first.entries[m.Key()]
    requires sm.scope in first.entries[m.Key()].scopes && sm.scope in first.scopeMappings
    requires sm != first.scopeMappings[sm.scope]
    ensures var between := [UpdateScopeMapping(sm), UpdateMapping(m)];
      forall n: nat :: AtomicAt(first, between, m.clientIdentifier, m.participantContext, n) <==> n == 1
  {
    var between := [UpdateScopeMapping(sm), UpdateMapping(m)];
    RunPair(first, between[0], between[1]);
    PairMoments(first, between[0], between[1]);
    forall n: nat { AtomicAtIff(first, between, m.clientIdentifier, m.participantContext, n); }
  }

  /** Entry first, scope second: the answer is torn. The mapping as it was is paired with claims that were
      defined only after it had been replaced, and no moment answers so. */
  lemma TornRead(first: PolicyState, m: ResourceMapping, sm: ScopeMapping)
    requires m.Key() in first.entries && m != first.entries[m.Key()]
    requires sm.scope in first.entries[m.Key()].scopes && sm.scope in first.scopeMappings
    requires sm != first.scopeMappings[sm.scope]
    ensures var between := [UpdateMapping(m), UpdateScopeMapping(sm)];
      forall n: nat :: !AtomicAt(first, between, m.clientIdentifier, m.participantContext, n)
  {
    var between := [UpdateMapping(m), UpdateScopeMapping(sm)];
    RunPair(first, between[0], between[1]);
    PairMoments(first, between[0], between[1]);
    forall n: nat { AtomicAtIff(first, between, m.clientIdentifier, m.participantContext, n); }
  }

  lemma PairMoments(first: PolicyState, one: Op, two: Op)
    ensures Moment(first, [one, two], 0) == first
    ensures Moment(first, [one, two], 1) == Step(first, one).0
    ensures Moment(first, [one, two], 2) == Step(Step(first, one).0, two).0
  {
    RunPair(first, one, two);
    RunSnoc(first, [], one);
    assert [one, two][..0] == [] && [one, two][..1] == [] + [one] && [one, two][..2] == [one, two];
  }
}
