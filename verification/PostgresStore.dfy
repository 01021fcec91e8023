/** `PostgresResourceStore`: two tables of rows with primary keys. Statements run one after the
    other; a batch runs inside a transaction that only a commit makes visible. Any statement may be
    refused by the database. */
module PostgresStore {
  import opened Text
  import opened Policy
  import opened ClaimMerge
  import opened Store

  datatype ResourceMappingRow = ResourceMappingRow(
    clientIdentifier: string,
    participantContext: string,
    scopes: seq<string>,
    audiences: seq<string>)
  {
    function Key(): EntryKey { (clientIdentifier, participantContext) }
  }

  datatype ScopeMappingRow = ScopeMappingRow(scope: string, claims: Json)

  function RowToResourceMapping(row: ResourceMappingRow): ResourceMapping {
    ResourceMapping(row.clientIdentifier, row.participantContext, Elems(row.scopes), Elems(row.audiences))
  }

  /** A claims column that is not an object reads as no claims. */
  function RowToScopeMapping(row: ScopeMappingRow): ScopeMapping {
    ScopeMapping(row.scope, if row.claims.JObject? then row.claims.members else map[])
  }

  /** A row written from a mapping, its sets listed in any order, reads back as that mapping; a claims
      column that holds anything but an object gives no claim. */
  lemma RowRoundTrip(m: ResourceMapping, scopes: seq<string>, audiences: seq<string>, sm: ScopeMapping, other: Json)
    requires forall x :: x in scopes <==> x in m.scopes
    requires forall x :: x in audiences <==> x in m.audiences
    ensures RowToResourceMapping(ResourceMappingRow(m.clientIdentifier, m.participantContext, scopes, audiences)) == m
    ensures RowToScopeMapping(ScopeMappingRow(sm.scope, JObject(sm.claims))) == sm
    ensures !other.JObject? ==> RowToScopeMapping(ScopeMappingRow(sm.scope, other)) == ScopeMapping(sm.scope, map[])
  {
    assert Elems(scopes) == m.scopes && Elems(audiences) == m.audiences;
  }

  // ---------------------------------------------------------------- tables as policies

  ghost predicate MappingKeysUnique(rows: set<ResourceMappingRow>) {
    forall r, q :: r in rows && q in rows && r.Key() == q.Key() ==> r == q
  }

  ghost predicate ScopeKeysUnique(rows: set<ScopeMappingRow>) {
    forall r, q :: r in rows && q in rows && r.scope == q.scope ==> r == q
  }

  ghost function EntriesIn(rows: set<ResourceMappingRow>): Entries
    requires MappingKeysUnique(rows)
  {
    map r | r in rows :: r.Key() := RowToResourceMapping(r)
  }

  ghost function ScopesIn(rows: set<ScopeMappingRow>): ScopeMappings
    requires ScopeKeysUnique(rows)
  {
    map r | r in rows :: r.scope := RowToScopeMapping(r)
  }

  /** A new or rewritten row: the other rows keep their keys, the row's key now reads as `value`. */
  lemma PutMappingRow(rows: set<ResourceMappingRow>, row: ResourceMappingRow, value: ResourceMapping)
    requires MappingKeysUnique(rows) && RowToResourceMapping(row) == value
    ensures var rows' := (set r | r in rows && r.Key() != row.Key()) + {row};
      MappingKeysUnique(rows') && EntriesIn(rows') == EntriesIn(rows)[row.Key() := value]
  {
  }

  lemma PutScopeRow(rows: set<ScopeMappingRow>, row: ScopeMappingRow, value: ScopeMapping)
    requires ScopeKeysUnique(rows) && RowToScopeMapping(row) == value
    ensures var rows' := (set r | r in rows && r.scope != row.scope) + {row};
      ScopeKeysUnique(rows') && ScopesIn(rows') == ScopesIn(rows)[row.scope := value]
  {
  }

  /** Deleting rows by key deletes exactly those keys. */
  lemma DeleteMappingRows(rows: set<ResourceMappingRow>, kept: set<ResourceMappingRow>, gone: set<EntryKey>)
    requires MappingKeysUnique(rows) && kept == set r | r in rows && r.Key() !in gone
    ensures MappingKeysUnique(kept) && EntriesIn(kept) == EntriesIn(rows) - gone
  {
  }

  lemma DeleteClientRows(rows: set<ResourceMappingRow>, kept: set<ResourceMappingRow>, client: string)
    requires MappingKeysUnique(rows) && kept == set r | r in rows && r.clientIdentifier != client
    ensures MappingKeysUnique(kept) && EntriesIn(kept) == WithoutClient(EntriesIn(rows), client)
  {
  }

  lemma DeleteScopeRow(rows: set<ScopeMappingRow>, kept: set<ScopeMappingRow>, scope: string)
    requires ScopeKeysUnique(rows) && kept == set r | r in rows && r.scope != scope
    ensures ScopeKeysUnique(kept) && ScopesIn(kept) == ScopesIn(rows) - {scope}
  {
  }

  /** `HashSet` to `Vec`: every element once, in an arbitrary order. */
  method VecOf(s: set<string>) returns (v: seq<string>)
    ensures Elems(v) == s && |v| == |s|
  {
    v := [];
    var todo := s;
    while todo != {}
      invariant todo <= s
      invariant Elems(v) == s - todo
      invariant |v| + |todo| == |s|
      decreases |todo|
    {
      var x :| x in todo;
      assert Elems(v + [x]) == Elems(v) + {x};
      v, todo := v + [x], todo - {x};
    }
  }

  // ---------------------------------------------------------------- statements

  /** INSERT INTO resource_mappings: `None` is a unique violation (23505). */
  method InsertMapping(rows: set<ResourceMappingRow>,
                       row: ResourceMappingRow) returns (r: Option<set<ResourceMappingRow>>)
    requires MappingKeysUnique(rows)
    ensures r.None? <==> row.Key() in EntriesIn(rows)
    ensures r.Some? ==>
      && MappingKeysUnique(r.value)
      && EntriesIn(r.value) == EntriesIn(rows)[row.Key() := RowToResourceMapping(row)]
  {
    if exists q :: q in rows && q.Key() == row.Key() { return None; }
    PutMappingRow(rows, row, RowToResourceMapping(row));
    assert (set q | q in rows && q.Key() != row.Key()) == rows;
    return Some(rows + {row});
  }

  /** UPDATE resource_mappings SET scopes, audiences WHERE the key matches, with the affected-row count. */
  method UpdateMappings(rows: set<ResourceMappingRow>, row: ResourceMappingRow)
    returns (rows': set<ResourceMappingRow>, affected: nat)
    requires MappingKeysUnique(rows)
    ensures MappingKeysUnique(rows')
    ensures affected == 0 <==> row.Key() !in EntriesIn(rows)
    ensures affected == 0 ==> rows' == rows
    ensures affected != 0 ==> EntriesIn(rows') == EntriesIn(rows)[row.Key() := RowToResourceMapping(row)]
  {
    var matching := set q | q in rows && q.Key() == row.Key();
    affected := |matching|;
    rows' := (rows - matching) + (set q | q in matching :: q.(scopes := row.scopes, audiences := row.audiences));
    if matching != {} {
      var q :| q in matching;
      assert q.(scopes := row.scopes, audiences := row.audiences) == row;
      PutMappingRow(rows, row, RowToResourceMapping(row));
      assert rows' == (set q | q in rows && q.Key() != row.Key()) + {row};
    } else {
      assert forall q :: q in rows ==> q !in matching;
    }
  }

  /** INSERT INTO scope_mappings: `None` is a unique violation (23505). */
  method InsertScope(rows: set<ScopeMappingRow>, row: ScopeMappingRow) returns (r: Option<set<ScopeMappingRow>>)
    requires ScopeKeysUnique(rows)
    ensures r.None? <==> row.scope in ScopesIn(rows)
    ensures r.Some? ==>
      && ScopeKeysUnique(r.value)
      && ScopesIn(r.value) == ScopesIn(rows)[row.scope := RowToScopeMapping(row)]
  {
    if exists q :: q in rows && q.scope == row.scope { return None; }
    PutScopeRow(rows, row, RowToScopeMapping(row));
    assert (set q | q in rows && q.scope != row.scope) == rows;
    return Some(rows + {row});
  }

  /** UPDATE scope_mappings SET claims WHERE the scope matches, with the affected-row count. */
  method UpdateScopes(rows: set<ScopeMappingRow>, row: ScopeMappingRow)
    returns (rows': set<ScopeMappingRow>, affected: nat)
    requires ScopeKeysUnique(rows)
    ensures ScopeKeysUnique(rows')
    ensures affected == 0 <==> row.scope !in ScopesIn(rows)
    ensures affected == 0 ==> rows' == rows
    ensures affected != 0 ==> ScopesIn(rows') == ScopesIn(rows)[row.scope := RowToScopeMapping(row)]
  {
    var matching := set q | q in rows && q.scope == row.scope;
    affected := |matching|;
    rows' := (rows - matching) + (set q | q in matching :: q.(claims := row.claims));
    if matching != {} {
      var q :| q in matching;
      assert q.(claims := row.claims) == row;
      PutScopeRow(rows, row, RowToScopeMapping(row));
      assert rows' == (set q | q in rows && q.scope != row.scope) + {row};
    } else {
      assert forall q :: q in rows ==> q !in matching;
    }
  }

  lemma {:induction false} InsertedKeys(table: ScopeMappings, batch: seq<ScopeMapping>)
    ensures forall s :: s in Inserted(table, batch) <==>
      s in table || exists j :: 0 <= j < |batch| && batch[j].scope == s
  {
    if batch != [] {
      var init, last := batch[..|batch| - 1], batch[|batch| - 1];
      InsertedKeys(table, init);
      forall s
        ensures s in Inserted(table, batch) <==> s in table || exists j :: 0 <= j < |batch| && batch[j].scope == s
      {
        if j :| 0 <= j < |batch| && batch[j].scope == s {
          if j < |init| { assert init[j].scope == s; }
        }
      }
    }
  }

  /** In a table that holds the first `i` elements of the batch, inserting element `i` collides exactly
      when it repeats an earlier element or the table the transaction started from. */
  lemma CollidesIffRepeats(table: ScopeMappings, batch: seq<ScopeMapping>, i: nat)
    requires i < |batch|
    ensures batch[i].scope in Inserted(table, batch[..i]) <==> Repeats(table, batch, i)
    ensures FirstRepeat(table, batch, i) == if Repeats(table, batch, i) then i else FirstRepeat(table, batch, i + 1)
    ensures Inserted(table, batch[..i + 1]) == Inserted(table, batch[..i])[batch[i].scope := batch[i]]
  {
    InsertedKeys(table, batch[..i]);
    assert forall j :: 0 <= j < i ==> batch[..i][j] == batch[j];
    assert batch[..i + 1][..i] == batch[..i];
  }

  const REFUSED := DatabaseError("refused")

  /** The number of the last statement that an operation executes when none is refused. A batch begins
      its transaction with statement 0, inserts element i with statement i + 1, and either stops at the
      first repeating element or commits with statement |batch| + 1. */
  function LastStatement(st: PolicyState, op: Op): nat {
    match op
    case ResolveMapping(client, context) => if (client, context) in st.entries then 1 else 0
    case SaveScopeMappings(batch) => FirstRepeat(st.scopeMappings, batch, 0) + 1
    case _ => 0
  }

  /** Some statement that the operation executes is refused. */
  predicate Refuses(st: PolicyState, op: Op, refusals: set<nat>) {
    exists n :: n in refusals && n <= LastStatement(st, op)
  }

  /** Which refusals an operation meets: of its only statement, of the first read or of the second when the
      first found a row, of the begin, of an insert up to the first repeating element, or of the commit. */
  lemma RefusesIff(st: PolicyState, op: Op, refusals: set<nat>)
    ensures Refuses(st, op, refusals) <==>
      match op
      case ResolveMapping(client, context) => 0 in refusals || (1 in refusals && (client, context) in st.entries)
      case SaveScopeMappings(batch) =>
        || 0 in refusals
        || (exists n :: n in refusals && 1 <= n <= |batch| &&
              forall j: nat :: j < n - 1 ==> !Repeats(st.scopeMappings, batch, j))
        || (|batch| + 1 in refusals && Fresh(st.scopeMappings, batch))
      case _ => 0 in refusals
  {
    if op.SaveScopeMappings? {
      var f, n := FirstRepeat(st.scopeMappings, op.batch, 0), |op.batch|;
      if Refuses(st, op, refusals) {
        var k :| k in refusals && k <= f + 1;
        assert k == 0 || k == n + 1 || 1 <= k <= n;
        assert forall j: nat :: j < k - 1 ==> !Repeats(st.scopeMappings, op.batch, j);
      }
    }
  }

  /** The contract's step, on a database that refuses the statements with the given numbers. */
  function StepUnder(st: PolicyState, op: Op, refusals: set<nat>): (PolicyState, Reply) {
    if Refuses(st, op, refusals) then (st, Failed(REFUSED)) else Step(st, op)
  }

  lemma RefusedIffAnswered(st: PolicyState, op: Op, refusals: set<nat>)
    ensures IsDatabaseError(StepUnder(st, op, refusals).1) <==> Refuses(st, op, refusals)
    ensures Step(st, op).1.Failed? ==> Step(st, op).0 == st
    ensures !Refuses(st, op, {})
  {
  }

  /** What the inserts of a batch come to: the first repeating element is a conflict, unless one of the
      inserts up to it is refused. */
  ghost predicate InsertsTo(table: ScopeMappings, batch: seq<ScopeMapping>, refusals: set<nat>,
                            r: Result<ScopeMappings, ResourceError>) {
    var f := FirstRepeat(table, batch, 0);
    if exists n :: n in refusals && 1 <= n <= f + 1 && n <= |batch| then r == Err(REFUSED)
    else if f < |batch| then r == Err(Conflict(batch[f].scope))
    else r == Ok(Inserted(table, batch))
  }

  /** The first `i` inserts went through: the transaction holds those elements and nothing has repeated. */
  ghost predicate Holding(table: ScopeMappings, batch: seq<ScopeMapping>, refusals: set<nat>, i: nat,
                          held: ScopeMappings)
    requires i <= |batch|
  {
    && held == Inserted(table, batch[..i])
    && FirstRepeat(table, batch, 0) == FirstRepeat(table, batch, i)
    && forall n :: n in refusals && 1 <= n ==> i < n
  }

  lemma NextInsert(table: ScopeMappings, batch: seq<ScopeMapping>, refusals: set<nat>, i: nat, held: ScopeMappings)
    requires i < |batch| && Holding(table, batch, refusals, i, held)
    ensures i + 1 in refusals ==> InsertsTo(table, batch, refusals, Err(REFUSED))
    ensures i + 1 !in refusals && batch[i].scope in held ==>
      InsertsTo(table, batch, refusals, Err(Conflict(batch[i].scope)))
    ensures i + 1 !in refusals && batch[i].scope !in held ==>
      Holding(table, batch, refusals, i + 1, held[batch[i].scope := batch[i]])
  {
    CollidesIffRepeats(table, batch, i);
  }

  lemma LastInsert(table: ScopeMappings, batch: seq<ScopeMapping>, refusals: set<nat>, held: ScopeMappings)
    requires Holding(table, batch, refusals, |batch|, held)
    ensures InsertsTo(table, batch, refusals, Ok(held))
  {
    assert batch[..|batch|] == batch;
  }

  /** The inserts of a batch, one after the other; statement i + 1 inserts element i. */
  method InsertEach(rows: set<ScopeMappingRow>, batch: seq<ScopeMapping>, refusals: set<nat>)
    returns (r: Result<set<ScopeMappingRow>, ResourceError>)
    requires ScopeKeysUnique(rows)
    ensures r.Ok? ==> ScopeKeysUnique(r.value)
    ensures InsertsTo(ScopesIn(rows), batch, refusals, if r.Ok? then Ok(ScopesIn(r.value)) else Err(r.error))
  {
    var tx := rows;
    ghost var table, held := ScopesIn(rows), ScopesIn(rows);
    var i := 0;
    while i < |batch|
      invariant 0 <= i <= |batch|
      invariant ScopeKeysUnique(tx) && ScopesIn(tx) == held
      invariant Holding(table, batch, refusals, i, held)
    {
      NextInsert(table, batch, refusals, i, held);
      if i + 1 in refusals { return Err(REFUSED); }
      var inserted := InsertScope(tx, ScopeMappingRow(batch[i].scope, JObject(batch[i].claims)));
      if inserted.None? { return Err(Conflict(batch[i].scope)); }
      tx, held := inserted.value, held[batch[i].scope := batch[i]];
      i := i + 1;
    }
    LastInsert(table, batch, refusals, held);
    return Ok(tx);
  }

  class PostgresResourceStore {
    var resourceRows: set<ResourceMappingRow>
    var scopeRows: set<ScopeMappingRow>

    ghost predicate Valid()
      reads this
    {
      MappingKeysUnique(resourceRows) && ScopeKeysUnique(scopeRows)
    }

    ghost function State(): PolicyState
      requires Valid()
      reads this
    {
      PolicyState(EntriesIn(resourceRows), ScopesIn(scopeRows))
    }

    constructor ()
      ensures Valid() && State() == EMPTY
    {
      resourceRows, scopeRows := {}, {};
    }

    /** The step was taken as the refusals allow; one that is refused leaves every row alone. */
    twostate predicate Steps(op: Op, refusals: set<nat>, reply: Reply)
      requires old(Valid())
      reads this
    {
      && Valid() && (State(), reply) == StepUnder(old(State()), op, refusals)
      && (Refuses(old(State()), op, refusals) ==> resourceRows == old(resourceRows) && scopeRows == old(scopeRows))
    }

    method Save(mapping: ResourceMapping, refusals: set<nat>) returns (reply: Reply)
      requires Valid()
      modifies this
      ensures Steps(SaveMapping(mapping), refusals, reply)
    {
      var scopes := VecOf(mapping.scopes);
      var audiences := VecOf(mapping.audiences);
      if 0 in refusals { return Failed(REFUSED); }
      var inserted := InsertMapping(resourceRows,
        ResourceMappingRow(mapping.clientIdentifier, mapping.participantContext, scopes, audiences));
      if inserted.None? { return Failed(Conflict(mapping.clientIdentifier)); }
      resourceRows := inserted.value;
      return Done;
    }

    method Update(mapping: ResourceMapping, refusals: set<nat>) returns (reply: Reply)
      requires Valid()
      modifies this
      ensures Steps(UpdateMapping(mapping), refusals, reply)
    {
      var scopes := VecOf(mapping.scopes);
      var audiences := VecOf(mapping.audiences);
      if 0 in refusals { return Failed(REFUSED); }
      var rows, affected := UpdateMappings(resourceRows,
        ResourceMappingRow(mapping.clientIdentifier, mapping.participantContext, scopes, audiences));
      resourceRows := rows;
      if affected == 0 { return Failed(NotFound(mapping.clientIdentifier)); }
      return Done;
    }

    method Remove(client: string, context: string, refusals: set<nat>) returns (reply: Reply)
      requires Valid()
      modifies this
      ensures Steps(RemoveMapping(client, context), refusals, reply)
    {
      if 0 in refusals { return Failed(REFUSED); }
      resourceRows := set r | r in resourceRows && !(r.clientIdentifier == client && r.participantContext == context);
      DeleteMappingRows(old(resourceRows), resourceRows, {(client, context)});
      return Done;
    }

    method RemoveFor(client: string, refusals: set<nat>) returns (reply: Reply)
      requires Valid()
      modifies this
      ensures Steps(RemoveMappingsFor(client), refusals, reply)
    {
      if 0 in refusals { return Failed(REFUSED); }
      resourceRows := set r | r in resourceRows && r.clientIdentifier != client;
      DeleteClientRows(old(resourceRows), resourceRows, client);
      return Done;
    }

    /** The batch inside one transaction: statement 0 begins it, the last one commits, and returning
        early drops it. */
    method SaveScopes(batch: seq<ScopeMapping>, refusals: set<nat>) returns (reply: Reply)
      requires Valid()
      modifies this
      ensures Steps(SaveScopeMappings(batch), refusals, reply)
    {
      if 0 in refusals { return Failed(REFUSED); }
      var tx := InsertEach(scopeRows, batch, refusals);
      if tx.Err? { return Failed(tx.error); }
      if |batch| + 1 in refusals { return Failed(REFUSED); }
      scopeRows := tx.value;
      return Done;
    }

    method UpdateScope(mapping: ScopeMapping, refusals: set<nat>) returns (reply: Reply)
      requires Valid()
      modifies this
      ensures Steps(UpdateScopeMapping(mapping), refusals, reply)
    {
      if 0 in refusals { return Failed(REFUSED); }
      var rows, affected := UpdateScopes(scopeRows, ScopeMappingRow(mapping.scope, JObject(mapping.claims)));
      scopeRows := rows;
      if affected == 0 { return Failed(NotFound(mapping.scope)); }
      return Done;
    }

    method RemoveScope(scope: string, refusals: set<nat>) returns (reply: Reply)
      requires Valid()
      modifies this
      ensures Steps(RemoveScopeMapping(scope), refusals, reply)
    {
      if 0 in refusals { return Failed(REFUSED); }
      scopeRows := set r | r in scopeRows && r.scope != scope;
      DeleteScopeRow(old(scopeRows), scopeRows, scope);
      return Done;
    }

    /** The first statement of `resolve_mapping`: at most one row has the key. */
    method SelectMapping(client: string, context: string) returns (found: Option<ResourceMapping>)
      requires Valid()
      ensures found == Lookup(State().entries, (client, context))
    {
      var matching := set r | r in resourceRows && r.Key() == (client, context);
      if matching == {} {
        assert forall r :: r in resourceRows ==> r !in matching;
        return None;
      }
      var row :| row in matching;
      return Some(RowToResourceMapping(row));
    }

    /** The second statement: the rows of the named scopes, keyed by their own scope column. */
    method SelectScopes(mapping: ResourceMapping) returns (found: ScopeMappings)
      requires Valid()
      ensures found == GrantedScopes(mapping, State().scopeMappings)
    {
      var scopes := VecOf(mapping.scopes);
      assert forall s :: s in scopes <==> s in Elems(scopes);
      var rows := set r | r in scopeRows && r.scope in scopes;
      found := map r | r in rows :: r.scope := RowToScopeMapping(r);
      forall s | s in GrantedScopes(mapping, State().scopeMappings) ensures s in found {
        var r :| r in scopeRows && r.scope == s;
        assert r in rows;
      }
    }

    /** `resolve_mapping`, with nothing committed between its two statements. */
    method Resolve(client: string, context: string, refusals: set<nat>) returns (reply: Reply)
      requires Valid()
      ensures reply == StepUnder(State(), ResolveMapping(client, context), refusals).1
    {
      if 0 in refusals { return Failed(REFUSED); }
      var row := SelectMapping(client, context);
      if row.None? { return Resolved(None); }
      if 1 in refusals { return Failed(REFUSED); }
      var scopes := SelectScopes(row.value);
      return Resolved(Some(MappingPair(row.value, scopes)));
    }

    /** Operations that other connections commit, one after the other. */
    method Commit(ops: seq<Op>)
      requires Valid()
      modifies this
      ensures Valid() && State() == Run(old(State()), ops)
    {
      ghost var start := State();
      var i := 0;
      while i < |ops|
        invariant 0 <= i <= |ops|
        invariant Valid() && State() == Run(start, ops[..i])
      {
        RunSnoc(start, ops[..i], ops[i]);
        assert ops[..i] + [ops[i]] == ops[..i + 1];
        var _ := Apply(ops[i], {});
        i := i + 1;
      }
      assert ops[..i] == ops;
    }

    /** `resolve_mapping`, with the writes that other connections commit between its two statements. */
    method ResolveAmid(client: string, context: string, between: seq<Op>, refusals: set<nat>) returns (reply: Reply)
      requires Valid()
      modifies this
      ensures Valid() && State() == Run(old(State()), between)
      ensures reply ==
        if Refuses(old(State()), ResolveMapping(client, context), refusals) then Failed(REFUSED)
        else Resolved(ResolveAcross(old(State()), State(), client, context))
    {
      var row := SelectMapping(client, context);
      Commit(between);
      if 0 in refusals { return Failed(REFUSED); }
      if row.None? { return Resolved(None); }
      if 1 in refusals { return Failed(REFUSED); }
      var scopes := SelectScopes(row.value);
      return Resolved(Some(MappingPair(row.value, scopes)));
    }

    /** One operation of the `ResourceStore` interface, run without interference. */
    method Apply(op: Op, refusals: set<nat>) returns (reply: Reply)
      requires Valid()
      modifies this
      ensures Steps(op, refusals, reply)
    {
      match op
      case ResolveMapping(client, context) => reply := Resolve(client, context, refusals);
      case SaveMapping(mapping) => reply := Save(mapping, refusals);
      case UpdateMapping(mapping) => reply := Update(mapping, refusals);
      case RemoveMapping(client, context) => reply := Remove(client, context, refusals);
      case RemoveMappingsFor(client) => reply := RemoveFor(client, refusals);
      case SaveScopeMappings(batch) => reply := SaveScopes(batch, refusals);
      case UpdateScopeMapping(mapping) => reply := UpdateScope(mapping, refusals);
      case RemoveScopeMapping(scope) => reply := RemoveScope(scope, refusals);
      case ListMappings =>
        if 0 in refusals { return Failed(REFUSED); }
        ListedMappings(resourceRows);
        reply := Mappings(set r | r in resourceRows :: RowToResourceMapping(r));
      case ListScopeMappings =>
        if 0 in refusals { return Failed(REFUSED); }
        ListedScopes(scopeRows);
        reply := Scopes(set r | r in scopeRows :: RowToScopeMapping(r));
    }
  }

  lemma ListedMappings(rows: set<ResourceMappingRow>)
    requires MappingKeysUnique(rows)
    ensures (set r | r in rows :: RowToResourceMapping(r)) == EntriesIn(rows).Values
  {
    var listed := set r | r in rows :: RowToResourceMapping(r);
    forall r | r in rows ensures RowToResourceMapping(r) in EntriesIn(rows).Values {
      assert r.Key() in EntriesIn(rows);
    }
    forall k | k in EntriesIn(rows) ensures EntriesIn(rows)[k] in listed {
      var r :| r in rows && r.Key() == k;
    }
  }

  lemma ListedScopes(rows: set<ScopeMappingRow>)
    requires ScopeKeysUnique(rows)
    ensures (set r | r in rows :: RowToScopeMapping(r)) == ScopesIn(rows).Values
  {
    var listed := set r | r in rows :: RowToScopeMapping(r);
    forall r | r in rows ensures RowToScopeMapping(r) in ScopesIn(rows).Values {
      assert r.scope in ScopesIn(rows);
    }
    forall s | s in ScopesIn(rows) ensures ScopesIn(rows)[s] in listed {
      var r :| r in rows && r.scope == s;
    }
  }
}
