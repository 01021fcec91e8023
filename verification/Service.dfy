/** `ResourceService`: validation in front of the store, and what it keeps true of every reachable policy. */
module Service {
  import opened Text
  import opened Policy
  import opened ClaimMerge
  import opened Store
  import opened PostgresStore
  import opened Backend

  // ---------------------------------------------------------------- validation

  predicate ValidMapping(m: ResourceMapping) {
    && !IsBlank(m.clientIdentifier)
    && !IsBlank(m.participantContext)
    && (forall s :: s in m.scopes ==> IsToken(s))
    && (forall a :: a in m.audiences ==> !IsBlank(a))
  }

  predicate ValidScopeMapping(m: ScopeMapping) {
    IsToken(m.scope) && forall k :: k in m.claims ==> !IsReservedClaim(k)
  }

  /** The error names the first check that fails; which of several bad scopes it names is open. */
  ghost predicate ExplainsMapping(e: ResourceError, m: ResourceMapping) {
    e.InvalidMapping? &&
    if IsBlank(m.clientIdentifier) then e.reason == EmptyClient
    else if IsBlank(m.participantContext) then e.reason == EmptyContext
    else if exists s :: s in m.scopes && !IsToken(s)
      then e.reason.BadScopeName? && e.reason.scope in m.scopes && !IsToken(e.reason.scope)
    else e.reason == EmptyAudience
  }

  ghost predicate ExplainsScopeMapping(e: ResourceError, m: ScopeMapping) {
    if !IsToken(m.scope) then e == InvalidMapping(BadScopeName(m.scope))
    else e.ReservedClaim? && e.key in m.claims && IsReservedClaim(e.key)
  }

  method ValidateResourceMapping(m: ResourceMapping) returns (fault: Option<ResourceError>)
    ensures fault.None? <==> ValidMapping(m)
    ensures fault.Some? ==> ExplainsMapping(fault.value, m)
  {
    TrimEmptyIffBlank(m.clientIdentifier);
    TrimEmptyIffBlank(m.participantContext);
    if Trim(m.clientIdentifier) == "" { return Some(InvalidMapping(EmptyClient)); }
    if Trim(m.participantContext) == "" { return Some(InvalidMapping(EmptyContext)); }
    var todo := m.scopes;
    while todo != {}
      invariant todo <= m.scopes
      invariant forall s :: s in m.scopes - todo ==> IsToken(s)
      decreases |todo|
    {
      var s :| s in todo;
      if !IsToken(s) { return Some(InvalidMapping(BadScopeName(s))); }
      todo := todo - {s};
    }
    forall a | a in m.audiences ensures Trim(a) == "" <==> IsBlank(a) { TrimEmptyIffBlank(a); }
    if exists a :: a in m.audiences && Trim(a) == "" { return Some(InvalidMapping(EmptyAudience)); }
    return None;
  }

  method ValidateScopeMapping(m: ScopeMapping) returns (fault: Option<ResourceError>)
    ensures fault.None? <==> ValidScopeMapping(m)
    ensures fault.Some? ==> ExplainsScopeMapping(fault.value, m)
  {
    if !IsToken(m.scope) { return Some(InvalidMapping(BadScopeName(m.scope))); }
    var todo := m.claims.Keys;
    while todo != {}
      invariant todo <= m.claims.Keys
      invariant forall k :: k in m.claims.Keys - todo ==> !IsReservedClaim(k)
      decreases |todo|
    {
      var k :| k in todo;
      if IsReservedClaim(k) { return Some(ReservedClaim(k)); }
      todo := todo - {k};
    }
    return None;
  }

  /** A mapping is valid exactly when no identifier or audience trims to nothing and a request for any of
      its scope names asks for just that name. */
  lemma ValidMappingIff(m: ResourceMapping)
    ensures ValidMapping(m) <==>
      && Trim(m.clientIdentifier) != "" && Trim(m.participantContext) != ""
      && (forall s :: s in m.scopes ==> SplitWhitespace(s) == [s])
      && (forall a :: a in m.audiences ==> Trim(a) != "")
  {
    TrimEmptyIffBlank(m.clientIdentifier);
    TrimEmptyIffBlank(m.participantContext);
    forall a | a in m.audiences ensures Trim(a) == "" <==> IsBlank(a) { TrimEmptyIffBlank(a); }
    forall s | s in m.scopes ensures IsToken(s) <==> SplitWhitespace(s) == [s] { SplitsToItself(s); }
  }

  lemma ValidScopeMappingIff(m: ScopeMapping)
    ensures ValidScopeMapping(m) <==>
      && SplitWhitespace(m.scope) == [m.scope]
      && (forall k :: k in m.claims ==> k !in {"sub", "iss", "aud", "exp", "iat", "nbf", "act", "jti"})
  {
    SplitsToItself(m.scope);
  }

  lemma SplitsToItself(s: string)
    ensures IsToken(s) <==> SplitWhitespace(s) == [s]
  {
    assert s in [s];
    if IsToken(s) { SplitToken(s); }
  }

  /** A refusal tells the first check that fails, in the order client, context, scopes, audiences. */
  lemma RefusalIsFirstFault(m: ResourceMapping, e: ResourceError)
    requires !ValidMapping(m) && ExplainsMapping(e, m)
    ensures Trim(m.clientIdentifier) == "" <==> e == InvalidMapping(EmptyClient)
    ensures Trim(m.clientIdentifier) != "" && Trim(m.participantContext) == "" <==> e == InvalidMapping(EmptyContext)
    ensures e.InvalidMapping? && e.reason.BadScopeName? ==>
      e.reason.scope in m.scopes && SplitWhitespace(e.reason.scope) != [e.reason.scope]
    ensures e == InvalidMapping(EmptyAudience) ==>
      && (forall s :: s in m.scopes ==> SplitWhitespace(s) == [s])
      && (exists a :: a in m.audiences && Trim(a) == "")
  {
    ValidMappingIff(m);
    TrimEmptyIffBlank(m.clientIdentifier);
    TrimEmptyIffBlank(m.participantContext);
    forall s | s in m.scopes ensures IsToken(s) <==> SplitWhitespace(s) == [s] { SplitsToItself(s); }
  }

  /** For a scope mapping the name comes first, then a reserved key that it really has. */
  lemma ScopeRefusalIsFirstFault(m: ScopeMapping, e: ResourceError)
    requires !ValidScopeMapping(m) && ExplainsScopeMapping(e, m)
    ensures SplitWhitespace(m.scope) != [m.scope] <==> e == InvalidMapping(BadScopeName(m.scope))
    ensures SplitWhitespace(m.scope) == [m.scope] ==>
      e.ReservedClaim? && e.key in m.claims && e.key in {"sub", "iss", "aud", "exp", "iat", "nbf", "act", "jti"}
  {
    SplitsToItself(m.scope);
  }

  /** The names that validation accepts are exactly those that some scope parameter can ask for. */
  lemma ValidNamesAreRequestable(name: string)
    ensures IsToken(name) <==> exists request :: name in SplitWhitespace(request)
  {
    if IsToken(name) {
      SplitToken(name);
      assert name in SplitWhitespace(name);
    }
  }

  // ---------------------------------------------------------------- the service

  predicate Admits(op: Op) {
    match op
    case SaveMapping(m) => ValidMapping(m)
    case UpdateMapping(m) => ValidMapping(m)
    case SaveScopeMappings(batch) => forall m :: m in batch ==> ValidScopeMapping(m)
    case UpdateScopeMapping(m) => ValidScopeMapping(m)
    case _ => true
  }

  ghost predicate ExplainsRefusal(e: ResourceError, op: Op)
    requires !Admits(op)
  {
    match op
    case SaveMapping(m) => ExplainsMapping(e, m)
    case UpdateMapping(m) => ExplainsMapping(e, m)
    case SaveScopeMappings(batch) =>
      exists i :: 0 <= i < |batch| && !ValidScopeMapping(batch[i]) && ExplainsScopeMapping(e, batch[i]) &&
        forall j :: 0 <= j < i ==> ValidScopeMapping(batch[j])
    case UpdateScopeMapping(m) => ExplainsScopeMapping(e, m)
    case _ => false
  }

  /** The policy after one call of the service whose statements the database may refuse. */
  function Serve(st: PolicyState, op: Op, refusals: set<nat>): PolicyState {
    if Admits(op) then StepUnder(st, op, refusals).0 else st
  }

  class ResourceService {
    const store: ResourceStore

    constructor (store: ResourceStore)
      ensures this.store == store
    {
      this.store := store;
    }

    method ValidateBatch(batch: seq<ScopeMapping>) returns (fault: Option<ResourceError>)
      ensures fault.None? <==> Admits(SaveScopeMappings(batch))
      ensures fault.Some? ==> ExplainsRefusal(fault.value, SaveScopeMappings(batch))
    {
      var i := 0;
      while i < |batch|
        invariant 0 <= i <= |batch|
        invariant forall j :: 0 <= j < i ==> ValidScopeMapping(batch[j])
      {
        fault := ValidateScopeMapping(batch[i]);
        if fault.Some? { return; }
        i := i + 1;
      }
      return None;
    }

    /** One call of the service: what validation refuses never reaches the store. */
    method Apply(op: Op, refusals: set<nat>) returns (reply: Reply)
      requires store.Valid()
      modifies store.Repr()
      ensures store.Valid() && store.State() == Serve(old(store.State()), op, store.Faced(refusals))
      ensures Admits(op) ==> reply == StepUnder(old(store.State()), op, store.Faced(refusals)).1
      ensures !Admits(op) ==> reply.Failed? && ExplainsRefusal(reply.error, op)
    {
      var fault: Option<ResourceError> := None;
      match op {
        case SaveMapping(m) => fault := ValidateResourceMapping(m);
        case UpdateMapping(m) => fault := ValidateResourceMapping(m);
        case SaveScopeMappings(batch) => fault := ValidateBatch(batch);
        case UpdateScopeMapping(m) => fault := ValidateScopeMapping(m);
        case _ =>
      }
      if fault.Some? { return Failed(fault.value); }
      reply := store.Apply(op, refusals);
    }

    /** `verify` against the store as it is now; a refused read is an error, a clash names its key. */
    method VerifyScopes(client: string, context: string, scopes: seq<string>, refusals: set<nat>)
      returns (r: Result<VerificationResult, ResourceError>)
      requires store.Valid()
      ensures var pair := Resolve(store.State(), client, context);
        if Refuses(store.State(), ResolveMapping(client, context), store.Faced(refusals)) then r == Err(REFUSED)
        else
          match VerdictFor(pair, scopes)
          case Refused => r == Ok(VerificationResult(false, map[], {}))
          case Granted(claims, audiences) => r == Ok(VerificationResult(true, claims, audiences))
          case Conflicting => r.Err? && NamesClash(r.error, BTreeSetOf(scopes), pair.value.scopeMappings)
    {
      var reply := store.Resolve(client, context, refusals);
      r := Verify(if reply.Failed? then Err(reply.error) else Ok(reply.pair), scopes);
    }
  }

  // ---------------------------------------------------------------- reachable policies

  /** What every policy written through the service satisfies. */
  ghost predicate WellKept(st: PolicyState) {
    && (forall k :: k in st.entries ==> st.entries[k].Key() == k && ValidMapping(st.entries[k]))
    && (forall s :: s in st.scopeMappings ==>
          st.scopeMappings[s].scope == s && ValidScopeMapping(st.scopeMappings[s]))
  }

  lemma {:induction false} InsertedWellKept(table: ScopeMappings, batch: seq<ScopeMapping>)
    requires forall s :: s in table ==> table[s].scope == s && ValidScopeMapping(table[s])
    requires forall m :: m in batch ==> ValidScopeMapping(m)
    ensures forall s :: s in Inserted(table, batch) ==>
      Inserted(table, batch)[s].scope == s && ValidScopeMapping(Inserted(table, batch)[s])
  {
    if batch != [] { InsertedWellKept(table, batch[..|batch| - 1]); }
  }

  lemma ServeKeeps(st: PolicyState, op: Op, refusals: set<nat>)
    requires WellKept(st)
    ensures WellKept(Serve(st, op, refusals))
  {
    if op.SaveScopeMappings? && Admits(op) { InsertedWellKept(st.scopeMappings, op.batch); }
  }

  /** A run through the service, each operation with the statements refused to it. */
  function ServeAll(st: PolicyState, run: seq<(Op, set<nat>)>): PolicyState {
    if run == [] then st
    else
      var last := run[|run| - 1];
      Serve(ServeAll(st, run[..|run| - 1]), last.0, last.1)
  }

  /** Every policy reachable through the service is well kept. */
  lemma {:induction false} ReachableIsWellKept(run: seq<(Op, set<nat>)>)
    ensures WellKept(ServeAll(EMPTY, run))
  {
    if run != [] {
      var last := run[|run| - 1];
      ReachableIsWellKept(run[..|run| - 1]);
      ServeKeeps(ServeAll(EMPTY, run[..|run| - 1]), last.0, last.1);
    }
  }

  /** In a well-kept policy the filter at issuance has nothing to drop, whatever is requested and even
      when mapping and scope mappings were read at different moments. */
  lemma NothingToDrop(first: PolicyState, second: PolicyState, client: string, context: string, scopes: seq<string>)
    requires WellKept(second)
    ensures var verdict := VerdictFor(ResolveAcross(first, second, client, context), scopes);
      verdict.Granted? ==> DropReserved(verdict.claims) == verdict.claims
  {
  }
}
