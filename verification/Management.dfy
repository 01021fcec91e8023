/** The management API: role gates, mutation handlers and the audit events they emit. */
module Management {
  import opened Policy
  import opened ClaimMerge
  import opened Store
  import opened PostgresStore
  import opened Service

  const ROLE_MANAGEMENT_READ := "jwtlet:management:read"
  const ROLE_MAPPINGS_WRITE := "jwtlet:management:mappings:write"
  const ROLE_SCOPES_WRITE := "jwtlet:management:scope:write"

  // ---------------------------------------------------------------- service accounts

  datatype ServiceAccount = ServiceAccount(clientId: string, roles: set<string>)

  type Accounts = map<string, set<string>>

  /** `from_accounts`: collecting into a map, so a later listing of a client replaces an earlier one. */
  function FromAccounts(accounts: seq<ServiceAccount>): Accounts {
    if accounts == [] then map[]
    else
      var last := accounts[|accounts| - 1];
      FromAccounts(accounts[..|accounts| - 1])[last.clientId := last.roles]
  }

  predicate Authorize(accounts: Accounts, client: string, required: set<string>) {
    client in accounts && required <= accounts[client]
  }

  /** A client is authorised exactly by the last account listed for it, at index `last` (-1 for none). */
  lemma {:induction false} LastAccountDecides(accounts: seq<ServiceAccount>, client: string, required: set<string>,
                                              last: int)
    requires -1 <= last < |accounts|
    requires last >= 0 ==> accounts[last].clientId == client
    requires forall j :: last < j < |accounts| ==> accounts[j].clientId != client
    ensures Authorize(FromAccounts(accounts), client, required) <==> last >= 0 && required <= accounts[last].roles
  {
    if last < |accounts| - 1 { LastAccountDecides(accounts[..|accounts| - 1], client, required, last); }
  }

  // ---------------------------------------------------------------- requests

  datatype OneOrMany<T> = One(item: T) | Many(items: seq<T>)

  function IntoVec<T>(payload: OneOrMany<T>): seq<T> {
    match payload
    case One(item) => [item]
    case Many(items) => items
  }

  datatype Request =
    | GetMappings
    | GetScopes
    | PostMapping(mapping: ResourceMapping)
    | PutMapping(client: string, context: string, mapping: ResourceMapping)
    | DeleteMapping(client: string, context: string)
    | DeleteClientMappings(client: string)
    | PostScopes(payload: OneOrMany<ScopeMapping>)
    | PutScope(scope: string, scopeMapping: ScopeMapping)
    | DeleteScope(scope: string)

  /** A request with its Authorization header, if any, the moment at which it is handled, and the
      statements that the database refuses while it is. */
  datatype Call = Call(authorization: Option<string>, request: Request, at: nat, refusals: set<nat>)

  datatype Response = Unauthenticated | Forbidden | PathMismatch | Answered(reply: Reply)

  /** The route table: which role guards which request. */
  function RequiredRole(request: Request): string {
    match request
    case GetMappings => ROLE_MANAGEMENT_READ
    case GetScopes => ROLE_MANAGEMENT_READ
    case PostMapping(_) => ROLE_MAPPINGS_WRITE
    case PutMapping(_, _, _) => ROLE_MAPPINGS_WRITE
    case DeleteMapping(_, _) => ROLE_MAPPINGS_WRITE
    case DeleteClientMappings(_) => ROLE_MAPPINGS_WRITE
    case PostScopes(_) => ROLE_SCOPES_WRITE
    case PutScope(_, _) => ROLE_SCOPES_WRITE
    case DeleteScope(_) => ROLE_SCOPES_WRITE
  }

  predicate PathMatches(request: Request) {
    match request
    case PutMapping(client, context, m) => client == m.clientIdentifier && context == m.participantContext
    case PutScope(scope, m) => scope == m.scope
    case _ => true
  }

  function OpFor(request: Request): Op {
    match request
    case GetMappings => ListMappings
    case GetScopes => ListScopeMappings
    case PostMapping(m) => SaveMapping(m)
    case PutMapping(_, _, m) => UpdateMapping(m)
    case DeleteMapping(client, context) => RemoveMapping(client, context)
    case DeleteClientMappings(client) => RemoveMappingsFor(client)
    case PostScopes(payload) => SaveScopeMappings(IntoVec(payload))
    case PutScope(_, m) => UpdateScopeMapping(m)
    case DeleteScope(scope) => RemoveScopeMapping(scope)
  }

  // ---------------------------------------------------------------- the gate

  function LowerAscii(c: char): char {
    if 'A' <= c <= 'Z' then c - 'A' + 'a' else c
  }

  function LowerAll(s: string): string {
    seq(|s|, i requires 0 <= i < |s| => LowerAscii(s[i]))
  }

  /** The scheme is matched without regard to case and cut off; the token keeps its own case. */
  function ExtractBearerToken(authorization: Option<string>): (token: Option<string>)
    ensures token.Some? <==>
      authorization.Some? && |authorization.value| >= 7 && LowerAll(authorization.value[..7]) == "bearer "
    ensures token.Some? ==> authorization.value[..7] + token.value == authorization.value
  {
    assert authorization.Some? && |authorization.value| >= 7 ==>
        LowerAll(authorization.value[..7]) == LowerAll(authorization.value)[..7];
    if authorization.Some? && "bearer " <= LowerAll(authorization.value) then Some(authorization.value[7..]) else None
  }

  /** The token verifier, whose answers may change from moment to moment, and the configured accounts. */
  datatype Gate = Gate(
    verify: (nat, string, string) -> Result<TokenClaims, string>,
    clientAudience: string,
    accounts: Accounts)

  /** Which headers carry a token: the scheme in capital or small letters and one space in front of it. */
  lemma BearerHeader(authorization: Option<string>)
    ensures ExtractBearerToken(authorization).Some? <==>
      && authorization.Some?
      && var h := authorization.value;
      |h| >= 7 && h[6] == ' ' && forall i :: 0 <= i < 6 ==> h[i] == "bearer"[i] || h[i] == "BEARER"[i]
    ensures ExtractBearerToken(authorization).Some? ==>
      ExtractBearerToken(authorization).value == authorization.value[7..]
  {
    if authorization.Some? && |authorization.value| >= 7 {
      var h := authorization.value;
      var scheme := LowerAll(h[..7]);
      assert scheme == "bearer " <==> forall i :: 0 <= i < 7 ==> scheme[i] == "bearer "[i];
      forall i | 0 <= i < 7 ensures scheme[i] == "bearer "[i] <==>
          if i == 6 then h[i] == ' ' else h[i] == "bearer"[i] || h[i] == "BEARER"[i] {
        assert scheme[i] == LowerAscii(h[i]);
        LowerLetter(h[i], i);
      }
    }
  }

  lemma LowerLetter(c: char, i: nat)
    requires i < 7
    ensures LowerAscii(c) == "bearer "[i] <==> if i == 6 then c == ' ' else c == "bearer"[i] || c == "BEARER"[i]
  {
  }

  /** The verified identity behind a call, before roles are looked at. */
  function Identity(gate: Gate, call: Call): Option<string> {
    var token := ExtractBearerToken(call.authorization);
    if token.None? then None
    else
      var claims := gate.verify(call.at, gate.clientAudience, token.value);
      if claims.Err? then None else Some(claims.value.sub)
  }

  /** The actor on whose behalf a call may run: verified, and holding the role of the route. */
  function Actor(gate: Gate, call: Call): Option<string> {
    var identity := Identity(gate, call);
    if identity.Some? && Authorize(gate.accounts, identity.value, {RequiredRole(call.request)}) then identity else None
  }

  /** The verifier accepts the header's token as that of `who`. */
  ghost predicate VerifiedAs(gate: Gate, call: Call, who: string) {
    && call.authorization.Some? && |call.authorization.value| >= 7
    && var claims := gate.verify(call.at, gate.clientAudience, call.authorization.value[7..]);
    claims.Ok? && claims.value.sub == who
  }

  /** An identity is the subject of the token that the header carries after the scheme, accepted by the
      verifier for the management audience at the moment of the call; nothing else gives one. */
  lemma IdentityIff(gate: Gate, call: Call, who: string)
    ensures Identity(gate, call) == Some(who) <==>
      && call.authorization.Some?
      && var h := call.authorization.value;
      && |h| >= 7 && h[6] == ' ' && (forall i :: 0 <= i < 6 ==> h[i] == "bearer"[i] || h[i] == "BEARER"[i])
      && var claims := gate.verify(call.at, gate.clientAudience, h[7..]);
      claims.Ok? && claims.value.sub == who
    ensures Identity(gate, call) == Some(who) ==> VerifiedAs(gate, call, who)
  {
    BearerHeader(call.authorization);
  }

  /** And an actor is such an identity whose account lists the role of the route. */
  lemma ActorIff(gate: Gate, call: Call, who: string)
    ensures Actor(gate, call) == Some(who) <==>
      && Identity(gate, call) == Some(who) && who in gate.accounts
      && (match call.request
          case GetMappings => "jwtlet:management:read"
          case GetScopes => "jwtlet:management:read"
          case PostScopes(_) => "jwtlet:management:scope:write"
          case PutScope(_, _) => "jwtlet:management:scope:write"
          case DeleteScope(_) => "jwtlet:management:scope:write"
          case _ => "jwtlet:management:mappings:write") in gate.accounts[who]
  {
  }

  // ---------------------------------------------------------------- audit events

  datatype AuditEvent =
    | MappingCreated(actor: string, client: string, context: string)
    | MappingUpdated(actor: string, client: string, context: string)
    | MappingDeleted(actor: string, client: string, context: string)
    | ClientMappingsDeleted(actor: string, client: string)
    | ScopeCreated(actor: string, scope: string)
    | ScopeUpdated(actor: string, scope: string)
    | ScopeDeleted(actor: string, scope: string)

  function CreatedEvents(actor: string, batch: seq<ScopeMapping>): seq<AuditEvent> {
    seq(|batch|, i requires 0 <= i < |batch| => ScopeCreated(actor, batch[i].scope))
  }

  function EventsFor(actor: string, request: Request): seq<AuditEvent> {
    match request
    case GetMappings => []
    case GetScopes => []
    case PostMapping(m) => [MappingCreated(actor, m.clientIdentifier, m.participantContext)]
    case PutMapping(_, _, m) => [MappingUpdated(actor, m.clientIdentifier, m.participantContext)]
    case DeleteMapping(client, context) => [MappingDeleted(actor, client, context)]
    case DeleteClientMappings(client) => [ClientMappingsDeleted(actor, client)]
    case PostScopes(payload) => CreatedEvents(actor, IntoVec(payload))
    case PutScope(_, m) => [ScopeUpdated(actor, m.scope)]
    case DeleteScope(scope) => [ScopeDeleted(actor, scope)]
  }

  /** A call takes effect when its caller may act, its path fits its body, validation admits the
      operation and the store does not refuse it. */
  predicate Succeeds(gate: Gate, st: PolicyState, call: Call) {
    var op := OpFor(call.request);
    Actor(gate, call).Some? && PathMatches(call.request) && Admits(op) && !StepUnder(st, op, call.refusals).1.Failed?
  }

  function Effect(gate: Gate, st: PolicyState, call: Call): (PolicyState, seq<AuditEvent>) {
    if Succeeds(gate, st, call)
    then (Step(st, OpFor(call.request)).0, EventsFor(Actor(gate, call).value, call.request))
    else (st, [])
  }

  // ---------------------------------------------------------------- the handlers

  /** The response to a call that does not get as far as the service, and its lack of effect. */
  lemma TurnedAway(gate: Gate, st: PolicyState, call: Call)
    ensures Identity(gate, call).None? ==> Responds(gate, st, call, Unauthenticated)
    ensures Identity(gate, call).Some? && Actor(gate, call).None? ==> Responds(gate, st, call, Forbidden)
    ensures Actor(gate, call).Some? && !PathMatches(call.request) ==> Responds(gate, st, call, PathMismatch)
    ensures Actor(gate, call).None? || !PathMatches(call.request) ==> Effect(gate, st, call) == (st, [])
  {
  }

  /** The response to a call that the service answers with `reply` and the policy `after`. */
  lemma LetThrough(gate: Gate, st: PolicyState, call: Call, reply: Reply, after: PolicyState)
    requires Actor(gate, call).Some? && PathMatches(call.request)
    requires var op := OpFor(call.request);
      && after == Serve(st, op, call.refusals)
      && (Admits(op) ==> reply == StepUnder(st, op, call.refusals).1)
      && (!Admits(op) ==> reply.Failed? && ExplainsRefusal(reply.error, op))
    ensures Responds(gate, st, call, Answered(reply))
    ensures Effect(gate, st, call)
         == (after, if reply.Failed? then [] else EventsFor(Actor(gate, call).value, call.request))
  {
    RefusedIffAnswered(st, OpFor(call.request), call.refusals);
  }

  /** Which answer a call gets: turned away by the gate or for its path, or the store's reply, which is a
      failure exactly when the call does not take effect; listings need the read role. */
  ghost predicate Responds(gate: Gate, st: PolicyState, call: Call, response: Response) {
    && (response == Unauthenticated <==> Identity(gate, call).None?)
    && (response == Forbidden <==> Identity(gate, call).Some? && Actor(gate, call).None?)
    && (response == PathMismatch <==> Actor(gate, call).Some? && !PathMatches(call.request))
    && (response.Answered? && (call.request.GetMappings? || call.request.GetScopes?) ==>
         ActsWith(gate, call, Identity(gate, call).value, ROLE_MANAGEMENT_READ))
    && (response.Answered? ==>
         && (response.reply.Failed? <==> !Succeeds(gate, st, call))
         && (!Admits(OpFor(call.request)) ==> ExplainsRefusal(response.reply.error, OpFor(call.request)))
         && (Admits(OpFor(call.request)) ==> response.reply == StepUnder(st, OpFor(call.request), call.refusals).1))
  }

  class ManagementApi {
    const service: ResourceService
    const gate: Gate
    var audit: seq<AuditEvent>

    constructor (service: ResourceService, gate: Gate)
      ensures this.service == service && this.gate == gate && audit == []
    {
      this.service, this.gate := service, gate;
      audit := [];
    }

    /** Appends the success events of a request; a batch logs one event per element, in order. */
    method Log(actor: string, request: Request)
      modifies this
      ensures audit == old(audit) + EventsFor(actor, request)
    {
      if request.PostScopes? {
        var mappings := IntoVec(request.payload);
        var i := 0;
        while i < |mappings|
          invariant 0 <= i <= |mappings|
          invariant audit == old(audit) + CreatedEvents(actor, mappings)[..i]
        {
          audit := audit + [ScopeCreated(actor, mappings[i].scope)];
          i := i + 1;
        }
      } else {
        audit := audit + EventsFor(actor, request);
      }
    }

    /** The call as this server's store will meet it. */
    function Met(call: Call): Call {
      call.(refusals := service.store.Faced(call.refusals))
    }

    /** The middleware in front of every route. */
    method AuthorizeWithRole(call: Call) returns (r: Result<string, Response>)
      ensures r.Ok? <==> Actor(gate, call).Some?
      ensures r.Ok? ==> r.value == Actor(gate, call).value
      ensures r.Err? ==> r.error == if Identity(gate, call).None? then Unauthenticated else Forbidden
      ensures r.Ok? ==> VerifiedAs(gate, call, r.value)
    {
      BearerHeader(call.authorization);
      var token := ExtractBearerToken(call.authorization);
      if token.None? { return Err(Unauthenticated); }
      var claims := gate.verify(call.at, gate.clientAudience, token.value);
      if claims.Err? { return Err(Unauthenticated); }
      if !Authorize(gate.accounts, claims.value.sub, {RequiredRole(call.request)}) { return Err(Forbidden); }
      return Ok(claims.value.sub);
    }

    /** One call, from the Authorization header to the audit log. */
    method Handle(call: Call) returns (response: Response)
      requires service.store.Valid() && this !in service.store.Repr()
      modifies this, service.store.Repr()
      ensures service.store.Valid()
      ensures service.store.State() == Effect(gate, old(service.store.State()), Met(call)).0
      ensures audit == old(audit) + Effect(gate, old(service.store.State()), Met(call)).1
      ensures Responds(gate, old(service.store.State()), Met(call), response)
    {
      ghost var st := service.store.State();
      assert Identity(gate, Met(call)) == Identity(gate, call) && Actor(gate, Met(call)) == Actor(gate, call);
      TurnedAway(gate, st, Met(call));
      var actor := AuthorizeWithRole(call);
      if actor.Err? { return actor.error; }
      if !PathMatches(call.request) { return PathMismatch; }
      var reply := service.Apply(OpFor(call.request), call.refusals);
      LetThrough(gate, st, Met(call), reply, service.store.State());
      if !reply.Failed? { Log(actor.value, call.request); }
      return Answered(reply);
    }

    /** The calls `past` have been handled since the policy was `st` and the log `log`. */
    ghost predicate Handled(st: PolicyState, log: seq<AuditEvent>, past: seq<Call>)
      requires service.store.Valid()
      reads this, service.store.Repr()
    {
      service.store.State() == Trace(gate, st, past).0 && audit == log + Trace(gate, st, past).1
    }

    method HandleNext(call: Call, ghost st: PolicyState, ghost log: seq<AuditEvent>, ghost past: seq<Call>)
      requires service.store.Valid() && this !in service.store.Repr() && Handled(st, log, past)
      modifies this, service.store.Repr()
      ensures service.store.Valid() && Handled(st, log, past + [Met(call)])
    {
      ghost var before, sofar := service.store.State(), audit;
      var _ := Handle(call);
      TraceOn(gate, st, log, past, Met(call), before, sofar, service.store.State(), audit);
    }

    /** A list of calls, handled one after the other. */
    method HandleAll(calls: seq<Call>)
      requires service.store.Valid() && this !in service.store.Repr()
      modifies this, service.store.Repr()
      ensures service.store.Valid()
      ensures var (st, log) := Trace(gate, old(service.store.State()), AllMet(calls));
        service.store.State() == st && audit == old(audit) + log
    {
      ghost var st, log, met := service.store.State(), audit, AllMet(calls);
      var i := 0;
      while i < |calls|
        invariant 0 <= i <= |calls|
        invariant service.store.Valid() && Handled(st, log, met[..i])
      {
        assert met[..i + 1] == met[..i] + [met[i]];
        HandleNext(calls[i], st, log, met[..i]);
        i := i + 1;
      }
      assert met[..i] == met;
    }

    function AllMet(calls: seq<Call>): seq<Call> {
      seq(|calls|, i requires 0 <= i < |calls| => Met(calls[i]))
    }
  }

  // ---------------------------------------------------------------- laws over runs

  /** The policy after a run from `st`, and what the run logs. */
  function Trace(gate: Gate, st: PolicyState, calls: seq<Call>): (PolicyState, seq<AuditEvent>) {
    if calls == [] then (st, [])
    else
      var (before, log) := Trace(gate, st, calls[..|calls| - 1]);
      var (after, events) := Effect(gate, before, calls[|calls| - 1]);
      (after, log + events)
  }

  lemma TraceSnoc(gate: Gate, st: PolicyState, past: seq<Call>, call: Call)
    ensures Trace(gate, st, past + [call]).0 == Effect(gate, Trace(gate, st, past).0, call).0
    ensures Trace(gate, st, past + [call]).1 == Trace(gate, st, past).1 + Effect(gate, Trace(gate, st, past).0, call).1
  {
    assert (past + [call])[..|past|] == past;
  }

  /** One more call, for a log that began as `log`. */
  lemma TraceOn(gate: Gate, st: PolicyState, log: seq<AuditEvent>, past: seq<Call>, call: Call,
                before: PolicyState, sofar: seq<AuditEvent>, after: PolicyState, told: seq<AuditEvent>)
    requires before == Trace(gate, st, past).0 && sofar == log + Trace(gate, st, past).1
    requires after == Effect(gate, before, call).0 && told == sofar + Effect(gate, before, call).1
    ensures after == Trace(gate, st, past + [call]).0 && told == log + Trace(gate, st, past + [call]).1
  {
    TraceSnoc(gate, st, past, call);
  }

  /** The key sets that a reader of the log alone believes in. */
  datatype Keys = Keys(mappings: set<EntryKey>, scopes: set<string>)

  function Believe(keys: Keys, e: AuditEvent): Keys {
    match e
    case MappingCreated(_, client, context) => keys.(mappings := keys.mappings + {(client, context)})
    case MappingUpdated(_, _, _) => keys
    case MappingDeleted(_, client, context) => keys.(mappings := keys.mappings - {(client, context)})
    case ClientMappingsDeleted(_, client) => keys.(mappings := set k | k in keys.mappings && k.0 != client)
    case ScopeCreated(_, scope) => keys.(scopes := keys.scopes + {scope})
    case ScopeUpdated(_, _) => keys
    case ScopeDeleted(_, scope) => keys.(scopes := keys.scopes - {scope})
  }

  function Replay(keys: Keys, log: seq<AuditEvent>): Keys {
    if log == [] then keys else Believe(Replay(keys, log[..|log| - 1]), log[|log| - 1])
  }

  function KeysOf(st: PolicyState): Keys {
    Keys(st.entries.Keys, st.scopeMappings.Keys)
  }

  lemma {:induction false} ReplayAppend(keys: Keys, a: seq<AuditEvent>, b: seq<AuditEvent>)
    ensures Replay(keys, a + b) == Replay(Replay(keys, a), b)
  {
    if b == [] {
      assert a + b == a;
    } else {
      assert (a + b)[..|a + b| - 1] == a + b[..|b| - 1];
      ReplayAppend(keys, a, b[..|b| - 1]);
    }
  }

  lemma {:induction false} ReplayCreated(keys: Keys, actor: string, batch: seq<ScopeMapping>)
    ensures Replay(keys, CreatedEvents(actor, batch))
         == Keys(keys.mappings, keys.scopes + ScopeNames(batch))
  {
    if batch != [] {
      var init, last := batch[..|batch| - 1], batch[|batch| - 1];
      ReplayCreated(keys, actor, init);
      assert CreatedEvents(actor, batch)[..|batch| - 1] == CreatedEvents(actor, init);
      ScopeNamesSnoc(init, last);
      assert batch == init + [last];
    }
  }

  /** The log never tells of creating what exists or updating what does not. */
  predicate Fits(keys: Keys, e: AuditEvent) {
    match e
    case MappingCreated(_, client, context) => (client, context) !in keys.mappings
    case MappingUpdated(_, client, context) => (client, context) in keys.mappings
    case ScopeCreated(_, scope) => scope !in keys.scopes
    case ScopeUpdated(_, scope) => scope in keys.scopes
    case _ => true
  }

  predicate Plausible(keys: Keys, log: seq<AuditEvent>) {
    log == [] ||
    (Plausible(keys, log[..|log| - 1]) && Fits(Replay(keys, log[..|log| - 1]), log[|log| - 1]))
  }

  lemma {:induction false} PlausibleAppend(keys: Keys, a: seq<AuditEvent>, b: seq<AuditEvent>)
    requires Plausible(keys, a) && Plausible(Replay(keys, a), b)
    ensures Plausible(keys, a + b)
  {
    if b == [] {
      assert a + b == a;
    } else {
      var init := b[..|b| - 1];
      assert (a + b)[..|a + b| - 1] == a + init;
      PlausibleAppend(keys, a, init);
      ReplayAppend(keys, a, init);
    }
  }

  lemma {:induction false} CreatedPlausible(table: ScopeMappings, keys: Keys, actor: string, batch: seq<ScopeMapping>)
    requires keys.scopes == table.Keys && Fresh(table, batch)
    ensures Plausible(keys, CreatedEvents(actor, batch))
  {
    if batch != [] {
      var init := batch[..|batch| - 1];
      FreshInit(table, batch);
      CreatedPlausible(table, keys, actor, init);
      ReplayCreated(keys, actor, init);
      assert CreatedEvents(actor, batch)[..|batch| - 1] == CreatedEvents(actor, init);
    }
  }

  lemma OneEvent(keys: Keys, e: AuditEvent)
    ensures Replay(keys, [e]) == Believe(keys, e)
    ensures Plausible(keys, [e]) <==> Fits(keys, e)
  {
  }

  /** A successful mutation of one row, told by one event. */
  lemma SingleIsLogged(st: PolicyState, actor: string, request: Request)
    requires !request.PostScopes? && !request.GetMappings? && !request.GetScopes?
    requires !Step(st, OpFor(request)).1.Failed?
    ensures var e := EventsFor(actor, request)[0];
      Believe(KeysOf(st), e) == KeysOf(Step(st, OpFor(request)).0) && Fits(KeysOf(st), e)
  {
  }

  lemma BatchIsLogged(st: PolicyState, actor: string, batch: seq<ScopeMapping>)
    requires Step(st, SaveScopeMappings(batch)).1 == Done
    ensures Replay(KeysOf(st), CreatedEvents(actor, batch)) == KeysOf(Step(st, SaveScopeMappings(batch)).0)
    ensures Plausible(KeysOf(st), CreatedEvents(actor, batch))
  {
    BatchIsAllOrNothing(st, batch);
    ReplayCreated(KeysOf(st), actor, batch);
    CreatedPlausible(st.scopeMappings, KeysOf(st), actor, batch);
  }

  lemma EffectIsLogged(gate: Gate, st: PolicyState, call: Call)
    ensures var (st', events) := Effect(gate, st, call);
      Replay(KeysOf(st), events) == KeysOf(st') && Plausible(KeysOf(st), events)
  {
    if Succeeds(gate, st, call) {
      var actor, request := Actor(gate, call).value, call.request;
      if request.PostScopes? {
        BatchIsLogged(st, actor, IntoVec(request.payload));
      } else if !request.GetMappings? && !request.GetScopes? {
        SingleIsLogged(st, actor, request);
        OneEvent(KeysOf(st), EventsFor(actor, request)[0]);
      }
    }
  }

  /** Replaying the audit log of any run rebuilds exactly the keys of both tables, and on the way every
      creation is of something absent and every update of something present. */
  lemma {:induction false} LogRebuildsKeys(gate: Gate, st: PolicyState, calls: seq<Call>)
    ensures Replay(KeysOf(st), Trace(gate, st, calls).1) == KeysOf(Trace(gate, st, calls).0)
    ensures Plausible(KeysOf(st), Trace(gate, st, calls).1)
  {
    if calls != [] {
      var (before, log) := Trace(gate, st, calls[..|calls| - 1]);
      var call := calls[|calls| - 1];
      LogRebuildsKeys(gate, st, calls[..|calls| - 1]);
      EffectIsLogged(gate, before, call);
      ReplayAppend(KeysOf(st), log, Effect(gate, before, call).1);
      PlausibleAppend(KeysOf(st), log, Effect(gate, before, call).1);
    }
  }

  /** When a call takes effect, request by request. */
  lemma SucceedsIff(gate: Gate, st: PolicyState, call: Call)
    ensures Succeeds(gate, st, call) <==>
      && Actor(gate, call).Some? && !Refuses(st, OpFor(call.request), call.refusals)
      && match call.request
         case PostMapping(m) => ValidMapping(m) && (m.clientIdentifier, m.participantContext) !in st.entries
         case PutMapping(client, context, m) =>
           && client == m.clientIdentifier && context == m.participantContext
           && ValidMapping(m) && (client, context) in st.entries
         case PostScopes(One(m)) => ValidScopeMapping(m) && m.scope !in st.scopeMappings
         case PostScopes(Many(ms)) => (forall m :: m in ms ==> ValidScopeMapping(m)) && Fresh(st.scopeMappings, ms)
         case PutScope(scope, m) => scope == m.scope && ValidScopeMapping(m) && scope in st.scopeMappings
         case _ => true
  {
    if call.request.PostScopes? {
      var batch := IntoVec(call.request.payload);
      BatchIsAllOrNothing(st, batch);
      if call.request.payload.One? { assert Fresh(st.scopeMappings, batch) <==> !Repeats(st.scopeMappings, batch, 0); }
    }
  }

  /** What a call that takes effect does to the policy, request by request: a write by path and body lands
      on the row that the path names, a removal takes just the rows it names, a listing changes nothing. */
  lemma CallDoes(gate: Gate, st: PolicyState, call: Call)
    requires Succeeds(gate, st, call)
    ensures var st' := Effect(gate, st, call).0;
      match call.request
      case PostMapping(m) => st' == st.(entries := st.entries[(m.clientIdentifier, m.participantContext) := m])
      case PutMapping(client, context, m) => st' == st.(entries := st.entries[(client, context) := m])
      case DeleteMapping(client, context) => st' == st.(entries := st.entries - {(client, context)})
      case DeleteClientMappings(client) =>
        && st'.scopeMappings == st.scopeMappings
        && (forall k :: k in st'.entries <==> k in st.entries && k.0 != client)
        && (forall k :: k in st'.entries ==> st'.entries[k] == st.entries[k])
      case PostScopes(One(m)) => st' == st.(scopeMappings := st.scopeMappings[m.scope := m])
      case PostScopes(Many(ms)) =>
        && st'.entries == st.entries && st'.scopeMappings.Keys == st.scopeMappings.Keys + ScopeNames(ms)
        && (forall s :: s in st.scopeMappings ==> st'.scopeMappings[s] == st.scopeMappings[s])
        && (forall m :: m in ms ==> st'.scopeMappings[m.scope] == m)
      case PutScope(scope, m) => st' == st.(scopeMappings := st.scopeMappings[scope := m])
      case DeleteScope(scope) => st' == st.(scopeMappings := st.scopeMappings - {scope})
      case GetMappings => st' == st
      case GetScopes => st' == st
  {
    if call.request.PostScopes? {
      BatchIsAllOrNothing(st, IntoVec(call.request.payload));
      if call.request.payload.One? { InsertOne(st.scopeMappings, call.request.payload.item); }
    }
  }

  lemma InsertOne(table: ScopeMappings, m: ScopeMapping)
    ensures Inserted(table, [m]) == table[m.scope := m]
  {
    assert [m][..0] == [];
  }

  /** A listing that is answered without a refusal lists exactly its own table. */
  lemma ListingsAreComplete(gate: Gate, st: PolicyState, call: Call, response: Response)
    requires Responds(gate, st, call, response) && Succeeds(gate, st, call)
    ensures call.request.GetMappings? ==>
      && response.Answered? && response.reply.Mappings?
      && forall m :: m in response.reply.mappings <==> exists k :: k in st.entries && st.entries[k] == m
    ensures call.request.GetScopes? ==>
      && response.Answered? && response.reply.Scopes?
      && forall m :: m in response.reply.scopes <==> exists s :: s in st.scopeMappings && st.scopeMappings[s] == m
  {
    ReplyOf(st, OpFor(call.request));
  }

  /** Whether a call is by a verified caller who holds `role`. */
  ghost predicate ActsWith(gate: Gate, call: Call, actor: string, role: string) {
    && Identity(gate, call) == Some(actor)
    && actor in gate.accounts && role in gate.accounts[actor]
  }

  /** Which means that the verifier accepted the token of the header as the actor's. */
  lemma ActsWithMeansVerified(gate: Gate, call: Call, actor: string, role: string)
    requires ActsWith(gate, call, actor, role)
    ensures call.authorization.Some? && |call.authorization.value| >= 7
    ensures var claims := gate.verify(call.at, gate.clientAudience, call.authorization.value[7..]);
      claims.Ok? && claims.value.sub == actor
    ensures actor in gate.accounts && role in gate.accounts[actor]
  {
    IdentityIff(gate, call, actor);
  }

  /** Each table changes only through a verified caller with that table's write role; a call that changes
      something is logged, and one that does not succeed neither changes nor logs anything. */
  lemma ChangesAreAuthorised(gate: Gate, st: PolicyState, call: Call)
    ensures var (st', events) := Effect(gate, st, call);
      && (st'.entries != st.entries ==>
           Identity(gate, call).Some? && ActsWith(gate, call, Identity(gate, call).value, ROLE_MAPPINGS_WRITE))
      && (st'.scopeMappings != st.scopeMappings ==>
           Identity(gate, call).Some? && ActsWith(gate, call, Identity(gate, call).value, ROLE_SCOPES_WRITE))
      && (st' != st ==> events != [])
      && (!Succeeds(gate, st, call) ==> st' == st && events == [])
  {
    if call.request.PostScopes? && IntoVec(call.request.payload) == [] {
      assert CreatedEvents("", []) == [];
    }
  }

  function RoleOf(e: AuditEvent): string {
    if e.ScopeCreated? || e.ScopeUpdated? || e.ScopeDeleted? then ROLE_SCOPES_WRITE else ROLE_MAPPINGS_WRITE
  }

  /** The call at `j` emitted `e` for its actor, verified and holding the write role that `e` is about. */
  ghost predicate CausedBy(gate: Gate, st: PolicyState, calls: seq<Call>, j: nat, e: AuditEvent) {
    && j < |calls|
    && ActsWith(gate, calls[j], e.actor, RoleOf(e))
    && e in Effect(gate, Trace(gate, st, calls[..j]).0, calls[j]).1
  }

  lemma EmittedByActor(gate: Gate, st: PolicyState, call: Call)
    ensures forall e :: e in Effect(gate, st, call).1 ==> ActsWith(gate, call, e.actor, RoleOf(e))
  {
  }

  /** An event is in the log of a run exactly when a call of the run emitted it, on behalf of the event's
      own actor, verified at that moment and holding the write role of the table the event is about. */
  lemma {:induction false} LogIsAuthorised(gate: Gate, st: PolicyState, calls: seq<Call>)
    ensures forall e :: e in Trace(gate, st, calls).1 <==> exists j: nat :: CausedBy(gate, st, calls, j, e)
  {
    if calls != [] {
      var n := |calls| - 1;
      var (before, log) := Trace(gate, st, calls[..n]);
      var events := Effect(gate, before, calls[n]).1;
      LogIsAuthorised(gate, st, calls[..n]);
      EmittedByActor(gate, before, calls[n]);
      forall e ensures e in log + events <==> exists j: nat :: CausedBy(gate, st, calls, j, e) {
        CausedSnoc(gate, st, calls, e);
      }
    }
  }

  lemma CausedSnoc(gate: Gate, st: PolicyState, calls: seq<Call>, e: AuditEvent)
    requires calls != []
    ensures var n := |calls| - 1;
      (exists j: nat :: CausedBy(gate, st, calls, j, e)) <==>
        CausedBy(gate, st, calls, n, e) || exists j: nat :: CausedBy(gate, st, calls[..n], j, e)
  {
    var n := |calls| - 1;
    forall j: nat | j < n ensures CausedBy(gate, st, calls, j, e) <==> CausedBy(gate, st, calls[..n], j, e) {
      assert calls[..n][..j] == calls[..j];
    }
  }

  // ---------------------------------------------------------------- where a row comes from

  /** The policy after the first `n` calls. */
  function After(gate: Gate, st: PolicyState, calls: seq<Call>, n: nat): PolicyState
    requires n <= |calls|
  {
    Trace(gate, st, calls[..n]).0
  }

  predicate WritesEntry(request: Request, m: ResourceMapping) {
    (request.PostMapping? || request.PutMapping?) && request.mapping == m
  }

  predicate WritesScope(request: Request, m: ScopeMapping) {
    || (request.PostScopes? && m in IntoVec(request.payload))
    || (request.PutScope? && request.scopeMapping == m)
  }

  /** The event that tells of a written mapping. */
  function EntryEvent(actor: string, request: Request, m: ResourceMapping): AuditEvent {
    if request.PostMapping? then MappingCreated(actor, m.clientIdentifier, m.participantContext)
    else MappingUpdated(actor, m.clientIdentifier, m.participantContext)
  }

  function ScopeEvent(actor: string, request: Request, m: ScopeMapping): AuditEvent {
    if request.PostScopes? then ScopeCreated(actor, m.scope) else ScopeUpdated(actor, m.scope)
  }

  /** Call `j` emitted the event, and the event is in the log. */
  ghost predicate Tells(gate: Gate, st: PolicyState, calls: seq<Call>, j: nat, e: AuditEvent) {
    CausedBy(gate, st, calls, j, e) && e in Trace(gate, st, calls).1
  }

  lemma EmittedIsTold(gate: Gate, st: PolicyState, calls: seq<Call>, j: nat)
    requires j < |calls|
    ensures forall e :: e in Effect(gate, After(gate, st, calls, j), calls[j]).1 ==> Tells(gate, st, calls, j, e)
  {
    EmittedByActor(gate, After(gate, st, calls, j), calls[j]);
    LogIsAuthorised(gate, st, calls);
    forall e | e in Effect(gate, After(gate, st, calls, j), calls[j]).1 ensures Tells(gate, st, calls, j, e) {
      assert CausedBy(gate, st, calls, j, e);
    }
  }

  /** Call `j` of the run wrote the mapping that is there after `n` calls: its actor was verified and held
      the write role, the call is in the log, and the entry has been that mapping ever since. */
  ghost predicate EntryFrom(gate: Gate, st: PolicyState, calls: seq<Call>, n: nat, m: ResourceMapping, j: nat) {
    && j < n <= |calls|
    && WritesEntry(calls[j].request, m)
    && Actor(gate, calls[j]).Some?
    && Tells(gate, st, calls, j, EntryEvent(Actor(gate, calls[j]).value, calls[j].request, m))
    && forall t: nat :: j < t <= n ==> Lookup(After(gate, st, calls, t).entries, m.Key()) == Some(m)
  }

  ghost predicate ScopeFrom(gate: Gate, st: PolicyState, calls: seq<Call>, n: nat, m: ScopeMapping, j: nat) {
    && j < n <= |calls|
    && WritesScope(calls[j].request, m)
    && Actor(gate, calls[j]).Some?
    && Tells(gate, st, calls, j, ScopeEvent(Actor(gate, calls[j]).value, calls[j].request, m))
    && forall t: nat :: j < t <= n ==> Lookup(After(gate, st, calls, t).scopeMappings, m.scope) == Some(m)
  }

  /** A call that gives a key another mapping is a successful write of that mapping. */
  lemma EntryWritten(gate: Gate, st: PolicyState, call: Call, key: EntryKey)
    requires var st' := Effect(gate, st, call).0;
      key in st'.entries && Lookup(st'.entries, key) != Lookup(st.entries, key)
    ensures var m := Effect(gate, st, call).0.entries[key];
      && Actor(gate, call).Some? && m.Key() == key && WritesEntry(call.request, m)
      && EntryEvent(Actor(gate, call).value, call.request, m) in Effect(gate, st, call).1
  {
  }

  lemma {:induction false} InsertedFrom(table: ScopeMappings, batch: seq<ScopeMapping>, s: string)
    requires s in Inserted(table, batch) && Lookup(Inserted(table, batch), s) != Lookup(table, s)
    ensures Inserted(table, batch)[s] in batch && Inserted(table, batch)[s].scope == s
  {
    if batch != [] && batch[|batch| - 1].scope != s { InsertedFrom(table, batch[..|batch| - 1], s); }
  }

  lemma ScopeWritten(gate: Gate, st: PolicyState, call: Call, s: string)
    requires var st' := Effect(gate, st, call).0;
      s in st'.scopeMappings && Lookup(st'.scopeMappings, s) != Lookup(st.scopeMappings, s)
    ensures var m := Effect(gate, st, call).0.scopeMappings[s];
      && Actor(gate, call).Some? && m.scope == s && WritesScope(call.request, m)
      && ScopeEvent(Actor(gate, call).value, call.request, m) in Effect(gate, st, call).1
  {
    if call.request.PostScopes? {
      var batch := IntoVec(call.request.payload);
      InsertedFrom(st.scopeMappings, batch, s);
      var i :| 0 <= i < |batch| && batch[i] == Inserted(st.scopeMappings, batch)[s];
      assert CreatedEvents(Actor(gate, call).value, batch)[i] in CreatedEvents(Actor(gate, call).value, batch);
    }
  }

  lemma AfterNext(gate: Gate, st: PolicyState, calls: seq<Call>, n: nat)
    requires n < |calls|
    ensures After(gate, st, calls, n + 1) == Effect(gate, After(gate, st, calls, n), calls[n]).0
  {
    assert calls[..n + 1][..n] == calls[..n];
  }

  lemma EntryStays(gate: Gate, st: PolicyState, calls: seq<Call>, n: nat, m: ResourceMapping, j: nat)
    requires n < |calls| && EntryFrom(gate, st, calls, n, m, j)
    requires Lookup(After(gate, st, calls, n + 1).entries, m.Key()) == Some(m)
    ensures EntryFrom(gate, st, calls, n + 1, m, j)
  {
    forall t: nat | j < t <= n + 1 ensures Lookup(After(gate, st, calls, t).entries, m.Key()) == Some(m) {
      assert t == n + 1 || t <= n;
    }
  }

  lemma EntryBegins(gate: Gate, st: PolicyState, calls: seq<Call>, n: nat, key: EntryKey)
    requires n < |calls| && key in After(gate, st, calls, n + 1).entries
    requires Lookup(After(gate, st, calls, n).entries, key) != Lookup(After(gate, st, calls, n + 1).entries, key)
    ensures After(gate, st, calls, n + 1).entries[key].Key() == key
    ensures EntryFrom(gate, st, calls, n + 1, After(gate, st, calls, n + 1).entries[key], n)
  {
    AfterNext(gate, st, calls, n);
    EntryWritten(gate, After(gate, st, calls, n), calls[n], key);
    EmittedIsTold(gate, st, calls, n);
  }

  /** Every resource mapping that a run leaves was written by an authorised, logged call of that run. */
  lemma {:induction false} EntryOrigin(gate: Gate, st: PolicyState, calls: seq<Call>, n: nat, key: EntryKey)
    returns (j: nat)
    requires n <= |calls| && key !in st.entries && key in After(gate, st, calls, n).entries
    ensures After(gate, st, calls, n).entries[key].Key() == key
    ensures EntryFrom(gate, st, calls, n, After(gate, st, calls, n).entries[key], j)
    decreases n
  {
    if n > 0 {
      var m := After(gate, st, calls, n).entries[key];
      if Lookup(After(gate, st, calls, n - 1).entries, key) == Some(m) {
        j := EntryOrigin(gate, st, calls, n - 1, key);
        EntryStays(gate, st, calls, n - 1, m, j);
      } else {
        EntryBegins(gate, st, calls, n - 1, key);
        j := n - 1;
      }
    }
  }

  lemma ScopeStays(gate: Gate, st: PolicyState, calls: seq<Call>, n: nat, m: ScopeMapping, j: nat)
    requires n < |calls| && ScopeFrom(gate, st, calls, n, m, j)
    requires Lookup(After(gate, st, calls, n + 1).scopeMappings, m.scope) == Some(m)
    ensures ScopeFrom(gate, st, calls, n + 1, m, j)
  {
    forall t: nat | j < t <= n + 1 ensures Lookup(After(gate, st, calls, t).scopeMappings, m.scope) == Some(m) {
      assert t == n + 1 || t <= n;
    }
  }

  lemma ScopeBegins(gate: Gate, st: PolicyState, calls: seq<Call>, n: nat, key: string)
    requires n < |calls| && key in After(gate, st, calls, n + 1).scopeMappings
    requires Lookup(After(gate, st, calls, n).scopeMappings, key)
          != Lookup(After(gate, st, calls, n + 1).scopeMappings, key)
    ensures After(gate, st, calls, n + 1).scopeMappings[key].scope == key
    ensures ScopeFrom(gate, st, calls, n + 1, After(gate, st, calls, n + 1).scopeMappings[key], n)
  {
    AfterNext(gate, st, calls, n);
    ScopeWritten(gate, After(gate, st, calls, n), calls[n], key);
    EmittedIsTold(gate, st, calls, n);
  }

  /** And so was every scope mapping. */
  lemma {:induction false} ScopeOrigin(gate: Gate, st: PolicyState, calls: seq<Call>, n: nat, key: string)
    returns (j: nat)
    requires n <= |calls| && key !in st.scopeMappings && key in After(gate, st, calls, n).scopeMappings
    ensures After(gate, st, calls, n).scopeMappings[key].scope == key
    ensures ScopeFrom(gate, st, calls, n, After(gate, st, calls, n).scopeMappings[key], j)
    decreases n
  {
    if n > 0 {
      var m := After(gate, st, calls, n).scopeMappings[key];
      if Lookup(After(gate, st, calls, n - 1).scopeMappings, key) == Some(m) {
        j := ScopeOrigin(gate, st, calls, n - 1, key);
        ScopeStays(gate, st, calls, n - 1, m, j);
      } else {
        ScopeBegins(gate, st, calls, n - 1, key);
        j := n - 1;
      }
    }
  }
}
