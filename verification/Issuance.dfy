/** Whole runs of the server: management calls and exchanges interleaved at the grain of single store
    reads. An exchange verifies its client, reads the mapping, and later reads the scope mappings and
    mints; any number of exchanges may be under way, and the policy may change between any two of their
    steps. The memory store is the case where the two reads are adjacent. Time passes with every step,
    and verifier and signer may answer differently at different moments. */
module Issuance {
  import opened Text
  import opened Policy
  import opened ClaimMerge
  import opened Store
  import opened Service
  import opened Exchange
  import opened Management

  datatype Server = Server(
    cfg: Config,
    verify: (nat, string, string) -> Result<TokenClaims, string>,
    generate: (nat, string, TokenClaims) -> Result<string, string>,
    gate: Gate)

  /** An exchange whose client was verified at moment `begunAt`. Its mapping was read at moment `readAt`,
      after `mappingAt` management calls. */
  datatype Flight =
    | Verified(req: ExchangeRequest, client: TokenClaims, begunAt: nat)
    | Found(req: ExchangeRequest, client: TokenClaims, begunAt: nat, readAt: nat, mapping: ResourceMapping,
            mappingAt: nat)

  datatype Issue = Issue(
    req: ExchangeRequest,
    client: TokenClaims,
    claims: TokenClaims,
    token: string,
    begunAt: nat,
    readAt: nat,
    mappingAt: nat,
    scopesAt: nat,
    issuedAt: nat)

  /** `calls` lists the management calls so far, `history` the policy before, between and after them; the
      last one is current. */
  datatype World = World(
    clock: nat,
    calls: seq<Call>,
    history: seq<PolicyState>,
    flights: map<nat, Flight>,
    issued: seq<Issue>)

  datatype Event =
    | Manage(call: Call)
    | Begin(id: nat, req: ExchangeRequest)
    | ReadMapping(id: nat)
    | ReadScopes(id: nat, now: int, jti: string)
    | Abandon(id: nat)

  const START := World(0, [], [EMPTY], map[], [])

  function PairOf(f: Flight, policy: PolicyState): MappingPair
    requires f.Found?
  {
    MappingPair(f.mapping, GrantedScopes(f.mapping, policy.scopeMappings))
  }

  /** The last step of an exchange: at most one token. */
  function Finish(server: Server, policy: PolicyState, at: nat, clock: nat, f: Flight, now: int,
                  jti: string): seq<Issue>
    requires f.Found?
  {
    var minted := Mint(server.cfg, f.client, Some(PairOf(f, policy)), f.req, now, jti);
    if minted.Err? then []
    else
      var token := server.generate(clock, server.cfg.participantContext, minted.value);
      if token.Err? then []
      else [Issue(f.req, f.client, minted.value, token.value, f.begunAt, f.readAt, f.mappingAt, at, clock)]
  }

  /** One event. An exchange is abandoned when its client leaves or the database refuses a read. */
  function Act(server: Server, w: World, e: Event): World
    requires w.history != []
  {
    var at: nat := |w.history| - 1;
    var policy := w.history[at];
    match e
    case Manage(call) =>
      var handled := call.(at := w.clock);
      w.(calls := w.calls + [handled], history := w.history + [Effect(server.gate, policy, handled).0])
    case Begin(id, req) =>
      var client := server.verify(w.clock, server.cfg.clientAudience, req.authToken);
      if id in w.flights || client.Err? then w
      else w.(flights := w.flights[id := Verified(req, client.value, w.clock)])
    case ReadMapping(id) =>
      if id !in w.flights || !w.flights[id].Verified? then w
      else
        var f := w.flights[id];
        var found := Lookup(policy.entries, (f.client.sub, f.req.participantContext));
        if found.None? then w.(flights := w.flights - {id})
        else w.(flights := w.flights[id := Found(f.req, f.client, f.begunAt, w.clock, found.value, at)])
    case ReadScopes(id, now, jti) =>
      if id !in w.flights || !w.flights[id].Found? then w
      else
        var issues := Finish(server, policy, at, w.clock, w.flights[id], now, jti);
        w.(flights := w.flights - {id}, issued := w.issued + issues)
    case Abandon(id) => w.(flights := w.flights - {id})
  }

  function Next(server: Server, w: World, e: Event): World
    requires w.history != []
  {
    Act(server, w, e).(clock := w.clock + 1)
  }

  function Exec(server: Server, events: seq<Event>): (w: World)
    ensures w.history != []
  {
    if events == [] then START
    else
      var w := Exec(server, events[..|events| - 1]);
      Next(server, w, events[|events| - 1])
  }

  /** What the claims of a token say, given the mapping and scope mappings they were made from. */
  ghost predicate Carries(cfg: Config, client: TokenClaims, mapping: ResourceMapping, sms: ScopeMappings,
                          req: ExchangeRequest, t: TokenClaims)
  {
    && t.sub == req.participantContext && t.iss == cfg.issuer
    && Elems(req.scopes) <= mapping.scopes
    && t.aud in (if mapping.audiences == {} then {cfg.audience} else mapping.audiences)
    && t.nbf == Some(t.iat) && t.exp - t.iat == cfg.tokenTtlSecs
    && "act" in t.custom && NamesActor(t.custom["act"], client)
    && "jti" in t.custom
    && Mergeable(BTreeSetOf(req.scopes), sms)
    && t.custom - {"act", "jti"} == Merged(BTreeSetOf(req.scopes), sms)
  }

  /** What a token stands on: a verified client, a mapping that existed when it was looked up and covers
      the request, and the scope mappings as they were at the second read. */
  ghost predicate Justified(server: Server, history: seq<PolicyState>, i: Issue) {
    var cfg := server.cfg;
    var key := (i.client.sub, i.req.participantContext);
    && server.verify(i.begunAt, cfg.clientAudience, i.req.authToken) == Ok(i.client)
    && server.generate(i.issuedAt, cfg.participantContext, i.claims) == Ok(i.token)
    && i.mappingAt <= i.scopesAt < |history|
    && key in history[i.mappingAt].entries
    && var mapping := history[i.mappingAt].entries[key];
    var sms := GrantedScopes(mapping, history[i.scopesAt].scopeMappings);
    && mapping.Key() == key
    && Carries(cfg, i.client, mapping, sms, i.req, i.claims)
  }

  ghost predicate Supported(server: Server, history: seq<PolicyState>, f: Flight) {
    && server.verify(f.begunAt, server.cfg.clientAudience, f.req.authToken) == Ok(f.client)
    && (f.Found? ==>
         && f.mappingAt < |history|
         && Lookup(history[f.mappingAt].entries, (f.client.sub, f.req.participantContext)) == Some(f.mapping))
  }

  /** Exactly the first `n` calls were handled before `moment`. */
  ghost predicate Counts(calls: seq<Call>, n: nat, moment: nat) {
    n <= |calls| && forall k :: 0 <= k < |calls| ==> (k < n <==> calls[k].at < moment)
  }

  /** The reads fall between begin and issue, and each counts exactly the calls handled before it. */
  ghost predicate TimelyIssue(calls: seq<Call>, clock: nat, i: Issue) {
    && i.begunAt < i.readAt < i.issuedAt < clock
    && Counts(calls, i.mappingAt, i.readAt) && Counts(calls, i.scopesAt, i.issuedAt)
  }

  ghost predicate TimelyFlight(calls: seq<Call>, clock: nat, f: Flight) {
    && f.begunAt < clock
    && (f.Found? ==> f.begunAt < f.readAt < clock && Counts(calls, f.mappingAt, f.readAt))
  }

  ghost predicate Timely(w: World) {
    && Counts(w.calls, |w.calls|, w.clock) && |w.history| == |w.calls| + 1
    && (forall id :: id in w.flights ==> TimelyFlight(w.calls, w.clock, w.flights[id]))
    && (forall i :: 0 <= i < |w.issued| ==> TimelyIssue(w.calls, w.clock, w.issued[i]))
  }

  /** The policies are the ones that the management calls leave, one after the other. */
  ghost predicate Recorded(gate: Gate, calls: seq<Call>, history: seq<PolicyState>) {
    && |history| == |calls| + 1
    && forall n: nat :: n <= |calls| ==> history[n] == After(gate, EMPTY, calls, n)
  }

  ghost predicate Sound(server: Server, w: World) {
    && Recorded(server.gate, w.calls, w.history)
    && (forall i :: 0 <= i < |w.history| ==> WellKept(w.history[i]))
    && (forall id :: id in w.flights ==> Supported(server, w.history, w.flights[id]))
    && (forall i :: 0 <= i < |w.issued| ==> Justified(server, w.history, w.issued[i]))
  }

  lemma MergedAvoids(scopes: seq<string>, sms: ScopeMappings, reserved: set<string>)
    requires forall s :: s in sms ==> sms[s].claims.Keys !! reserved
    ensures ClaimKeys(scopes, sms) !! reserved
  {
  }

  lemma AddTwo(claims: Claims, reserved: set<string>, a: string, va: Json, b: string, vb: Json)
    requires claims.Keys !! reserved && {a, b} <= reserved
    ensures (map k | k in claims && k !in reserved :: claims[k])[a := va][b := vb] - {a, b} == claims
  {
  }

  lemma MintedCustom(cfg: Config, client: TokenClaims, pair: MappingPair, req: ExchangeRequest, now: int, jti: string)
    requires forall s :: s in pair.scopeMappings ==> ValidScopeMapping(pair.scopeMappings[s])
    requires Mint(cfg, client, Some(pair), req, now, jti).Ok?
    ensures Mergeable(BTreeSetOf(req.scopes), pair.scopeMappings)
    ensures Mint(cfg, client, Some(pair), req, now, jti).value.custom - {"act", "jti"}
         == Merged(BTreeSetOf(req.scopes), pair.scopeMappings)
  {
    var scopes := BTreeSetOf(req.scopes);
    MergedAvoids(scopes, pair.scopeMappings, RESERVED_CLAIMS);
    AddTwo(Merged(scopes, pair.scopeMappings), RESERVED_CLAIMS, "act", ActOf(client), "jti", JString(jti));
  }

  /** With no reserved key among the scope mappings, minted claims carry the merged ones plus two. */
  lemma MintedCarries(cfg: Config, client: TokenClaims, pair: MappingPair, req: ExchangeRequest, now: int,
                      jti: string, t: TokenClaims)
    requires forall s :: s in pair.scopeMappings ==> ValidScopeMapping(pair.scopeMappings[s])
    requires Mint(cfg, client, Some(pair), req, now, jti) == Ok(t)
    ensures Carries(cfg, client, pair.resourceMapping, pair.scopeMappings, req, t)
  {
    MintedCustom(cfg, client, pair, req, now, jti);
    ActNamesActor(client);
    MintExactly(cfg, client, Some(pair), req, now, jti);
  }

  /** Claims minted from a supported flight make a justified token. */
  lemma MintedIsJustified(server: Server, history: seq<PolicyState>, clock: nat, f: Flight, minted: TokenClaims,
                          token: string)
    requires history != [] && f.Found? && Supported(server, history, f)
    requires f.mapping.Key() == (f.client.sub, f.req.participantContext)
    requires var pair := PairOf(f, history[|history| - 1]);
      Carries(server.cfg, f.client, pair.resourceMapping, pair.scopeMappings, f.req, minted)
    requires server.generate(clock, server.cfg.participantContext, minted) == Ok(token)
    ensures Justified(server, history,
      Issue(f.req, f.client, minted, token, f.begunAt, f.readAt, f.mappingAt, |history| - 1, clock))
  {
  }

  lemma FinishIsJustified(server: Server, history: seq<PolicyState>, clock: nat, f: Flight, now: int, jti: string)
    requires history != [] && WellKept(history[|history| - 1])
    requires f.Found? && Supported(server, history, f) && WellKept(history[f.mappingAt])
    ensures forall i :: i in Finish(server, history[|history| - 1], |history| - 1, clock, f, now, jti) ==>
      Justified(server, history, i)
  {
    var minted := Mint(server.cfg, f.client, Some(PairOf(f, history[|history| - 1])), f.req, now, jti);
    if minted.Ok? {
      MintedCarries(server.cfg, f.client, PairOf(f, history[|history| - 1]), f.req, now, jti, minted.value);
      var token := server.generate(clock, server.cfg.participantContext, minted.value);
      if token.Ok? { MintedIsJustified(server, history, clock, f, minted.value, token.value); }
    }
  }

  /** Time passes, a flight ends, and justified tokens are added. */
  lemma AppendIssues(server: Server, w: World, id: nat, issues: seq<Issue>)
    requires Sound(server, w)
    requires forall i :: i in issues ==> Justified(server, w.history, i)
    ensures Sound(server, w.(clock := w.clock + 1, flights := w.flights - {id}, issued := w.issued + issues))
  {
  }

  lemma ReadScopesKeepsSound(server: Server, w: World, id: nat, now: int, jti: string)
    requires Sound(server, w)
    ensures Sound(server, Next(server, w, ReadScopes(id, now, jti)))
  {
    if id in w.flights && w.flights[id].Found? {
      var at := |w.history| - 1;
      var f := w.flights[id];
      assert Supported(server, w.history, f);
      FinishIsJustified(server, w.history, w.clock, f, now, jti);
      AppendIssues(server, w, id, Finish(server, w.history[at], at, w.clock, f, now, jti));
    }
  }

  lemma GrowHistory(server: Server, history: seq<PolicyState>, more: PolicyState)
    ensures forall i :: Justified(server, history, i) ==> Justified(server, history + [more], i)
    ensures forall f :: Supported(server, history, f) ==> Supported(server, history + [more], f)
  {
  }

  lemma GrowRecord(gate: Gate, calls: seq<Call>, history: seq<PolicyState>, call: Call)
    requires Recorded(gate, calls, history)
    ensures Recorded(gate, calls + [call], history + [Effect(gate, history[|calls|], call).0])
  {
    var calls' := calls + [call];
    forall n: nat | n <= |calls| ensures After(gate, EMPTY, calls', n) == history[n] {
      assert calls'[..n] == calls[..n];
    }
    AfterNext(gate, EMPTY, calls', |calls|);
  }

  lemma EffectKeeps(gate: Gate, st: PolicyState, call: Call)
    requires WellKept(st)
    ensures WellKept(Effect(gate, st, call).0)
  {
    ServeKeeps(st, OpFor(call.request), call.refusals);
  }

  lemma ManageKeepsSound(server: Server, w: World, call: Call)
    requires Sound(server, w)
    ensures Sound(server, Next(server, w, Manage(call)))
  {
    var policy, handled := w.history[|w.history| - 1], call.(at := w.clock);
    EffectKeeps(server.gate, policy, handled);
    GrowRecord(server.gate, w.calls, w.history, handled);
    GrowHistory(server, w.history, Effect(server.gate, policy, handled).0);
  }

  lemma AddFlight(server: Server, w: World, id: nat, f: Flight)
    requires Sound(server, w) && Supported(server, w.history, f)
    ensures Sound(server, w.(clock := w.clock + 1, flights := w.flights[id := f]))
  {
  }

  lemma ReadMappingKeepsSound(server: Server, w: World, id: nat)
    requires Sound(server, w)
    ensures Sound(server, Next(server, w, ReadMapping(id)))
  {
    if id in w.flights && w.flights[id].Verified? {
      var at := |w.history| - 1;
      var f := w.flights[id];
      assert Supported(server, w.history, f);
      var found := Lookup(w.history[at].entries, (f.client.sub, f.req.participantContext));
      if found.Some? { AddFlight(server, w, id, Found(f.req, f.client, f.begunAt, w.clock, found.value, at)); }
    }
  }

  lemma BeginKeepsSound(server: Server, w: World, id: nat, req: ExchangeRequest)
    requires Sound(server, w)
    ensures Sound(server, Next(server, w, Begin(id, req)))
  {
    var client := server.verify(w.clock, server.cfg.clientAudience, req.authToken);
    if client.Ok? { AddFlight(server, w, id, Verified(req, client.value, w.clock)); }
  }

  lemma NextKeepsSound(server: Server, w: World, e: Event)
    requires Sound(server, w)
    ensures Sound(server, Next(server, w, e))
  {
    match e
    case Manage(call) => ManageKeepsSound(server, w, call);
    case Begin(id, req) => BeginKeepsSound(server, w, id, req);
    case ReadMapping(id) => ReadMappingKeepsSound(server, w, id);
    case ReadScopes(id, now, jti) => ReadScopesKeepsSound(server, w, id, now, jti);
    case Abandon(_) =>
  }

  /** Over every run, every token issued is justified, by what its reads saw between its begin and its
      issue. */
  lemma {:induction false} EveryTokenIsJustified(server: Server, events: seq<Event>)
    ensures Sound(server, Exec(server, events)) && Timely(Exec(server, events))
  {
    EveryTokenIsTimely(server, events);
    if events == [] {
      assert WellKept(EMPTY);
    } else {
      EveryTokenIsJustified(server, events[..|events| - 1]);
      NextKeepsSound(server, Exec(server, events[..|events| - 1]), events[|events| - 1]);
    }
  }

  /** The authorised calls behind a token: one wrote its mapping as it was at the first read, and for each
      requested scope that was defined at the second read, one wrote that definition. Each was made by a
      verified actor holding the write role, is in the log, and has not been undone or overwritten up to
      the read. */
  ghost predicate Traceable(gate: Gate, calls: seq<Call>, history: seq<PolicyState>, i: Issue)
    requires i.mappingAt <= i.scopesAt < |history|
  {
    var key := (i.client.sub, i.claims.sub);
    && key in history[i.mappingAt].entries
    && (exists j: nat :: EntryFrom(gate, EMPTY, calls, i.mappingAt, history[i.mappingAt].entries[key], j))
    && (forall s :: s in i.req.scopes && s in history[i.scopesAt].scopeMappings ==>
          exists j: nat :: ScopeFrom(gate, EMPTY, calls, i.scopesAt, history[i.scopesAt].scopeMappings[s], j))
  }

  /** Over every run, every token issued goes back to authorised, logged management calls. */
  lemma EveryTokenIsTraceable(server: Server, events: seq<Event>, n: nat)
    requires n < |Exec(server, events).issued|
    ensures var w := Exec(server, events);
      && w.issued[n].mappingAt <= w.issued[n].scopesAt < |w.history|
      && Traceable(server.gate, w.calls, w.history, w.issued[n])
  {
    EveryTokenIsJustified(server, events);
    var w := Exec(server, events);
    var i := w.issued[n];
    assert Justified(server, w.history, i);
    assert w.history[i.mappingAt] == After(server.gate, EMPTY, w.calls, i.mappingAt);
    assert w.history[i.scopesAt] == After(server.gate, EMPTY, w.calls, i.scopesAt);
    var _ := EntryOrigin(server.gate, EMPTY, w.calls, i.mappingAt, (i.client.sub, i.claims.sub));
    forall s | s in i.req.scopes && s in w.history[i.scopesAt].scopeMappings
      ensures exists j: nat ::
        ScopeFrom(server.gate, EMPTY, w.calls, i.scopesAt, w.history[i.scopesAt].scopeMappings[s], j)
    {
      var _ := ScopeOrigin(server.gate, EMPTY, w.calls, i.scopesAt, s);
    }
  }

  /** The steps of a run are those of the exchange service: asked with the same collaborators and with the
      two reads as its lookup, the service issues exactly the token the run issues. */
  lemma RunAgreesWithService(server: Server, c: Collaborators, first: PolicyState, second: PolicyState, at: nat,
                             at': nat, begun: nat, read: nat, clock: nat, req: ExchangeRequest, client: TokenClaims,
                             now: int, jti: string, r: Result<string, ExchangeError>)
    requires c.verify(server.cfg.clientAudience, req.authToken) == Ok(client)
    requires c.resolve(client.sub, req.participantContext)
          == Ok(ResolveAcross(first, second, client.sub, req.participantContext))
    requires forall t ::
      c.generate(server.cfg.participantContext, t) == server.generate(clock, server.cfg.participantContext, t)
    requires Answers(server.cfg, c, req, now, jti, r)
    ensures var key := (client.sub, req.participantContext);
      if key in first.entries then
        var f := Found(req, client, begun, read, first.entries[key], at);
        var issues := Finish(server, second, at', clock, f, now, jti);
        (r.Ok? <==> issues != []) && (r.Ok? ==> |issues| == 1 && issues[0].token == r.value)
      else r == Err(Unauthorized)
  {
  }

  // ---------------------------------------------------------------- what a run issues

  lemma {:induction false} ExecSnoc(server: Server, events: seq<Event>, e: Event)
    ensures Exec(server, events + [e]) == Next(server, Exec(server, events), e)
  {
    assert (events + [e])[..|events|] == events;
  }

  /** The policy that is current in a world. */
  function Current(w: World): PolicyState
    requires w.history != []
  {
    w.history[|w.history| - 1]
  }

  /** A management call of a run is handled at its moment, on the policy that is current, and on record. */
  lemma RunManages(server: Server, events: seq<Event>, call: Call)
    ensures var w, w' := Exec(server, events), Exec(server, events + [Manage(call)]);
      var handled := call.(at := w.clock);
      && w'.clock == w.clock + 1 && w'.calls == w.calls + [handled]
      && w'.history == w.history + [Effect(server.gate, Current(w), handled).0]
      && w'.flights == w.flights && w'.issued == w.issued
  {
    ExecSnoc(server, events, Manage(call));
  }

  predicate About(e: Event, id: nat) {
    !e.Manage? && e.id == id
  }

  lemma Bystander(server: Server, w: World, e: Event, id: nat)
    requires w.history != [] && !About(e, id)
    ensures Lookup(Next(server, w, e).flights, id) == Lookup(w.flights, id)
  {
  }

  lemma {:induction false} Bystanders(server: Server, events: seq<Event>, more: seq<Event>, id: nat)
    requires forall e :: e in more ==> !About(e, id)
    ensures Lookup(Exec(server, events + more).flights, id) == Lookup(Exec(server, events).flights, id)
    decreases |more|
  {
    if more == [] {
      assert events + more == events;
    } else {
      var init, last := more[..|more| - 1], more[|more| - 1];
      assert last in more;
      Bystanders(server, events, init, id);
      ExecSnoc(server, events + init, last);
      assert events + more == (events + init) + [last];
      Bystander(server, Exec(server, events + init), last, id);
    }
  }

  lemma Begins(server: Server, events: seq<Event>, id: nat, req: ExchangeRequest)
    requires id !in Exec(server, events).flights
    ensures var w := Exec(server, events);
      var client := server.verify(w.clock, server.cfg.clientAudience, req.authToken);
      Lookup(Exec(server, events + [Begin(id, req)]).flights, id)
        == if client.Ok? then Some(Verified(req, client.value, w.clock)) else None
  {
    ExecSnoc(server, events, Begin(id, req));
  }

  /** Where reading the mapping leads from. */
  function AfterReading(w: World, f: Option<Flight>): Option<Flight>
    requires w.history != []
  {
    if f.None? || !f.value.Verified? then f
    else
      var found := Lookup(Current(w).entries, (f.value.client.sub, f.value.req.participantContext));
      if found.None? then None
      else Some(Found(f.value.req, f.value.client, f.value.begunAt, w.clock, found.value, |w.history| - 1))
  }

  lemma ReadsNext(server: Server, w: World, id: nat)
    requires w.history != []
    ensures Lookup(Next(server, w, ReadMapping(id)).flights, id) == AfterReading(w, Lookup(w.flights, id))
  {
  }

  lemma Reads(server: Server, events: seq<Event>, id: nat)
    ensures Lookup(Exec(server, events + [ReadMapping(id)]).flights, id)
         == AfterReading(Exec(server, events), Lookup(Exec(server, events).flights, id))
  {
    ExecSnoc(server, events, ReadMapping(id));
    ReadsNext(server, Exec(server, events), id);
  }

  /** What the last step of an exchange that stands at `f` issues. */
  function IssuedBy(server: Server, w: World, f: Option<Flight>, now: int, jti: string): seq<Issue>
    requires w.history != []
  {
    if f.None? || !f.value.Found? then []
    else Finish(server, Current(w), |w.history| - 1, w.clock, f.value, now, jti)
  }

  lemma MintsNext(server: Server, w: World, id: nat, now: int, jti: string)
    requires w.history != []
    ensures Next(server, w, ReadScopes(id, now, jti)).issued
         == w.issued + IssuedBy(server, w, Lookup(w.flights, id), now, jti)
  {
    assert w.issued + [] == w.issued;
  }

  lemma Mints(server: Server, events: seq<Event>, id: nat, now: int, jti: string)
    ensures var w := Exec(server, events);
      Exec(server, events + [ReadScopes(id, now, jti)]).issued
        == w.issued + IssuedBy(server, w, Lookup(w.flights, id), now, jti)
  {
    ExecSnoc(server, events, ReadScopes(id, now, jti));
    MintsNext(server, Exec(server, events), id, now, jti);
  }

  /** The events of one exchange, with whatever else happens between them. */
  function Begun(events: seq<Event>, id: nat, req: ExchangeRequest, a: seq<Event>): seq<Event> {
    events + [Begin(id, req)] + a
  }

  function Read(events: seq<Event>, id: nat, req: ExchangeRequest, a: seq<Event>, b: seq<Event>): seq<Event> {
    Begun(events, id, req, a) + [ReadMapping(id)] + b
  }

  /** Where an exchange stands whose client was verified in one world and whose mapping was read in the
      next: nowhere, unless the client was accepted and the mapping found. */
  ghost predicate Stands(server: Server, req: ExchangeRequest, w0: World, w1: World, f: Option<Flight>)
    requires w1.history != []
  {
    var client := server.verify(w0.clock, server.cfg.clientAudience, req.authToken);
    f ==
      if client.Err? then None
      else
        var found := Lookup(Current(w1).entries, (client.value.sub, req.participantContext));
        if found.None? then None
        else Some(Found(req, client.value, w0.clock, w1.clock, found.value, |w1.history| - 1))
  }

  lemma BeforeLastStep(server: Server, events: seq<Event>, id: nat, req: ExchangeRequest, a: seq<Event>, b: seq<Event>)
    requires id !in Exec(server, events).flights
    requires forall e :: e in a + b ==> !About(e, id)
    ensures Stands(server, req, Exec(server, events), Exec(server, Begun(events, id, req, a)),
                   Lookup(Exec(server, Read(events, id, req, a, b)).flights, id))
  {
    assert forall e :: e in a || e in b ==> e in a + b;
    Begins(server, events, id, req);
    Bystanders(server, events + [Begin(id, req)], a, id);
    Reads(server, Begun(events, id, req, a), id);
    Bystanders(server, Begun(events, id, req, a) + [ReadMapping(id)], b, id);
  }

  /** The collaborators of the exchange service, as an exchange meets them when its client is verified at
      the end of one run, its mapping is read at the end of a second and its token made at the end of a
      third. */
  ghost predicate Meets(server: Server, c: Collaborators, req: ExchangeRequest, w0: World, w1: World, w2: World)
    requires w1.history != [] && w2.history != []
  {
    var client := server.verify(w0.clock, server.cfg.clientAudience, req.authToken);
    && c.verify(server.cfg.clientAudience, req.authToken) == client
    && (client.Ok? ==>
         c.resolve(client.value.sub, req.participantContext)
           == Ok(ResolveAcross(Current(w1), Current(w2), client.value.sub, req.participantContext)))
    && (forall t :: c.generate(server.cfg.participantContext, t)
                 == server.generate(w2.clock, server.cfg.participantContext, t))
  }

  /** The service's token for the request when it gives one, and nothing otherwise. */
  ghost predicate Delivers(issues: seq<Issue>, req: ExchangeRequest, r: Result<string, ExchangeError>) {
    if r.Ok? then |issues| == 1 && issues[0].token == r.value && issues[0].req == req else issues == []
  }

  lemma LastStep(server: Server, c: Collaborators, req: ExchangeRequest, w0: World, w1: World, w2: World,
                 f: Option<Flight>, now: int, jti: string, r: Result<string, ExchangeError>)
    requires w1.history != [] && w2.history != [] && Meets(server, c, req, w0, w1, w2)
    requires Stands(server, req, w0, w1, f) && Answers(server.cfg, c, req, now, jti, r)
    ensures Delivers(IssuedBy(server, w2, f, now, jti), req, r)
  {
    var client := server.verify(w0.clock, server.cfg.clientAudience, req.authToken);
    if client.Ok? {
      RunAgreesWithService(server, c, Current(w1), Current(w2), |w1.history| - 1, |w2.history| - 1, w0.clock, w1.clock,
                           w2.clock, req, client.value, now, jti, r);
    }
  }

  /** What the last step adds. */
  lemma LastStepDelivers(server: Server, events: seq<Event>, id: nat, now: int, jti: string, req: ExchangeRequest,
                         w0: World, w1: World, c: Collaborators, r: Result<string, ExchangeError>)
    returns (issues: seq<Issue>)
    requires w1.history != [] && Meets(server, c, req, w0, w1, Exec(server, events))
    requires Stands(server, req, w0, w1, Lookup(Exec(server, events).flights, id))
    requires Answers(server.cfg, c, req, now, jti, r)
    ensures Exec(server, events + [ReadScopes(id, now, jti)]).issued == Exec(server, events).issued + issues
    ensures Delivers(issues, req, r)
  {
    var w2 := Exec(server, events);
    var f := Lookup(w2.flights, id);
    Mints(server, events, id, now, jti);
    LastStep(server, c, req, w0, w1, w2, f, now, jti, r);
    issues := IssuedBy(server, w2, f, now, jti);
  }

  /** A run issues exactly what the exchange service answers: whatever else happens between the steps of an
      exchange, its last step adds the service's token when the service gives one, and nothing otherwise. */
  lemma RunIssuesWhatServiceAnswers(server: Server, events: seq<Event>, id: nat, req: ExchangeRequest, a: seq<Event>,
                                    b: seq<Event>, now: int, jti: string, c: Collaborators,
                                    r: Result<string, ExchangeError>)
    requires id !in Exec(server, events).flights
    requires forall e :: e in a + b ==> !About(e, id)
    requires Meets(server, c, req, Exec(server, events), Exec(server, Begun(events, id, req, a)),
                   Exec(server, Read(events, id, req, a, b)))
    requires Answers(server.cfg, c, req, now, jti, r)
    ensures var before := Exec(server, Read(events, id, req, a, b)).issued;
      var after := Exec(server, Read(events, id, req, a, b) + [ReadScopes(id, now, jti)]).issued;
      if r.Ok? then
        && |after| == |before| + 1 && after[..|before|] == before
        && after[|before|].token == r.value && after[|before|].req == req
      else after == before
  {
    BeforeLastStep(server, events, id, req, a, b);
    var issues := LastStepDelivers(server, Read(events, id, req, a, b), id, now, jti, req, Exec(server, events),
                                   Exec(server, Begun(events, id, req, a)), c, r);
  }

  lemma Abandons(server: Server, events: seq<Event>, id: nat)
    ensures id !in Exec(server, events + [Abandon(id)]).flights
  {
    ExecSnoc(server, events, Abandon(id));
  }

  /** An exchange that was abandoned issues nothing. */
  lemma AbandonedIssuesNothing(server: Server, events: seq<Event>, id: nat, a: seq<Event>, now: int, jti: string)
    requires forall e :: e in a ==> !About(e, id)
    ensures var abandoned := events + [Abandon(id)];
      Exec(server, abandoned + a + [ReadScopes(id, now, jti)]).issued == Exec(server, abandoned + a).issued
  {
    Abandons(server, events, id);
    Bystanders(server, events + [Abandon(id)], a, id);
    Mints(server, events + [Abandon(id)] + a, id, now, jti);
  }

  // ---------------------------------------------------------------- time

  lemma CountsOneMore(calls: seq<Call>, call: Call, n: nat, moment: nat)
    requires Counts(calls, n, moment) && moment <= call.at
    ensures Counts(calls + [call], n, moment)
  {
  }

  lemma ManageKeepsTimely(w: World, call: Call, policy: PolicyState)
    requires Timely(w) && call.at == w.clock
    ensures Timely(w.(clock := w.clock + 1, calls := w.calls + [call], history := w.history + [policy]))
  {
    forall n: nat, moment: nat | Counts(w.calls, n, moment) && moment <= w.clock
      ensures Counts(w.calls + [call], n, moment)
    {
      CountsOneMore(w.calls, call, n, moment);
    }
    forall id | id in w.flights ensures TimelyFlight(w.calls + [call], w.clock + 1, w.flights[id]) {
      assert TimelyFlight(w.calls, w.clock, w.flights[id]);
    }
    forall i | 0 <= i < |w.issued| ensures TimelyIssue(w.calls + [call], w.clock + 1, w.issued[i]) {
      assert TimelyIssue(w.calls, w.clock, w.issued[i]);
    }
  }

  lemma FlightIsTimely(w: World, id: nat, f: Flight)
    requires Timely(w) && TimelyFlight(w.calls, w.clock + 1, f)
    ensures Timely(w.(clock := w.clock + 1, flights := w.flights[id := f]))
  {
  }

  lemma IssuesAreTimely(w: World, id: nat, issues: seq<Issue>)
    requires Timely(w) && forall i :: i in issues ==> TimelyIssue(w.calls, w.clock + 1, i)
    ensures Timely(w.(clock := w.clock + 1, flights := w.flights - {id}, issued := w.issued + issues))
  {
    var all := w.issued + issues;
    forall i | 0 <= i < |all| ensures TimelyIssue(w.calls, w.clock + 1, all[i]) {
      if i < |w.issued| {
        assert TimelyIssue(w.calls, w.clock, w.issued[i]);
      } else {
        assert all[i] in issues;
      }
    }
  }

  lemma FinishKeepsTimes(server: Server, policy: PolicyState, at: nat, clock: nat, f: Flight, now: int, jti: string)
    requires f.Found?
    ensures forall i :: i in Finish(server, policy, at, clock, f, now, jti) ==>
      && i.begunAt == f.begunAt && i.readAt == f.readAt && i.mappingAt == f.mappingAt
      && i.scopesAt == at && i.issuedAt == clock
  {
  }

  lemma ReadScopesKeepsTimely(server: Server, w: World, id: nat, now: int, jti: string)
    requires Timely(w)
    ensures Timely(Next(server, w, ReadScopes(id, now, jti)))
  {
    if id in w.flights && w.flights[id].Found? {
      var f := w.flights[id];
      assert TimelyFlight(w.calls, w.clock, f);
      FinishKeepsTimes(server, w.history[|w.calls|], |w.calls|, w.clock, f, now, jti);
      IssuesAreTimely(w, id, Finish(server, w.history[|w.calls|], |w.calls|, w.clock, f, now, jti));
    }
  }

  lemma BeginKeepsTimely(server: Server, w: World, id: nat, req: ExchangeRequest)
    requires Timely(w)
    ensures Timely(Next(server, w, Begin(id, req)))
  {
    var client := server.verify(w.clock, server.cfg.clientAudience, req.authToken);
    if client.Ok? { FlightIsTimely(w, id, Verified(req, client.value, w.clock)); }
  }

  lemma ReadMappingKeepsTimely(server: Server, w: World, id: nat)
    requires Timely(w)
    ensures Timely(Next(server, w, ReadMapping(id)))
  {
    if id in w.flights && w.flights[id].Verified? {
      var f := w.flights[id];
      assert TimelyFlight(w.calls, w.clock, f);
      var found := Lookup(w.history[|w.calls|].entries, (f.client.sub, f.req.participantContext));
      if found.Some? { FlightIsTimely(w, id, Found(f.req, f.client, f.begunAt, w.clock, found.value, |w.calls|)); }
    }
  }

  lemma NextKeepsTimely(server: Server, w: World, e: Event)
    requires Timely(w)
    ensures Timely(Next(server, w, e))
  {
    match e
    case Manage(call) =>
      var handled := call.(at := w.clock);
      ManageKeepsTimely(w, handled, Effect(server.gate, w.history[|w.calls|], handled).0);
    case Begin(id, req) => BeginKeepsTimely(server, w, id, req);
    case ReadMapping(id) => ReadMappingKeepsTimely(server, w, id);
    case ReadScopes(id, now, jti) => ReadScopesKeepsTimely(server, w, id, now, jti);
    case Abandon(id) =>
  }

  /** Over every run, the reads of every token fall between its begin and its issue, and see exactly the
      management calls handled before them. */
  lemma {:induction false} EveryTokenIsTimely(server: Server, events: seq<Event>)
    ensures Timely(Exec(server, events))
  {
    if events != [] {
      EveryTokenIsTimely(server, events[..|events| - 1]);
      NextKeepsTimely(server, Exec(server, events[..|events| - 1]), events[|events| - 1]);
    }
  }

  /** Revocation bites: if a client's mapping for a context is absent from call `r` on, every token it ever
      gets for that context rests on a lookup made before that call, and so on an exchange begun before. */
  lemma RevocationBites(server: Server, events: seq<Event>, client: string, context: string, r: nat)
    requires r < |Exec(server, events).calls|
    requires forall n :: r < n < |Exec(server, events).history| ==>
      (client, context) !in Exec(server, events).history[n].entries
    ensures var w := Exec(server, events);
      forall i :: 0 <= i < |w.issued| && w.issued[i].client.sub == client && w.issued[i].claims.sub == context ==>
        w.issued[i].begunAt < w.issued[i].readAt <= w.calls[r].at
  {
    EveryTokenIsJustified(server, events);
    var w := Exec(server, events);
    forall i | 0 <= i < |w.issued| && w.issued[i].client.sub == client && w.issued[i].claims.sub == context
      ensures w.issued[i].begunAt < w.issued[i].readAt <= w.calls[r].at
    {
      var issue := w.issued[i];
      assert Justified(server, w.history, issue);
      assert TimelyIssue(w.calls, w.clock, issue);
    }
  }

  /** Scope revocation bites: if a scope mapping is absent from call `r` on, every token issued after that
      call carries exactly the claims that its other scopes give. */
  lemma ScopeRevocationBites(server: Server, events: seq<Event>, s: string, r: nat)
    requires r < |Exec(server, events).calls|
    requires forall n :: r < n < |Exec(server, events).history| ==>
      s !in Exec(server, events).history[n].scopeMappings
    ensures var w := Exec(server, events);
      forall i :: 0 <= i < |w.issued| && w.calls[r].at < w.issued[i].issuedAt ==>
        CarriesWithout(server, w, w.issued[i], s)
  {
    EveryTokenIsJustified(server, events);
    var w := Exec(server, events);
    forall i | 0 <= i < |w.issued| && w.calls[r].at < w.issued[i].issuedAt
      ensures CarriesWithout(server, w, w.issued[i], s)
    {
      var issue := w.issued[i];
      assert TimelyIssue(w.calls, w.clock, issue);
      JustifiedWithout(server, w, issue, s);
    }
  }

  lemma JustifiedWithout(server: Server, w: World, i: Issue, s: string)
    requires Justified(server, w.history, i) && s !in w.history[i.scopesAt].scopeMappings
    ensures CarriesWithout(server, w, i, s)
  {
    var mapping := w.history[i.mappingAt].entries[(i.client.sub, i.req.participantContext)];
    var sms := GrantedScopes(mapping, w.history[i.scopesAt].scopeMappings);
    assert sms - {s} == sms;
  }

  /** The token's claims, computed as if scope `s` were undefined. */
  ghost predicate CarriesWithout(server: Server, w: World, i: Issue, s: string) {
    var key := (i.client.sub, i.req.participantContext);
    && i.mappingAt <= i.scopesAt < |w.history| && key in w.history[i.mappingAt].entries
    && var mapping := w.history[i.mappingAt].entries[key];
    var sms := GrantedScopes(mapping, w.history[i.scopesAt].scopeMappings) - {s};
    Carries(server.cfg, i.client, mapping, sms, i.req, i.claims)
  }
}
