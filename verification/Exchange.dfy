/** The token exchange: `TokenExchangeService::exchange_token` and the handler in front of it. */
module Exchange {
  import opened Text
  import opened Policy
  import opened ClaimMerge

  datatype ExchangeError =
    | TokenVerification(message: string)
    | Unauthorized
    | ServiceError(error: ResourceError)
    | ScopeConflict(key: string)
    | Generation(message: string)

  datatype Config = Config(
    clientAudience: string,
    audience: string,
    issuer: string,
    participantContext: string,
    tokenTtlSecs: int)

  /** The parts outside this model: the client-token verifier, the policy lookup, the signer. */
  datatype Collaborators = Collaborators(
    verify: (string, string) -> Result<TokenClaims, string>,
    resolve: (string, string) -> Result<Option<MappingPair>, ResourceError>,
    generate: (string, TokenClaims) -> Result<string, string>)

  datatype ExchangeRequest = ExchangeRequest(
    participantContext: string,
    scopes: seq<string>,
    authToken: string,
    audience: Option<string>)

  // ---------------------------------------------------------------- audience

  function Wanted(requested: Option<string>, default: string): string {
    if requested.Some? then requested.value else default
  }

  /** An empty allowlist stands for the default alone. */
  predicate Permitted(audience: string, allowed: set<string>, default: string) {
    audience in (if allowed == {} then {default} else allowed)
  }

  /** The seven arms of the match come down to one rule. */
  function ResolveAudience(requested: Option<string>, allowed: set<string>,
                           default: string): (r: Result<string, ExchangeError>)
    ensures r.Ok? <==> Permitted(Wanted(requested, default), allowed, default)
    ensures r.Ok? ==> r.value == Wanted(requested, default)
    ensures r.Err? ==> r.error == Unauthorized
    ensures allowed == {} ==>
      r == if requested == None || requested == Some(default) then Ok(default) else Err(Unauthorized)
    ensures allowed != {} && requested == None ==> r == if default in allowed then Ok(default) else Err(Unauthorized)
    ensures allowed != {} && requested.Some? ==>
      r == if requested.value in allowed then Ok(requested.value) else Err(Unauthorized)
  {
    match requested
    case None =>
      if allowed == {} then Ok(default)
      else if default in allowed then Ok(default)
      else Err(Unauthorized)
    case Some(req) =>
      if allowed == {} && req == default then Ok(req)
      else if allowed == {} then Err(Unauthorized)
      else if req in allowed then Ok(req)
      else Err(Unauthorized)
  }

  // ---------------------------------------------------------------- minting

  /** The verified client's identity, as the `act` claim carries it. */
  function ActOf(client: TokenClaims): Json {
    var identity := map["sub" := JString(client.sub), "iss" := JString(client.iss)];
    JObject(if K8S_UID_CLAIM in client.custom
            then identity[K8S_UID_CLAIM := client.custom[K8S_UID_CLAIM]] else identity)
  }

  /** The `act` claim is an object of subject, issuer and, where the client has one, Kubernetes UID, each
      under its own name, and of nothing else. */
  ghost predicate NamesActor(act: Json, client: TokenClaims) {
    && act.JObject?
    && (forall k :: k in act.members <==> k == "sub" || k == "iss" || (k == "k8s_uid" && k in client.custom))
    && act.members["sub"] == JString(client.sub) && act.members["iss"] == JString(client.iss)
    && ("k8s_uid" in client.custom ==> act.members["k8s_uid"] == client.custom["k8s_uid"])
  }

  lemma ActNamesActor(client: TokenClaims)
    ensures var act := ActOf(client);
      && act.JObject?
      && (forall k :: k in act.members <==> k == "sub" || k == "iss" || (k == "k8s_uid" && k in client.custom))
      && act.members["sub"] == JString(client.sub) && act.members["iss"] == JString(client.iss)
      && ("k8s_uid" in client.custom ==> act.members["k8s_uid"] == client.custom["k8s_uid"])
    ensures NamesActor(ActOf(client), client)
  {
  }

  /** Two clients get the same `act` claim exactly when they are the same identity. */
  lemma ActIdentifiesClient(a: TokenClaims, b: TokenClaims)
    ensures ActOf(a) == ActOf(b) <==>
      && a.sub == b.sub && a.iss == b.iss
      && (K8S_UID_CLAIM in a.custom <==> K8S_UID_CLAIM in b.custom)
      && (K8S_UID_CLAIM in a.custom ==> a.custom[K8S_UID_CLAIM] == b.custom[K8S_UID_CLAIM])
  {
    var x, y := ActOf(a).members, ActOf(b).members;
    assert x["sub"] == JString(a.sub) && x["iss"] == JString(a.iss);
    assert y["sub"] == JString(b.sub) && y["iss"] == JString(b.iss);
    assert K8S_UID_CLAIM in x <==> K8S_UID_CLAIM in a.custom;
    assert K8S_UID_CLAIM in y <==> K8S_UID_CLAIM in b.custom;
  }

  datatype Refusal = NotGranted | Clashing | NotPermitted

  /** What is signed for a verified client, once the policy lookup has answered. */
  function Mint(cfg: Config, client: TokenClaims, pair: Option<MappingPair>, req: ExchangeRequest, now: int,
                jti: string)
    : (r: Result<TokenClaims, Refusal>)
  {
    match VerdictFor(pair, req.scopes)
    case Refused => Err(NotGranted)
    case Conflicting => Err(Clashing)
    case Granted(claims, audiences) =>
      if Permitted(Wanted(req.audience, cfg.audience), audiences, cfg.audience) then
        Ok(TokenClaims(
          req.participantContext, cfg.issuer, Wanted(req.audience, cfg.audience),
          now, now + cfg.tokenTtlSecs, Some(now),
          DropReserved(claims)["act" := ActOf(client)]["jti" := JString(jti)]))
      else Err(NotPermitted)
  }

  /** Exactly when minting succeeds, which stage a refusal belongs to, and what the claims then are. */
  lemma MintExactly(cfg: Config, client: TokenClaims, pair: Option<MappingPair>, req: ExchangeRequest, now: int,
                    jti: string)
    ensures var r := Mint(cfg, client, pair, req, now, jti);
      var granted := pair.Some? && Elems(req.scopes) <= pair.value.resourceMapping.scopes;
      var merges := granted && Mergeable(BTreeSetOf(req.scopes), pair.value.scopeMappings);
      var permitted := granted &&
        Permitted(Wanted(req.audience, cfg.audience), pair.value.resourceMapping.audiences, cfg.audience);
      && (r.Ok? <==> granted && merges && permitted)
      && (r == Err(NotGranted) <==> !granted)
      && (r == Err(Clashing) <==> granted && !merges)
      && (r == Err(NotPermitted) <==> granted && merges && !permitted)
      && (r.Ok? ==>
           var t, merged := r.value, Merged(BTreeSetOf(req.scopes), pair.value.scopeMappings);
           && t.sub == req.participantContext && t.iss == cfg.issuer
           && t.aud == Wanted(req.audience, cfg.audience)
           && t.iat == now && t.nbf == Some(t.iat) && t.exp - t.iat == cfg.tokenTtlSecs
           && t.custom.Keys == (set k | k in merged && !IsReservedClaim(k)) + {"act", "jti"}
           && t.custom["act"] == ActOf(client) && t.custom["jti"] == JString(jti)
           && forall k :: k in merged && !IsReservedClaim(k) ==> t.custom[k] == merged[k])
  {
  }

  /** The answer of the exchange service, stage by stage: the first stage that fails decides the error. */
  ghost predicate Answers(cfg: Config, c: Collaborators, req: ExchangeRequest, now: int, jti: string,
                          r: Result<string, ExchangeError>) {
    var client := c.verify(cfg.clientAudience, req.authToken);
    if client.Err? then r == Err(TokenVerification(client.error))
    else
      var resolved := c.resolve(client.value.sub, req.participantContext);
      if resolved.Err? then
        r == Err(if resolved.error.ClaimConflict? then ScopeConflict(resolved.error.key)
                 else ServiceError(resolved.error))
      else
        match Mint(cfg, client.value, resolved.value, req, now, jti)
        case Err(NotGranted) => r == Err(Unauthorized)
        case Err(Clashing) =>
          && r.Err? && r.error.ScopeConflict?
          && Clash(Definitions(BTreeSetOf(req.scopes), resolved.value.value.scopeMappings, r.error.key))
        case Err(NotPermitted) => r == Err(Unauthorized)
        case Ok(claims) =>
          var signed := c.generate(cfg.participantContext, claims);
          r == if signed.Ok? then Ok(signed.value) else Err(Generation(signed.error))
  }

  /** The loop that copies the unreserved claims, in an arbitrary order. */
  method CopyUnreserved(claims: Claims) returns (custom: Claims)
    ensures custom == DropReserved(claims)
  {
    custom := map[];
    var todo := claims.Keys;
    while todo != {}
      invariant todo <= claims.Keys
      invariant custom == map k | k in claims.Keys - todo && !IsReservedClaim(k) :: claims[k]
      decreases |todo|
    {
      var k :| k in todo;
      todo := todo - {k};
      if IsReservedClaim(k) { continue; }
      custom := custom[k := claims[k]];
    }
  }

  /** The custom claims: the unreserved ones, then who acts and a fresh identifier. */
  method BuildCustom(claims: Claims, client: TokenClaims, jti: string) returns (custom: Claims)
    ensures custom == DropReserved(claims)["act" := ActOf(client)]["jti" := JString(jti)]
    ensures "act" in custom && NamesActor(custom["act"], client)
  {
    ActNamesActor(client);
    custom := CopyUnreserved(claims);
    var act := map["sub" := JString(client.sub), "iss" := JString(client.iss)];
    if K8S_UID_CLAIM in client.custom { act := act[K8S_UID_CLAIM := client.custom[K8S_UID_CLAIM]]; }
    custom := custom["act" := JObject(act)];
    custom := custom["jti" := JString(jti)];
  }

  method ExchangeToken(cfg: Config, c: Collaborators, req: ExchangeRequest, now: int, jti: string)
    returns (r: Result<string, ExchangeError>)
    ensures Answers(cfg, c, req, now, jti, r)
  {
    var verified := c.verify(cfg.clientAudience, req.authToken);
    if verified.Err? { return Err(TokenVerification(verified.error)); }
    var client := verified.value;
    var verification := Verify(c.resolve(client.sub, req.participantContext), req.scopes);
    if verification.Err? {
      if verification.error.ClaimConflict? { return Err(ScopeConflict(verification.error.key)); }
      return Err(ServiceError(verification.error));
    }
    if !verification.value.verified { return Err(Unauthorized); }
    var aud := ResolveAudience(req.audience, verification.value.audiences, cfg.audience);
    if aud.Err? { return Err(aud.error); }
    var custom := BuildCustom(verification.value.claims, client, jti);
    var claims := TokenClaims(
      req.participantContext, cfg.issuer, aud.value, now, now + cfg.tokenTtlSecs, Some(now), custom);
    assert Mint(cfg, client, c.resolve(client.sub, req.participantContext).value, req, now, jti) == Ok(claims);
    var token := c.generate(cfg.participantContext, claims);
    if token.Err? { return Err(Generation(token.error)); }
    return Ok(token.value);
  }

  /** Verifier, lookup, grant, merge and audience all agree to the request. */
  ghost predicate Passes(cfg: Config, c: Collaborators, req: ExchangeRequest, client: TokenClaims, pair: MappingPair) {
    && c.verify(cfg.clientAudience, req.authToken) == Ok(client)
    && c.resolve(client.sub, req.participantContext) == Ok(Some(pair))
    && Elems(req.scopes) <= pair.resourceMapping.scopes
    && Mergeable(BTreeSetOf(req.scopes), pair.scopeMappings)
    && Permitted(Wanted(req.audience, cfg.audience), pair.resourceMapping.audiences, cfg.audience)
  }

  ghost predicate ClaimsFor(cfg: Config, client: TokenClaims, pair: MappingPair, req: ExchangeRequest, now: int,
                            jti: string, t: TokenClaims)
    requires Mergeable(BTreeSetOf(req.scopes), pair.scopeMappings)
  {
    var merged := Merged(BTreeSetOf(req.scopes), pair.scopeMappings);
    && t.sub == req.participantContext && t.iss == cfg.issuer && t.aud == Wanted(req.audience, cfg.audience)
    && t.iat == now && t.nbf == Some(t.iat) && t.exp - t.iat == cfg.tokenTtlSecs
    && t.custom == DropReserved(merged)["act" := ActOf(client)]["jti" := JString(jti)]
  }

  /** Everything agrees to the request, and these are the claims that reach the generator. */
  ghost predicate Submits(cfg: Config, c: Collaborators, req: ExchangeRequest, now: int, jti: string, t: TokenClaims) {
    exists client, pair :: Passes(cfg, c, req, client, pair) && ClaimsFor(cfg, client, pair, req, now, jti, t)
  }

  /** The lookup for the verified client gives `found`. */
  ghost predicate Finds(cfg: Config, c: Collaborators, req: ExchangeRequest,
                        found: Result<Option<MappingPair>, ResourceError>) {
    var client := c.verify(cfg.clientAudience, req.authToken);
    client.Ok? && c.resolve(client.value.sub, req.participantContext) == found
  }

  /** Verifier and lookup answer, but the scopes are not granted or the audience is not permitted. */
  ghost predicate Denies(cfg: Config, c: Collaborators, req: ExchangeRequest) {
    exists found :: Finds(cfg, c, req, Ok(found)) &&
      (found.Some? && Elems(req.scopes) <= found.value.resourceMapping.scopes ==>
         && Mergeable(BTreeSetOf(req.scopes), found.value.scopeMappings)
         && !Permitted(Wanted(req.audience, cfg.audience), found.value.resourceMapping.audiences, cfg.audience))
  }

  /** The scopes are granted, but their claims clash. */
  ghost predicate Clashes(cfg: Config, c: Collaborators, req: ExchangeRequest) {
    exists pair :: Finds(cfg, c, req, Ok(Some(pair))) &&
      Elems(req.scopes) <= pair.resourceMapping.scopes && !Mergeable(BTreeSetOf(req.scopes), pair.scopeMappings)
  }

  lemma SubmitsIffMinted(cfg: Config, c: Collaborators, req: ExchangeRequest, now: int, jti: string, t: TokenClaims)
    ensures Submits(cfg, c, req, now, jti, t) <==>
      var client := c.verify(cfg.clientAudience, req.authToken);
      client.Ok? &&
      var found := c.resolve(client.value.sub, req.participantContext);
      found.Ok? && Mint(cfg, client.value, found.value, req, now, jti) == Ok(t)
  {
    var client := c.verify(cfg.clientAudience, req.authToken);
    if client.Ok? {
      var found := c.resolve(client.value.sub, req.participantContext);
      if found.Ok? && Mint(cfg, client.value, found.value, req, now, jti) == Ok(t) {
        MintExactly(cfg, client.value, found.value, req, now, jti);
        assert Passes(cfg, c, req, client.value, found.value.value);
      }
    }
  }

  /** Claims that reach the generator name the verified client as the actor and go to the requested
      audience, or the default when none is requested, which the mapping lists unless its list is empty. */
  lemma SubmittedClaims(cfg: Config, c: Collaborators, req: ExchangeRequest, now: int, jti: string, t: TokenClaims)
    requires Submits(cfg, c, req, now, jti, t)
    ensures var client := c.verify(cfg.clientAudience, req.authToken);
      && client.Ok? && "act" in t.custom && NamesActor(t.custom["act"], client.value)
      && var found := c.resolve(client.value.sub, req.participantContext);
      && found.Ok? && found.value.Some?
      && var audiences := found.value.value.resourceMapping.audiences;
      && t.aud == (if req.audience.Some? then req.audience.value else cfg.audience)
      && (if audiences == {} then t.aud == cfg.audience else t.aud in audiences)
  {
    ActNamesActor(c.verify(cfg.clientAudience, req.authToken).value);
  }

  /** The generator answers `signed` to the claims of a request that everything else agrees to. */
  ghost predicate Signs(cfg: Config, c: Collaborators, req: ExchangeRequest, now: int, jti: string,
                        signed: Result<string, string>) {
    exists t :: Submits(cfg, c, req, now, jti, t) && c.generate(cfg.participantContext, t) == signed
  }

  /** The exchange succeeds exactly when the verifier accepts, the mapping is found, the scopes are granted,
      their claims merge, the audience is permitted and the generator signs the claims; and a failure is
      that of the first stage that fails. */
  lemma ExchangeSucceedsIff(cfg: Config, c: Collaborators, req: ExchangeRequest, now: int, jti: string,
                            r: Result<string, ExchangeError>)
    requires Answers(cfg, c, req, now, jti, r)
    ensures forall token :: r == Ok(token) <==> Signs(cfg, c, req, now, jti, Ok(token))
    ensures forall message :: r == Err(Generation(message)) <==> Signs(cfg, c, req, now, jti, Err(message))
    ensures r == Err(Unauthorized) <==> Denies(cfg, c, req)
    ensures forall m :: r == Err(TokenVerification(m)) <==> c.verify(cfg.clientAudience, req.authToken) == Err(m)
    ensures forall e :: r == Err(ServiceError(e)) <==> Finds(cfg, c, req, Err(e)) && !e.ClaimConflict?
    ensures r.Err? && r.error.ScopeConflict? <==>
      Clashes(cfg, c, req) || exists e :: Finds(cfg, c, req, Err(e)) && e.ClaimConflict?
  {
    forall t {
      SubmitsIffMinted(cfg, c, req, now, jti, t);
    }
  }

  /** The service gives every ordering and repetition of a scope list the same answers. */
  lemma AnswersDependOnScopeSet(cfg: Config, c: Collaborators, req: ExchangeRequest, scopes: seq<string>, now: int,
                                jti: string)
    requires Elems(req.scopes) == Elems(scopes)
    ensures forall r :: Answers(cfg, c, req, now, jti, r) <==> Answers(cfg, c, req.(scopes := scopes), now, jti, r)
  {
    var client := c.verify(cfg.clientAudience, req.authToken);
    if client.Ok? {
      var resolved := c.resolve(client.value.sub, req.participantContext);
      if resolved.Ok? {
        VerdictDependsOnScopeSet(resolved.value, req.scopes, scopes);
        SortedListingUnique(BTreeSetOf(req.scopes), BTreeSetOf(scopes));
      }
    }
  }

  // ---------------------------------------------------------------- claim names in the payload

  ghost predicate Distinct(names: seq<string>) {
    forall i, j :: 0 <= i < j < |names| ==> names[i] != names[j]
  }

  /** The claims that `TokenClaims` names itself. */
  const NAMED: seq<string> := ["sub", "iss", "aud", "iat", "exp", "nbf"]

  lemma NamedClaims()
    ensures Distinct(NAMED)
    ensures Elems(NAMED) <= RESERVED_CLAIMS - {"act", "jti"}
  {
  }

  /** The reserved names are exactly those that the server sets itself. */
  lemma ReservedIffSetByServer(k: string)
    ensures IsReservedClaim(k) <==> k in NAMED || k == "act" || k == "jti"
  {
  }

  /** The member names of the flattened payload, the custom claims listed in `order`. */
  function PayloadNames(order: seq<string>): seq<string> {
    NAMED + order
  }

  /** A flattened payload repeats no name exactly when the custom claims avoid the named ones. */
  lemma NamesDistinctIff(named: seq<string>, order: seq<string>)
    requires Distinct(named) && Distinct(order)
    ensures Distinct(named + order) <==> Elems(order) !! Elems(named)
  {
    var names := named + order;
    if Elems(order) !! Elems(named) {
      forall i, j | 0 <= i < j < |names| ensures names[i] != names[j] {
        if i < |named| <= j { assert order[j - |named|] in Elems(order) && named[i] in Elems(named); }
      }
    } else {
      var k :| k in Elems(order) && k in Elems(named);
      var i :| 0 <= i < |named| && named[i] == k;
      var j :| 0 <= j < |order| && order[j] == k;
      assert names[i] == names[|named| + j];
    }
  }

  /** Whatever the store holds, reserved keys included, no minted payload repeats a claim name
      (section 4 of RFC 7519). */
  lemma MintedNamesDistinct(cfg: Config, client: TokenClaims, pair: Option<MappingPair>, req: ExchangeRequest,
                            now: int, jti: string, order: seq<string>)
    requires Mint(cfg, client, pair, req, now, jti).Ok?
    requires Distinct(order) && Elems(order) == Mint(cfg, client, pair, req, now, jti).value.custom.Keys
    ensures Distinct(PayloadNames(order)) && PayloadNames(order) == ["sub", "iss", "aud", "iat", "exp", "nbf"] + order
  {
    NamedClaims();
    NamesDistinctIff(NAMED, order);
    MintExactly(cfg, client, pair, req, now, jti);
    forall k | k in Elems(order) ensures k !in Elems(NAMED) {
      assert k in {"act", "jti"} || !IsReservedClaim(k);
    }
  }

  // ---------------------------------------------------------------- the handler

  const TOKEN_EXCHANGE_GRANT_TYPE := "urn:ietf:params:oauth:grant-type:token-exchange"
  const ISSUED_TOKEN_TYPE := "urn:ietf:params:oauth:token-type:jwt"

  datatype TokenExchangeForm = TokenExchangeForm(
    grantType: string,
    subjectToken: string,
    subjectTokenType: string,
    resource: string,
    scope: Option<string>,
    audience: Option<string>)

  datatype TokenExchangeResponse = TokenExchangeResponse(
    accessToken: string,
    issuedTokenType: string,
    tokenType: string,
    expiresIn: int,
    scope: Option<string>)

  datatype ExchangeApiError =
    | UnsupportedGrantType(grantType: string)
    | UnsupportedTokenType(tokenType: string)
    | ExchangeFailed(error: ExchangeError)

  /** The scope parameter as its list of names. */
  function ParseScope(scope: Option<string>): seq<string> {
    SplitWhitespace(if scope.Some? then scope.value else "")
  }

  /** The scope parameter of the response: the sorted names, or nothing for an empty list. */
  function PrintScope(scope: Option<string>): Option<string> {
    var scopes := BTreeSetOf(ParseScope(scope));
    if scopes == [] then None else Some(Join(scopes))
  }

  /** Parsing the response scope gives exactly the granted names, each once and sorted; the response is
      silent exactly when none was requested; printing again changes nothing. */
  lemma ScopeRoundTrip(scope: Option<string>)
    ensures ParseScope(PrintScope(scope)) == BTreeSetOf(ParseScope(scope))
    ensures Elems(ParseScope(PrintScope(scope))) == Elems(ParseScope(scope))
    ensures PrintScope(scope) == None <==> ParseScope(scope) == []
    ensures PrintScope(PrintScope(scope)) == PrintScope(scope)
    ensures ParseScope(None) == [] && (scope.Some? ==> ParseScope(scope) == SplitWhitespace(scope.value))
    ensures PrintScope(scope).Some? ==> PrintScope(scope).value == Join(BTreeSetOf(ParseScope(scope)))
  {
    var scopes := BTreeSetOf(ParseScope(scope));
    forall t | t in scopes ensures IsToken(t) { assert t in Elems(ParseScope(scope)); }
    SplitJoinRoundTrip(scopes);
    ElemsEmpty(scopes);
    ElemsEmpty(ParseScope(scope));
    SortedListingUnique(BTreeSetOf(ParseScope(PrintScope(scope))), scopes);
  }

  lemma SignedLifetime(cfg: Config, c: Collaborators, req: ExchangeRequest, now: int, jti: string, token: string)
    requires Answers(cfg, c, req, now, jti, Ok(token))
    ensures exists t ::
      && Submits(cfg, c, req, now, jti, t)
      && c.generate(cfg.participantContext, t) == Ok(token) && t.exp - t.iat == cfg.tokenTtlSecs
  {
    ExchangeSucceedsIff(cfg, c, req, now, jti, Ok(token));
  }

  /** The endpoint. Its normalisation is invisible to the service: the answer is one the service gives
      for the names exactly as the client listed them. */
  method TokenExchange(cfg: Config, c: Collaborators, form: TokenExchangeForm, now: int, jti: string)
    returns (r: Result<TokenExchangeResponse, ExchangeApiError>)
    ensures form.grantType != TOKEN_EXCHANGE_GRANT_TYPE <==> r.Err? && r.error == UnsupportedGrantType(form.grantType)
    ensures form.grantType == TOKEN_EXCHANGE_GRANT_TYPE && form.subjectTokenType != ISSUED_TOKEN_TYPE <==>
      r.Err? && r.error == UnsupportedTokenType(form.subjectTokenType)
    ensures form.grantType == TOKEN_EXCHANGE_GRANT_TYPE && form.subjectTokenType == ISSUED_TOKEN_TYPE ==>
      var req := ExchangeRequest(form.resource, ParseScope(form.scope), form.subjectToken, form.audience);
      if r.Ok? then Answers(cfg, c, req, now, jti, Ok(r.value.accessToken))
      else r.error.ExchangeFailed? && Answers(cfg, c, req, now, jti, Err(r.error.error))
    ensures r.Ok? ==>
      && r.value.expiresIn == cfg.tokenTtlSecs
      && form.grantType == "urn:ietf:params:oauth:grant-type:token-exchange"
      && form.subjectTokenType == "urn:ietf:params:oauth:token-type:jwt"
      && r.value.issuedTokenType == "urn:ietf:params:oauth:token-type:jwt" && r.value.tokenType == "Bearer"
      && r.value.scope == PrintScope(form.scope)
      && Elems(ParseScope(r.value.scope)) == Elems(ParseScope(form.scope))
    ensures r.Ok? ==>
      var req := ExchangeRequest(form.resource, ParseScope(form.scope), form.subjectToken, form.audience);
      exists t :: Submits(cfg, c, req, now, jti, t)
        && c.generate(cfg.participantContext, t) == Ok(r.value.accessToken) && t.exp - t.iat == r.value.expiresIn
  {
    if form.grantType != TOKEN_EXCHANGE_GRANT_TYPE { return Err(UnsupportedGrantType(form.grantType)); }
    if form.subjectTokenType != ISSUED_TOKEN_TYPE { return Err(UnsupportedTokenType(form.subjectTokenType)); }
    var scopes := BTreeSetOf(SplitWhitespace(if form.scope.Some? then form.scope.value else ""));
    var grantedScope := if scopes != [] then Some(Join(scopes)) else None;
    ghost var req := ExchangeRequest(form.resource, ParseScope(form.scope), form.subjectToken, form.audience);
    AnswersDependOnScopeSet(cfg, c, req, scopes, now, jti);
    ScopeRoundTrip(form.scope);
    var sorted := ExchangeRequest(form.resource, scopes, form.subjectToken, form.audience);
    var token := ExchangeToken(cfg, c, sorted, now, jti);
    if token.Err? { return Err(ExchangeFailed(token.error)); }
    SignedLifetime(cfg, c, req, now, jti, token.value);
    return Ok(TokenExchangeResponse(token.value, ISSUED_TOKEN_TYPE, "Bearer", cfg.tokenTtlSecs, grantedScope));
  }
}
