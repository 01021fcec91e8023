/** `K8sTokenReviewVerifier`: one verification at a time, with its cached service-account token, its
    single retry on 401, and the renewal loop that refills the cache. */
module TokenReview {
  import opened Text
  import opened Policy

  const SERVICE_ACCOUNT_USERNAME_PREFIX := "system:serviceaccount:"
  const SERVICE_ACCOUNTS_GROUP := "system:serviceaccounts"
  const UNAUTHORIZED: nat := 401

  datatype UserInfo = UserInfo(username: string, uid: Option<string>, groups: seq<string>)
  {
    predicate IsServiceAccount() {
      SERVICE_ACCOUNT_USERNAME_PREFIX <= username && SERVICE_ACCOUNTS_GROUP in groups
    }
  }

  datatype TokenReviewStatus = TokenReviewStatus(
    authenticated: bool,
    user: Option<UserInfo>,
    error: Option<string>,
    audiences: seq<string>)

  datatype ApiAnswer = Reviewed(status: TokenReviewStatus) | HttpError(code: nat, message: string)
  {
    predicate IsUnauthorized() { HttpError? && code == UNAUTHORIZED }
  }

  /** The API server, asked with a service-account token, an audience and the token under review. */
  type ApiServer = (string, string, string) -> ApiAnswer

  datatype Failure =
    | NotInitialized
    | FileUnreadable(message: string)
    | WatchFailed(message: string)
    | ApiFailure(message: string)
    | NotAuthenticated(message: string)
    | AudienceNotConfirmed
    | NoUserInfo
    | NotServiceAccount(username: string)

  datatype VerifierConfig = VerifierConfig(clusterIssuer: string, requireServiceAccount: bool)

  /** What a review that arrived is worth. */
  function Judge(cfg: VerifierConfig, status: TokenReviewStatus, audience: string): (r: Result<TokenClaims, Failure>)
    ensures r.Ok? <==>
      && status.authenticated && audience in status.audiences && status.user.Some?
      && (cfg.requireServiceAccount ==> status.user.value.IsServiceAccount())
    ensures r.Ok? ==>
      && r.value.sub == status.user.value.username && r.value.iss == cfg.clusterIssuer && r.value.aud == audience
      && (forall k :: k in r.value.custom <==>
            k == K8S_UID_CLAIM && status.user.value.uid.Some? && status.user.value.uid.value != "")
      && (K8S_UID_CLAIM in r.value.custom ==> r.value.custom[K8S_UID_CLAIM] == JString(status.user.value.uid.value))
    ensures r.Err? && r.error.NotAuthenticated? <==> !status.authenticated
    ensures !status.authenticated ==>
      r.error.message == if status.error.Some? then status.error.value else "token not authenticated"
    ensures r == Err(AudienceNotConfirmed) <==> status.authenticated && audience !in status.audiences
    ensures r == Err(NoUserInfo) <==> status.authenticated && audience in status.audiences && status.user.None?
    ensures r.Err? && r.error.NotServiceAccount? ==> status.user.Some? && r.error.username == status.user.value.username
    ensures r.Err? ==>
      !r.error.ApiFailure? && !r.error.FileUnreadable? && !r.error.NotInitialized? && !r.error.WatchFailed?
  {
    if !status.authenticated then
      Err(NotAuthenticated(if status.error.Some? then status.error.value else "token not authenticated"))
    else if audience !in status.audiences then Err(AudienceNotConfirmed)
    else if status.user.None? then Err(NoUserInfo)
    else
      var user := status.user.value;
      if cfg.requireServiceAccount && !user.IsServiceAccount() then Err(NotServiceAccount(user.username))
      else
        var custom :=
          if user.uid.Some? && user.uid.value != "" then map[K8S_UID_CLAIM := JString(user.uid.value)] else map[];
        Ok(TokenClaims(user.username, cfg.clusterIssuer, audience, 0, 0, None, custom))
  }

  /** The outcome of a single call made with `saToken`. */
  function Direct(cfg: VerifierConfig, api: ApiServer, saToken: string, audience: string,
                  token: string): Result<TokenClaims, Failure> {
    match api(saToken, audience, token)
    case Reviewed(status) => Judge(cfg, status, audience)
    case HttpError(_, message) => Err(ApiFailure(message))
  }

  class K8sTokenReviewVerifier {
    const cfg: VerifierConfig
    const api: ApiServer
    var state: Option<string>

    constructor (cfg: VerifierConfig, api: ApiServer)
      ensures this.cfg == cfg && this.api == api && state == None
    {
      this.cfg, this.api := cfg, api;
      state := None;
    }

    /** Loads the cache once; a second call changes nothing. `watch` is the outcome of watching the file. */
    method Initialize(file: Result<string, string>, watch: Result<(), string>) returns (r: Result<(), Failure>)
      modifies this
      ensures r.Ok? <==> old(state).Some? || (file.Ok? && watch.Ok?)
      ensures r.Err? ==> r.error == if file.Err? then FileUnreadable(file.error) else WatchFailed(watch.error)
      ensures state == if old(state).Some? then old(state) else if r.Ok? then Some(Trim(file.value)) else None
    {
      if state.Some? { return Ok(()); }
      if file.Err? { return Err(FileUnreadable(file.error)); }
      if watch.Err? { return Err(WatchFailed(watch.error)); }
      state := Some(Trim(file.value));
      return Ok(());
    }

    method RefreshSaToken(file: Result<string, string>) returns (r: Result<string, Failure>)
      modifies this
      ensures file.Err? ==> r == Err(FileUnreadable(file.error)) && state == old(state)
      ensures file.Ok? && old(state).None? ==> r == Err(NotInitialized) && state == None
      ensures file.Ok? && old(state).Some? ==> r == Ok(Trim(file.value)) && state == Some(Trim(file.value))
    {
      if file.Err? { return Err(FileUnreadable(file.error)); }
      var token := Trim(file.value);
      if state.None? { return Err(NotInitialized); }
      state := Some(token);
      return Ok(token);
    }

    /** Verifies a token, retrying once with the re-read file when the API server answers 401. */
    method VerifyToken(audience: string, token: string, file: Result<string, string>)
      returns (r: Result<TokenClaims, Failure>, calls: nat)
      modifies this
      ensures calls <= 2
      ensures (r, state, calls) == Cached(cfg, api, old(state), file, audience, token)
      ensures old(state).None? ==> r == Err(NotInitialized) && calls == 0
      ensures old(state).Some? ==>
        var first := api(old(state).value, audience, token);
        && (first.HttpError? && first.code != 401 ==> r == Err(ApiFailure(first.message)))
        && (r.Ok? && !(first.HttpError? && first.code == 401) ==>
             first.Reviewed? && first.status.authenticated && audience in first.status.audiences)
        && (r.Ok? && first.HttpError? && first.code == 401 ==>
             && file.Ok?
             && var second := api(Trim(file.value), audience, token);
             second.Reviewed? && second.status.authenticated && audience in second.status.audiences)
    {
      calls := 0;
      if state.None? { return Err(NotInitialized), calls; }
      var saToken := state.value;
      var answer := api(saToken, audience, token);
      calls := calls + 1;
      if answer.IsUnauthorized() {
        var refreshed := RefreshSaToken(file);
        if refreshed.Err? { return Err(refreshed.error), calls; }
        answer := api(refreshed.value, audience, token);
        calls := calls + 1;
      }
      match answer {
        case HttpError(_, message) => return Err(ApiFailure(message)), calls;
        case Reviewed(status) => return Judge(cfg, status, audience), calls;
      }
    }
  }

  /** Result, cache and number of calls of one verification: the cached token if the API server takes it,
      else the file's. */
  function Cached(cfg: VerifierConfig, api: ApiServer, cell: Option<string>, file: Result<string, string>,
                  audience: string, token: string): (Result<TokenClaims, Failure>, Option<string>, nat)
  {
    if cell.None? then (Err(NotInitialized), None, 0)
    else if !api(cell.value, audience, token).IsUnauthorized() then
      (Direct(cfg, api, cell.value, audience, token), cell, 1)
    else if file.Err? then (Err(FileUnreadable(file.error)), cell, 1)
    else (Direct(cfg, api, Trim(file.value), audience, token), Some(Trim(file.value)), 2)
  }

  /** A verification accepts only what a review confirms: one of its calls, made with the cached token or,
      after a 401 alone, with the file's, came back as a review of this token that is authenticated and
      names the audience, and the claims are that review's user. */
  lemma AcceptedOnlyIfReviewed(cfg: VerifierConfig, api: ApiServer, cell: Option<string>, file: Result<string, string>,
                               audience: string, token: string)
    requires Cached(cfg, api, cell, file, audience, token).0.Ok?
    ensures var claims := Cached(cfg, api, cell, file, audience, token).0.value;
      && cell.Some?
      && var first := api(cell.value, audience, token);
      var rejected := first.HttpError? && first.code == 401;
      && (rejected ==> file.Ok?)
      && var answer := if rejected then api(Trim(file.value), audience, token) else first;
      && answer.Reviewed? && answer.status.authenticated && audience in answer.status.audiences
      && answer.status.user.Some? && claims.sub == answer.status.user.value.username
      && claims.iss == cfg.clusterIssuer && claims.aud == audience
      && (cfg.requireServiceAccount ==>
           && "system:serviceaccount:" <= answer.status.user.value.username
           && "system:serviceaccounts" in answer.status.user.value.groups)
  {
  }

  /** And it fails exactly as its calls do: an HTTP error other than 401 on the first call, or any on the
      second, is the answer, and so is a file that cannot be read in between; each review that arrives
      counts for what it is worth. */
  lemma FailuresPassThrough(cfg: VerifierConfig, api: ApiServer, cell: string, file: Result<string, string>,
                            audience: string, token: string)
    ensures var (r, cell', calls) := Cached(cfg, api, Some(cell), file, audience, token);
      match api(cell, audience, token)
      case Reviewed(status) => r == Judge(cfg, status, audience) && cell' == Some(cell) && calls == 1
      case HttpError(code, message) =>
        if code != 401 then r == Err(ApiFailure(message)) && cell' == Some(cell) && calls == 1
        else if file.Err? then r == Err(FileUnreadable(file.error)) && cell' == Some(cell) && calls == 1
        else
          && cell' == Some(Trim(file.value)) && calls == 2
          && match api(Trim(file.value), audience, token)
             case Reviewed(status) => r == Judge(cfg, status, audience)
             case HttpError(_, again) => r == Err(ApiFailure(again))
  {
  }

  /** A service account has both the prefixed name and the group; where one is required, either missing
      is refused with the name. */
  lemma ServiceAccountNeedsBoth(cfg: VerifierConfig, status: TokenReviewStatus, audience: string)
    requires status.authenticated && audience in status.audiences && status.user.Some?
    ensures var user := status.user.value;
      Judge(cfg, status, audience) == Err(NotServiceAccount(user.username)) <==>
        cfg.requireServiceAccount &&
        !("system:serviceaccount:" <= user.username && "system:serviceaccounts" in user.groups)
  {
  }

  /** The API server answers 401 exactly to service-account tokens it does not accept, and its answer to
      an accepted one depends only on audience and token under review. */
  ghost predicate Faithful(api: ApiServer, accepts: string -> bool) {
    && (forall sa, audience, token :: api(sa, audience, token).IsUnauthorized() <==> !accepts(sa))
    && (forall sa, sb, audience, token :: accepts(sa) && accepts(sb) ==>
          api(sa, audience, token) == api(sb, audience, token))
  }

  lemma AcceptedAlike(cfg: VerifierConfig, api: ApiServer, accepts: string -> bool, a: string, b: string,
                      audience: string, token: string)
    requires Faithful(api, accepts)
    ensures api(a, audience, token).IsUnauthorized() <==> !accepts(a)
    ensures accepts(a) && accepts(b) ==> Direct(cfg, api, a, audience, token) == Direct(cfg, api, b, audience, token)
  {
    if accepts(a) && accepts(b) { assert api(a, audience, token) == api(b, audience, token); }
  }

  /** The cache is transparent: for any cached value, a verification gives what reading the file on every
      call would give, and leaves an accepted token cached, unless the cache holds an accepted token while
      the file holds a rejected one; then the cached token answers where the file's is turned away. */
  lemma CacheIsTransparent(cfg: VerifierConfig, api: ApiServer, accepts: string -> bool, cell: string, raw: string,
                           audience: string, token: string)
    requires Faithful(api, accepts)
    ensures var (r, cell', calls) := Cached(cfg, api, Some(cell), Ok(raw), audience, token);
      && (!accepts(cell) || accepts(Trim(raw)) ==> r == Direct(cfg, api, Trim(raw), audience, token))
      && (accepts(cell) ==> calls == 1 && cell' == Some(cell))
      && (accepts(cell) && !accepts(Trim(raw)) ==>
           r == Direct(cfg, api, cell, audience, token) && api(Trim(raw), audience, token).IsUnauthorized())
      && (accepts(Trim(raw)) ==> cell'.Some? && accepts(cell'.value))
  {
    AcceptedAlike(cfg, api, accepts, cell, Trim(raw), audience, token);
    AcceptedAlike(cfg, api, accepts, Trim(raw), cell, audience, token);
  }

  /** After one verification with an accepted file token, the next one with that file needs a single call. */
  lemma RefreshPaysOff(cfg: VerifierConfig, api: ApiServer, accepts: string -> bool, cell: string, raw: string,
                       audience: string, token: string, audience': string, token': string)
    requires Faithful(api, accepts) && accepts(Trim(raw))
    ensures var cell' := Cached(cfg, api, Some(cell), Ok(raw), audience, token).1;
      Cached(cfg, api, cell', Ok(raw), audience', token').2 == 1
  {
    CacheIsTransparent(cfg, api, accepts, cell, raw, audience, token);
    var cell' := Cached(cfg, api, Some(cell), Ok(raw), audience, token).1;
    CacheIsTransparent(cfg, api, accepts, cell'.value, raw, audience', token');
  }

  // ---------------------------------------------------------------- the renewal loop

  datatype WatchItem = Modified | Created | Removed | OtherEvent | WatchError

  predicate Fires(item: WatchItem) {
    item.Modified? || item.Created? || item.Removed?
  }

  /** How often the trigger fires before it fails: the firing events ahead of the first watch error. */
  function Firings(queue: seq<WatchItem>): nat {
    if queue == [] || queue[0].WatchError? then 0
    else (if Fires(queue[0]) then 1 else 0) + Firings(queue[1..])
  }

  /** The cell after a series of file reads: the last successful one, trimmed. */
  function LastRead(cell: string, results: seq<Result<string, string>>): string {
    if results == [] then cell
    else
      var last := results[|results| - 1];
      if last.Ok? then Trim(last.value) else LastRead(cell, results[..|results| - 1])
  }

  /** The last read that succeeded, or what was there when none did. */
  lemma {:induction false} LastReadIs(cell: string, results: seq<Result<string, string>>, last: int)
    requires -1 <= last < |results| && (last >= 0 ==> results[last].Ok?)
    requires forall j :: last < j < |results| ==> results[j].Err?
    ensures LastRead(cell, results) == if last >= 0 then Trim(results[last].value) else cell
  {
    if results != [] && last < |results| - 1 { LastReadIs(cell, results[..|results| - 1], last); }
  }

  /** The trigger fires for every creation, modification or removal, up to the first watch error. */
  lemma {:induction false} FiringsAppend(a: seq<WatchItem>, item: WatchItem, b: seq<WatchItem>)
    requires forall j :: 0 <= j < |a| ==> !a[j].WatchError?
    ensures item == WatchError ==> Firings(a + [item] + b) == Firings(a)
    ensures item == OtherEvent ==> Firings(a + [item] + b) == Firings(a) + Firings(b)
    ensures item == Created || item == Modified || item == Removed ==>
      Firings(a + [item] + b) == Firings(a) + 1 + Firings(b)
    ensures Firings([]) == 0
  {
    var queue := a + [item] + b;
    if a == [] {
      assert queue[0] == item && queue[1..] == b;
    } else {
      FiringsAppend(a[1..], item, b);
      assert queue[0] == a[0] && queue[1..] == a[1..] + [item] + b;
    }
  }

  /** Consumes events until one fires; `false` when the watcher fails or its channel closes. */
  method WaitForTrigger(queue: seq<WatchItem>) returns (fired: bool, rest: seq<WatchItem>)
    ensures fired <==> Firings(queue) > 0
    ensures fired ==> |rest| < |queue| && Firings(rest) == Firings(queue) - 1
    ensures fired ==>
      var n := |queue| - |rest| - 1;
      rest == queue[n + 1..] && Fires(queue[n]) && forall j :: 0 <= j < n ==> queue[j].OtherEvent?
  {
    rest := queue;
    while rest != []
      invariant |rest| <= |queue|
      invariant Firings(rest) == Firings(queue)
      invariant rest == queue[|queue| - |rest|..]
      invariant forall j :: 0 <= j < |queue| - |rest| ==> queue[j].OtherEvent?
      decreases |rest|
    {
      var item := rest[0];
      if item.WatchError? { return false, rest; }
      rest := rest[1..];
      if Fires(item) { return true, rest; }
    }
    return false, rest;
  }

  class SaTokenRenewer {
    var token: string

    /** The loop of the background task: one file read for every firing, kept when it succeeds. */
    method Renew(queue: seq<WatchItem>, results: seq<Result<string, string>>)
      requires |results| >= Firings(queue)
      modifies this
      ensures token == LastRead(old(token), results[..Firings(queue)])
    {
      var rest, n := queue, 0;
      while true
        invariant n + Firings(rest) == Firings(queue)
        invariant token == LastRead(old(token), results[..n])
        decreases |rest|
      {
        var fired;
        fired, rest := WaitForTrigger(rest);
        if !fired { break; }
        assert results[..n + 1][..n] == results[..n];
        if results[n].Ok? { token := Trim(results[n].value); }
        n := n + 1;
      }
    }
  }
}
