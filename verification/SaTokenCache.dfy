/** The shared service-account token under concurrency: the kubelet rotates the file, the renewer
    re-reads it and writes the cell, and any number of verifications load the cell, are rejected,
    re-read the file, write the cell and retry. Every await point of the code is a place where the
    others may step in, and the API server may change its mind at any moment. */
module SaTokenCache {
  import opened Text
  import opened Policy
  import opened TokenReview

  /** What a verification is about. */
  datatype Query = Query(audience: string, token: string)

  /** The verifier's configuration, and the API server as it is at each moment. */
  datatype Env = Env(cfg: VerifierConfig, api: nat -> ApiServer)
  {
    function Ask(at: nat, saToken: string, q: Query): ApiAnswer {
      api(at)(saToken, q.audience, q.token)
    }

    function Outcome(at: nat, saToken: string, q: Query): Result<TokenClaims, Failure> {
      Direct(cfg, api(at), saToken, q.audience, q.token)
    }
  }

  /** Where one verification stands. `version` is the file version behind the token it holds, `seen` the
      version that was current when its 401 arrived (or its only answer, if there was no 401), and
      `until` the number of versions there were when it ended, at moment `at`. */
  datatype Phase =
    | Calling(version: nat, saToken: string)
    | Rejected(seen: nat)
    | Reread(seen: nat, version: nat)
    | Retrying(seen: nat, version: nat, saToken: string)
    | Finished(seen: nat, version: nat, until: nat, at: nat, result: Result<TokenClaims, Failure>)
    | Unreadable(message: string)

  /** A verification begun when version `since` was current, after `calls` calls of the API server. */
  datatype Review = Review(query: Query, since: nat, calls: nat, phase: Phase)
  {
    function Result(): Option<Result<TokenClaims, Failure>> {
      match phase
      case Finished(_, _, _, _, result) => Some(result)
      case Unreadable(message) => Some(Err(FileUnreadable(message)))
      case _ => None
    }
  }

  /** `versions` lists the raw contents the file has had; the last one is current. `cellVersion` is the
      version behind the cell, `renewer` the one that the renewer has read and not yet written. */
  datatype Cache = Cache(
    clock: nat,
    versions: seq<string>,
    cell: string,
    cellVersion: nat,
    renewer: Option<nat>,
    reviews: map<nat, Review>)

  datatype Event =
    | Rotate(raw: string)
    | RenewerReads
    | RenewerWrites
    | Begin(id: nat, query: Query)
    | Answer(id: nat)
    | RefreshReads(id: nat)
    | RefreshFails(id: nat, message: string)
    | RefreshWrites(id: nat)
    | RetryAnswer(id: nat)

  // ---------------------------------------------------------------- the machine

  /** The version is one the file has had, and the token is its trimmed contents. */
  ghost predicate Holds(versions: seq<string>, version: nat, saToken: string) {
    version < |versions| && saToken == Trim(versions[version])
  }

  ghost predicate ReviewConsistent(env: Env, versions: seq<string>, r: Review) {
    match r.phase
    case Calling(version, saToken) => r.calls == 0 && r.since < |versions| && Holds(versions, version, saToken)
    case Rejected(seen) => r.calls == 1 && r.since <= seen < |versions|
    case Reread(seen, version) => r.calls == 1 && r.since <= seen <= version < |versions|
    case Retrying(seen, version, saToken) =>
      r.calls == 1 && r.since <= seen <= version && Holds(versions, version, saToken)
    case Finished(seen, version, until, at, result) =>
      && 1 <= r.calls <= 2
      && r.since <= seen < until <= |versions| && version < until
      && result == env.Outcome(at, Trim(versions[version]), r.query)
      && (r.calls == 2 ==> seen <= version)
      && (r.calls == 1 ==> seen == until - 1 && !env.Ask(at, Trim(versions[version]), r.query).IsUnauthorized())
    case Unreadable(_) => r.calls == 1
  }

  ghost predicate Consistent(env: Env, c: Cache) {
    && Holds(c.versions, c.cellVersion, c.cell)
    && (c.renewer.Some? ==> c.renewer.value < |c.versions|)
    && (forall id :: id in c.reviews ==> ReviewConsistent(env, c.versions, c.reviews[id]))
  }

  /** After `initialize` has read the first version. */
  function Initialized(raw: string): Cache {
    Cache(0, [raw], Trim(raw), 0, None, map[])
  }

  /** A verification's own step; a step that its phase does not allow changes nothing. */
  function Advance(env: Env, c: Cache, r: Review, e: Event): Review
    requires c.versions != [] && (r.phase.Reread? ==> r.phase.version < |c.versions|)
  {
    var p, current: nat := r.phase, |c.versions| - 1;
    if e.Answer? && p.Calling? then
      r.(calls := r.calls + 1,
         phase := if env.Ask(c.clock, p.saToken, r.query).IsUnauthorized() then Rejected(current)
                  else Finished(current, p.version, |c.versions|, c.clock, env.Outcome(c.clock, p.saToken, r.query)))
    else if e.RefreshReads? && p.Rejected? then r.(phase := Reread(p.seen, current))
    else if e.RefreshFails? && p.Rejected? then r.(phase := Unreadable(e.message))
    else if e.RefreshWrites? && p.Reread? then r.(phase := Retrying(p.seen, p.version, Trim(c.versions[p.version])))
    else if e.RetryAnswer? && p.Retrying? then
      r.(calls := r.calls + 1,
         phase := Finished(p.seen, p.version, |c.versions|, c.clock, env.Outcome(c.clock, p.saToken, r.query)))
    else r
  }

  /** The step of verification `id`; a refresh writes the cell before it retries. */
  function Progress(env: Env, c: Cache, id: nat, e: Event): Cache
    requires c.versions != [] && id in c.reviews
    requires c.reviews[id].phase.Reread? ==> c.reviews[id].phase.version < |c.versions|
  {
    var r := c.reviews[id];
    var c' := c.(reviews := c.reviews[id := Advance(env, c, r, e)]);
    if e.RefreshWrites? && r.phase.Reread?
    then c'.(cell := Trim(c.versions[r.phase.version]), cellVersion := r.phase.version)
    else c'
  }

  function Act(env: Env, c: Cache, e: Event): Cache
    requires Consistent(env, c)
  {
    match e
    case Rotate(raw) => c.(versions := c.versions + [raw])
    case RenewerReads => if c.renewer.Some? then c else c.(renewer := Some(|c.versions| - 1))
    case RenewerWrites =>
      if c.renewer.None? then c
      else c.(cell := Trim(c.versions[c.renewer.value]), cellVersion := c.renewer.value, renewer := None)
    case Begin(id, query) =>
      if id in c.reviews then c
      else c.(reviews := c.reviews[id := Review(query, |c.versions| - 1, 0, Calling(c.cellVersion, c.cell))])
    case _ =>
      if e.id !in c.reviews then c
      else
        assert ReviewConsistent(env, c.versions, c.reviews[e.id]);
        Progress(env, c, e.id, e)
  }

  /** One event; time passes. */
  function Next(env: Env, c: Cache, e: Event): Cache
    requires Consistent(env, c)
  {
    Act(env, c, e).(clock := c.clock + 1)
  }

  lemma RotateKeeps(env: Env, versions: seq<string>, raw: string, r: Review)
    requires ReviewConsistent(env, versions, r)
    ensures ReviewConsistent(env, versions + [raw], r)
  {
  }

  lemma AdvanceKeeps(env: Env, c: Cache, r: Review, e: Event)
    requires c.versions != [] && ReviewConsistent(env, c.versions, r)
    ensures ReviewConsistent(env, c.versions, Advance(env, c, r, e))
  {
  }

  lemma ProgressKeeps(env: Env, c: Cache, id: nat, e: Event)
    requires Consistent(env, c) && id in c.reviews
    requires c.reviews[id].phase.Reread? ==> c.reviews[id].phase.version < |c.versions|
    ensures Consistent(env, Progress(env, c, id, e))
  {
    AdvanceKeeps(env, c, c.reviews[id], e);
  }

  lemma NextKeeps(env: Env, c: Cache, e: Event)
    requires Consistent(env, c)
    ensures Consistent(env, Next(env, c, e))
  {
    if e.Rotate? {
      forall id | id in c.reviews ensures ReviewConsistent(env, c.versions + [e.raw], c.reviews[id]) {
        RotateKeeps(env, c.versions, e.raw, c.reviews[id]);
      }
    } else if !e.RenewerReads? && !e.RenewerWrites? && !e.Begin? && e.id in c.reviews {
      assert ReviewConsistent(env, c.versions, c.reviews[e.id]);
      ProgressKeeps(env, c, e.id, e);
    }
  }

  /** Any interleaving of file rotations, renewer steps and verification steps. */
  function RunFrom(env: Env, c: Cache, events: seq<Event>): (c': Cache)
    requires Consistent(env, c)
    ensures Consistent(env, c')
  {
    if events == [] then c
    else
      var before := RunFrom(env, c, events[..|events| - 1]);
      NextKeeps(env, before, events[|events| - 1]);
      Next(env, before, events[|events| - 1])
  }

  function Exec(env: Env, raw: string, events: seq<Event>): Cache {
    RunFrom(env, Initialized(raw), events)
  }

  /** What a verification records when it begins: the version that is current then. */
  lemma BeginRecords(env: Env, c: Cache, id: nat, q: Query)
    requires Consistent(env, c) && id !in c.reviews
    ensures var c' := Next(env, c, Begin(id, q));
      id in c'.reviews && c'.reviews[id] == Review(q, |c.versions| - 1, 0, Calling(c.cellVersion, c.cell))
  {
  }

  /** And when its first answer arrives: the version current then, and, unless that is a 401, how many
      versions there were and which moment it was. */
  lemma AnswerRecords(env: Env, c: Cache, id: nat)
    requires Consistent(env, c) && id in c.reviews && c.reviews[id].phase.Calling?
    ensures var c', r := Next(env, c, Answer(id)), c.reviews[id];
      var answer := env.api(c.clock)(r.phase.saToken, r.query.audience, r.query.token);
      && id in c'.reviews && c'.reviews[id].calls == r.calls + 1 && c'.reviews[id].since == r.since
      && var p := c'.reviews[id].phase;
      if answer.HttpError? && answer.code == 401 then p == Rejected(|c.versions| - 1)
      else p.Finished? && p.seen == |c.versions| - 1 && p.until == |c.versions| && p.at == c.clock
  {
  }

  /** And when it re-reads the file: the version current then. */
  lemma RereadRecords(env: Env, c: Cache, id: nat)
    requires Consistent(env, c) && id in c.reviews && c.reviews[id].phase.Rejected?
    ensures var c', r := Next(env, c, RefreshReads(id)), c.reviews[id];
      id in c'.reviews && c'.reviews[id] == r.(phase := Reread(r.phase.seen, |c.versions| - 1))
  {
  }

  /** And when the answer to its retry arrives. */
  lemma RetryRecords(env: Env, c: Cache, id: nat)
    requires Consistent(env, c) && id in c.reviews && c.reviews[id].phase.Retrying?
    ensures var c', r := Next(env, c, RetryAnswer(id)), c.reviews[id];
      && id in c'.reviews && c'.reviews[id].calls == r.calls + 1 && c'.reviews[id].since == r.since
      && var p := c'.reviews[id].phase;
      p.Finished? && p.seen == r.phase.seen && p.until == |c.versions| && p.at == c.clock
  {
  }

  // ---------------------------------------------------------------- every interleaving

  /** In every reachable state the cell holds some version of the file, and a verification that retries
      or has retried does so with a version at least as recent as the one current when its 401 arrived,
      whatever the cell has come to hold meanwhile; no verification makes more than two calls. */
  lemma RetryIsFresh(env: Env, raw: string, events: seq<Event>)
    ensures var c := Exec(env, raw, events);
      && Holds(c.versions, c.cellVersion, c.cell)
      && (forall id :: id in c.reviews ==>
            var r := c.reviews[id];
            && r.calls <= 2
            && (r.phase.Retrying? ==>
                 r.since <= r.phase.seen <= r.phase.version && Holds(c.versions, r.phase.version, r.phase.saToken))
            && (r.phase.Finished? && r.calls == 2 ==> r.since <= r.phase.seen <= r.phase.version < |c.versions|))
  {
    var c := Exec(env, raw, events);
    forall id | id in c.reviews ensures ReviewConsistent(env, c.versions, c.reviews[id]) {}
  }

  /** What a finished verification answered: after a retry, the answer to a version of the file that was
      current at some moment between its begin and its end. If moreover the API server accepted, at the
      last call, the versions that were current from the 401 on, the answer is not a 401 and is the one
      that each of those versions would have got. */
  ghost predicate Transparent(env: Env, versions: seq<string>, r: Review, accepts: string -> bool)
    requires r.phase.Finished?
  {
    var p := r.phase;
    && r.since <= p.seen < p.until <= |versions| && p.version < p.until
    && (r.calls == 2 ==>
         exists v :: r.since <= v < p.until && p.result == env.Outcome(p.at, Trim(versions[v]), r.query))
    && (Faithful(env.api(p.at), accepts) && (forall v :: p.seen <= v < p.until ==> accepts(Trim(versions[v]))) ==>
         && !env.Ask(p.at, Trim(versions[p.version]), r.query).IsUnauthorized()
         && forall v :: p.seen <= v < p.until ==> p.result == env.Outcome(p.at, Trim(versions[v]), r.query))
  }

  lemma FinishedReview(env: Env, versions: seq<string>, r: Review, accepts: string -> bool)
    requires ReviewConsistent(env, versions, r) && r.phase.Finished?
    ensures Transparent(env, versions, r, accepts)
  {
    var p := r.phase;
    if Faithful(env.api(p.at), accepts) && forall v :: p.seen <= v < p.until ==> accepts(Trim(versions[v])) {
      var used := Trim(versions[p.version]);
      assert r.calls == 2 ==> accepts(Trim(versions[p.version]));
      forall v | p.seen <= v < p.until ensures p.result == env.Outcome(p.at, Trim(versions[v]), r.query) {
        AcceptedAlike(env.cfg, env.api(p.at), accepts, used, Trim(versions[v]), r.query.audience, r.query.token);
      }
    }
  }

  /** Under any interleaving, every verification that has finished answered as the file would have. */
  lemma ConcurrentCacheIsTransparent(env: Env, raw: string, events: seq<Event>, id: nat, accepts: string -> bool)
    requires id in Exec(env, raw, events).reviews
    requires Exec(env, raw, events).reviews[id].phase.Finished?
    ensures Transparent(env, Exec(env, raw, events).versions, Exec(env, raw, events).reviews[id], accepts)
  {
    var c := Exec(env, raw, events);
    assert ReviewConsistent(env, c.versions, c.reviews[id]);
    FinishedReview(env, c.versions, c.reviews[id], accepts);
  }

  // ---------------------------------------------------------------- a verification left alone

  lemma {:induction false} RunSnoc(env: Env, c: Cache, events: seq<Event>, e: Event)
    requires Consistent(env, c)
    ensures RunFrom(env, c, events + [e]) == Next(env, RunFrom(env, c, events), e)
  {
    assert (events + [e])[..|events|] == events;
  }

  lemma RunOne(env: Env, c: Cache, e: Event)
    requires Consistent(env, c)
    ensures RunFrom(env, c, [e]) == Next(env, c, e)
  {
    RunSnoc(env, c, [], e);
    assert [] + [e] == [e];
  }

  function RefreshOf(id: nat, file: Result<string, string>): Event {
    if file.Ok? then RefreshReads(id) else RefreshFails(id, file.error)
  }

  /** The steps of one verification whose re-read gives `file`; those it does not need change nothing. */
  function Alone(id: nat, q: Query, file: Result<string, string>): seq<Event> {
    [Begin(id, q)] + [Answer(id)] + [RefreshOf(id, file)] + [RefreshWrites(id)] + [RetryAnswer(id)]
  }

  predicate OwnedBy(e: Event, id: nat) {
    !e.Rotate? && !e.RenewerReads? && !e.RenewerWrites? && !e.Begin? && e.id == id
  }

  /** A verification's own step, as it sees itself, the cell and the file. */
  ghost predicate Stepped(env: Env, c: Cache, id: nat, e: Event, c': Cache) {
    && c.versions != [] && id in c.reviews && id in c'.reviews
    && var r := c.reviews[id];
    && (r.phase.Reread? ==> r.phase.version < |c.versions|)
    && c'.clock == c.clock + 1 && c'.versions == c.versions && c'.reviews[id] == Advance(env, c, r, e)
    && c'.cell == if e.RefreshWrites? && r.phase.Reread? then Trim(c.versions[r.phase.version]) else c.cell
  }

  lemma OwnStep(env: Env, c: Cache, events: seq<Event>, id: nat, e: Event)
    requires Consistent(env, c) && id in RunFrom(env, c, events).reviews
    requires OwnedBy(e, id)
    ensures Stepped(env, RunFrom(env, c, events), id, e, RunFrom(env, c, events + [e]))
  {
    var before := RunFrom(env, c, events);
    RunSnoc(env, c, events, e);
    assert ReviewConsistent(env, before.versions, before.reviews[id]);
  }

  ghost predicate Begun(c: Cache, id: nat, q: Query, c': Cache) {
    && c'.clock == c.clock + 1 && c'.versions == c.versions && c'.cell == c.cell
    && id in c'.reviews && c'.reviews[id].query == q && c'.reviews[id].calls == 0
    && c'.reviews[id].phase == Calling(c.cellVersion, c.cell)
  }

  lemma BeginStep(env: Env, c: Cache, id: nat, q: Query)
    requires Consistent(env, c) && id !in c.reviews
    ensures Begun(c, id, q, RunFrom(env, c, [Begin(id, q)]))
  {
    RunOne(env, c, Begin(id, q));
  }

  /** The first call, made at moment `at` with the cell's token, has been answered. */
  ghost predicate FirstAnswered(env: Env, c: Cache, id: nat, q: Query, at: nat, c': Cache) {
    && c'.versions == c.versions && c'.cell == c.cell
    && id in c'.reviews && c'.reviews[id].query == q && c'.reviews[id].calls == 1
    && (env.Ask(at, c.cell, q).IsUnauthorized() ==> c'.reviews[id].phase.Rejected?)
    && (!env.Ask(at, c.cell, q).IsUnauthorized() ==>
         c'.reviews[id].phase.Finished? && c'.reviews[id].phase.result == env.Outcome(at, c.cell, q))
  }

  /** The verification is over: as it was, or refreshed and asked again at moment `at`. */
  ghost predicate Settled(env: Env, c: Cache, id: nat, file: Result<string, string>, at: nat, c': Cache)
    requires id in c.reviews
  {
    var r := c.reviews[id];
    && id in c'.reviews
    && (r.phase.Finished? ==> c'.reviews[id] == r && c'.cell == c.cell)
    && (r.phase.Rejected? && file.Err? ==> c'.reviews[id] == r.(phase := Unreadable(file.error)) && c'.cell == c.cell)
    && (r.phase.Rejected? && file.Ok? ==>
         && c'.reviews[id].calls == r.calls + 1 && c'.cell == Trim(file.value)
         && c'.reviews[id].Result() == Some(env.Outcome(at, Trim(file.value), r.query)))
  }

  lemma FirstCall(env: Env, c: Cache, id: nat, q: Query, c1: Cache, c2: Cache)
    requires Begun(c, id, q, c1) && Stepped(env, c1, id, Answer(id), c2)
    ensures FirstAnswered(env, c, id, q, c1.clock, c2)
  {
  }

  lemma Remainder(env: Env, c: Cache, id: nat, file: Result<string, string>, c1: Cache, c2: Cache, c3: Cache)
    requires c.versions != [] && (file.Ok? ==> file.value == c.versions[|c.versions| - 1])
    requires Stepped(env, c, id, RefreshOf(id, file), c1)
    requires Stepped(env, c1, id, RefreshWrites(id), c2)
    requires Stepped(env, c2, id, RetryAnswer(id), c3)
    ensures Settled(env, c, id, file, c2.clock, c3)
  {
  }

  /** Verification `id` ended as the sequential one does: same result, cell and number of calls. */
  ghost predicate EndsAs(c: Cache, id: nat, outcome: (Result<TokenClaims, Failure>, Option<string>, nat)) {
    && id in c.reviews
    && c.reviews[id].Result() == Some(outcome.0) && Some(c.cell) == outcome.1 && c.reviews[id].calls == outcome.2
  }

  lemma SettledAsCached(env: Env, c: Cache, id: nat, q: Query, file: Result<string, string>, api: ApiServer,
                        at: nat, c1: Cache, at': nat, c2: Cache)
    requires forall sa :: env.Ask(at, sa, q) == api(sa, q.audience, q.token)
    requires forall sa :: env.Ask(at', sa, q) == api(sa, q.audience, q.token)
    requires FirstAnswered(env, c, id, q, at, c1) && Settled(env, c1, id, file, at', c2)
    ensures EndsAs(c2, id, Cached(env.cfg, api, Some(c.cell), file, q.audience, q.token))
  {
    assert env.Ask(at, c.cell, q) == api(c.cell, q.audience, q.token);
    assert file.Ok? ==> env.Ask(at', Trim(file.value), q) == api(Trim(file.value), q.audience, q.token);
  }

  /** Write and retry, after any run. */
  lemma WriteAndRetry(env: Env, c: Cache, events: seq<Event>, id: nat) returns (c1: Cache, c2: Cache)
    requires Consistent(env, c) && id in RunFrom(env, c, events).reviews
    ensures c2 == RunFrom(env, c, events + [RefreshWrites(id)] + [RetryAnswer(id)])
    ensures Stepped(env, RunFrom(env, c, events), id, RefreshWrites(id), c1)
    ensures Stepped(env, c1, id, RetryAnswer(id), c2)
  {
    OwnStep(env, c, events, id, RefreshWrites(id));
    OwnStep(env, c, events + [RefreshWrites(id)], id, RetryAnswer(id));
    c1 := RunFrom(env, c, events + [RefreshWrites(id)]);
    c2 := RunFrom(env, c, events + [RefreshWrites(id)] + [RetryAnswer(id)]);
  }

  lemma RefreshAndRetry(env: Env, c: Cache, events: seq<Event>, id: nat, file: Result<string, string>, c0: Cache)
    returns (c1: Cache, c2: Cache, c3: Cache)
    requires Consistent(env, c) && c0 == RunFrom(env, c, events) && id in c0.reviews
    ensures c3 == RunFrom(env, c, events + [RefreshOf(id, file)] + [RefreshWrites(id)] + [RetryAnswer(id)])
    ensures Stepped(env, c0, id, RefreshOf(id, file), c1)
    ensures Stepped(env, c1, id, RefreshWrites(id), c2)
    ensures Stepped(env, c2, id, RetryAnswer(id), c3)
  {
    OwnStep(env, c, events, id, RefreshOf(id, file));
    c1 := RunFrom(env, c, events + [RefreshOf(id, file)]);
    c2, c3 := WriteAndRetry(env, c, events + [RefreshOf(id, file)], id);
  }

  /** The states that a verification left alone goes through. */
  ghost predicate LeftAlone(env: Env, c: Cache, id: nat, q: Query, file: Result<string, string>,
                            c1: Cache, c2: Cache, c3: Cache, c4: Cache, c5: Cache) {
    && Begun(c, id, q, c1)
    && Stepped(env, c1, id, Answer(id), c2)
    && Stepped(env, c2, id, RefreshOf(id, file), c3)
    && Stepped(env, c3, id, RefreshWrites(id), c4)
    && Stepped(env, c4, id, RetryAnswer(id), c5)
  }

  lemma AloneStates(env: Env, c: Cache, id: nat, q: Query, file: Result<string, string>)
    returns (c1: Cache, c2: Cache, c3: Cache, c4: Cache, c5: Cache)
    requires Consistent(env, c) && id !in c.reviews
    ensures LeftAlone(env, c, id, q, file, c1, c2, c3, c4, c5) && c5 == RunFrom(env, c, Alone(id, q, file))
  {
    BeginStep(env, c, id, q);
    OwnStep(env, c, [Begin(id, q)], id, Answer(id));
    c1, c2 := RunFrom(env, c, [Begin(id, q)]), RunFrom(env, c, [Begin(id, q)] + [Answer(id)]);
    c3, c4, c5 := RefreshAndRetry(env, c, [Begin(id, q)] + [Answer(id)], id, file, c2);
  }

  lemma LeftAloneEnds(env: Env, c: Cache, id: nat, q: Query, file: Result<string, string>, api: ApiServer,
                      c1: Cache, c2: Cache, c3: Cache, c4: Cache, c5: Cache)
    requires c.versions != [] && (file.Ok? ==> file.value == c.versions[|c.versions| - 1])
    requires forall t, sa :: c.clock < t < c.clock + 5 ==> env.Ask(t, sa, q) == api(sa, q.audience, q.token)
    requires LeftAlone(env, c, id, q, file, c1, c2, c3, c4, c5)
    ensures EndsAs(c5, id, Cached(env.cfg, api, Some(c.cell), file, q.audience, q.token))
  {
    FirstCall(env, c, id, q, c1, c2);
    Remainder(env, c2, id, file, c3, c4, c5);
    SettledAsCached(env, c, id, q, file, api, c1.clock, c2, c4.clock, c5);
  }

  /** Without interference the machine is the sequential verification: same result, cell and calls. */
  lemma AloneIsCached(env: Env, c: Cache, id: nat, q: Query, file: Result<string, string>, api: ApiServer)
    requires Consistent(env, c) && id !in c.reviews
    requires file.Ok? ==> file.value == c.versions[|c.versions| - 1]
    requires forall t, sa :: c.clock < t < c.clock + 5 ==> env.Ask(t, sa, q) == api(sa, q.audience, q.token)
    ensures EndsAs(RunFrom(env, c, Alone(id, q, file)), id,
                   Cached(env.cfg, api, Some(c.cell), file, q.audience, q.token))
  {
    var c1, c2, c3, c4, c5 := AloneStates(env, c, id, q, file);
    LeftAloneEnds(env, c, id, q, file, api, c1, c2, c3, c4, c5);
  }

  // ---------------------------------------------------------------- how recent the cell stays

  /** A write that is still to come would put a version older than `v` into the cell. */
  ghost predicate Stale(c: Cache, v: nat) {
    || (c.renewer.Some? && c.renewer.value < v)
    || (exists id :: id in c.reviews && c.reviews[id].phase.Reread? && c.reviews[id].phase.version < v)
  }

  ghost predicate StaysRecent(c: Cache, v: nat) {
    c.cellVersion >= v && !Stale(c, v)
  }

  lemma ProgressStaysRecent(env: Env, c: Cache, id: nat, e: Event, v: nat)
    requires v < |c.versions| && StaysRecent(c, v) && id in c.reviews
    requires c.reviews[id].phase.Reread? ==> c.reviews[id].phase.version < |c.versions|
    ensures StaysRecent(Progress(env, c, id, e), v)
  {
  }

  lemma NextStaysRecent(env: Env, c: Cache, e: Event, v: nat)
    requires Consistent(env, c) && v < |c.versions| && StaysRecent(c, v)
    ensures v < |Next(env, c, e).versions| && StaysRecent(Next(env, c, e), v)
  {
    if !e.Rotate? && !e.RenewerReads? && !e.RenewerWrites? && !e.Begin? && e.id in c.reviews {
      assert ReviewConsistent(env, c.versions, c.reviews[e.id]);
      ProgressStaysRecent(env, c, e.id, e, v);
    }
  }

  lemma {:induction false} RunStaysRecent(env: Env, c: Cache, events: seq<Event>, v: nat)
    requires Consistent(env, c) && v < |c.versions| && StaysRecent(c, v)
    ensures v < |RunFrom(env, c, events).versions| && StaysRecent(RunFrom(env, c, events), v)
  {
    if events != [] {
      RunStaysRecent(env, c, events[..|events| - 1], v);
      NextStaysRecent(env, RunFrom(env, c, events[..|events| - 1]), events[|events| - 1], v);
    }
  }

  ghost predicate FallsBehind(env: Env, c: Cache, v: nat, events: seq<Event>)
    requires Consistent(env, c)
  {
    RunFrom(env, c, events).cellVersion < v
  }

  lemma WriteFallsBehind(env: Env, c: Cache, v: nat, e: Event)
    requires Consistent(env, c) && Next(env, c, e).cellVersion < v
    ensures FallsBehind(env, c, v, [e])
  {
    RunOne(env, c, e);
  }

  /** The write that takes the cell back, if it is not behind already. */
  lemma StaleFallsBehind(env: Env, c: Cache, v: nat) returns (events: seq<Event>)
    requires Consistent(env, c) && !StaysRecent(c, v)
    ensures FallsBehind(env, c, v, events)
  {
    if c.cellVersion < v {
      events := [];
    } else if c.renewer.Some? && c.renewer.value < v {
      WriteFallsBehind(env, c, v, RenewerWrites);
      events := [RenewerWrites];
    } else {
      var id :| id in c.reviews && c.reviews[id].phase.Reread? && c.reviews[id].phase.version < v;
      WriteFallsBehind(env, c, v, RefreshWrites(id));
      events := [RefreshWrites(id)];
    }
  }

  /** The cell is, and under every further interleaving remains, at least as recent as version `v`
      exactly when it is so now and nobody holds an older version read but not yet written. */
  lemma CellStaysRecentIff(env: Env, c: Cache, v: nat)
    requires Consistent(env, c) && v < |c.versions|
    ensures (forall events :: RunFrom(env, c, events).cellVersion >= v) <==> c.cellVersion >= v && !Stale(c, v)
  {
    if StaysRecent(c, v) {
      forall events ensures RunFrom(env, c, events).cellVersion >= v { RunStaysRecent(env, c, events, v); }
    } else {
      var events := StaleFallsBehind(env, c, v);
      assert FallsBehind(env, c, v, events);
      assert !(RunFrom(env, c, events).cellVersion >= v);
    }
  }

  /** A late write may overtake a retry: the cell then holds the renewer's older version, and not the
      token under way whenever the two versions differ once trimmed. */
  lemma LateWriteOvertakes(env: Env, c: Cache, id: nat)
    requires Consistent(env, c) && id in c.reviews && c.reviews[id].phase.Retrying?
    requires c.renewer.Some? && c.renewer.value < c.reviews[id].phase.version
    ensures var c', p := Next(env, c, RenewerWrites), c.reviews[id].phase;
      && c'.reviews == c.reviews && c'.cellVersion < p.version
      && (Trim(c.versions[c.renewer.value]) != Trim(c.versions[p.version]) ==> c'.cell != p.saToken)
  {
    assert ReviewConsistent(env, c.versions, c.reviews[id]);
  }

  lemma RotatedAmidRenewal(env: Env, first: string, second: string) returns (events: seq<Event>)
    ensures Exec(env, first, events) == Cache(2, [first, second], Trim(first), 0, Some(0), map[])
  {
    RunOne(env, Initialized(first), RenewerReads);
    RunSnoc(env, Initialized(first), [RenewerReads], Rotate(second));
    events := [RenewerReads] + [Rotate(second)];
  }

  /** A verification rejected after a rotation that the renewer's pending read predates. */
  lemma RejectedAmidRenewal(env: Env, first: string, second: string, q: Query) returns (events: seq<Event>)
    requires env.Ask(3, Trim(first), q).IsUnauthorized()
    ensures Exec(env, first, events)
         == Cache(4, [first, second], Trim(first), 0, Some(0), map[0 := Review(q, 1, 1, Rejected(1))])
  {
    events := BegunAmidRenewal(env, first, second, q);
    RunSnoc(env, Initialized(first), events, Answer(0));
    events := events + [Answer(0)];
  }

  lemma BegunAmidRenewal(env: Env, first: string, second: string, q: Query) returns (events: seq<Event>)
    ensures Exec(env, first, events)
         == Cache(3, [first, second], Trim(first), 0, Some(0), map[0 := Review(q, 1, 0, Calling(0, Trim(first)))])
  {
    events := RotatedAmidRenewal(env, first, second);
    RunSnoc(env, Initialized(first), events, Begin(0, q));
    events := events + [Begin(0, q)];
  }

  lemma RereadAmidRenewal(env: Env, first: string, second: string, q: Query, events: seq<Event>)
    requires Exec(env, first, events)
          == Cache(4, [first, second], Trim(first), 0, Some(0), map[0 := Review(q, 1, 1, Rejected(1))])
    ensures Exec(env, first, events + [RefreshReads(0)])
         == Cache(5, [first, second], Trim(first), 0, Some(0), map[0 := Review(q, 1, 1, Reread(1, 1))])
  {
    RunSnoc(env, Initialized(first), events, RefreshReads(0));
  }

  lemma WrittenAmidRenewal(env: Env, first: string, second: string, q: Query, events: seq<Event>)
    requires Exec(env, first, events)
          == Cache(5, [first, second], Trim(first), 0, Some(0), map[0 := Review(q, 1, 1, Reread(1, 1))])
    ensures Exec(env, first, events + [RefreshWrites(0)])
         == Cache(6, [first, second], Trim(second), 1, Some(0), map[0 := Review(q, 1, 1, Retrying(1, 1, Trim(second)))])
  {
    RunSnoc(env, Initialized(first), events, RefreshWrites(0));
  }

  /** The retry must not go back to the cell: a renewer that read the file before a rotation may write
      after the refresher, and then the cell holds the older version while the retry is under way. */
  lemma CellMayFallBehindRetry(env: Env, first: string, second: string, q: Query) returns (events: seq<Event>)
    requires env.Ask(3, Trim(first), q).IsUnauthorized() && Trim(first) != Trim(second)
    ensures var c := Exec(env, first, events);
      && 0 in c.reviews && c.reviews[0].phase == Retrying(1, 1, Trim(second))
      && c.cellVersion < 1 && c.cell != Trim(second)
  {
    events := RejectedAmidRenewal(env, first, second, q);
    RereadAmidRenewal(env, first, second, q, events);
    WrittenAmidRenewal(env, first, second, q, events + [RefreshReads(0)]);
    events := events + [RefreshReads(0)] + [RefreshWrites(0)];
    LateWriteOvertakes(env, Exec(env, first, events), 0);
    RunSnoc(env, Initialized(first), events, RenewerWrites);
    events := events + [RenewerWrites];
  }
}
