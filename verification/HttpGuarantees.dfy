/** What a caller can rely on: guarantees of one round, and of a whole call. */
module HttpGuarantees {
  import opened Wrappers
  import opened Origins
  import opened HttpModel
  import opened HttpVisits
  import opened HttpRounds

  // ----- one round -----

  /**
   The driver's own connection error means exactly that no visit had any outcome. Then every
   configured origin was contacted, and each visit shows why: contact was lost, or a 421
   named no other origin, or contact was lost after following it.
   */
  lemma ExhaustiveFailure(env: Env, s: State, call: Call)
    requires env.params.Usable()
    ensures var r := ApiReqOnce(env, s, call);
            && (r.result == Failed(CANNOT_CONNECT) <==>
                forall k | 0 <= k < |r.visits| :: r.visits[k].Outcome() == NoResponse)
            && (r.result == Failed(CANNOT_CONNECT) ==>
                && (forall o | o in AllOrigins(env.params) :: o in Contacted(r.visits))
                && (forall k | 0 <= k < |r.visits| :: CameToNothing(env, r.state.log, r.visits[k])))
  {
    var r := ApiReqOnce(env, s, call);
    RoundLaw(env, s, call);
    RoundLogged(env, s, call);
    NothingMeansFailure(env, s, call, r);
    if r.result == Failed(CANNOT_CONNECT) {
      AllContacted(env, s, r);
    }
  }

  lemma NothingMeansFailure(env: Env, s: State, call: Call, r: Round)
    requires env.params.Usable()
    requires RoundShape(env, s, r) && Logged(env, r.state.log, |s.log|, call, r.visits)
    ensures r.result == Failed(CANNOT_CONNECT) <==>
            forall k | 0 <= k < |r.visits| :: r.visits[k].Outcome() == NoResponse
    ensures r.result == Failed(CANNOT_CONNECT) ==>
              forall k | 0 <= k < |r.visits| :: CameToNothing(env, r.state.log, r.visits[k])
  {
    LastAnswerIsOutcome(r.visits);
    var last := r.visits[|r.visits| - 1].Outcome();
    assert last.GotError? ==> last.err != CANNOT_CONNECT;
    if r.result == Failed(CANNOT_CONNECT) {
      forall k | 0 <= k < |r.visits|
        ensures r.visits[k].Outcome() == NoResponse && CameToNothing(env, r.state.log, r.visits[k])
      {
        assert k > 0 ==> r.visits[k] == r.visits[1..][k - 1];
        assert Recorded(env, r.state.log, |s.log|, call, r.visits[k]);
      }
    }
  }

  lemma AllContacted(env: Env, s: State, r: Round)
    requires RoundShape(env, s, r) && !Settled(r.visits)
    ensures forall o | o in AllOrigins(env.params) :: o in Contacted(r.visits)
  {
    forall o | o in AllOrigins(env.params) ensures o in Contacted(r.visits) {
      if o != s.currentOrigin && o != r.visits[0].Landed() {
        var rest := Candidates(AllOrigins(env.params), {s.currentOrigin, r.visits[0].Landed()});
        var k :| 0 <= k < |rest| && rest[k] == o;
        assert r.visits[1..][k].first.origin == o;
        VisitedIsContacted(r.visits, k + 1);
      }
    }
  }

  /** Why a visit had no outcome. */
  predicate CameToNothing(env: Env, log: seq<Event>, v: Visit)
    requires env.params.Usable()
  {
    match v.first.result
    case NoResponse => 0 <= v.first.last < |log| && LostContact(log[v.first.last])
    case GotError(_) => false
    case GotResponse(r) =>
      && r.status == HTTP_MISDIRECTED
      && match RedirectTarget(env, v.first.origin, r.json)
         case None => true
         case Some(target) =>
           && v.redirected.Some? && v.redirected.value.origin == target
           && 0 <= v.redirected.value.last < |log| && LostContact(log[v.redirected.value.last])
  }

  lemma {:induction false} VisitedIsContacted(visits: seq<Visit>, k: nat)
    requires k < |visits|
    ensures visits[k].first.origin in Contacted(visits)
  {
    if k > 0 {
      VisitedIsContacted(visits[1..], k - 1);
    }
  }

  /** The origin that sent a response of this history. */
  function Sender(log: seq<Event>, r: Response): string
    requires r.at < |log| && log[r.at].Fetched?
  {
    log[r.at].fetch.origin
  }

  /**
   A returned response is the answer to a request of this round that nobody has read. The
   driver ends on its sender if it is ok or was the outcome of the first visit; otherwise
   it ends where the last visit ended, so on the sender exactly when that is the sender.
   */
  lemma ExitPinning(env: Env, s: State, call: Call)
    requires env.params.Usable()
    ensures Pinned(call, |s.log|, ApiReqOnce(env, s, call))
  {
    RoundLaw(env, s, call);
    RoundLogged(env, s, call);
    PinnedByVisits(env, s, call, ApiReqOnce(env, s, call));
  }

  ghost predicate Pinned(call: Call, from: nat, r: Round) {
    var log := r.state.log;
    r.result.Answered? ==>
      var resp := r.result.resp;
      && Brings(log, call, resp) && from <= resp.at && Unread(log, from, resp)
      && |r.visits| > 0
      && (resp.IsOk() || r.visits[0].Outcome() == GotResponse(resp) ==>
            r.state.currentOrigin == Sender(log, resp))
      && (!resp.IsOk() && r.visits[0].Outcome() != GotResponse(resp) ==>
            r.state.currentOrigin == r.visits[|r.visits| - 1].Landed())
  }

  lemma PinnedByVisits(env: Env, s: State, call: Call, r: Round)
    requires env.params.Usable()
    requires RoundShape(env, s, r) && Logged(env, r.state.log, |s.log|, call, r.visits)
    ensures Pinned(call, |s.log|, r)
  {
    if r.result.Answered? {
      LastAnswerIsOutcome(r.visits);
      var k :| 0 <= k < |r.visits| && r.visits[k].Outcome() == GotResponse(r.result.resp);
      assert Recorded(env, r.state.log, |s.log|, call, r.visits[k]);
      assert Recorded(env, r.state.log, |s.log|, call, r.visits[0]);
    }
  }

  /** A network in which only "b" is up, and answers every request with 500. */
  function OnlyB(log: seq<Event>, fetch: Fetch): Answer {
    if fetch.origin != "b" then Unreachable
    else if fetch.SignInFetch? then Reply(200, Json(Some("t"), None, None, None))
    else Reply(500, Json(None, None, None, None))
  }

  /** Outside those cases pinning fails: the answer comes from "b" and the driver ends on the dead "c". */
  lemma UnpinnedExample(url: UrlParser, call: Call)
    ensures var env := Env(Basic(["a", "b", "c"]), url, OnlyB);
            var r := ApiReqOnce(env, InitialState(env), call);
            && r.result.Answered? && r.result.resp.status == 500
            && r.result.resp.at < |r.state.log| && r.state.log[r.result.resp.at].Fetched?
            && Sender(r.state.log, r.result.resp) == "b" && r.state.currentOrigin == "c"
  {
    var env := Env(Basic(["a", "b", "c"]), url, OnlyB);
    var origins := AllOrigins(env.params);
    var s0 := InitialState(env);
    var s1 := State(None, "a", [Fetched(SignInFetch("a"), Unreachable)]);
    assert VisitOrigin(env, s0, call) == Visited(Visit(Attempt("a", 0, NoResponse), None), s1);
    var visit := CallFetch("b", "t", call);
    var s2 := State(Some("t"), "b", s1.log + [Fetched(SignInFetch("b"), OnlyB([], SignInFetch("b")))]
                                    + [Fetched(visit, OnlyB([], visit))]);
    var resp := Response(2, 500, Json(None, None, None, None));
    assert VisitOrigin(env, SwitchOrigin(s1, "b"), call)
        == Visited(Visit(Attempt("b", 2, GotResponse(resp)), None), s2);
    var s3 := State(None, "c", s2.log + [Fetched(SignInFetch("c"), Unreachable)]);
    assert VisitOrigin(env, SwitchOrigin(s2, "c"), call) == Visited(Visit(Attempt("c", 3, NoResponse), None), s3);
    var tried := {"a"};
    assert {s0.currentOrigin, s1.currentOrigin} == tried;
    assert origins[1..] == ["b", "c"] && ["b", "c"][1..] == ["c"] && ["c"][1..] == [];
    var scan3 := TryFallbackOrigins(env, s3, call, [], tried, Some(resp));
    assert scan3 == Scan(GotResponse(resp), [], s3);
    var scan2 := TryFallbackOrigins(env, s2, call, ["c"], tried, Some(resp));
    assert scan2.result == GotResponse(resp) && scan2.state == s3;
    var scan1 := TryFallbackOrigins(env, s1, call, ["b", "c"], tried, None);
    assert scan1.result == GotResponse(resp) && scan1.state == s3;
    assert TryFallbackOrigins(env, s1, call, origins, tried, None) == scan1;
  }

  /** A failure is the driver's own, or a sign-in error that is not transient and came last. */
  predicate Justified(log: seq<Event>, result: Final) {
    result.Failed? ==>
      && !SaysNothing(result.err.code)
      && (result.err == ApiErrorResponse(HDR1, NoServerAtAll, 503) || (log != [] && SigninFails(log[|log| - 1], result.err)))
  }

  /** An accepted request and a fatal sign-in end the round, and the round returns them. */
  predicate EndsWith(log: seq<Event>, result: Final, i: nat)
    requires i < |log|
  {
    && !log[i].Waited?
    && (Accepts(log[i]) ==>
          i == |log| - 1 && result == Answered(Response(i, log[i].answer.status, log[i].answer.json)))
    && (FatalSignin(log[i]) ==>
          i == |log| - 1 && result == Failed(RefusalOf(log[i])))
  }

  lemma RoundEnds(env: Env, s: State, call: Call)
    requires env.params.Usable()
    ensures var r := ApiReqOnce(env, s, call);
            && |s.log| < |r.state.log|
            && Justified(r.state.log, r.result)
            && (forall i | |s.log| <= i < |r.state.log| :: EndsWith(r.state.log, r.result, i))
  {
    RoundLaw(env, s, call);
    RoundLogged(env, s, call);
    EndsByVisits(env, s, call, ApiReqOnce(env, s, call));
  }

  lemma EndsByVisits(env: Env, s: State, call: Call, r: Round)
    requires env.params.Usable()
    requires RoundShape(env, s, r) && Logged(env, r.state.log, |s.log|, call, r.visits)
    ensures Justified(r.state.log, r.result)
    ensures forall i | |s.log| <= i < |r.state.log| :: EndsWith(r.state.log, r.result, i)
  {
    var log := r.state.log;
    forall i | |s.log| <= i < |log| ensures EndsWith(log, r.result, i) {
      assert RoundEvent(log, |s.log|, call, r.visits, i);
    }
  }

  // ----- a whole call -----

  /** Successive rounds, with a wait before each but the first. */
  ghost predicate Successive(round: State -> Called, rounds: seq<Called>) {
    forall k | 0 < k < |rounds| :: rounds[k] == round(Wait(rounds[k - 1].state))
  }

  /** Only the last round may be answered other than 421, and it must be unless there are no retries left. */
  ghost predicate StopsInTime(rounds: seq<Called>, retries: nat) {
    && 1 <= |rounds| <= retries + 1
    && (forall k | 0 <= k < |rounds| - 1 :: Misdirected(rounds[k]))
    && (|rounds| <= retries ==> !Misdirected(rounds[|rounds| - 1]))
  }

  /** A call is one to four rounds; it returns the first result that is not 421, or the fourth. */
  lemma CallRounds(env: Env, s: State, call: Call)
    requires env.params.Usable()
    ensures exists rounds: seq<Called> ::
              && StopsInTime(rounds, PRIMARY_FAILOVER_RETRIES)
              && Successive(RoundOf(env, call), rounds)
              && rounds[0] == CallOnce(env, s, call)
              && rounds[|rounds| - 1] == ApiReq(env, s, call)
  {
    var rounds := RetryRounds(RoundOf(env, call), CallOnce(env, s, call), PRIMARY_FAILOVER_RETRIES);
  }

  lemma {:induction false} RetryRounds(round: State -> Called, c: Called, retries: nat) returns (rounds: seq<Called>)
    ensures StopsInTime(rounds, retries) && Successive(round, rounds)
    ensures rounds[0] == c && rounds[|rounds| - 1] == RetryMisdirected(round, c, retries)
    decreases retries
  {
    if retries > 0 && Misdirected(c) {
      var rest := RetryRounds(round, round(Wait(c.state)), retries - 1);
      rounds := [c] + rest;
    } else {
      rounds := [c];
    }
  }

  /** The i-th event in a call that began at event `from` and has come to `c`. */
  predicate CallEvent(call: Call, c: Called, from: nat, i: nat)
    requires i < |c.state.log|
  {
    var log := c.state.log;
    && (log[i].Fetched? ==> Asks(log[i], log[i].fetch.origin, call))
    && (log[i].BodyRead? ==> from <= log[i].at == i - 1 && Misdirection(log[i - 1]))
    && (Accepts(log[i]) ==>
          i == |log| - 1 && c.result == Answered(Response(i, log[i].answer.status, log[i].answer.json)))
    && (FatalSignin(log[i]) ==>
          var err := RefusalOf(log[i]);
          if err.status == 421 && i + 1 < |log| then log[i + 1].Waited?
          else i == |log| - 1 && c.result == Failed(err))
  }

  ghost predicate CallSoFar(call: Call, from: nat, c: Called) {
    var log := c.state.log;
    && from < |log|
    && Justified(log, c.result)
    && (forall i | from <= i < |log| :: CallEvent(call, c, from, i))
    && (c.result.Answered? ==>
          Brings(log, call, c.result.resp) && from <= c.result.resp.at && Unread(log, from, c.result.resp))
  }

  /**
   In a whole call at most one request is accepted; it is the last event and its response is
   returned. A sign-in error outside the transient ones ends the call with that error, or,
   if its status is 421, ends the round. No transient error is returned. A returned
   response answers a request of this call and its body is unread.
   */
  lemma CallLaw(env: Env, s: State, call: Call)
    requires env.params.Usable()
    ensures s.log <= ApiReq(env, s, call).state.log
    ensures CallSoFar(call, |s.log|, ApiReq(env, s, call))
  {
    RoundSoFar(env, s, call);
    AnyRoundSoFar(env, call);
    RetrySoFar(RoundOf(env, call), |s.log|, CallOnce(env, s, call), call, PRIMARY_FAILOVER_RETRIES);
  }

  lemma RoundSoFar(env: Env, s: State, call: Call)
    requires env.params.Usable()
    ensures var r := ApiReqOnce(env, s, call);
            && s.log <= r.state.log
            && CallSoFar(call, |s.log|, CallOnce(env, s, call))
  {
    RoundEnds(env, s, call);
    ExitPinning(env, s, call);
    RoundLogged(env, s, call);
    SoFarByRound(env, call, |s.log|, ApiReqOnce(env, s, call));
  }

  lemma SoFarByRound(env: Env, call: Call, from: nat, r: Round)
    requires env.params.Usable() && from < |r.state.log|
    requires Pinned(call, from, r) && Logged(env, r.state.log, from, call, r.visits)
    requires Justified(r.state.log, r.result)
    requires forall i | from <= i < |r.state.log| :: EndsWith(r.state.log, r.result, i)
    ensures CallSoFar(call, from, Called(r.result, r.state))
  {
    forall i | from <= i < |r.state.log| ensures CallEvent(call, Called(r.result, r.state), from, i) {
      assert RoundEvent(r.state.log, from, call, r.visits, i);
      assert EndsWith(r.state.log, r.result, i);
    }
  }

  /** What RoundSoFar says of a round, for any function in its place. */
  ghost predicate StepSoFar(round: State -> Called, call: Call, s: State) {
    s.log <= round(s).state.log && CallSoFar(call, |s.log|, round(s))
  }

  ghost predicate StepsSoFar(round: State -> Called, call: Call) {
    forall s {:trigger StepSoFar(round, call, s)} :: StepSoFar(round, call, s)
  }

  lemma AnyRoundSoFar(env: Env, call: Call)
    requires env.params.Usable()
    ensures StepsSoFar(RoundOf(env, call), call)
  {
    forall s ensures StepSoFar(RoundOf(env, call), call, s) {
      RoundSoFar(env, s, call);
    }
  }

  lemma {:induction false} RetrySoFar(round: State -> Called, from: nat, c: Called, call: Call, retries: nat)
    requires StepsSoFar(round, call) && CallSoFar(call, from, c)
    ensures c.state.log <= RetryMisdirected(round, c, retries).state.log
    ensures CallSoFar(call, from, RetryMisdirected(round, c, retries))
    decreases retries
  {
    if retries > 0 && Misdirected(c) {
      var d := round(Wait(c.state));
      assert StepSoFar(round, call, Wait(c.state));
      JoinRounds(call, from, c, d);
      RetrySoFar(round, from, d, call, retries - 1);
    }
  }

  lemma JoinRounds(call: Call, from: nat, c: Called, d: Called)
    requires CallSoFar(call, from, c) && Misdirected(c)
    requires c.state.log + [Waited] <= d.state.log && CallSoFar(call, |c.state.log| + 1, d)
    ensures CallSoFar(call, from, d)
  {
    var earlier, log := c.state.log, d.state.log;
    forall i | from <= i < |log|
      ensures CallEvent(call, d, from, i)
      ensures i <= |earlier| && log[i].BodyRead? ==> log[i].at < |earlier|
    {
      if i < |earlier| {
        assert log[i] == (earlier + [Waited])[i] == earlier[i];
        assert CallEvent(call, c, from, i);
        assert log[|earlier|] == (earlier + [Waited])[|earlier|];
        assert i + 1 < |earlier| ==> log[i + 1] == (earlier + [Waited])[i + 1];
      } else if i == |earlier| {
        assert log[i] == (earlier + [Waited])[i];
      } else {
        assert CallEvent(call, d, |earlier| + 1, i);
      }
    }
  }

  // ----- the cost of a call -----

  /** Number of waits in a history. */
  function Waits(log: seq<Event>): nat {
    if log == [] then 0
    else Waits(log[..|log| - 1]) + if log[|log| - 1].Waited? then 1 else 0
  }

  lemma {:induction false} NoWaits(a: seq<Event>, b: seq<Event>)
    requires a <= b && forall i | |a| <= i < |b| :: !b[i].Waited?
    ensures Waits(a) == Waits(b)
    decreases |b|
  {
    if |a| < |b| {
      NoWaits(a, b[..|b| - 1]);
    } else {
      assert a == b;
    }
  }

  lemma RoundCost(env: Env, s: State, call: Call)
    requires env.params.Usable()
    ensures var log := ApiReqOnce(env, s, call).state.log;
            Fetches(log) <= Fetches(s.log) + 8 * (env.params.Size() + 1) && Waits(log) == Waits(s.log)
  {
    RoundLogged(env, s, call);
    RoundEnds(env, s, call);
    var r := ApiReqOnce(env, s, call);
    forall i | |s.log| <= i < |r.state.log| ensures !r.state.log[i].Waited? {
      assert EndsWith(r.state.log, r.result, i);
    }
    NoWaits(s.log, r.state.log);
  }

  lemma {:induction false} RetryCost(env: Env, c: Called, call: Call, retries: nat)
    requires env.params.Usable()
    ensures var log := RetryMisdirected(RoundOf(env, call), c, retries).state.log;
            && Fetches(log) <= Fetches(c.state.log) + retries * (8 * (env.params.Size() + 1))
            && Waits(log) <= Waits(c.state.log) + retries
    decreases retries
  {
    if retries > 0 && Misdirected(c) {
      var w := Wait(c.state);
      assert w.log[..|w.log| - 1] == c.state.log;
      RoundCost(env, w, call);
      RetryCost(env, CallOnce(env, w, call), call, retries - 1);
      var n := 8 * (env.params.Size() + 1);
      assert (retries - 1) * n + n == retries * n;
    }
  }

  /** At most 32(n+1) fetches and three waits for n configured origins. */
  lemma CallCost(env: Env, s: State, call: Call)
    requires env.params.Usable()
    ensures var log := ApiReq(env, s, call).state.log;
            && Fetches(log) <= Fetches(s.log) + 32 * (env.params.Size() + 1)
            && Waits(log) <= Waits(s.log) + 3
  {
    RoundCost(env, s, call);
    RetryCost(env, CallOnce(env, s, call), call, PRIMARY_FAILOVER_RETRIES);
  }
}
