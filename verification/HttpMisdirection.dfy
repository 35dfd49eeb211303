/**
 When a call waits and tries again. A wait follows exactly the rounds that end in a 421,
 and a 421 ends a round only if the origin it names answers 421 as well.
 */
module HttpMisdirection {
  import opened Wrappers
  import opened Origins
  import opened HttpModel
  import opened HttpVisits
  import opened HttpRounds
  import opened HttpGuarantees
  import opened HttpInvariants

  /** A call is over after its first round exactly if that does not end in a 421; otherwise it waits. */
  lemma OneRoundIff(env: Env, s: State, call: Call)
    requires env.params.Usable()
    ensures var c := CallOnce(env, s, call);
            && (ApiReq(env, s, call) == c <==> !Misdirected(c))
            && (Misdirected(c) ==> c.state.log + [Waited] < ApiReq(env, s, call).state.log)
  {
    var c := CallOnce(env, s, call);
    if Misdirected(c) {
      var w := Wait(c.state);
      RoundSoFar(env, w, call);
      AnyRoundSoFar(env, call);
      RetrySoFar(RoundOf(env, call), |w.log|, CallOnce(env, w, call), call, PRIMARY_FAILOVER_RETRIES - 1);
    }
  }

  // ----- which rounds end in a 421 -----

  predicate IsMisdirection(o: TryResult) {
    o.GotResponse? && o.resp.status == 421
  }

  /** A 421 named another origin, and that one answered 421 too. */
  predicate TwiceMisdirected(v: Visit) {
    IsMisdirection(v.first.result) && v.redirected.Some? && IsMisdirection(v.redirected.value.result)
  }

  /** The visit whose response an undecided round returns: the first, or else the last that had one. */
  ghost predicate Speaks(visits: seq<Visit>, k: nat) {
    && k < |visits| && visits[k].Outcome().GotResponse?
    && (k > 0 ==> !visits[0].Outcome().GotResponse? && SilentAfter(visits, k))
  }

  ghost predicate SilentAfter(visits: seq<Visit>, k: nat) {
    forall j | k < j < |visits| :: !visits[j].Outcome().GotResponse?
  }

  lemma {:induction false} LastToAnswer(visits: seq<Visit>) returns (k: nat)
    requires LastAnswer(visits).Some?
    ensures k < |visits| && visits[k].Outcome() == GotResponse(LastAnswer(visits).value) && SilentAfter(visits, k)
  {
    if LastAnswer(visits[1..]).Some? {
      k := LastToAnswer(visits[1..]);
      k := k + 1;
      assert forall j | k < j < |visits| :: visits[j] == visits[1..][j - 1];
    } else {
      k := 0;
      LastAnswerIsOutcome(visits[1..]);
      assert forall j | 0 < j < |visits| :: visits[j] == visits[1..][j - 1];
    }
  }

  /** The status of an undecided round is that of the visit that speaks for it, if any does. */
  lemma UndecidedStatus(visits: seq<Visit>)
    requires visits != [] && !Settled(visits)
    ensures Verdict(visits).Status() == 421 <==>
            exists k: nat :: Speaks(visits, k) && IsMisdirection(visits[k].Outcome())
  {
    if visits[0].Outcome().GotResponse? {
      assert Speaks(visits, 0);
    } else if LastAnswer(visits).Some? {
      var k := LastToAnswer(visits);
      assert Speaks(visits, k);
    } else {
      LastAnswerIsOutcome(visits);
    }
  }

  /** The refusal that ended a round, if one did. */
  function Refusal(visits: seq<Visit>): Option<ApiErrorResponse> {
    if visits == [] then None
    else
      var last := visits[|visits| - 1].Outcome();
      if last.GotError? then Some(last.err) else None
  }

  ghost predicate EndsMisdirected(visits: seq<Visit>) {
    || (Refusal(visits).Some? && Refusal(visits).value.status == 421)
    || (!Settled(visits) && exists k: nat :: Speaks(visits, k) && TwiceMisdirected(visits[k]))
  }

  /**
   A round is retried exactly if it was refused a sign-in with status 421, or was undecided and
   the visit that speaks for it was misdirected twice. Any other 421 is dropped without a wait.
   */
  lemma RetriedIff(env: Env, s: State, call: Call)
    requires env.params.Usable()
    ensures Misdirected(CallOnce(env, s, call)) <==> EndsMisdirected(ApiReqOnce(env, s, call).visits)
  {
    RoundLaw(env, s, call);
    RoundLogged(env, s, call);
    RetriedByVisits(env, s, call, ApiReqOnce(env, s, call));
  }

  lemma RetriedByVisits(env: Env, s: State, call: Call, r: Round)
    requires env.params.Usable()
    requires RoundShape(env, s, r) && Logged(env, r.state.log, |s.log|, call, r.visits)
    ensures r.result.Status() == 421 <==> EndsMisdirected(r.visits)
  {
    if !Settled(r.visits) {
      UndecidedStatus(r.visits);
    }
    forall k | 0 <= k < |r.visits|
      ensures IsMisdirection(r.visits[k].Outcome()) <==> TwiceMisdirected(r.visits[k])
    {
      assert Recorded(env, r.state.log, |s.log|, call, r.visits[k]);
    }
  }

  /** Without any server that serves the request, one visit misdirected twice is enough. */
  lemma UnservedRetriedIff(env: Env, s: State, call: Call)
    requires env.params.Usable()
    ensures var visits := ApiReqOnce(env, s, call).visits;
            (forall k | 0 <= k < |visits| :: Unserved(visits[k])) ==>
              (Misdirected(CallOnce(env, s, call)) <==> exists k :: 0 <= k < |visits| && TwiceMisdirected(visits[k]))
  {
    RetriedIff(env, s, call);
    RoundLaw(env, s, call);
    var visits := ApiReqOnce(env, s, call).visits;
    if forall k | 0 <= k < |visits| :: Unserved(visits[k]) {
      UnservedSpeaker(visits);
    }
  }

  /** A visit that came to nothing or to a 421. */
  predicate Unserved(v: Visit) {
    v.Outcome() == NoResponse || IsMisdirection(v.Outcome())
  }

  lemma UnservedSpeaker(visits: seq<Visit>)
    requires visits != [] && forall k | 0 <= k < |visits| :: Unserved(visits[k])
    ensures EndsMisdirected(visits) <==> exists k :: 0 <= k < |visits| && TwiceMisdirected(visits[k])
  {
    assert Unserved(visits[|visits| - 1]);
    if k :| 0 <= k < |visits| && TwiceMisdirected(visits[k]) {
      LastAnswerIsOutcome(visits);
      var m := LastToAnswer(visits);
      var speaker := if visits[0].Outcome().GotResponse? then 0 else m;
      assert Unserved(visits[speaker]);
      assert Speaks(visits, speaker) && TwiceMisdirected(visits[speaker]);
    }
  }

  // ----- every attempt answered 421 -----

  predicate AllMisdirected(r: Round) {
    forall k | 0 <= k < |r.visits| ::
      && IsMisdirection(r.visits[k].first.result)
      && (r.visits[k].redirected.Some? ==> IsMisdirection(r.visits[k].redirected.value.result))
  }

  /** Every visit ended in a 421 that named no other origin. */
  predicate NowhereToGo(r: Round) {
    AllMisdirected(r) && forall k | 0 <= k < |r.visits| :: r.visits[k].redirected.None?
  }

  /**
   When every attempt of a round is answered 421, the call waits exactly if one of them named
   another origin. Otherwise it ends with the driver's connection error after that one round.
   */
  lemma UnfollowedMisdirectionEnds(env: Env, s: State, call: Call)
    requires env.params.Usable()
    ensures var r := ApiReqOnce(env, s, call);
            && (AllMisdirected(r) ==> (Misdirected(CallOnce(env, s, call)) <==> !NowhereToGo(r)))
            && (NowhereToGo(r) ==> ApiReq(env, s, call) == Called(Failed(CANNOT_CONNECT), r.state))
  {
    var r := ApiReqOnce(env, s, call);
    UnservedRetriedIff(env, s, call);
    ExhaustiveFailure(env, s, call);
    if AllMisdirected(r) && !NowhereToGo(r) {
      var k :| 0 <= k < |r.visits| && r.visits[k].redirected.Some?;
      assert TwiceMisdirected(r.visits[k]);
    }
  }

  // ----- no server is the primary -----

  /** A server that signs in and answers every request with the same 421. */
  ghost predicate Misdirects(env: Env, origin: string, body: Json) {
    && (forall log :: Issues(Fetched(SignInFetch(origin), env.net(log, SignInFetch(origin)))))
    && (forall log, token, call :: env.net(log, CallFetch(origin, token, call)) == Reply(421, body))
  }

  /** A server that cannot be reached, or cannot sign anybody in. */
  ghost predicate Down(env: Env, origin: string) {
    && (forall log :: LostContact(Fetched(SignInFetch(origin), env.net(log, SignInFetch(origin)))))
    && (forall log, token, call :: env.net(log, CallFetch(origin, token, call)).Unreachable?)
  }

  /** Some servers are up and answer 421 with the given bodies; the others are down. */
  ghost predicate NoPrimary(env: Env, up: string -> bool, body: string -> Json) {
    forall origin :: if up(origin) then Misdirects(env, origin, body(origin)) else Down(env, origin)
  }

  /** A server that is up names another one that is up. */
  predicate LeadsOn(env: Env, up: string -> bool, body: string -> Json, origin: string)
    requires env.params.Usable()
  {
    && up(origin)
    && var target := RedirectTarget(env, origin, body(origin));
    target.Some? && up(target.value)
  }

  lemma NoPrimaryAttempt(env: Env, up: string -> bool, body: string -> Json, s: State, call: Call, a: Attempt)
    requires env.params.Usable() && DriverInvariant(env, s) && NoPrimary(env, up, body)
    requires Explains(s.log, call, a)
    ensures if up(a.origin) then IsMisdirection(a.result) && a.result.resp.json == body(a.origin)
            else a.result == NoResponse
  {
    assert Sound(env, s.log[..a.last], s.log[a.last]);
    assert if up(a.origin) then Misdirects(env, a.origin, body(a.origin)) else Down(env, a.origin);
  }

  /** A visit on such a network comes to a 421 exactly if its server leads on; a server it is left on is down. */
  predicate ShowsNoPrimary(env: Env, up: string -> bool, body: string -> Json, v: Visit)
    requires env.params.Usable()
  {
    && Unserved(v)
    && (TwiceMisdirected(v) <==> LeadsOn(env, up, body, v.first.origin))
    && (v.Landed() != v.first.origin && !TwiceMisdirected(v) ==> !up(v.Landed()))
  }

  lemma NoPrimaryVisit(env: Env, up: string -> bool, body: string -> Json, s: State, call: Call, v: Visit)
    requires env.params.Usable() && DriverInvariant(env, s) && NoPrimary(env, up, body)
    requires Faithful(env, s.log, call, v)
    ensures ShowsNoPrimary(env, up, body, v)
  {
    NoPrimaryAttempt(env, up, body, s, call, v.first);
    if v.redirected.Some? {
      NoPrimaryAttempt(env, up, body, s, call, v.redirected.value);
    }
  }

  /**
   While no server is the primary, a call waits exactly if the current origin or a configured one
   is up and names another that is up; otherwise it fails at once with the connection error.
   */
  lemma NoPrimaryRetriedIff(env: Env, up: string -> bool, body: string -> Json, s: State, call: Call)
    requires env.params.Usable() && DriverInvariant(env, s) && NoPrimary(env, up, body)
    ensures var c := CallOnce(env, s, call);
            && (Misdirected(c) <==> exists o :: LeadsOn(env, up, body, o)
                                                && (o == s.currentOrigin || o in AllOrigins(env.params)))
            && (!Misdirected(c) ==> ApiReq(env, s, call) == Called(Failed(CANNOT_CONNECT), c.state))
  {
    var r := ApiReqOnce(env, s, call);
    RoundKeeps(env, s, call);
    RoundLaw(env, s, call);
    RoundLogged(env, s, call);
    UnservedRetriedIff(env, s, call);
    ExhaustiveFailure(env, s, call);
    NoPrimaryVisits(env, up, body, s, call, r);
  }

  lemma NoPrimaryVisits(env: Env, up: string -> bool, body: string -> Json, s: State, call: Call, r: Round)
    requires env.params.Usable() && DriverInvariant(env, r.state) && NoPrimary(env, up, body)
    requires RoundShape(env, s, r) && Logged(env, r.state.log, |s.log|, call, r.visits)
    ensures forall k | 0 <= k < |r.visits| :: Unserved(r.visits[k])
    ensures (exists k :: 0 <= k < |r.visits| && TwiceMisdirected(r.visits[k])) <==>
            exists o :: LeadsOn(env, up, body, o) && (o == s.currentOrigin || o in AllOrigins(env.params))
  {
    forall k | 0 <= k < |r.visits|
      ensures ShowsNoPrimary(env, up, body, r.visits[k])
    {
      assert Recorded(env, r.state.log, |s.log|, call, r.visits[k]);
      NoPrimaryVisit(env, up, body, r.state, call, r.visits[k]);
    }
    if k :| 0 <= k < |r.visits| && TwiceMisdirected(r.visits[k]) {
      OriginsVisited(env, s, r);
      assert ShowsNoPrimary(env, up, body, r.visits[k]);
    }
    if o :| LeadsOn(env, up, body, o) && (o == s.currentOrigin || o in AllOrigins(env.params)) {
      LeaderVisited(env, up, body, s, r, o);
    }
  }

  lemma OriginsVisited(env: Env, s: State, r: Round)
    requires RoundShape(env, s, r)
    ensures forall k | 0 <= k < |r.visits| ::
              r.visits[k].first.origin == s.currentOrigin || r.visits[k].first.origin in AllOrigins(env.params)
  {
    var rest := Candidates(AllOrigins(env.params), {s.currentOrigin, r.visits[0].Landed()});
    forall k | 0 < k < |r.visits| ensures r.visits[k].first.origin in AllOrigins(env.params) {
      assert r.visits[k] == r.visits[1..][k - 1] && rest[k - 1] in rest;
    }
  }

  /** A server that leads on is visited, unless the first visit already was misdirected twice. */
  lemma LeaderVisited(env: Env, up: string -> bool, body: string -> Json, s: State, r: Round, o: string)
    requires env.params.Usable() && RoundShape(env, s, r)
    requires forall k | 0 <= k < |r.visits| :: ShowsNoPrimary(env, up, body, r.visits[k])
    requires LeadsOn(env, up, body, o) && (o == s.currentOrigin || o in AllOrigins(env.params))
    ensures exists k :: 0 <= k < |r.visits| && TwiceMisdirected(r.visits[k])
  {
    assert ShowsNoPrimary(env, up, body, r.visits[0]);
    if !TwiceMisdirected(r.visits[0]) {
      assert ShowsNoPrimary(env, up, body, r.visits[|r.visits| - 1]);
      var rest := Candidates(AllOrigins(env.params), {s.currentOrigin, r.visits[0].Landed()});
      var k :| 0 <= k < |rest| && rest[k] == o;
      assert r.visits[k + 1] == r.visits[1..][k];
      assert ShowsNoPrimary(env, up, body, r.visits[k + 1]);
    }
  }

  /** If a configured server leads on, the call goes round four times, waits three times and returns a 421. */
  lemma NoPrimaryCall(env: Env, up: string -> bool, body: string -> Json, s: State, call: Call, o: string)
    requires env.params.Usable() && DriverInvariant(env, s) && NoPrimary(env, up, body)
    requires o in AllOrigins(env.params) && LeadsOn(env, up, body, o)
    ensures var c := ApiReq(env, s, call);
            Misdirected(c) && Waits(c.state.log) == Waits(s.log) + PRIMARY_FAILOVER_RETRIES
  {
    NoPrimaryRetriedIff(env, up, body, s, call);
    RoundKeeps(env, s, call);
    RoundCost(env, s, call);
    var round := RoundOf(env, call);
    forall s ensures MisdirectedStep(env, round, s) {
      if DriverInvariant(env, s) {
        NoPrimaryRetriedIff(env, up, body, s, call);
        RoundKeeps(env, s, call);
        RoundCost(env, s, call);
      }
    }
    MisdirectedRetries(env, round, CallOnce(env, s, call), PRIMARY_FAILOVER_RETRIES);
  }

  /** A round from a state with the invariant ends in a 421 without waiting. */
  ghost predicate MisdirectedStep(env: Env, round: State -> Called, s: State)
    requires env.params.Usable()
  {
    DriverInvariant(env, s) ==>
      var c := round(s);
      DriverInvariant(env, c.state) && Misdirected(c) && Waits(c.state.log) == Waits(s.log)
  }

  lemma {:induction false} MisdirectedRetries(env: Env, round: State -> Called, c: Called, retries: nat)
    requires env.params.Usable() && DriverInvariant(env, c.state) && Misdirected(c)
    requires forall s {:trigger MisdirectedStep(env, round, s)} :: MisdirectedStep(env, round, s)
    ensures var d := RetryMisdirected(round, c, retries);
            Misdirected(d) && Waits(d.state.log) == Waits(c.state.log) + retries
    decreases retries
  {
    if retries > 0 {
      var w := Wait(c.state);
      AppendKeeps(env, c.state, Waited, c.state.token);
      assert w.log[..|w.log| - 1] == c.state.log;
      assert MisdirectedStep(env, round, w);
      MisdirectedRetries(env, round, round(w), retries - 1);
    }
  }

  const NO_JSON := Json(None, None, None, None)

  /** All servers sign in, and answer 421 without a body. */
  function BareMisdirection(log: seq<Event>, fetch: Fetch): Answer {
    if fetch.SignInFetch? then Reply(200, NO_JSON.(token := Some("t"))) else Reply(421, NO_JSON)
  }

  /** There is such a network, and on it every call from every reachable state ends without a wait. */
  lemma NowhereToGoExample(params: DriverParams, url: UrlParser, s: State, call: Call)
    requires params.Usable() && DriverInvariant(Env(params, url, BareMisdirection), s)
    ensures var env := Env(params, url, BareMisdirection);
            var r := ApiReqOnce(env, s, call);
            NowhereToGo(r) && ApiReq(env, s, call) == Called(Failed(CANNOT_CONNECT), r.state)
  {
    var env := Env(params, url, BareMisdirection);
    RoundKeeps(env, s, call);
    RoundLogged(env, s, call);
    UnfollowedMisdirectionEnds(env, s, call);
    BareVisits(env, s, call, ApiReqOnce(env, s, call));
  }

  lemma BareVisits(env: Env, s: State, call: Call, r: Round)
    requires env.params.Usable() && env.net == BareMisdirection && DriverInvariant(env, r.state)
    requires Logged(env, r.state.log, |s.log|, call, r.visits)
    ensures NowhereToGo(r)
  {
    forall k | 0 <= k < |r.visits|
      ensures IsMisdirection(r.visits[k].first.result) && r.visits[k].redirected.None?
    {
      assert Recorded(env, r.state.log, |s.log|, call, r.visits[k]);
      NoPrimaryAttempt(env, _ => true, _ => NO_JSON, r.state, call, r.visits[k].first);
    }
  }

  // ----- refused sign-ins -----

  /** A refused sign-in ends its round; the call ends with it exactly if its status is not 421. */
  lemma RefusalRetriedIff(env: Env, s: State, call: Call, i: nat)
    requires env.params.Usable()
    requires var log := CallOnce(env, s, call).state.log; |s.log| <= i < |log| && FatalSignin(log[i])
    ensures var c := CallOnce(env, s, call);
            var err := RefusalOf(c.state.log[i]);
            && c.result == Failed(err) && i == |c.state.log| - 1
            && (ApiReq(env, s, call) == c <==> err.status != 421)
  {
    var r := ApiReqOnce(env, s, call);
    RoundEnds(env, s, call);
    assert EndsWith(r.state.log, r.result, i);
    OneRoundIff(env, s, call);
  }

  /** Every server refuses with the given error body and status 421. */
  function Refusing(json: Json): Network {
    (log, fetch) => Reply(421, json)
  }

  /** Such a refusal is asked for four times, with three waits between, before it is returned. */
  lemma RefusalRetriedExample(params: DriverParams, url: UrlParser, s: State, call: Call, code: Code, text: string)
    requires params.Usable() && !HoldsToken(s)
    requires !SaysNothing(code)
    ensures var json := Json(None, Some(code), Some(text), None);
            var e := Fetched(SignInFetch(s.currentOrigin), Reply(421, json));
            ApiReq(Env(params, url, Refusing(json)), s, call)
            == Called(Failed(ApiErrorResponse(code, ServerText(text), 421)),
                      s.(log := s.log + [e, Waited, e, Waited, e, Waited, e]))
  {
    var json := Json(None, Some(code), Some(text), None);
    var env := Env(params, url, Refusing(json));
    var e := Fetched(SignInFetch(s.currentOrigin), Reply(421, json));
    var s1 := s.(log := s.log + [e]);
    var s2 := s.(log := s.log + [e, Waited, e]);
    var s3 := s.(log := s.log + [e, Waited, e, Waited, e]);
    RefusedRound(env, s, call, code, text, s1);
    RefusedRound(env, Wait(s1), call, code, text, s2);
    RefusedRound(env, Wait(s2), call, code, text, s3);
    var s4 := s.(log := s.log + [e, Waited, e, Waited, e, Waited, e]);
    RefusedRound(env, Wait(s3), call, code, text, s4);
    var round, refused := RoundOf(env, call), Failed(ApiErrorResponse(code, ServerText(text), 421));
    assert RetryMisdirected(round, Called(refused, s3), 1) == Called(refused, s4);
    assert RetryMisdirected(round, Called(refused, s2), 2) == Called(refused, s4);
    assert RetryMisdirected(round, Called(refused, s1), 3) == Called(refused, s4);
  }

  lemma RefusedRound(env: Env, s: State, call: Call, code: Code, text: string, next: State)
    requires env.params.Usable() && !HoldsToken(s) && env.net == Refusing(Json(None, Some(code), Some(text), None))
    requires !SaysNothing(code)
    requires var answer := Reply(421, Json(None, Some(code), Some(text), None));
             next == s.(log := s.log + [Fetched(SignInFetch(s.currentOrigin), answer)])
    ensures CallOnce(env, s, call) == Called(Failed(ApiErrorResponse(code, ServerText(text), 421)), next)
  {
  }
}
