/**
 What one attempt on one origin, and one visit with its redirect, leave in the history.
 The events are read without reference to the code that made them.
 */
module HttpVisits {
  import opened Wrappers
  import opened Origins
  import opened HttpModel

  // ----- reading the history -----

  predicate Success(status: int) {
    200 <= status <= 299
  }

  /** A sign-in that issued a token. */
  predicate Issues(e: Event) {
    e.Fetched? && e.fetch.SignInFetch? && e.answer.Reply? && Success(e.answer.status) && e.answer.json.token.Some?
  }

  /** The codes of sign-in errors that say nothing about the credentials: another origin may do better. */
  predicate SaysNothing(code: Code) {
    code == HDR2 || code == SRV14 || code == CSV8 || code == CSV9
  }

  /** A sign-in refused for a reason that another origin would share. */
  predicate FatalSignin(e: Event) {
    && e.Fetched? && e.fetch.SignInFetch? && e.answer.Reply? && !Issues(e)
    && e.answer.json.code.Some? && e.answer.json.message.Some? && !SaysNothing(e.answer.json.code.value)
  }

  /** The error that the server gave: its code, its text and its status. */
  function RefusalOf(e: Event): ApiErrorResponse
    requires FatalSignin(e)
  {
    ApiErrorResponse(e.answer.json.code.value, ServerText(e.answer.json.message.value), e.answer.status)
  }

  /** A sign-in refused with the given error. */
  predicate SigninFails(e: Event, err: ApiErrorResponse) {
    FatalSignin(e) && err == RefusalOf(e)
  }

  /** A request that the server accepted. */
  predicate Accepts(e: Event) {
    e.Fetched? && e.fetch.CallFetch? && e.answer.Reply? && Success(e.answer.status)
  }

  predicate Unauthorized(e: Event) {
    e.Fetched? && e.fetch.CallFetch? && e.answer.Reply? && e.answer.status == 401
  }

  /** A request that another server should have got. */
  predicate Misdirection(e: Event) {
    e.Fetched? && e.fetch.CallFetch? && e.answer.Reply? && e.answer.status == 421
  }

  /**
   The server was not reached, or cannot sign anybody in just now: it answers the sign-in with
   neither a token nor an error, or with an error that says nothing about the credentials.
   */
  predicate LostContact(e: Event) {
    && e.Fetched?
    && if e.fetch.CallFetch? then e.answer.Unreachable?
       else e.answer.Reply? ==>
              && !Issues(e)
              && (e.answer.json.code.None? || e.answer.json.message.None? || SaysNothing(e.answer.json.code.value))
  }

  /** A fetch at the given origin on behalf of the given call. */
  predicate Asks(e: Event, origin: string, call: Call) {
    e.Fetched? && e.fetch.origin == origin && (e.fetch.CallFetch? ==> e.fetch.call == call)
  }

  /** The response is the answer, recorded at its index, to a request of this call. */
  predicate Brings(log: seq<Event>, call: Call, r: Response) {
    && r.at < |log|
    && log[r.at].Fetched?
    && log[r.at].fetch.CallFetch?
    && log[r.at].fetch.call == call
    && log[r.at].answer == Reply(r.status, r.json)
  }

  predicate Decides(e: Event) {
    Accepts(e) || FatalSignin(e)
  }

  /** Number of HTTP fetches in a history. */
  function Fetches(log: seq<Event>): nat {
    if log == [] then 0
    else Fetches(log[..|log| - 1]) + if log[|log| - 1].Fetched? then 1 else 0
  }

  lemma FetchesAppend(log: seq<Event>, e: Event)
    ensures Fetches(log + [e]) == Fetches(log) + if e.Fetched? then 1 else 0
  {
    assert (log + [e])[..|log|] == log;
  }

  // ----- one attempt -----

  /** What the result of an attempt says about its last event. */
  predicate Explains(log: seq<Event>, call: Call, a: Attempt) {
    && 0 <= a.last < |log|
    && log[a.last].Fetched?
    && log[a.last].fetch.origin == a.origin
    && match a.result
       case GotResponse(r) => r.at == a.last && Brings(log, call, r)
       case GotError(err) => SigninFails(log[a.last], err)
       case NoResponse => LostContact(log[a.last])
  }

  /**
   One to four fetches, all to the origin the driver is on; only the last can decide
   anything, and the result of the attempt is read off it. The token it was sent with is kept.
   */
  ghost predicate Attempted(s: State, call: Call, t: Tried) {
    var log := t.state.log;
    && s.log <= log
    && |s.log| < |log| <= |s.log| + 4
    && t.state.currentOrigin == s.currentOrigin
    && Explains(log, call, Attempt(s.currentOrigin, |log| - 1, t.result))
    && (forall i | |s.log| <= i < |log| :: Asks(log[i], s.currentOrigin, call))
    && (forall i | |s.log| <= i < |log| - 1 :: !Decides(log[i]))
    && (Decides(log[|log| - 1]) <==> Decisive(t.result))
    && (t.result.GotResponse? ==> t.state.token == Some(log[|log| - 1].fetch.token))
  }

  /** An attempt from `s` that has made at most `k` fetches and is not over. */
  ghost predicate Underway(s: State, call: Call, now: State, k: nat) {
    && s.log <= now.log
    && |now.log| <= |s.log| + k
    && now.currentOrigin == s.currentOrigin
    && (forall i | |s.log| <= i < |now.log| ::
          && Asks(now.log[i], s.currentOrigin, call)
          && (Issues(now.log[i]) || Unauthorized(now.log[i])))
  }

  lemma GoOn(s: State, call: Call, now: State, k: nat, e: Event, token: Option<string>)
    requires Underway(s, call, now, k)
    requires Asks(e, s.currentOrigin, call) && (Issues(e) || Unauthorized(e))
    ensures Underway(s, call, State(token, now.currentOrigin, now.log + [e]), k + 1)
  {
  }

  lemma Conclude(s: State, call: Call, now: State, e: Event, token: Option<string>, result: TryResult)
    requires Underway(s, call, now, 3) && Asks(e, s.currentOrigin, call)
    requires result.GotResponse? ==> e.fetch.CallFetch? && token == Some(e.fetch.token)
    requires Explains(now.log + [e], call, Attempt(s.currentOrigin, |now.log|, result))
    ensures Attempted(s, call, Tried(result, State(token, now.currentOrigin, now.log + [e])))
  {
  }

  lemma AttemptLaw(env: Env, s: State, call: Call)
    ensures Attempted(s, call, TryApiReq(env, s, call))
  {
    var origin := s.currentOrigin;
    var signed := GetToken(env, s);
    var result := TryApiReq(env, s, call).result;
    if signed.state != s || signed.result.TokenErr? {
      var e := Fetched(SignInFetch(origin), env.net(s.log, SignInFetch(origin)));
      assert signed.state.log == s.log + [e];
      if signed.result.TokenErr? {
        Conclude(s, call, s, e, signed.state.token, result);
        return;
      }
      GoOn(s, call, s, 0, e, signed.state.token);
    }
    var fetch := CallFetch(origin, signed.result.token, call);
    var sent := Send(env, signed.state, fetch);
    var e := Fetched(fetch, sent.answer);
    if sent.answer.Unreachable? || sent.answer.status != HTTP_UNAUTHORIZED {
      Conclude(s, call, signed.state, e, sent.state.token, result);
      return;
    }
    GoOn(s, call, signed.state, 1, e, sent.state.token);
    SecondTry(env, s, call, sent.state);
  }

  /** The re-authentication after a 401. */
  lemma SecondTry(env: Env, s: State, call: Call, now: State)
    requires Underway(s, call, now, 2)
    ensures Attempted(s, call, TryAgain(env, now, call))
  {
    var again := SigninOnce(env, now);
    var e := Fetched(SignInFetch(now.currentOrigin), env.net(now.log, SignInFetch(now.currentOrigin)));
    if again.result.TokenErr? {
      Conclude(s, call, now, e, again.state.token, TokenErrToResult(again.result.err));
    } else {
      GoOn(s, call, now, 2, e, again.state.token);
      var fetch := CallFetch(s.currentOrigin, again.result.token, call);
      var resent := Send(env, again.state, fetch);
      Conclude(s, call, again.state, Fetched(fetch, resent.answer), resent.state.token,
               if resent.answer.Unreachable? then NoResponse else GotResponse(LastResponse(resent)));
    }
  }

  // ----- the protocol of one attempt -----

  predicate HoldsToken(s: State) {
    s.token.Some? && s.token.value != ""
  }

  /**
   Event i of an attempt from `s`: a sign-in only without a token or after a 401; a request only
   with the token held, or right after a sign-in and with the token it issued; a token issued is
   used at once; and a 401 ends the attempt only if it is the second.
   */
  predicate InOrder(s: State, call: Call, log: seq<Event>, i: nat)
    requires |s.log| <= i < |log|
  {
    var first := i == |s.log|;
    && (log[i].Fetched? && log[i].fetch.SignInFetch? ==>
          if first then !HoldsToken(s) else Unauthorized(log[i - 1]))
    && (log[i].Fetched? && log[i].fetch.CallFetch? ==>
          if first then HoldsToken(s) && log[i].fetch.token == s.token.value
          else Issues(log[i - 1]) && log[i].fetch.token == log[i - 1].answer.json.token.value)
    && (log[i].Fetched? && log[i].fetch.CallFetch? ==> log[i].fetch.call == call)
    && (Issues(log[i]) ==> i + 1 < |log|)
    && (Unauthorized(log[i]) && i + 1 == |log| ==> |s.log| + 2 <= i && Unauthorized(log[i - 2]))
  }

  lemma AttemptProtocol(env: Env, s: State, call: Call)
    ensures var log := TryApiReq(env, s, call).state.log;
            && s.log <= log
            && forall i | |s.log| <= i < |log| :: InOrder(s, call, log, i)
  {
    var origin := s.currentOrigin;
    var signed := GetToken(env, s);
    var log := TryApiReq(env, s, call).state.log;
    if signed.result.TokenOk? {
      var sent := Send(env, signed.state, CallFetch(origin, signed.result.token, call));
      var n := |signed.state.log|;
      assert sent.state.log[n].fetch == CallFetch(origin, signed.result.token, call);
      if sent.answer.Reply? && sent.answer.status == HTTP_UNAUTHORIZED {
        AgainProtocol(env, sent.state, call);
        var again := TryAgain(env, sent.state, call).state.log;
        assert log == again && log[n] == sent.state.log[n];
        assert n > |s.log| ==> log[n - 1] == signed.state.log[n - 1];
      }
    }
  }

  /** The fetches after a 401: a sign-in and, if it issues a token, a request with that token. */
  lemma AgainProtocol(env: Env, s: State, call: Call)
    ensures var log := TryAgain(env, s, call).state.log;
            var n := |s.log|;
            && s.log <= log && n < |log| <= n + 2
            && log[n].Fetched? && log[n].fetch == SignInFetch(s.currentOrigin)
            && (Issues(log[n]) <==> |log| == n + 2)
            && (|log| == n + 2 ==> log[n + 1].Fetched?
                                   && log[n + 1].fetch == CallFetch(s.currentOrigin, log[n].answer.json.token.value, call))
  {
  }

  lemma {:induction false} FetchesGrow(a: seq<Event>, b: seq<Event>)
    requires a <= b
    ensures Fetches(b) <= Fetches(a) + |b| - |a|
    decreases |b|
  {
    if |a| < |b| {
      FetchesGrow(a, b[..|b| - 1]);
    } else {
      assert a == b;
    }
  }

  // ----- one visit -----

  /** A visit whose record agrees with the history. */
  predicate Faithful(env: Env, log: seq<Event>, call: Call, v: Visit)
    requires env.params.Usable()
  {
    && Explains(log, call, v.first)
    && (v.redirected.Some? ==> Explains(log, call, v.redirected.value))
    && (v.redirected.Some? ==> v.first.result.GotResponse?)
    && (v.first.result.GotResponse? && v.first.result.resp.status == HTTP_MISDIRECTED ==>
          RedirectTarget(env, v.first.origin, v.first.result.resp.json)
          == if v.redirected.Some? then Some(v.redirected.value.origin) else None)
    && (v.redirected.Some? ==> v.first.result.resp.status == HTTP_MISDIRECTED)
    && (v.first.result.GotResponse? && v.first.result.resp.status == 421 ==>
          v.first.last + 1 < |log| && log[v.first.last + 1] == BodyRead(v.first.last))
  }

  /** A 421 leads on exactly if its body has the three members and its address stands for another origin. */
  lemma RedirectLaw(env: Env, origin: string, json: Json, target: string)
    requires env.params.Usable()
    ensures RedirectTarget(env, origin, json) == Some(target) <==>
            && json.code.Some? && json.message.Some? && json.primaryAddress.Some?
            && target != origin && StandsFor(env.url, env.params, json.primaryAddress.value, target)
  {
    if json.primaryAddress.Some? {
      ResolveLaw(env.url, env.params, json.primaryAddress.value, target);
    }
  }

  lemma FaithfulPersists(env: Env, log: seq<Event>, log': seq<Event>, call: Call, v: Visit)
    requires env.params.Usable() && log <= log' && Faithful(env, log, call, v)
    ensures Faithful(env, log', call, v)
  {
  }

  /**
   The events from index `from` on: fetches of this call's visit `v`, or reads of the body
   of the 421 just received. A deciding event is the very last one.
   */
  ghost predicate VisitEvents(log: seq<Event>, from: nat, call: Call, v: Visit) {
    forall i | from <= i < |log| :: VisitEvent(log, from, call, v, i)
  }

  predicate VisitEvent(log: seq<Event>, from: nat, call: Call, v: Visit, i: nat)
    requires i < |log|
  {
    && !log[i].Waited?
    && (log[i].Fetched? ==> Asks(log[i], v.first.origin, call) || Asks(log[i], v.Landed(), call))
    && (log[i].BodyRead? ==> from <= log[i].at == i - 1 && Misdirection(log[i - 1]))
    && (Decides(log[i]) ==> i == |log| - 1)
  }

  /** The outcome of a visit is read off its last event, and decides the round exactly if that event does. */
  predicate OutcomeEvident(log: seq<Event>, call: Call, v: Visit)
    requires |log| > 0
  {
    var o := v.Outcome();
    && (o.GotResponse? ==> o.resp.at == |log| - 1 && Brings(log, call, o.resp)
                           && log[o.resp.at].fetch.origin == v.Landed())
    && (o.GotError? ==> SigninFails(log[|log| - 1], o.err))
    && (Decides(log[|log| - 1]) <==> Decisive(o))
  }

  /** Everything a visit from state `s` promises. */
  ghost predicate Visiting(env: Env, s: State, call: Call, v: Visited)
    requires env.params.Usable()
  {
    var log := v.state.log;
    && s.log <= log
    && |s.log| < |log|
    && v.visit.first.origin == s.currentOrigin
    && v.state.currentOrigin == v.visit.Landed()
    && Faithful(env, log, call, v.visit)
    && VisitEvents(log, |s.log|, call, v.visit)
    && OutcomeEvident(log, call, v.visit)
    && (v.visit.Outcome().GotResponse? ==> v.state.token == Some(log[|log| - 1].fetch.token))
  }

  lemma VisitLaw(env: Env, s: State, call: Call)
    requires env.params.Usable()
    ensures Visiting(env, s, call, VisitOrigin(env, s, call))
  {
    AttemptLaw(env, s, call);
    CompletionLaw(env, s, call, TryApiReq(env, s, call));
  }

  lemma CompletionLaw(env: Env, s: State, call: Call, t: Tried)
    requires env.params.Usable() && Attempted(s, call, t)
    ensures Visiting(env, s, call, CompleteVisit(env, s, call, t))
  {
    if t.result.GotResponse? && t.result.resp.status == HTTP_MISDIRECTED {
      FollowLaw(env, t.state, t.result.resp, call);
      MisdirectedVisitLaw(env, s, call, t, FollowMisdirected(env, t.state, t.result.resp, call));
    } else {
      DirectVisit(env, s, call, t);
    }
  }

  /** Following a 421 reads its body and, if it names another origin, tries that origin. */
  ghost predicate Followed(env: Env, s: State, resp: Response, call: Call, f: Tried)
    requires env.params.Usable()
  {
    match RedirectTarget(env, s.currentOrigin, resp.json)
    case None => f == Tried(NoResponse, ReadBody(s, resp))
    case Some(target) => Attempted(SwitchOrigin(ReadBody(s, resp), target), call, f)
  }

  lemma FollowLaw(env: Env, s: State, resp: Response, call: Call)
    requires env.params.Usable()
    ensures Followed(env, s, resp, call, FollowMisdirected(env, s, resp, call))
  {
    match RedirectTarget(env, s.currentOrigin, resp.json)
    case None =>
    case Some(target) => AttemptLaw(env, SwitchOrigin(ReadBody(s, resp), target), call);
  }

  lemma MisdirectedVisitLaw(env: Env, s: State, call: Call, t: Tried, f: Tried)
    requires env.params.Usable() && Attempted(s, call, t)
    requires t.result.GotResponse? && t.result.resp.status == HTTP_MISDIRECTED
    requires Followed(env, t.state, t.result.resp, call, f)
    ensures Visiting(env, s, call, MisdirectedVisit(env, s, t, f))
  {
    match RedirectTarget(env, s.currentOrigin, t.result.resp.json)
    case None => StuckVisit(env, s, call, t);
    case Some(target) => RedirectedVisit(env, s, call, t, target, f);
  }

  lemma DirectVisit(env: Env, s: State, call: Call, t: Tried)
    requires env.params.Usable() && Attempted(s, call, t)
    requires t.result.GotResponse? ==> t.result.resp.status != HTTP_MISDIRECTED
    ensures Visiting(env, s, call, Visited(Visit(Attempt(s.currentOrigin, |t.state.log| - 1, t.result), None), t.state))
  {
  }

  lemma StuckVisit(env: Env, s: State, call: Call, t: Tried)
    requires env.params.Usable() && Attempted(s, call, t)
    requires t.result.GotResponse? && t.result.resp.status == HTTP_MISDIRECTED
    requires RedirectTarget(env, s.currentOrigin, t.result.resp.json) == None
    ensures Visiting(env, s, call,
                     Visited(Visit(Attempt(s.currentOrigin, |t.state.log| - 1, t.result), None),
                             ReadBody(t.state, t.result.resp)))
  {
  }

  lemma RedirectedVisit(env: Env, s: State, call: Call, t: Tried, target: string, f: Tried)
    requires env.params.Usable() && Attempted(s, call, t)
    requires t.result.GotResponse? && t.result.resp.status == HTTP_MISDIRECTED
    requires RedirectTarget(env, s.currentOrigin, t.result.resp.json) == Some(target)
    requires Attempted(SwitchOrigin(ReadBody(t.state, t.result.resp), target), call, f)
    ensures Visiting(env, s, call,
                     Visited(Visit(Attempt(s.currentOrigin, |t.state.log| - 1, t.result),
                                   Some(Attempt(target, |f.state.log| - 1, f.result))),
                             f.state))
  {
    var first := Attempt(s.currentOrigin, |t.state.log| - 1, t.result);
    var v := Visit(first, Some(Attempt(target, |f.state.log| - 1, f.result)));
    var log := t.state.log;
    var read := ReadBody(t.state, t.result.resp).log;
    RedirectedEvents(|s.log|, call, log, f.state.log, v);
    assert log <= read <= f.state.log;
    assert Explains(f.state.log, call, first);
  }

  /** Fetches of one attempt, the read of its last answer, and the fetches of another attempt. */
  lemma RedirectedEvents(from: nat, call: Call, log: seq<Event>, whole: seq<Event>, v: Visit)
    requires from < |log| && log + [BodyRead(|log| - 1)] <= whole
    requires Misdirection(log[|log| - 1])
    requires forall i | from <= i < |log| :: Asks(log[i], v.first.origin, call) && !Decides(log[i])
    requires forall i | |log| < i < |whole| ::
               Asks(whole[i], v.Landed(), call) && (i < |whole| - 1 ==> !Decides(whole[i]))
    ensures VisitEvents(whole, from, call, v)
  {
  }

  /** A visit costs at most eight fetches. */
  lemma VisitCost(env: Env, s: State, call: Call)
    requires env.params.Usable()
    ensures Fetches(VisitOrigin(env, s, call).state.log) <= Fetches(s.log) + 8
  {
    AttemptLaw(env, s, call);
    CompletionCost(env, s, call, TryApiReq(env, s, call));
  }

  lemma CompletionCost(env: Env, s: State, call: Call, t: Tried)
    requires env.params.Usable() && Attempted(s, call, t)
    ensures Fetches(CompleteVisit(env, s, call, t).state.log) <= Fetches(s.log) + 8
  {
    FetchesGrow(s.log, t.state.log);
    if t.result.GotResponse? && t.result.resp.status == HTTP_MISDIRECTED {
      FetchesAppend(t.state.log, BodyRead(t.result.resp.at));
      var target := RedirectTarget(env, s.currentOrigin, t.result.resp.json);
      if target.Some? {
        var moved := SwitchOrigin(ReadBody(t.state, t.result.resp), target.value);
        AttemptLaw(env, moved, call);
        FetchesGrow(moved.log, TryApiReq(env, moved, call).state.log);
      }
    }
  }
}
