/** Signing in once is enough: the token of a successful call is kept, and the next call sends it first. */
module HttpSessions {
  import opened Wrappers
  import opened Origins
  import opened HttpModel
  import opened HttpVisits
  import opened HttpRounds
  import opened HttpGuarantees

  /** The last event is a request with the token the driver holds, to the origin it is on. */
  predicate InSession(s: State) {
    && s.log != []
    && var e := s.log[|s.log| - 1];
    e.Fetched? && e.fetch.CallFetch? && s.token == Some(e.fetch.token) && e.fetch.origin == s.currentOrigin
  }

  predicate OkResult(r: TryResult) {
    r.GotResponse? && r.resp.IsOk()
  }

  lemma VisitSession(env: Env, s: State, call: Call)
    requires env.params.Usable()
    ensures var v := VisitOrigin(env, s, call); v.visit.Outcome().GotResponse? ==> InSession(v.state)
  {
    VisitLaw(env, s, call);
    SessionOfVisit(env, s, call, VisitOrigin(env, s, call));
  }

  lemma SessionOfVisit(env: Env, s: State, call: Call, v: Visited)
    requires env.params.Usable() && Visiting(env, s, call, v)
    ensures v.visit.Outcome().GotResponse? ==> InSession(v.state)
  {
  }

  lemma {:induction false} ScanSession(env: Env, s: State, call: Call, origins: seq<string>, tried: set<string>,
                                       lastError: Option<Response>)
    requires env.params.Usable() && (lastError.Some? ==> !lastError.value.IsOk())
    ensures var scan := TryFallbackOrigins(env, s, call, origins, tried, lastError);
            OkResult(scan.result) ==> InSession(scan.state)
    decreases |origins|
  {
    if origins == [] {
    } else if origins[0] in tried {
      ScanSession(env, s, call, origins[1..], tried, lastError);
    } else {
      var moved := SwitchOrigin(s, origins[0]);
      VisitSession(env, moved, call);
      var v := VisitOrigin(env, moved, call);
      var outcome := v.visit.Outcome();
      if !Decisive(outcome) {
        ScanSession(env, v.state, call, origins[1..], tried, if outcome.GotResponse? then Some(outcome.resp) else lastError);
      }
    }
  }

  lemma RoundSession(env: Env, s: State, call: Call)
    requires env.params.Usable()
    ensures var r := ApiReqOnce(env, s, call); r.result.Answered? && r.result.resp.IsOk() ==> InSession(r.state)
  {
    VisitSession(env, s, call);
    var v := VisitOrigin(env, s, call);
    if !Decisive(v.visit.Outcome()) {
      var tried := {s.currentOrigin, v.state.currentOrigin};
      ScanSession(env, v.state, call, AllOrigins(env.params), tried, None);
    }
  }

  ghost predicate SessionStep(round: State -> Called, s: State) {
    var c := round(s); c.result.Answered? && c.result.resp.IsOk() ==> InSession(c.state)
  }

  lemma {:induction false} RetrySession(round: State -> Called, c: Called, retries: nat)
    requires forall s {:trigger SessionStep(round, s)} :: SessionStep(round, s)
    requires c.result.Answered? && c.result.resp.IsOk() ==> InSession(c.state)
    ensures var d := RetryMisdirected(round, c, retries); d.result.Answered? && d.result.resp.IsOk() ==> InSession(d.state)
    decreases retries
  {
    if retries > 0 && Misdirected(c) {
      assert SessionStep(round, Wait(c.state));
      RetrySession(round, round(Wait(c.state)), retries - 1);
    }
  }

  /** The token a driver holds that held the given one at event `from` and has not moved since. */
  function TokenAfter(token: Option<string>, from: nat, log: seq<Event>): Option<string> {
    if |log| <= from then token
    else
      var e := log[|log| - 1];
      if Issues(e) then e.answer.json.token else TokenAfter(token, from, log[..|log| - 1])
  }

  lemma TokenAppend(token: Option<string>, from: nat, log: seq<Event>, e: Event)
    requires from <= |log|
    ensures TokenAfter(token, from, log + [e]) == if Issues(e) then e.answer.json.token else TokenAfter(token, from, log)
  {
    assert (log + [e])[..|log|] == log;
  }

  /** An attempt replaces the token by those it is issued, and otherwise leaves it alone, even after a 401. */
  lemma AttemptToken(env: Env, s: State, call: Call)
    ensures var t := TryApiReq(env, s, call); t.state.token == TokenAfter(s.token, |s.log|, t.state.log)
  {
    var signed := GetToken(env, s);
    SigninToken(env, s, s.token, |s.log|);
    if signed.result.TokenOk? {
      SendToken(env, signed.state, call, signed.result.token, s.token, |s.log|);
      var sent := Send(env, signed.state, CallFetch(s.currentOrigin, signed.result.token, call));
      AgainToken(env, sent.state, call, s.token, |s.log|);
    }
  }

  lemma AgainToken(env: Env, s: State, call: Call, token: Option<string>, from: nat)
    requires from <= |s.log| && s.token == TokenAfter(token, from, s.log)
    ensures var t := TryAgain(env, s, call); t.state.token == TokenAfter(token, from, t.state.log)
  {
    SigninToken(env, s, token, from);
    var again := SigninOnce(env, s);
    if again.result.TokenOk? {
      SendToken(env, again.state, call, again.result.token, token, from);
    }
  }

  lemma SigninToken(env: Env, s: State, token: Option<string>, from: nat)
    requires from <= |s.log| && s.token == TokenAfter(token, from, s.log)
    ensures var r := SigninOnce(env, s); from <= |r.state.log| && r.state.token == TokenAfter(token, from, r.state.log)
  {
    var fetch := SignInFetch(s.currentOrigin);
    TokenAppend(token, from, s.log, Fetched(fetch, env.net(s.log, fetch)));
  }

  lemma SendToken(env: Env, s: State, call: Call, sent: string, token: Option<string>, from: nat)
    requires from <= |s.log| && s.token == TokenAfter(token, from, s.log)
    ensures var r := Send(env, s, CallFetch(s.currentOrigin, sent, call));
            from <= |r.state.log| && r.state.token == TokenAfter(token, from, r.state.log)
  {
    var fetch := CallFetch(s.currentOrigin, sent, call);
    TokenAppend(token, from, s.log, Fetched(fetch, env.net(s.log, fetch)));
  }

  /** With a token at hand, the first event of a call is the request, sent with that token. */
  lemma BeginsWithRequest(env: Env, s: State, call: Call)
    requires env.params.Usable() && HoldsToken(s)
    ensures var log := ApiReq(env, s, call).state.log;
            && s.log < log && log[|s.log|].Fetched?
            && log[|s.log|].fetch == CallFetch(s.currentOrigin, s.token.value, call)
  {
    var t := TryApiReq(env, s, call);
    AttemptLaw(env, s, call);
    AttemptProtocol(env, s, call);
    assert InOrder(s, call, t.state.log, |s.log|);
    assert Asks(t.state.log[|s.log|], s.currentOrigin, call);
    RoundExtendsAttempt(env, s, call);
    RoundSoFar(env, s, call);
    AnyRoundSoFar(env, call);
    RetrySoFar(RoundOf(env, call), |s.log|, CallOnce(env, s, call), call, PRIMARY_FAILOVER_RETRIES);
    assert t.state.log <= CallOnce(env, s, call).state.log <= ApiReq(env, s, call).state.log;
  }

  lemma RoundExtendsAttempt(env: Env, s: State, call: Call)
    requires env.params.Usable()
    ensures TryApiReq(env, s, call).state.log <= ApiReqOnce(env, s, call).state.log
  {
    var v := VisitOrigin(env, s, call);
    VisitExtendsAttempt(env, s, call, TryApiReq(env, s, call));
    if !Decisive(v.visit.Outcome()) {
      ScanLogged(env, v.state, call, AllOrigins(env.params), {s.currentOrigin, v.state.currentOrigin}, None);
    }
  }

  lemma VisitExtendsAttempt(env: Env, s: State, call: Call, t: Tried)
    requires env.params.Usable()
    ensures t.state.log <= CompleteVisit(env, s, call, t).state.log
  {
    if t.result.GotResponse? && t.result.resp.status == HTTP_MISDIRECTED {
      FollowLaw(env, t.state, t.result.resp, call);
    }
  }

  /**
   After a call that is answered ok, the driver is on the origin that answered and holds the token
   that it sent there; unless that is empty, the next call begins with a request that carries it.
   */
  lemma SessionKept(env: Env, s: State, call: Call, next: Call)
    requires env.params.Usable()
    requires var c := ApiReq(env, s, call); c.result.Answered? && c.result.resp.IsOk()
    ensures var c := ApiReq(env, s, call);
            && InSession(c.state)
            && (c.state.token != Some("") ==>
                  var log := ApiReq(env, c.state, next).state.log;
                  && |c.state.log| < |log| && log[|c.state.log|].Fetched?
                  && log[|c.state.log|].fetch == CallFetch(c.state.currentOrigin, c.state.token.value, next))
  {
    var round := RoundOf(env, call);
    forall s ensures SessionStep(round, s) {
      RoundSession(env, s, call);
    }
    RoundSession(env, s, call);
    RetrySession(round, CallOnce(env, s, call), PRIMARY_FAILOVER_RETRIES);
    var c := ApiReq(env, s, call);
    if c.state.token != Some("") {
      BeginsWithRequest(env, c.state, next);
    }
  }
}
