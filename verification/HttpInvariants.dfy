/**
 What holds of a driver after any sequence of calls: tokens stay with the origin that
 issued them, and no origin is contacted that is neither configured nor advertised.
 */
module HttpInvariants {
  import opened Wrappers
  import opened Origins
  import opened HttpModel
  import opened HttpVisits
  import opened HttpRounds

  /** Origin and token of the latest successful sign-in. */
  function LastIssued(log: seq<Event>): Option<(string, string)> {
    if log == [] then None
    else
      var e := log[|log| - 1];
      if Issues(e) then Some((e.fetch.origin, e.answer.json.token.value)) else LastIssued(log[..|log| - 1])
  }

  /** The j-th event is a 421 advertising an address that no entry answers to and that resolves to `origin`. */
  predicate Advertised(env: Env, log: seq<Event>, j: nat, origin: string)
    requires env.params.Usable()
  {
    && j < |log|
    && Misdirection(log[j])
    && log[j].answer.json.IsMisdirectedError()
    && var address := log[j].answer.json.primaryAddress.value;
    !MatchesSome(env.url, env.params, address) && origin == ResolveOrigin(env.url, env.params, address)
  }

  /** A configured origin, or one that a server advertised. */
  ghost predicate Known(env: Env, log: seq<Event>, origin: string)
    requires env.params.Usable()
  {
    || origin == RemoteOrigin(env.params)
    || origin in AllOrigins(env.params)
    || exists j: nat :: Advertised(env, log, j, origin)
  }

  /**
   A fetch is answered by the network, and goes to an origin known by then. A request carries the token of the latest
   successful sign-in, and that sign-in was at the origin the request goes to.
   */
  ghost predicate Sound(env: Env, past: seq<Event>, e: Event)
    requires env.params.Usable()
  {
    e.Fetched? ==>
      && e.answer == env.net(past, e.fetch)
      && Known(env, past, e.fetch.origin)
      && (e.fetch.CallFetch? ==> LastIssued(past) == Some((e.fetch.origin, e.fetch.token)))
  }

  ghost predicate DriverInvariant(env: Env, s: State)
    requires env.params.Usable()
  {
    && (forall i | 0 <= i < |s.log| :: Sound(env, s.log[..i], s.log[i]))
    && (s.token.Some? ==> LastIssued(s.log) == Some((s.currentOrigin, s.token.value)))
    && Known(env, s.log, s.currentOrigin)
  }

  lemma InitialInvariant(env: Env)
    requires env.params.Usable()
    ensures DriverInvariant(env, InitialState(env))
  {
  }

  lemma KnownPersists(env: Env, log: seq<Event>, log': seq<Event>, origin: string)
    requires env.params.Usable() && log <= log' && Known(env, log, origin)
    ensures Known(env, log', origin)
  {
    if j: nat :| Advertised(env, log, j, origin) {
      assert Advertised(env, log', j, origin);
    }
  }

  /** One more event, with the token the driver then holds. */
  lemma AppendKeeps(env: Env, s: State, e: Event, token: Option<string>)
    requires env.params.Usable() && DriverInvariant(env, s)
    requires Sound(env, s.log, e)
    requires if Issues(e) then e.fetch.origin == s.currentOrigin && token == e.answer.json.token else token == s.token
    ensures DriverInvariant(env, State(token, s.currentOrigin, s.log + [e]))
  {
    var log := s.log + [e];
    assert log[..|log| - 1] == s.log;
    forall i | 0 <= i < |log| ensures Sound(env, log[..i], log[i]) {
      if i < |s.log| {
        assert log[..i] == s.log[..i];
      }
    }
    KnownPersists(env, s.log, log, s.currentOrigin);
  }

  lemma SwitchKeeps(env: Env, s: State, origin: string)
    requires env.params.Usable() && DriverInvariant(env, s) && Known(env, s.log, origin)
    ensures DriverInvariant(env, SwitchOrigin(s, origin))
  {
  }

  lemma SigninKeeps(env: Env, s: State)
    requires env.params.Usable() && DriverInvariant(env, s)
    ensures DriverInvariant(env, SigninOnce(env, s).state)
    ensures SigninOnce(env, s).state.currentOrigin == s.currentOrigin
    ensures var r := SigninOnce(env, s); r.result.TokenOk? ==> r.state.token == Some(r.result.token)
  {
    var fetch := SignInFetch(s.currentOrigin);
    AppendKeeps(env, s, Fetched(fetch, env.net(s.log, fetch)), SigninOnce(env, s).state.token);
  }

  lemma SendKeeps(env: Env, s: State, call: Call)
    requires env.params.Usable() && DriverInvariant(env, s) && s.token.Some?
    ensures DriverInvariant(env, Send(env, s, CallFetch(s.currentOrigin, s.token.value, call)).state)
  {
    var fetch := CallFetch(s.currentOrigin, s.token.value, call);
    AppendKeeps(env, s, Fetched(fetch, env.net(s.log, fetch)), s.token);
  }

  lemma TryKeeps(env: Env, s: State, call: Call)
    requires env.params.Usable() && DriverInvariant(env, s)
    ensures DriverInvariant(env, TryApiReq(env, s, call).state)
  {
    var signed := GetToken(env, s);
    GetTokenKeeps(env, s);
    if signed.result.TokenErr? {
      assert TryApiReq(env, s, call).state == signed.state;
    } else {
      RequestKeeps(env, signed.state, call);
      var sent := Send(env, signed.state, CallFetch(s.currentOrigin, signed.result.token, call));
      assert TryApiReq(env, s, call).state in {sent.state, TryAgain(env, sent.state, call).state};
    }
  }

  lemma GetTokenKeeps(env: Env, s: State)
    requires env.params.Usable() && DriverInvariant(env, s)
    ensures var signed := GetToken(env, s);
            && DriverInvariant(env, signed.state) && signed.state.currentOrigin == s.currentOrigin
            && (signed.result.TokenOk? ==> signed.state.token == Some(signed.result.token))
  {
    SigninKeeps(env, s);
  }

  /** A request with the stored token, and what follows it if it is answered 401. */
  lemma RequestKeeps(env: Env, s: State, call: Call)
    requires env.params.Usable() && DriverInvariant(env, s) && s.token.Some?
    ensures var sent := Send(env, s, CallFetch(s.currentOrigin, s.token.value, call));
            DriverInvariant(env, sent.state) && DriverInvariant(env, TryAgain(env, sent.state, call).state)
  {
    SendKeeps(env, s, call);
    TryAgainKeeps(env, Send(env, s, CallFetch(s.currentOrigin, s.token.value, call)).state, call);
  }

  lemma TryAgainKeeps(env: Env, s: State, call: Call)
    requires env.params.Usable() && DriverInvariant(env, s)
    ensures DriverInvariant(env, TryAgain(env, s, call).state)
  {
    SigninKeeps(env, s);
    var signed := SigninOnce(env, s);
    if signed.result.TokenOk? {
      SendKeeps(env, signed.state, call);
    }
  }

  lemma RedirectIsKnown(env: Env, s: State, call: Call, resp: Response)
    requires env.params.Usable() && Brings(s.log, call, resp) && resp.status == HTTP_MISDIRECTED
    ensures var target := RedirectTarget(env, s.currentOrigin, resp.json);
            target.Some? ==> Known(env, s.log, target.value)
  {
    var target := RedirectTarget(env, s.currentOrigin, resp.json);
    if target.Some? && !MatchesSome(env.url, env.params, resp.json.primaryAddress.value) {
      assert Advertised(env, s.log, resp.at, target.value);
    }
  }

  lemma FollowKeeps(env: Env, s: State, resp: Response, call: Call)
    requires env.params.Usable() && DriverInvariant(env, s)
    requires Brings(s.log, call, resp) && resp.status == HTTP_MISDIRECTED
    ensures DriverInvariant(env, FollowMisdirected(env, s, resp, call).state)
  {
    var read := ReadBody(s, resp);
    AppendKeeps(env, s, BodyRead(resp.at), s.token);
    RedirectIsKnown(env, read, call, resp);
    var target := RedirectTarget(env, s.currentOrigin, resp.json);
    if target.Some? {
      SwitchKeeps(env, read, target.value);
      TryKeeps(env, SwitchOrigin(read, target.value), call);
    }
  }

  lemma VisitKeeps(env: Env, s: State, call: Call)
    requires env.params.Usable() && DriverInvariant(env, s)
    ensures DriverInvariant(env, VisitOrigin(env, s, call).state)
  {
    TryKeeps(env, s, call);
    AttemptLaw(env, s, call);
    CompletionKeeps(env, s, call, TryApiReq(env, s, call));
  }

  lemma CompletionKeeps(env: Env, s: State, call: Call, t: Tried)
    requires env.params.Usable() && DriverInvariant(env, t.state) && Attempted(s, call, t)
    ensures DriverInvariant(env, CompleteVisit(env, s, call, t).state)
  {
    if t.result.GotResponse? && t.result.resp.status == HTTP_MISDIRECTED {
      FollowKeeps(env, t.state, t.result.resp, call);
    }
  }

  lemma {:induction false} ScanKeeps(env: Env, s: State, call: Call, origins: seq<string>, tried: set<string>,
                                     lastError: Option<Response>)
    requires env.params.Usable() && DriverInvariant(env, s)
    requires forall o | o in origins :: o in AllOrigins(env.params)
    ensures DriverInvariant(env, TryFallbackOrigins(env, s, call, origins, tried, lastError).state)
    decreases |origins|
  {
    if origins == [] {
    } else if origins[0] in tried {
      ScanKeeps(env, s, call, origins[1..], tried, lastError);
    } else {
      var moved := SwitchOrigin(s, origins[0]);
      SwitchKeeps(env, s, origins[0]);
      VisitKeeps(env, moved, call);
      var v := VisitOrigin(env, moved, call);
      var outcome := v.visit.Outcome();
      ScanKeeps(env, v.state, call, origins[1..], tried, if outcome.GotResponse? then Some(outcome.resp) else lastError);
    }
  }

  lemma RoundKeeps(env: Env, s: State, call: Call)
    requires env.params.Usable() && DriverInvariant(env, s)
    ensures DriverInvariant(env, ApiReqOnce(env, s, call).state)
  {
    var v := VisitOrigin(env, s, call);
    VisitKeeps(env, s, call);
    if !Decisive(v.visit.Outcome()) {
      var tried := {s.currentOrigin, v.state.currentOrigin};
      ScanKeeps(env, v.state, call, AllOrigins(env.params), tried, None);
      ScanLogged(env, v.state, call, AllOrigins(env.params), tried, None);
      var fb := TryFallbackOrigins(env, v.state, call, AllOrigins(env.params), tried, None);
      ChoiceKeeps(env, v, fb);
    }
  }

  lemma ChoiceKeeps(env: Env, v: Visited, fb: Scan)
    requires env.params.Usable() && DriverInvariant(env, v.state) && DriverInvariant(env, fb.state)
    requires v.state.log <= fb.state.log
    ensures DriverInvariant(env, ChooseAnswer(v, fb).state)
  {
    KnownPersists(env, v.state.log, fb.state.log, v.state.currentOrigin);
    SwitchKeeps(env, fb.state, v.state.currentOrigin);
  }

  lemma {:induction false} RetryKeeps(env: Env, c: Called, call: Call, retries: nat)
    requires env.params.Usable() && DriverInvariant(env, c.state)
    ensures DriverInvariant(env, RetryMisdirected(RoundOf(env, call), c, retries).state)
    decreases retries
  {
    if retries > 0 && Misdirected(c) {
      AppendKeeps(env, c.state, Waited, c.state.token);
      RoundKeeps(env, Wait(c.state), call);
      RetryKeeps(env, CallOnce(env, Wait(c.state), call), call, retries - 1);
    }
  }

  lemma ApiReqKeepsInvariant(env: Env, s: State, call: Call)
    requires env.params.Usable() && DriverInvariant(env, s)
    ensures DriverInvariant(env, ApiReq(env, s, call).state)
  {
    RoundKeeps(env, s, call);
    RetryKeeps(env, CallOnce(env, s, call), call, PRIMARY_FAILOVER_RETRIES);
  }

  /** After any sequence of calls on a new driver, against any network. */
  lemma {:induction false} ReachableInvariant(env: Env, calls: seq<Call>)
    requires env.params.Usable()
    ensures DriverInvariant(env, After(env, calls))
  {
    if calls == [] {
      InitialInvariant(env);
    } else {
      ReachableInvariant(env, calls[..|calls| - 1]);
      ApiReqKeepsInvariant(env, After(env, calls[..|calls| - 1]), calls[|calls| - 1]);
    }
  }

  lemma {:induction false} LastIssuedIsEvent(log: seq<Event>)
    ensures LastIssued(log).Some? ==>
              exists j :: 0 <= j < |log| && Issues(log[j])
                          && LastIssued(log).value == (log[j].fetch.origin, log[j].answer.json.token.value)
  {
    if log != [] {
      LastIssuedIsEvent(log[..|log| - 1]);
    }
  }

  /** The token of request i was issued by an earlier sign-in at the origin of request i. */
  ghost predicate IssuedThere(log: seq<Event>, i: nat)
    requires i < |log| && log[i].Fetched? && log[i].fetch.CallFetch?
  {
    exists j :: 0 <= j < i && Issues(log[j]) && log[j].fetch.origin == log[i].fetch.origin
                && log[j].answer.json.token == Some(log[i].fetch.token)
  }

  /** Every token ever sent to an origin was issued by that origin. */
  lemma TokenBinding(env: Env, calls: seq<Call>)
    requires env.params.Usable()
    ensures var log := After(env, calls).log;
            forall i | 0 <= i < |log| && log[i].Fetched? && log[i].fetch.CallFetch? :: IssuedThere(log, i)
  {
    ReachableInvariant(env, calls);
    var log := After(env, calls).log;
    forall i | 0 <= i < |log| && log[i].Fetched? && log[i].fetch.CallFetch? ensures IssuedThere(log, i) {
      assert Sound(env, log[..i], log[i]);
      LastIssuedIsEvent(log[..i]);
      var j :| 0 <= j < |log[..i]| && Issues(log[..i][j])
               && LastIssued(log[..i]).value == (log[..i][j].fetch.origin, log[..i][j].answer.json.token.value);
      assert log[j] == log[..i][j];
    }
  }
}
