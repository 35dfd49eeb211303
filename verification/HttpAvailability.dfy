/** What failover is for: as long as one configured server works, calls succeed. */
module HttpAvailability {
  import opened Wrappers
  import opened Origins
  import opened HttpModel
  import opened HttpVisits
  import opened HttpRounds
  import opened HttpGuarantees
  import opened HttpInvariants

  /** The server at this origin signs the driver in and accepts requests, whatever happened before. */
  ghost predicate Healthy(env: Env, origin: string) {
    && (forall log :: Issues(Fetched(SignInFetch(origin), env.net(log, SignInFetch(origin)))))
    && (forall log, token, call ::
          var answer := env.net(log, CallFetch(origin, token, call)); answer.Reply? && Success(answer.status))
  }

  /** No server refuses the credentials; any may be down, misdirecting or failing otherwise. */
  ghost predicate NobodyRefuses(env: Env) {
    forall log, origin :: !FatalSignin(Fetched(SignInFetch(origin), env.net(log, SignInFetch(origin))))
  }

  /** An attempt at a healthy origin is accepted. */
  lemma HealthyAttempt(env: Env, s: State, call: Call, a: Attempt)
    requires env.params.Usable() && DriverInvariant(env, s) && Healthy(env, a.origin)
    requires Explains(s.log, call, a)
    ensures a.result.GotResponse? && a.result.resp.IsOk()
  {
    assert Sound(env, s.log[..a.last], s.log[a.last]);
  }

  /** So a visit that contacts a healthy origin decides the round. */
  lemma HealthyVisit(env: Env, s: State, call: Call, v: Visit, origin: string)
    requires env.params.Usable() && DriverInvariant(env, s) && Healthy(env, origin)
    requires Faithful(env, s.log, call, v) && origin in {v.first.origin, v.Landed()}
    ensures Decisive(v.Outcome())
  {
    if origin == v.first.origin {
      HealthyAttempt(env, s, call, v.first);
    } else {
      HealthyAttempt(env, s, call, v.redirected.value);
    }
  }

  lemma {:induction false} ContactedByVisit(visits: seq<Visit>, origin: string) returns (k: nat)
    requires origin in Contacted(visits)
    ensures k < |visits| && origin in {visits[k].first.origin, visits[k].Landed()}
  {
    if origin in {visits[0].first.origin, visits[0].Landed()} {
      k := 0;
    } else {
      k := ContactedByVisit(visits[1..], origin);
      k := k + 1;
    }
  }

  /** A round with a healthy configured origin is settled. */
  lemma RoundSettles(env: Env, s: State, call: Call, origin: string, r: Round)
    requires env.params.Usable() && DriverInvariant(env, r.state) && Healthy(env, origin)
    requires origin in AllOrigins(env.params)
    requires RoundShape(env, s, r) && Logged(env, r.state.log, |s.log|, call, r.visits)
    ensures Settled(r.visits)
  {
    if !Settled(r.visits) {
      AllContacted(env, s, r);
      NobodyDecides(env, s, r);
      var k := ContactedByVisit(r.visits, origin);
      assert Recorded(env, r.state.log, |s.log|, call, r.visits[k]);
      HealthyVisit(env, r.state, call, r.visits[k], origin);
    }
  }

  lemma NobodyDecides(env: Env, s: State, r: Round)
    requires RoundShape(env, s, r) && !Settled(r.visits)
    ensures forall k | 0 <= k < |r.visits| :: !Decisive(r.visits[k].Outcome())
  {
    assert forall k | 0 < k < |r.visits| :: r.visits[k] == r.visits[1..][k - 1];
  }

  /**
   In every reachable state, if one configured server is healthy and none refuses the
   credentials, a call returns an ok response, and does so in its first round.
   */
  lemma Available(env: Env, calls: seq<Call>, call: Call, origin: string)
    requires env.params.Usable() && Healthy(env, origin) && NobodyRefuses(env)
    requires origin in AllOrigins(env.params)
    ensures var s := After(env, calls);
            var c := ApiReq(env, s, call);
            c == CallOnce(env, s, call) && c.result.Answered? && c.result.resp.IsOk()
  {
    var s := After(env, calls);
    ReachableInvariant(env, calls);
    RoundKeeps(env, s, call);
    RoundLaw(env, s, call);
    RoundLogged(env, s, call);
    RoundSucceeds(env, s, call, origin, ApiReqOnce(env, s, call));
  }

  lemma RoundSucceeds(env: Env, s: State, call: Call, origin: string, r: Round)
    requires env.params.Usable() && DriverInvariant(env, r.state) && Healthy(env, origin) && NobodyRefuses(env)
    requires origin in AllOrigins(env.params)
    requires RoundShape(env, s, r) && Logged(env, r.state.log, |s.log|, call, r.visits)
    ensures r.result.Answered? && r.result.resp.IsOk()
  {
    RoundSettles(env, s, call, origin, r);
    var log := r.state.log;
    assert Sound(env, log[..|log| - 1], log[|log| - 1]);
  }

  // ----- by redirection -----

  /** The server at this origin signs the driver in and sends every request on to the target. */
  ghost predicate Redirects(env: Env, origin: string, target: string)
    requires env.params.Usable()
  {
    && (forall log :: Issues(Fetched(SignInFetch(origin), env.net(log, SignInFetch(origin)))))
    && (forall log, token, call ::
          var answer := env.net(log, CallFetch(origin, token, call));
          && answer.Reply? && answer.status == 421
          && RedirectTarget(env, origin, answer.json) == Some(target))
  }

  /**
   If the current origin sends requests on to a healthy server, configured or not, a call
   returns that server's ok response in its first visit, and the driver stays there.
   */
  lemma RedirectedCall(env: Env, s: State, call: Call, target: string)
    requires env.params.Usable() && DriverInvariant(env, s)
    requires Redirects(env, s.currentOrigin, target) && Healthy(env, target)
    ensures var r := ApiReqOnce(env, s, call);
            var c := ApiReq(env, s, call);
            && c == CallOnce(env, s, call) && |r.visits| == 1
            && c.result.Answered? && c.result.resp.IsOk()
            && c.state.currentOrigin == target
  {
    RoundKeeps(env, s, call);
    RoundLaw(env, s, call);
    RoundLogged(env, s, call);
    FirstVisitDecides(env, s, call, target, ApiReqOnce(env, s, call));
  }

  lemma FirstVisitDecides(env: Env, s: State, call: Call, target: string, r: Round)
    requires env.params.Usable() && DriverInvariant(env, r.state)
    requires Redirects(env, s.currentOrigin, target) && Healthy(env, target)
    requires RoundShape(env, s, r) && Logged(env, r.state.log, |s.log|, call, r.visits)
    ensures |r.visits| == 1 && r.result.Answered? && r.result.resp.IsOk() && r.state.currentOrigin == target
  {
    var v := r.visits[0];
    assert Recorded(env, r.state.log, |s.log|, call, v);
    assert Sound(env, r.state.log[..v.first.last], r.state.log[v.first.last]);
    HealthyAttempt(env, r.state, call, v.redirected.value);
  }
}
