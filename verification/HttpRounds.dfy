/**
 Laws of one round: which origins are visited and in what order, which answer is
 returned, where the driver ends up, and what the history shows.
 */
module HttpRounds {
  import opened Wrappers
  import opened Origins
  import opened HttpModel
  import opened HttpVisits

  // ----- the answer of a round, read off its visits -----

  /** The configured origins a round falls back to, in order. */
  function Candidates(origins: seq<string>, tried: set<string>): (c: seq<string>)
    ensures |c| <= |origins|
    ensures forall o :: o in c <==> o in origins && o !in tried
  {
    if origins == [] then []
    else if origins[0] in tried then Candidates(origins[1..], tried)
    else [origins[0]] + Candidates(origins[1..], tried)
  }

  /** The last response among the outcomes. */
  function LastAnswer(visits: seq<Visit>): Option<Response> {
    if visits == [] then None
    else
      var later := LastAnswer(visits[1..]);
      var o := visits[0].Outcome();
      if later.Some? then later else if o.GotResponse? then Some(o.resp) else None
  }

  predicate Settled(visits: seq<Visit>) {
    visits != [] && Decisive(visits[|visits| - 1].Outcome())
  }

  /**
   The answer a round owes its caller: a deciding outcome if there is one, otherwise
   the response of the origin it started from, otherwise the latest response of any
   origin, otherwise the driver's own error.
   */
  function Verdict(visits: seq<Visit>): Final
    requires visits != []
  {
    var first := visits[0].Outcome();
    var last := visits[|visits| - 1].Outcome();
    if last.GotError? then Failed(last.err)
    else if last.GotResponse? && last.resp.IsOk() then Answered(last.resp)
    else if first.GotResponse? then Answered(first.resp)
    else match LastAnswer(visits)
      case Some(r) => Answered(r)
      case None => Failed(CANNOT_CONNECT)
  }

  /** The origin the driver is left on. */
  function ExitOrigin(visits: seq<Visit>): string
    requires visits != []
  {
    if !Settled(visits) && visits[0].Outcome().GotResponse? then visits[0].Landed()
    else visits[|visits| - 1].Landed()
  }

  /** Visits follow the given origins in order, stopping early exactly at a deciding outcome. */
  ghost predicate Follows(visits: seq<Visit>, origins: seq<string>) {
    && |visits| <= |origins|
    && (forall i | 0 <= i < |visits| :: visits[i].first.origin == origins[i])
    && (forall i | 0 <= i < |visits| - 1 :: !Decisive(visits[i].Outcome()))
    && (|visits| == |origins| || Settled(visits))
  }

  // ----- the scan of fallback origins -----

  function ScanVerdict(visits: seq<Visit>, lastError: Option<Response>): TryResult {
    if Settled(visits) then visits[|visits| - 1].Outcome()
    else
      var answer := LastAnswer(visits);
      if answer.Some? then GotResponse(answer.value)
      else if lastError.Some? then GotResponse(lastError.value) else NoResponse
  }

  ghost predicate ScanShape(s: State, candidates: seq<string>, lastError: Option<Response>, scan: Scan) {
    && Follows(scan.visits, candidates)
    && scan.result == ScanVerdict(scan.visits, lastError)
    && scan.state.currentOrigin == if scan.visits == [] then s.currentOrigin
                                   else scan.visits[|scan.visits| - 1].Landed()
  }

  lemma {:induction false} ScanShapeLaw(env: Env, s: State, call: Call, origins: seq<string>, tried: set<string>,
                                        lastError: Option<Response>)
    requires env.params.Usable()
    ensures ScanShape(s, Candidates(origins, tried), lastError,
                      TryFallbackOrigins(env, s, call, origins, tried, lastError))
    decreases |origins|
  {
    if origins == [] {
    } else if origins[0] in tried {
      ScanShapeLaw(env, s, call, origins[1..], tried, lastError);
    } else {
      var v := VisitOrigin(env, SwitchOrigin(s, origins[0]), call);
      VisitLaw(env, SwitchOrigin(s, origins[0]), call);
      var lastError' := if v.visit.Outcome().GotResponse? then Some(v.visit.Outcome().resp) else lastError;
      ScanShapeLaw(env, v.state, call, origins[1..], tried, lastError');
      var rest := TryFallbackOrigins(env, v.state, call, origins[1..], tried, lastError');
      ScanShapeStep(s, v, Candidates(origins[1..], tried), lastError, rest);
    }
  }

  lemma ScanShapeStep(s: State, v: Visited, candidates: seq<string>, lastError: Option<Response>, rest: Scan)
    requires v.state.currentOrigin == v.visit.Landed()
    requires var o := v.visit.Outcome();
             ScanShape(v.state, candidates, if o.GotResponse? then Some(o.resp) else lastError, rest)
    ensures var o := v.visit.Outcome();
            ScanShape(s, [v.visit.first.origin] + candidates, lastError,
                      if Decisive(o) then Scan(o, [v.visit], v.state)
                      else Scan(rest.result, [v.visit] + rest.visits, rest.state))
  {
    var visits := [v.visit] + rest.visits;
    assert visits[1..] == rest.visits;
    if !Decisive(v.visit.Outcome()) {
      forall i | 0 <= i < |visits| - 1 ensures !Decisive(visits[i].Outcome()) {
        assert i > 0 ==> visits[i] == rest.visits[i - 1];
      }
    }
  }

  // ----- the round -----

  /** Order of visits, answer and final origin of a round started from `s`. */
  ghost predicate RoundShape(env: Env, s: State, r: Round) {
    && |r.visits| > 0
    && r.visits[0].first.origin == s.currentOrigin
    && (Decisive(r.visits[0].Outcome()) ==> |r.visits| == 1)
    && (!Decisive(r.visits[0].Outcome()) ==>
          Follows(r.visits[1..], Candidates(AllOrigins(env.params), {s.currentOrigin, r.visits[0].Landed()})))
    && r.result == Verdict(r.visits)
    && r.state.currentOrigin == ExitOrigin(r.visits)
  }

  lemma RoundLaw(env: Env, s: State, call: Call)
    requires env.params.Usable()
    ensures RoundShape(env, s, ApiReqOnce(env, s, call))
  {
    var v := VisitOrigin(env, s, call);
    VisitLaw(env, s, call);
    if !Decisive(v.visit.Outcome()) {
      var tried := {s.currentOrigin, v.state.currentOrigin};
      ScanShapeLaw(env, v.state, call, AllOrigins(env.params), tried, None);
      RoundShapeStep(env, s, v, TryFallbackOrigins(env, v.state, call, AllOrigins(env.params), tried, None));
    }
  }

  lemma RoundShapeStep(env: Env, s: State, v: Visited, fb: Scan)
    requires v.visit.first.origin == s.currentOrigin && v.state.currentOrigin == v.visit.Landed()
    requires !Decisive(v.visit.Outcome())
    requires ScanShape(v.state, Candidates(AllOrigins(env.params), {s.currentOrigin, v.visit.Landed()}), None, fb)
    ensures RoundShape(env, s, ChooseAnswer(v, fb))
  {
    FirstVisitBefore(v.visit, fb.visits);
    UndecidedAnswer(fb.visits);
  }

  /** One more visit in front of others. */
  lemma FirstVisitBefore(first: Visit, rest: seq<Visit>)
    requires !Decisive(first.Outcome())
    ensures var visits := [first] + rest;
            && visits[1..] == rest
            && (rest != [] ==> visits[|visits| - 1] == rest[|rest| - 1])
            && (Settled(visits) <==> Settled(rest))
            && LastAnswer(visits) == if LastAnswer(rest).Some? then LastAnswer(rest)
                                     else if first.Outcome().GotResponse? then Some(first.Outcome().resp) else None
  {
    assert ([first] + rest)[1..] == rest;
  }

  /** Without a deciding outcome the last response is not an ok one. */
  lemma UndecidedAnswer(visits: seq<Visit>)
    requires forall i | 0 <= i < |visits| - 1 :: !Decisive(visits[i].Outcome())
    ensures !Settled(visits) && LastAnswer(visits).Some? ==> !LastAnswer(visits).value.IsOk()
  {
    LastAnswerIsOutcome(visits);
  }

  lemma {:induction false} LastAnswerIsOutcome(visits: seq<Visit>)
    ensures LastAnswer(visits).Some? ==>
              exists k :: 0 <= k < |visits| && visits[k].Outcome() == GotResponse(LastAnswer(visits).value)
    ensures LastAnswer(visits).None? ==> forall k | 0 <= k < |visits| :: !visits[k].Outcome().GotResponse?
  {
    if visits != [] {
      LastAnswerIsOutcome(visits[1..]);
      assert forall k | 0 < k < |visits| :: visits[k] == visits[1..][k - 1];
      if LastAnswer(visits[1..]).Some? {
        var k :| 0 <= k < |visits[1..]| && visits[1..][k].Outcome() == GotResponse(LastAnswer(visits[1..]).value);
        assert visits[k + 1].Outcome() == GotResponse(LastAnswer(visits).value);
      } else if visits[0].Outcome().GotResponse? {
        assert visits[0].Outcome() == GotResponse(LastAnswer(visits).value);
      }
    }
  }

  // ----- the history of a round -----

  /** The origins of all attempts. */
  function Contacted(visits: seq<Visit>): set<string> {
    if visits == [] then {} else {visits[0].first.origin, visits[0].Landed()} + Contacted(visits[1..])
  }

  /** The i-th event belongs to these visits, which began at event `from`. */
  predicate RoundEvent(log: seq<Event>, from: nat, call: Call, visits: seq<Visit>, i: nat)
    requires i < |log|
  {
    && !log[i].Waited?
    && (log[i].Fetched? ==> log[i].fetch.origin in Contacted(visits))
    && (log[i].Fetched? ==> Asks(log[i], log[i].fetch.origin, call))
    && (log[i].BodyRead? ==> from <= log[i].at == i - 1 && Misdirection(log[i - 1]))
    && (Decides(log[i]) ==> i == |log| - 1 && Settled(visits))
  }

  ghost predicate Unread(log: seq<Event>, from: nat, r: Response) {
    forall i | from <= i < |log| && log[i].BodyRead? :: log[i].at != r.at
  }

  /** A visit whose record agrees with the history and whose response nobody has read. */
  ghost predicate Recorded(env: Env, log: seq<Event>, from: nat, call: Call, v: Visit)
    requires env.params.Usable()
  {
    && Faithful(env, log, call, v)
    && (v.Outcome().GotResponse? ==> from <= v.Outcome().resp.at && Unread(log, from, v.Outcome().resp))
  }

  ghost predicate Logged(env: Env, log: seq<Event>, from: nat, call: Call, visits: seq<Visit>)
    requires env.params.Usable()
  {
    && (forall i | from <= i < |log| :: RoundEvent(log, from, call, visits, i))
    && (forall k | 0 <= k < |visits| :: Recorded(env, log, from, call, visits[k]))
    && (visits != [] ==> from < |log|)
    && (Settled(visits) ==> OutcomeEvident(log, call, visits[|visits| - 1]))
  }

  lemma LoggedOne(env: Env, s: State, call: Call, v: Visited)
    requires env.params.Usable() && Visiting(env, s, call, v)
    ensures Logged(env, v.state.log, |s.log|, call, [v.visit])
  {
    var log := v.state.log;
    assert Contacted([v.visit]) == {v.visit.first.origin, v.visit.Landed()};
    forall i | |s.log| <= i < |log| ensures RoundEvent(log, |s.log|, call, [v.visit], i) {
      assert VisitEvent(log, |s.log|, call, v.visit, i);
    }
    forall i | |s.log| <= i < |log| && log[i].BodyRead? ensures log[i].at < |log| - 1 {
      assert VisitEvent(log, |s.log|, call, v.visit, i);
    }
  }

  lemma LoggedMore(env: Env, s: State, call: Call, v: Visited, log: seq<Event>, visits: seq<Visit>)
    requires env.params.Usable() && Visiting(env, s, call, v)
    requires !Decisive(v.visit.Outcome())
    requires v.state.log <= log && Logged(env, log, |v.state.log|, call, visits)
    ensures Logged(env, log, |s.log|, call, [v.visit] + visits)
  {
    var head, all, from := v.state.log, [v.visit] + visits, |s.log|;
    assert all[1..] == visits;
    assert Settled(all) <==> Settled(visits);
    forall i | from <= i < |log|
      ensures RoundEvent(log, from, call, all, i)
      ensures i < |head| && log[i].BodyRead? ==> log[i].at < |head| - 1
      ensures i >= |head| && log[i].BodyRead? ==> log[i].at >= |head|
    {
      if i < |head| {
        assert log[i] == head[i];
        assert VisitEvent(head, from, call, v.visit, i);
      } else {
        assert RoundEvent(log, |head|, call, visits, i);
      }
    }
    FaithfulPersists(env, head, log, call, v.visit);
    forall k | 0 <= k < |all| ensures Recorded(env, log, from, call, all[k]) {
      assert k > 0 ==> all[k] == visits[k - 1] && Recorded(env, log, |head|, call, visits[k - 1]);
    }
  }

  lemma {:induction false} ScanLogged(env: Env, s: State, call: Call, origins: seq<string>, tried: set<string>,
                                      lastError: Option<Response>)
    requires env.params.Usable()
    ensures var scan := TryFallbackOrigins(env, s, call, origins, tried, lastError);
            && s.log <= scan.state.log
            && Logged(env, scan.state.log, |s.log|, call, scan.visits)
            && Fetches(scan.state.log) <= Fetches(s.log) + 8 * |origins|
    decreases |origins|
  {
    if origins == [] {
    } else if origins[0] in tried {
      ScanLogged(env, s, call, origins[1..], tried, lastError);
    } else {
      var moved := SwitchOrigin(s, origins[0]);
      var v := VisitOrigin(env, moved, call);
      VisitLaw(env, moved, call);
      VisitCost(env, moved, call);
      if Decisive(v.visit.Outcome()) {
        LoggedOne(env, moved, call, v);
      } else {
        var lastError' := if v.visit.Outcome().GotResponse? then Some(v.visit.Outcome().resp) else lastError;
        ScanLogged(env, v.state, call, origins[1..], tried, lastError');
        var rest := TryFallbackOrigins(env, v.state, call, origins[1..], tried, lastError');
        LoggedMore(env, moved, call, v, rest.state.log, rest.visits);
      }
    }
  }

  /** What the events of a round show, and how many fetches there are. */
  lemma RoundLogged(env: Env, s: State, call: Call)
    requires env.params.Usable()
    ensures var r := ApiReqOnce(env, s, call);
            && s.log <= r.state.log
            && Logged(env, r.state.log, |s.log|, call, r.visits)
            && Fetches(r.state.log) <= Fetches(s.log) + 8 * (env.params.Size() + 1)
  {
    var v := VisitOrigin(env, s, call);
    VisitLaw(env, s, call);
    VisitCost(env, s, call);
    if Decisive(v.visit.Outcome()) {
      LoggedOne(env, s, call, v);
    } else {
      var tried := {s.currentOrigin, v.state.currentOrigin};
      ScanLogged(env, v.state, call, AllOrigins(env.params), tried, None);
      var fb := TryFallbackOrigins(env, v.state, call, AllOrigins(env.params), tried, None);
      LoggedMore(env, s, call, v, fb.state.log, fb.visits);
    }
  }
}
