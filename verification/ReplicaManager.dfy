/** What the database manager guarantees on top of a run on the primary. */
module ReplicaManager {
  import opened Wrappers
  import opened ReplicaModel
  import opened ReplicaLaws

  predicate DirectFailure(e: Event, server: string, failure: (string, Failure)) {
    && e.TaskRun? && e.mode == OnServer && e.at == server
    && failure.0 == server && e.answer == Err(failure.1) && !Says(failure.1, ReplicaNotPrimary)
  }

  /** The first `m` servers were tried in order and failed otherwise than by not being the primary. */
  ghost predicate DirectFailures(env: Env, before: seq<Event>, log: seq<Event>, m: nat, errors: seq<(string, Failure)>) {
    && m <= |env.servers| && m == |errors|
    && before <= log && |before| + m <= |log|
    && (forall i | |before| <= i < |before| + m ::
          DirectFailure(log[i], env.servers[i - |before|], errors[i - |before|]))
  }

  /**
   How a run went on after the given history, once a server had said that it is not the primary:
   with one listing, which fails the run if it fails, and a run on the primary from that list.
   */
  ghost predicate HandedOver(env: Env, before: seq<Event>, o: ManagerOutcome) {
    exists k: nat, listed: Outcome<seq<Replica>> ::
      ListingEnds(env, State([], before), k, listed) && AfterListing(listed, o)
  }

  ghost predicate AfterListing(listed: Outcome<seq<Replica>>, o: ManagerOutcome) {
    var from := |listed.state.log|;
    && listed.state.log <= o.log
    && match listed.result
       case Err(e) => o == ManagerOutcome(Failed(e), listed.state.log)
       case Ok(rs) =>
         && !o.result.AllNodesFailed?
         && PrimaryRun(rs, from, Outcome(if o.result.Done? then Ok(o.result.value) else Err(o.result.error),
                                         State(Held(rs, from, o.log), o.log)))
  }

  lemma HandOver(env: Env, log: seq<Event>)
    ensures log <= GetAndRunOnPrimary(env, log).log
    ensures HandedOver(env, log, GetAndRunOnPrimary(env, log))
  {
    var listed := FetchReplicas(env, State([], log));
    ListingLaw(env, State([], log));
    var o := GetAndRunOnPrimary(env, log);
    if listed.result.Ok? {
      PrimaryRunLaw(env, listed.state.(replicas := listed.result.value));
    }
    assert AfterListing(listed, o);
  }

  /**
   How a run of the manager ended after `m` such failures: with the errors of all servers,
   with the value of the next server, or, the next server not being the primary, after a fresh
   listing and a run on the primary.
   */
  ghost predicate ManagerEnds(env: Env, before: seq<Event>, m: nat, errors: seq<(string, Failure)>, o: ManagerOutcome) {
    && DirectFailures(env, before, o.log, m, errors)
    && if m == |env.servers| then o == ManagerOutcome(AllNodesFailed(errors), o.log) && |o.log| == |before| + m
       else
         && |o.log| > |before| + m
         && var e := o.log[|before| + m];
         && e.TaskRun? && e.mode == OnServer && e.at == env.servers[m]
         && match e.answer
            case Ok(value) => o.result == Done(value) && |o.log| == |before| + m + 1
            case Err(failure) =>
              && Says(failure, ReplicaNotPrimary)
              && HandedOver(env, o.log[..|before| + m + 1], o)
  }

  /** Servers are tried once each, in order, until one succeeds or says it is not the primary. */
  lemma ManagerLaw(env: Env, log: seq<Event>)
    ensures exists m: nat, errors :: ManagerEnds(env, log, m, errors, ManagerRun(env, log, 0, []))
  {
    var m, errors := ManagerRunEnds(env, log, log, []);
  }

  lemma EndsByHandOver(env: Env, before: seq<Event>, log: seq<Event>, m: nat, errors: seq<(string, Failure)>,
                       failure: Failure, o: ManagerOutcome)
    requires DirectFailures(env, before, log, m, errors) && |log| == |before| + m && m < |env.servers|
    requires Says(failure, ReplicaNotPrimary)
    requires var log' := log + [TaskRun(OnServer, env.servers[m], Err(failure))];
             log' <= o.log && HandedOver(env, log', o)
    ensures ManagerEnds(env, before, m, errors, o)
  {
    var log' := log + [TaskRun(OnServer, env.servers[m], Err(failure))];
    assert o.log[..|before| + m + 1] == log';
    assert forall i | 0 <= i < |log'| :: o.log[i] == log'[i];
  }

  lemma {:induction false} ManagerRunEnds(env: Env, before: seq<Event>, log: seq<Event>, sofar: seq<(string, Failure)>)
    returns (m: nat, errors: seq<(string, Failure)>)
    requires DirectFailures(env, before, log, |sofar|, sofar) && |log| == |before| + |sofar|
    ensures ManagerEnds(env, before, m, errors, ManagerRun(env, log, |sofar|, sofar))
    decreases |env.servers| - |sofar|
  {
    m, errors := |sofar|, sofar;
    if m < |env.servers| {
      var run := RunTask(env, State([], log), OnServer, env.servers[m]);
      var log' := run.state.log;
      if run.result.Err? {
        if Says(run.result.error, ReplicaNotPrimary) {
          HandOver(env, log');
          EndsByHandOver(env, before, log, m, errors, run.result.error, GetAndRunOnPrimary(env, log'));
        } else {
          var errors' := errors + [(env.servers[m], run.result.error)];
          m, errors := ManagerRunEnds(env, before, log', errors');
        }
      }
    }
  }
}
