/** The histories of runs are genuine: every answer in them is what that server answered at that moment. */
module ReplicaHistory {
  import opened Wrappers
  import opened ReplicaModel
  import opened ReplicaLaws

  predicate Genuine(env: Env, past: seq<Event>, e: Event) {
    && (e.ListCall? ==> e.listing == env.list(past, e.server))
    && (e.TaskRun? ==> e.answer == env.task(past, e.at))
  }

  /** Every event since event `from` is genuine. */
  ghost predicate GenuineSince(env: Env, from: nat, log: seq<Event>) {
    forall i | from <= i < |log| :: Genuine(env, log[..i], log[i])
  }

  lemma GenuineAppend(env: Env, from: nat, log: seq<Event>, e: Event)
    requires GenuineSince(env, from, log) && Genuine(env, log, e)
    ensures GenuineSince(env, from, log + [e])
  {
    forall i | from <= i < |log + [e]| ensures Genuine(env, (log + [e])[..i], (log + [e])[i]) {
      assert (log + [e])[..i] == if i < |log| then log[..i] else log;
    }
  }

  lemma {:induction false} AskingGenuine(env: Env, from: nat, s: State, i: nat)
    requires i <= |env.servers| && GenuineSince(env, from, s.log)
    ensures GenuineSince(env, from, CallServers(env, s, i).state.log)
    decreases |env.servers| - i
  {
    if i < |env.servers| {
      var e := ListCall(env.servers[i], env.list(s.log, env.servers[i]));
      GenuineAppend(env, from, s.log, e);
      AskingGenuine(env, from, Log(s, e), i + 1);
    }
  }

  lemma ListingGenuine(env: Env, from: nat, s: State)
    requires GenuineSince(env, from, s.log)
    ensures GenuineSince(env, from, FetchReplicas(env, s).state.log)
  {
    AskingGenuine(env, from, s, 0);
    var called := CallServers(env, s, 0);
    GenuineAppend(env, from, called.state.log, Listed(called.result));
  }

  lemma {:induction false} SeekGenuine(env: Env, from: nat, s: State, tries: nat)
    requires GenuineSince(env, from, s.log)
    ensures GenuineSince(env, from, SeekPrimaryReplica(env, s, tries).state.log)
    decreases tries
  {
    if tries > 0 {
      ListingGenuine(env, from, s);
      var listed := FetchReplicas(env, s);
      if listed.result.Ok? {
        GenuineAppend(env, from, listed.state.log, Waited);
        SeekGenuine(env, from, Log(listed.state.(replicas := listed.result.value), Waited), tries - 1);
      }
    }
  }

  lemma TaskGenuine(env: Env, from: nat, s: State, mode: Mode, server: string)
    requires GenuineSince(env, from, s.log)
    ensures var run := RunTask(env, s, mode, server);
            GenuineSince(env, from, run.state.log) && GenuineSince(env, from, Log(run.state, Waited).log)
  {
    var run := RunTask(env, s, mode, server);
    GenuineAppend(env, from, s.log, TaskRun(mode, server, run.result));
    GenuineAppend(env, from, run.state.log, Waited);
  }

  lemma {:induction false} TryGenuine(env: Env, from: nat, s: State, tries: nat)
    requires PrimaryReplica(s.replicas).Some? && GenuineSince(env, from, s.log)
    ensures GenuineSince(env, from, TryOnPrimary(env, s, tries).state.log)
    decreases tries
  {
    if tries > 0 {
      var server := PrimaryReplica(s.replicas).value.server;
      var run := RunTask(env, s, OnPrimaryReplica, server);
      TryUnfolds(env, s, tries);
      TaskGenuine(env, from, s, OnPrimaryReplica, server);
      if run.result.Err? && LostOrNotPrimary(run.result.error) {
        var sought := SeekPrimaryReplica(env, Log(run.state, Waited), FETCH_REPLICAS_MAX_RETRIES);
        SeekGenuine(env, from, Log(run.state, Waited), FETCH_REPLICAS_MAX_RETRIES);
        if sought.result.Ok? {
          TryGenuine(env, from, sought.state, tries - 1);
        }
      }
    }
  }

  lemma PrimaryGenuine(env: Env, from: nat, s: State)
    requires GenuineSince(env, from, s.log)
    ensures GenuineSince(env, from, RunOnPrimaryReplica(env, s).state.log)
  {
    if PrimaryReplica(s.replicas).Some? {
      TryGenuine(env, from, s, PRIMARY_REPLICA_TASK_MAX_RETRIES);
    } else {
      SeekGenuine(env, from, s, FETCH_REPLICAS_MAX_RETRIES);
      var sought := SeekPrimaryReplica(env, s, FETCH_REPLICAS_MAX_RETRIES);
      if sought.result.Ok? {
        TryGenuine(env, from, sought.state, PRIMARY_REPLICA_TASK_MAX_RETRIES);
      }
    }
  }

  lemma {:induction false} AnyGenuine(env: Env, from: nat, s: State, i: nat)
    requires i <= |s.replicas| && GenuineSince(env, from, s.log)
    ensures GenuineSince(env, from, RunOnAnyReplica(env, s, i).state.log)
    decreases |s.replicas| - i
  {
    if i < |s.replicas| {
      TaskGenuine(env, from, s, OnAnyReplica, s.replicas[i].server);
      AnyGenuine(env, from, RunTask(env, s, OnAnyReplica, s.replicas[i].server).state, i + 1);
    }
  }

  lemma {:induction false} ManagerGenuine(env: Env, from: nat, log: seq<Event>, i: nat, errors: seq<(string, Failure)>)
    requires i <= |env.servers| && GenuineSince(env, from, log)
    ensures GenuineSince(env, from, ManagerRun(env, log, i, errors).log)
    decreases |env.servers| - i
  {
    if i < |env.servers| {
      var run := RunTask(env, State([], log), OnServer, env.servers[i]);
      TaskGenuine(env, from, State([], log), OnServer, env.servers[i]);
      if run.result.Err? {
        GetGenuine(env, from, run.state.log);
        ManagerGenuine(env, from, run.state.log, i + 1, errors + [(env.servers[i], run.result.error)]);
      }
    }
  }

  lemma GetGenuine(env: Env, from: nat, log: seq<Event>)
    requires GenuineSince(env, from, log)
    ensures GenuineSince(env, from, GetAndRunOnPrimary(env, log).log)
  {
    ListingGenuine(env, from, State([], log));
    var got := FetchReplicas(env, State([], log));
    if got.result.Ok? {
      PrimaryGenuine(env, from, got.state.(replicas := got.result.value));
    }
  }

  /** In every run, each listing and each task was answered by the server it names, at that moment. */
  lemma RunsAreGenuine(env: Env, s: State, tries: nat)
    ensures GenuineSince(env, |s.log|, FetchReplicas(env, s).state.log)
    ensures GenuineSince(env, |s.log|, SeekPrimaryReplica(env, s, tries).state.log)
    ensures GenuineSince(env, |s.log|, RunOnPrimaryReplica(env, s).state.log)
    ensures GenuineSince(env, |s.log|, RunFailsafe(env, s).state.log)
    ensures GenuineSince(env, |s.log|, ManagerRun(env, s.log, 0, []).log)
  {
    ListingGenuine(env, |s.log|, s);
    SeekGenuine(env, |s.log|, s, tries);
    PrimaryGenuine(env, |s.log|, s);
    AnyGenuine(env, |s.log|, s, 0);
    PrimaryGenuine(env, |s.log|, RunOnAnyReplica(env, s, 0).state);
    ManagerGenuine(env, |s.log|, s.log, 0, []);
  }

  /** The server is out of reach or lacks the database, whatever happened before. */
  ghost predicate NeverLists(env: Env, server: string) {
    forall log :: env.list(log, server).Err? && LostOrUnknown(env.list(log, server).error)
  }

  ghost predicate AlwaysLists(env: Env, server: string) {
    forall log :: env.list(log, server).Ok?
  }

  /** If a server lists the database and those before it are lost or lack it, its list is returned. */
  lemma FirstListWins(env: Env, s: State, k: nat)
    requires k < |env.servers| && AlwaysLists(env, env.servers[k])
    requires forall j | 0 <= j < k :: NeverLists(env, env.servers[j])
    ensures var o := FetchReplicas(env, s);
            |o.state.log| >= |s.log| + k && o.result == env.list(o.state.log[..|s.log| + k], env.servers[k])
  {
    ListingLaw(env, s);
    RunsAreGenuine(env, s, 0);
    FirstListByHistory(env, s, k, FetchReplicas(env, s));
  }

  lemma FirstListByHistory(env: Env, s: State, k: nat, o: Outcome<seq<Replica>>)
    requires k < |env.servers| && AlwaysLists(env, env.servers[k])
    requires forall j | 0 <= j < k :: NeverLists(env, env.servers[j])
    requires GenuineSince(env, |s.log|, o.state.log) && exists m: nat :: ListingEnds(env, s, m, o)
    ensures |o.state.log| >= |s.log| + k && o.result == env.list(o.state.log[..|s.log| + k], env.servers[k])
  {
    var m: nat :| ListingEnds(env, s, m, o);
    var log, n := o.state.log, |s.log|;
    assert m < |env.servers| ==> Genuine(env, log[..n + m], log[n + m]);
  }
}
