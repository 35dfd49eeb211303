/** What runs of tasks on a cluster guarantee, for all servers and all tasks. */
module ReplicaLaws {
  import opened Wrappers
  import opened ReplicaModel

  // ----- failures that do not end a run -----

  predicate Says(e: Failure, t: Template) {
    e.DriverError? && e.template == Some(t)
  }

  predicate LostOrNotPrimary(e: Failure) {
    e.DriverError? && (e.template == Some(UnableToConnect) || e.template == Some(ReplicaNotPrimary))
  }

  predicate LostOrUnknown(e: Failure) {
    e.DriverError? && (e.template == Some(UnableToConnect) || e.template == Some(DatabaseDoesNotExist))
  }

  // ----- the primary replica -----

  /** The first of the primaries with the highest term. */
  predicate FirstHighestPrimary(rs: seq<Replica>, k: nat) {
    && k < |rs| && rs[k].primary
    && (forall j | 0 <= j < |rs| && rs[j].primary :: rs[j].term <= rs[k].term)
    && (forall j | 0 <= j < k && rs[j].primary :: rs[j].term < rs[k].term)
  }

  lemma ShiftHighest(rs: seq<Replica>, k: nat)
    requires |rs| > 0 && FirstHighestPrimary(rs[1..], k)
    requires rs[0].primary ==> rs[0].term < rs[1..][k].term
    ensures FirstHighestPrimary(rs, k + 1) && rs[k + 1] == rs[1..][k]
  {
    assert forall j | 0 < j < |rs| :: rs[j] == rs[1..][j - 1];
  }

  lemma FrontHighest(rs: seq<Replica>)
    requires |rs| > 0 && rs[0].primary
    requires forall j | 0 <= j < |rs[1..]| && rs[1..][j].primary :: rs[1..][j].term <= rs[0].term
    ensures FirstHighestPrimary(rs, 0)
  {
    assert forall j | 0 < j < |rs| :: rs[j] == rs[1..][j - 1];
  }

  /** The reduction keeps the current replica, or ends on the first highest primary of the rest. */
  lemma {:induction false} HighestTermLaw(current: Replica, rs: seq<Replica>) returns (k: Option<nat>)
    ensures var h := HighestTerm(current, Primaries(rs));
            if k.None? then h == current && forall j | 0 <= j < |rs| && rs[j].primary :: rs[j].term <= current.term
            else FirstHighestPrimary(rs, k.value) && rs[k.value] == h && h.term > current.term
    decreases |rs|
  {
    k := None;
    if rs != [] {
      var next := if rs[0].primary && rs[0].term > current.term then rs[0] else current;
      HighestStep(current, rs);
      k := HighestTermLaw(next, rs[1..]);
      if k.Some? {
        ShiftHighest(rs, k.value);
        k := Some(k.value + 1);
      } else if next != current {
        FrontHighest(rs);
        k := Some(0);
      } else {
        assert forall j | 0 < j < |rs| :: rs[j] == rs[1..][j - 1];
      }
    }
  }

  lemma HighestStep(current: Replica, rs: seq<Replica>)
    requires rs != []
    ensures HighestTerm(current, Primaries(rs))
            == HighestTerm(if rs[0].primary && rs[0].term > current.term then rs[0] else current, Primaries(rs[1..]))
  {
    assert rs[0].primary ==> Primaries(rs)[1..] == Primaries(rs[1..]);
  }

  /** No primary is found exactly if there is none, and the one found is the first with the highest term. */
  lemma {:induction false} PrimaryReplicaLaw(rs: seq<Replica>)
    ensures PrimaryReplica(rs).None? <==> forall j | 0 <= j < |rs| :: !rs[j].primary
    ensures PrimaryReplica(rs).Some? ==>
              exists k: nat :: FirstHighestPrimary(rs, k) && rs[k] == PrimaryReplica(rs).value
    decreases |rs|
  {
    if rs != [] {
      if rs[0].primary {
        assert Primaries(rs)[1..] == Primaries(rs[1..]);
        var k := HighestTermLaw(rs[0], rs[1..]);
        if k.Some? {
          ShiftHighest(rs, k.value);
        } else {
          FrontHighest(rs);
        }
      } else {
        PrimaryReplicaLaw(rs[1..]);
        assert forall j | 0 < j < |rs| :: rs[j] == rs[1..][j - 1];
        if k: nat :| FirstHighestPrimary(rs[1..], k) && rs[1..][k] == PrimaryReplica(rs[1..]).value {
          ShiftHighest(rs, k);
        }
      }
    }
  }

  // ----- tasks go to the primary of the list held at that moment -----

  /** The list held after the given history: the latest one received since event `from`. */
  function Held(initial: seq<Replica>, from: nat, log: seq<Event>): seq<Replica> {
    if |log| <= from then initial
    else
      var e := log[|log| - 1];
      if e.Listed? && e.list.Ok? then e.list.value else Held(initial, from, log[..|log| - 1])
  }

  ghost predicate AtPrimary(held: seq<Replica>, e: Event) {
    e.TaskRun? && e.mode == OnPrimaryReplica ==> exists k: nat :: FirstHighestPrimary(held, k) && e.at == held[k].server
  }

  ghost predicate Safe(initial: seq<Replica>, from: nat, s: State) {
    && from <= |s.log|
    && s.replicas == Held(initial, from, s.log)
    && (forall i | from <= i < |s.log| :: SafeEvent(initial, from, s.log, i))
  }

  ghost predicate SafeEvent(initial: seq<Replica>, from: nat, log: seq<Event>, i: nat)
    requires i < |log|
  {
    AtPrimary(Held(initial, from, log[..i]), log[i])
  }

  lemma SafeAppend(initial: seq<Replica>, from: nat, s: State, e: Event)
    requires Safe(initial, from, s) && AtPrimary(s.replicas, e)
    ensures Safe(initial, from, State(if e.Listed? && e.list.Ok? then e.list.value else s.replicas, s.log + [e]))
  {
    var log := s.log + [e];
    assert log[..|log| - 1] == s.log;
    forall i | from <= i < |log| ensures SafeEvent(initial, from, log, i) {
      if i < |s.log| {
        assert log[..i] == s.log[..i];
        assert SafeEvent(initial, from, s.log, i);
      }
    }
  }

  lemma {:induction false} CallServersSafe(env: Env, initial: seq<Replica>, from: nat, s: State, i: nat)
    requires i <= |env.servers| && Safe(initial, from, s)
    ensures Safe(initial, from, CallServers(env, s, i).state)
    ensures CallServers(env, s, i).state.replicas == s.replicas
    decreases |env.servers| - i
  {
    if i < |env.servers| {
      var e := ListCall(env.servers[i], env.list(s.log, env.servers[i]));
      SafeAppend(initial, from, s, e);
      CallServersSafe(env, initial, from, Log(s, e), i + 1);
    }
  }

  lemma {:induction false} SeekSafe(env: Env, initial: seq<Replica>, from: nat, s: State, tries: nat)
    requires Safe(initial, from, s)
    ensures Safe(initial, from, SeekPrimaryReplica(env, s, tries).state)
    decreases tries
  {
    if tries > 0 {
      var called := CallServers(env, s, 0);
      CallServersSafe(env, initial, from, s, 0);
      SafeAppend(initial, from, called.state, Listed(called.result));
      if called.result.Ok? {
        var s' := State(called.result.value, called.state.log + [Listed(called.result)]);
        SafeAppend(initial, from, s', Waited);
        SeekSafe(env, initial, from, Log(s', Waited), tries - 1);
      }
    }
  }

  lemma RunSafe(env: Env, initial: seq<Replica>, from: nat, s: State)
    requires Safe(initial, from, s) && PrimaryReplica(s.replicas).Some?
    ensures var run := RunTask(env, s, OnPrimaryReplica, PrimaryReplica(s.replicas).value.server);
            Safe(initial, from, run.state) && Safe(initial, from, Log(run.state, Waited))
  {
    PrimaryReplicaLaw(s.replicas);
    var server := PrimaryReplica(s.replicas).value.server;
    var run := RunTask(env, s, OnPrimaryReplica, server);
    SafeAppend(initial, from, s, TaskRun(OnPrimaryReplica, server, run.result));
    SafeAppend(initial, from, run.state, Waited);
  }

  lemma {:induction false} TrySafe(env: Env, initial: seq<Replica>, from: nat, s: State, tries: nat)
    requires Safe(initial, from, s) && PrimaryReplica(s.replicas).Some?
    ensures Safe(initial, from, TryOnPrimary(env, s, tries).state)
    decreases tries
  {
    if tries > 0 {
      TryUnfolds(env, s, tries);
      RunSafe(env, initial, from, s);
      var run := RunTask(env, s, OnPrimaryReplica, PrimaryReplica(s.replicas).value.server);
      if run.result.Ok? || !LostOrNotPrimary(run.result.error) {
        return;
      }
      SeekSafe(env, initial, from, Log(run.state, Waited), FETCH_REPLICAS_MAX_RETRIES);
      var sought := SeekPrimaryReplica(env, Log(run.state, Waited), FETCH_REPLICAS_MAX_RETRIES);
      if sought.result.Err? {
        return;
      }
      TrySafe(env, initial, from, sought.state, tries - 1);
    }
  }

  /** The three ways an attempt on the primary goes on. */
  lemma TryUnfolds(env: Env, s: State, tries: nat)
    requires tries > 0 && PrimaryReplica(s.replicas).Some?
    ensures var o := TryOnPrimary(env, s, tries);
            var run := RunTask(env, s, OnPrimaryReplica, PrimaryReplica(s.replicas).value.server);
            var sought := SeekPrimaryReplica(env, Log(run.state, Waited), FETCH_REPLICAS_MAX_RETRIES);
            if run.result.Ok? || !LostOrNotPrimary(run.result.error) then o == run
            else if sought.result.Err? then o == Outcome(Err(sought.result.error), sought.state)
            else o == TryOnPrimary(env, sought.state, tries - 1)
  {
  }

  /** In a run on the primary every task goes to the first highest-term primary of the list then held. */
  lemma PrimarySafety(env: Env, s: State)
    ensures Safe(s.replicas, |s.log|, RunOnPrimaryReplica(env, s).state)
  {
    if PrimaryReplica(s.replicas).Some? {
      TrySafe(env, s.replicas, |s.log|, s, PRIMARY_REPLICA_TASK_MAX_RETRIES);
    } else {
      SeekSafe(env, s.replicas, |s.log|, s, FETCH_REPLICAS_MAX_RETRIES);
      var sought := SeekPrimaryReplica(env, s, FETCH_REPLICAS_MAX_RETRIES);
      if sought.result.Ok? {
        TrySafe(env, s.replicas, |s.log|, sought.state, PRIMARY_REPLICA_TASK_MAX_RETRIES);
      }
    }
  }

  // ----- listing and seeking -----

  predicate Skipped(e: Event, server: string) {
    e.ListCall? && e.server == server && e.listing.Err? && LostOrUnknown(e.listing.error)
  }

  /** The first `m` servers were asked in order and each pointed to the next. */
  ghost predicate SkippedServers(env: Env, before: seq<Event>, log: seq<Event>, m: nat) {
    && m <= |env.servers| && before <= log && |before| + m <= |log|
    && (forall i | |before| <= i < |before| + m :: Skipped(log[i], env.servers[i - |before|]))
  }

  /** How asking the servers ended: with the first answer of another kind, or without connection after all. */
  ghost predicate AskingEnds(env: Env, before: seq<Event>, m: nat, o: Outcome<seq<Replica>>) {
    var log := o.state.log;
    && SkippedServers(env, before, log, m)
    && if m == |env.servers| then |log| == |before| + m && o.result == Err(NO_CONNECTION)
       else && |log| == |before| + m + 1 && log[|log| - 1] == ListCall(env.servers[m], o.result)
            && !(o.result.Err? && LostOrUnknown(o.result.error))
  }

  lemma {:induction false} AskingRun(env: Env, before: seq<Event>, s: State, i: nat) returns (m: nat)
    requires |s.log| == |before| + i && SkippedServers(env, before, s.log, i)
    ensures AskingEnds(env, before, m, CallServers(env, s, i)) && CallServers(env, s, i).state.replicas == s.replicas
    decreases |env.servers| - i
  {
    m := i;
    if i < |env.servers| {
      var listing := env.list(s.log, env.servers[i]);
      if listing.Err? && LostOrUnknown(listing.error) {
        m := AskingRun(env, before, Log(s, ListCall(env.servers[i], listing)), i + 1);
      }
    }
  }

  /** How a listing ended after `m` servers were skipped: its closing event repeats its result. */
  ghost predicate ListingEnds(env: Env, s: State, m: nat, o: Outcome<seq<Replica>>) {
    var log := o.state.log;
    && o.state.replicas == s.replicas
    && SkippedServers(env, s.log, log, m)
    && |log| == |s.log| + m + (if m == |env.servers| then 1 else 2)
    && log[|log| - 1] == Listed(o.result)
    && if m == |env.servers| then o.result == Err(NO_CONNECTION)
       else log[|s.log| + m] == ListCall(env.servers[m], o.result) && !(o.result.Err? && LostOrUnknown(o.result.error))
  }

  /** A list of replicas is the answer of the first server that does not point to the next. */
  lemma ListingLaw(env: Env, s: State)
    ensures exists m: nat :: ListingEnds(env, s, m, FetchReplicas(env, s))
  {
    var m := AskingRun(env, s.log, s, 0);
    assert ListingEnds(env, s, m, FetchReplicas(env, s));
  }

  /** A list with a primary, or a failed one, ends the search; a list without one is followed by a wait. */
  predicate SeekEvent(log: seq<Event>, result: Result<Replica, Failure>, i: nat)
    requires i < |log|
  {
    log[i].Listed? ==>
      match log[i].list
      case Err(e) => i == |log| - 1 && result == Err(e)
      case Ok(rs) =>
        var primary := PrimaryReplica(rs);
        if primary.Some? then i == |log| - 1 && result == Ok(primary.value)
        else i + 1 < |log| && log[i + 1].Waited?
  }

  lemma {:induction false} SeekProtocol(env: Env, s: State, tries: nat)
    ensures var o := SeekPrimaryReplica(env, s, tries);
            && s.log <= o.state.log
            && (forall i | |s.log| <= i < |o.state.log| :: SeekEvent(o.state.log, o.result, i))
    decreases tries
  {
    if tries > 0 {
      CallServersOnlyCalls(env, s, 0);
      var listed := FetchReplicas(env, s);
      var o := SeekPrimaryReplica(env, s, tries);
      if listed.result.Ok? && PrimaryReplica(listed.result.value).None? {
        var s' := Log(listed.state.(replicas := listed.result.value), Waited);
        SeekProtocol(env, s', tries - 1);
        forall i | |s.log| <= i < |o.state.log| ensures SeekEvent(o.state.log, o.result, i) {
          if i < |s'.log| {
            assert o.state.log[i] == s'.log[i];
            assert o.state.log[|s'.log| - 1] == s'.log[|s'.log| - 1];
          }
        }
      }
    }
  }

  lemma {:induction false} CallServersOnlyCalls(env: Env, s: State, i: nat)
    requires i <= |env.servers|
    ensures var log := CallServers(env, s, i).state.log;
            s.log <= log && forall j | |s.log| <= j < |log| :: log[j].ListCall?
    decreases |env.servers| - i
  {
    if i < |env.servers| {
      CallServersOnlyCalls(env, Log(s, ListCall(env.servers[i], env.list(s.log, env.servers[i]))), i + 1);
    }
  }

  // ----- what a run costs -----

  datatype Cost = Cost(tasks: nat, lists: nat)

  function Add(c: Cost, e: Event): Cost {
    match e
    case TaskRun(_, _, _) => c.(tasks := c.tasks + 1)
    case Listed(_) => c.(lists := c.lists + 1)
    case _ => c
  }

  /** Tasks run and lists asked for in a history. */
  function CostOf(log: seq<Event>): Cost {
    if log == [] then Cost(0, 0) else Add(CostOf(log[..|log| - 1]), log[|log| - 1])
  }

  lemma CostAppend(log: seq<Event>, e: Event)
    ensures CostOf(log + [e]) == Add(CostOf(log), e)
  {
    assert (log + [e])[..|log|] == log;
  }

  lemma {:induction false} CallServersCost(env: Env, s: State, i: nat)
    requires i <= |env.servers|
    ensures CostOf(CallServers(env, s, i).state.log) == CostOf(s.log)
    decreases |env.servers| - i
  {
    if i < |env.servers| {
      var e := ListCall(env.servers[i], env.list(s.log, env.servers[i]));
      CostAppend(s.log, e);
      CallServersCost(env, Log(s, e), i + 1);
    }
  }

  lemma {:induction false} SeekCost(env: Env, s: State, tries: nat)
    ensures var c, d := CostOf(s.log), CostOf(SeekPrimaryReplica(env, s, tries).state.log);
            d.tasks == c.tasks && c.lists <= d.lists <= c.lists + tries
    decreases tries
  {
    if tries > 0 {
      CallServersCost(env, s, 0);
      var called := CallServers(env, s, 0);
      CostAppend(called.state.log, Listed(called.result));
      var listed := FetchReplicas(env, s);
      if listed.result.Ok? {
        CostAppend(listed.state.log, Waited);
        SeekCost(env, Log(listed.state.(replicas := listed.result.value), Waited), tries - 1);
      }
    }
  }

  lemma RunCost(env: Env, s: State, server: string)
    ensures var run := RunTask(env, s, OnPrimaryReplica, server);
            var c := CostOf(s.log);
            CostOf(run.state.log) == c.(tasks := c.tasks + 1) && CostOf(Log(run.state, Waited).log) == c.(tasks := c.tasks + 1)
  {
    var run := RunTask(env, s, OnPrimaryReplica, server);
    CostAppend(s.log, TaskRun(OnPrimaryReplica, server, run.result));
    CostAppend(run.state.log, Waited);
  }

  lemma {:induction false} TryCost(env: Env, s: State, tries: nat)
    requires PrimaryReplica(s.replicas).Some?
    ensures var c, d := CostOf(s.log), CostOf(TryOnPrimary(env, s, tries).state.log);
            c.tasks <= d.tasks <= c.tasks + tries && c.lists <= d.lists <= c.lists + 10 * (d.tasks - c.tasks)
    decreases tries
  {
    if tries > 0 {
      var server := PrimaryReplica(s.replicas).value.server;
      var run := RunTask(env, s, OnPrimaryReplica, server);
      TryUnfolds(env, s, tries);
      RunCost(env, s, server);
      if run.result.Err? && LostOrNotPrimary(run.result.error) {
        SeekCost(env, Log(run.state, Waited), FETCH_REPLICAS_MAX_RETRIES);
        var sought := SeekPrimaryReplica(env, Log(run.state, Waited), FETCH_REPLICAS_MAX_RETRIES);
        if sought.result.Ok? {
          TryCost(env, sought.state, tries - 1);
        }
      }
    }
  }

  /**
   At most ten tasks. Every ten lists are paid for by one task, except ten more if no
   primary was known at the start: at most 110 lists.
   */
  lemma PrimaryCost(env: Env, s: State)
    ensures var c, d := CostOf(s.log), CostOf(RunOnPrimaryReplica(env, s).state.log);
            var unknown := if PrimaryReplica(s.replicas).Some? then 0 else 1;
            && c.tasks <= d.tasks <= c.tasks + 10
            && c.lists <= d.lists <= c.lists + 10 * (d.tasks - c.tasks + unknown)
  {
    if PrimaryReplica(s.replicas).Some? {
      TryCost(env, s, PRIMARY_REPLICA_TASK_MAX_RETRIES);
    } else {
      SeekCost(env, s, FETCH_REPLICAS_MAX_RETRIES);
      var sought := SeekPrimaryReplica(env, s, FETCH_REPLICAS_MAX_RETRIES);
      if sought.result.Ok? {
        TryCost(env, sought.state, PRIMARY_REPLICA_TASK_MAX_RETRIES);
      }
    }
  }

  // ----- how tasks end a run -----

  /**
   A task that succeeds, or fails in a way that is not retried, is the last event and gives the
   result. A task on the primary that is retried is followed by a wait.
   */
  predicate EndsRun(log: seq<Event>, result: Result<string, Failure>, i: nat)
    requires i < |log|
  {
    log[i].TaskRun? ==>
      if log[i].answer.Ok? || !LostOrNotPrimary(log[i].answer.error) then i == |log| - 1 && result == log[i].answer
      else log[i].mode == OnPrimaryReplica ==> i + 1 < |log| && log[i + 1].Waited?
  }

  /** The new events since `from` obey the rule, and a value can only come from the last one. */
  ghost predicate Ends(from: nat, o: Outcome<string>) {
    && (forall i | from <= i < |o.state.log| :: EndsRun(o.state.log, o.result, i))
    && (o.result.Ok? ==> |o.state.log| > from && o.state.log[|o.state.log| - 1].TaskRun?
                         && o.state.log[|o.state.log| - 1].answer == o.result)
  }

  /** Only listing and waiting between two histories. */
  predicate OnlyLists(a: seq<Event>, b: seq<Event>) {
    a <= b && forall i | |a| <= i < |b| :: !b[i].TaskRun?
  }

  lemma {:induction false} SeekLog(env: Env, s: State, tries: nat)
    ensures OnlyLists(s.log, SeekPrimaryReplica(env, s, tries).state.log)
    decreases tries
  {
    if tries > 0 {
      CallServersOnlyCalls(env, s, 0);
      var listed := FetchReplicas(env, s);
      assert OnlyLists(s.log, listed.state.log);
      if listed.result.Ok? {
        SeekLog(env, Log(listed.state.(replicas := listed.result.value), Waited), tries - 1);
      }
    }
  }

  lemma {:induction false} TryEnds(env: Env, s: State, tries: nat)
    requires PrimaryReplica(s.replicas).Some?
    ensures s.log <= TryOnPrimary(env, s, tries).state.log
    ensures Ends(|s.log|, TryOnPrimary(env, s, tries))
    decreases tries
  {
    if tries > 0 {
      var run := RunTask(env, s, OnPrimaryReplica, PrimaryReplica(s.replicas).value.server);
      if run.result.Err? && LostOrNotPrimary(run.result.error) {
        var sought := SeekPrimaryReplica(env, Log(run.state, Waited), FETCH_REPLICAS_MAX_RETRIES);
        SeekLog(env, Log(run.state, Waited), FETCH_REPLICAS_MAX_RETRIES);
        if sought.result.Ok? {
          TryEnds(env, sought.state, tries - 1);
          EndsAfter(|s.log|, run.state.log, sought.state.log, TryOnPrimary(env, sought.state, tries - 1));
        } else {
          EndsAfter(|s.log|, run.state.log, sought.state.log, Outcome(Err(sought.result.error), sought.state));
        }
      }
    }
  }

  /** A failed task that is retried, some listing, and the rest of the run. */
  lemma EndsAfter(from: nat, a: seq<Event>, b: seq<Event>, o: Outcome<string>)
    requires from + 1 == |a| && a[from].TaskRun? && a[from].answer.Err? && LostOrNotPrimary(a[from].answer.error)
    requires a + [Waited] <= b && OnlyLists(a + [Waited], b)
    requires b <= o.state.log && Ends(|b|, o)
    ensures Ends(from, o)
  {
  }

  lemma PrimaryEnds(env: Env, s: State)
    ensures s.log <= RunOnPrimaryReplica(env, s).state.log
    ensures Ends(|s.log|, RunOnPrimaryReplica(env, s))
  {
    if PrimaryReplica(s.replicas).Some? {
      TryEnds(env, s, PRIMARY_REPLICA_TASK_MAX_RETRIES);
    } else {
      var sought := SeekPrimaryReplica(env, s, FETCH_REPLICAS_MAX_RETRIES);
      SeekLog(env, s, FETCH_REPLICAS_MAX_RETRIES);
      if sought.result.Ok? {
        TryEnds(env, sought.state, PRIMARY_REPLICA_TASK_MAX_RETRIES);
        var o := RunOnPrimaryReplica(env, s);
        forall i | |s.log| <= i < |o.state.log| ensures EndsRun(o.state.log, o.result, i) {
          assert i < |sought.state.log| ==> o.state.log[i] == sought.state.log[i];
        }
      }
    }
  }

  // ----- how a run on the primary fails -----

  /** Lists received since the latest task, or since event `from` if there was none. */
  function ListsSince(log: seq<Event>, from: nat): nat {
    if |log| <= from || log[|log| - 1].TaskRun? then 0
    else ListsSince(log[..|log| - 1], from) + if log[|log| - 1].Listed? then 1 else 0
  }

  lemma ListsAppend(log: seq<Event>, from: nat, e: Event)
    requires from <= |log|
    ensures ListsSince(log + [e], from)
            == if e.TaskRun? then 0 else ListsSince(log, from) + if e.Listed? then 1 else 0
  {
    assert (log + [e])[..|log|] == log;
  }

  lemma {:induction false} CallServersLists(env: Env, s: State, i: nat, from: nat)
    requires i <= |env.servers| && from <= |s.log|
    ensures |s.log| <= |CallServers(env, s, i).state.log|
    ensures ListsSince(CallServers(env, s, i).state.log, from) == ListsSince(s.log, from)
    decreases |env.servers| - i
  {
    if i < |env.servers| {
      var e := ListCall(env.servers[i], env.list(s.log, env.servers[i]));
      ListsAppend(s.log, from, e);
      CallServersLists(env, Log(s, e), i + 1, from);
    }
  }

  /** The latest listing failed with the error given. */
  predicate ListingFailed(log: seq<Event>, from: nat, e: Failure) {
    |log| > from && log[|log| - 1] == Listed(Err(e))
  }

  predicate NoConnection(e: Failure) {
    e == NO_CONNECTION && e.template == None
  }

  /** A search ends with a list that has a primary, with a failed listing, or when its tries are used up. */
  predicate SeekOver(s: State, tries: nat, from: nat, o: Outcome<Replica>) {
    && |s.log| <= |o.state.log|
    && match o.result
       case Ok(_) => |o.state.log| > |s.log| && o.state.log[|o.state.log| - 1] == Listed(Ok(o.state.replicas))
       case Err(e) =>
         || ListingFailed(o.state.log, |s.log|, e)
         || (&& NoConnection(e) && (tries > 0 ==> PrimaryReplica(o.state.replicas).None?)
             && ListsSince(o.state.log, from) == ListsSince(s.log, from) + tries)
  }

  lemma {:induction false} SeekEnds(env: Env, s: State, tries: nat, from: nat)
    requires from <= |s.log|
    ensures SeekOver(s, tries, from, SeekPrimaryReplica(env, s, tries))
    decreases tries
  {
    if tries > 0 {
      ListingLists(env, s, from);
      var listed := FetchReplicas(env, s);
      if listed.result.Ok? && PrimaryReplica(listed.result.value).None? {
        var s' := Log(listed.state.(replicas := listed.result.value), Waited);
        ListsAppend(listed.state.log, from, Waited);
        SeekEnds(env, s', tries - 1, from);
        SeekGoesOn(s, s', tries, from, SeekPrimaryReplica(env, s', tries - 1));
      }
    }
  }

  lemma ListingLists(env: Env, s: State, from: nat)
    requires from <= |s.log|
    ensures var o := FetchReplicas(env, s);
            && |s.log| < |o.state.log| && o.state.log[|o.state.log| - 1] == Listed(o.result)
            && ListsSince(o.state.log, from) == ListsSince(s.log, from) + 1
  {
    CallServersLists(env, s, 0, from);
    var called := CallServers(env, s, 0);
    ListsAppend(called.state.log, from, Listed(called.result));
  }

  lemma SeekGoesOn(s: State, s': State, tries: nat, from: nat, o: Outcome<Replica>)
    requires tries > 0 && |s.log| < |s'.log| && ListsSince(s'.log, from) == ListsSince(s.log, from) + 1
    requires SeekOver(s', tries - 1, from, o)
    requires tries == 1 ==> PrimaryReplica(o.state.replicas).None?
    ensures SeekOver(s, tries, from, o)
  {
  }

  /**
   A run since event `from` has failed with `e`: its last task failed for good, or its last listing
   did, or all its tasks are exhausted, or its last search made ten lists and found no primary.
   */
  predicate RunFailed(s: State, from: nat, e: Failure, exhausted: bool) {
    || (|s.log| > from && s.log[|s.log| - 1].TaskRun? && s.log[|s.log| - 1].answer == Err(e) && !LostOrNotPrimary(e))
    || ListingFailed(s.log, from, e)
    || (NoConnection(e) && (exhausted || (ListsSince(s.log, from) == 10 && PrimaryReplica(s.replicas).None?)))
  }

  lemma {:induction false} TryFails(env: Env, s: State, tries: nat, from: nat)
    requires PrimaryReplica(s.replicas).Some? && from <= |s.log|
    ensures TryFailed(s, tries, from, TryOnPrimary(env, s, tries))
    decreases tries
  {
    if tries > 0 {
      var server := PrimaryReplica(s.replicas).value.server;
      var run := RunTask(env, s, OnPrimaryReplica, server);
      TryUnfolds(env, s, tries);
      RunCost(env, s, server);
      if run.result.Err? && LostOrNotPrimary(run.result.error) {
        var waited := Log(run.state, Waited);
        ListsAppend(s.log, from, TaskRun(OnPrimaryReplica, server, run.result));
        ListsAppend(run.state.log, from, Waited);
        SeekEnds(env, waited, FETCH_REPLICAS_MAX_RETRIES, from);
        SeekCost(env, waited, FETCH_REPLICAS_MAX_RETRIES);
        var sought := SeekPrimaryReplica(env, waited, FETCH_REPLICAS_MAX_RETRIES);
        if sought.result.Ok? {
          TryFails(env, sought.state, tries - 1, from);
          TryGoesOn(s, sought.state, tries, from, TryOnPrimary(env, sought.state, tries - 1));
        } else {
          SearchFails(s, waited, sought, tries, from);
        }
      }
    }
  }

  /** How attempts on the primary fail that began in the given state. */
  predicate TryFailed(s: State, tries: nat, from: nat, o: Outcome<string>) {
    && |s.log| <= |o.state.log|
    && (o.result.Err? ==>
          RunFailed(o.state, from, o.result.error, CostOf(o.state.log).tasks == CostOf(s.log).tasks + tries))
  }

  lemma TryGoesOn(s: State, next: State, tries: nat, from: nat, o: Outcome<string>)
    requires tries > 0 && |s.log| <= |next.log| && CostOf(next.log).tasks == CostOf(s.log).tasks + 1
    requires TryFailed(next, tries - 1, from, o)
    ensures TryFailed(s, tries, from, o)
  {
  }

  lemma SearchFails(s: State, waited: State, sought: Outcome<Replica>, tries: nat, from: nat)
    requires from <= |s.log| <= |waited.log| && ListsSince(waited.log, from) == 0
    requires SeekOver(waited, FETCH_REPLICAS_MAX_RETRIES, from, sought) && sought.result.Err?
    ensures TryFailed(s, tries, from, Outcome(Err(sought.result.error), sought.state))
  {
  }

  /** A run fails for a reason its history shows; if for no connection, after exactly ten tasks or ten lists. */
  lemma PrimaryFails(env: Env, s: State)
    ensures var o := RunOnPrimaryReplica(env, s);
            o.result.Err? ==>
              RunFailed(o.state, |s.log|, o.result.error, CostOf(o.state.log).tasks == CostOf(s.log).tasks + 10)
  {
    if PrimaryReplica(s.replicas).Some? {
      TryFails(env, s, PRIMARY_REPLICA_TASK_MAX_RETRIES, |s.log|);
    } else {
      SeekEnds(env, s, FETCH_REPLICAS_MAX_RETRIES, |s.log|);
      SeekCost(env, s, FETCH_REPLICAS_MAX_RETRIES);
      var sought := SeekPrimaryReplica(env, s, FETCH_REPLICAS_MAX_RETRIES);
      if sought.result.Ok? {
        TryFails(env, sought.state, PRIMARY_REPLICA_TASK_MAX_RETRIES, |s.log|);
      }
    }
  }

  // ----- which tasks a run on the primary makes -----

  /** A history that extends another by listing, waiting and runs on the primary. */
  predicate OnlyPrimary(a: seq<Event>, b: seq<Event>) {
    a <= b && forall i | |a| <= i < |b| && b[i].TaskRun? :: b[i].mode == OnPrimaryReplica
  }

  lemma {:induction false} TryModes(env: Env, s: State, tries: nat)
    requires PrimaryReplica(s.replicas).Some?
    ensures OnlyPrimary(s.log, TryOnPrimary(env, s, tries).state.log)
    decreases tries
  {
    if tries > 0 {
      var run := RunTask(env, s, OnPrimaryReplica, PrimaryReplica(s.replicas).value.server);
      if run.result.Err? && LostOrNotPrimary(run.result.error) {
        SeekLog(env, Log(run.state, Waited), FETCH_REPLICAS_MAX_RETRIES);
        var sought := SeekPrimaryReplica(env, Log(run.state, Waited), FETCH_REPLICAS_MAX_RETRIES);
        assert OnlyPrimary(s.log, sought.state.log) by {
          var b := Log(run.state, Waited).log;
          assert forall i | |s.log| <= i < |b| :: sought.state.log[i] == b[i];
        }
        if sought.result.Ok? {
          TryModes(env, sought.state, tries - 1);
          OnlyPrimaryJoins(s.log, sought.state.log, TryOnPrimary(env, sought.state, tries - 1).state.log);
        }
      }
    }
  }

  lemma OnlyPrimaryJoins(a: seq<Event>, b: seq<Event>, c: seq<Event>)
    requires OnlyPrimary(a, b) && OnlyPrimary(b, c)
    ensures OnlyPrimary(a, c)
  {
    assert forall i | |a| <= i < |b| :: c[i] == b[i];
  }

  lemma PrimaryModes(env: Env, s: State)
    ensures OnlyPrimary(s.log, RunOnPrimaryReplica(env, s).state.log)
  {
    if PrimaryReplica(s.replicas).Some? {
      TryModes(env, s, PRIMARY_REPLICA_TASK_MAX_RETRIES);
    } else {
      SeekLog(env, s, FETCH_REPLICAS_MAX_RETRIES);
      var sought := SeekPrimaryReplica(env, s, FETCH_REPLICAS_MAX_RETRIES);
      if sought.result.Ok? {
        TryModes(env, sought.state, PRIMARY_REPLICA_TASK_MAX_RETRIES);
        OnlyPrimaryJoins(s.log, sought.state.log, RunOnPrimaryReplica(env, s).state.log);
      }
    }
  }

  /** All that is said of a run on the primary that began with the given list at event `from`. */
  ghost predicate PrimaryRun(initial: seq<Replica>, from: nat, o: Outcome<string>) {
    && Safe(initial, from, o.state)
    && Ends(from, o)
    && OnlyPrimary(o.state.log[..from], o.state.log)
    && (o.result.Err? ==>
          RunFailed(o.state, from, o.result.error, CostOf(o.state.log).tasks == CostOf(o.state.log[..from]).tasks + 10))
  }

  lemma PrimaryRunLaw(env: Env, s: State)
    ensures s.log <= RunOnPrimaryReplica(env, s).state.log
    ensures PrimaryRun(s.replicas, |s.log|, RunOnPrimaryReplica(env, s))
  {
    PrimarySafety(env, s);
    PrimaryEnds(env, s);
    PrimaryModes(env, s);
    PrimaryFails(env, s);
    assert RunOnPrimaryReplica(env, s).state.log[..|s.log|] == s.log;
  }

  // ----- a settled cluster -----

  /** Every listing names a primary at the given server, which serves every task; others may fail but not for good. */
  ghost predicate SettledOn(env: Env, server: string) {
    && (forall s :: var listed := FetchReplicas(env, s).result;
                    listed.Ok? && PrimaryReplica(listed.value).Some? && PrimaryReplica(listed.value).value.server == server)
    && (forall log :: env.task(log, server).Ok?)
    && (forall log, other :: env.task(log, other).Err? ==> LostOrNotPrimary(env.task(log, other).error))
  }

  lemma SeekSettles(env: Env, s: State, tries: nat, server: string)
    requires SettledOn(env, server) && tries > 0
    ensures var o := SeekPrimaryReplica(env, s, tries); o.result.Ok? && o.result.value.server == server
  {
    var listed := FetchReplicas(env, s);
    assert listed.result.Ok?;
  }

  /** However stale the list held at the start, one wrong attempt is enough to find the primary. */
  lemma SettledRun(env: Env, s: State, server: string)
    requires SettledOn(env, server)
    ensures var o := RunOnPrimaryReplica(env, s);
            o.result.Ok? && CostOf(o.state.log).tasks <= CostOf(s.log).tasks + 2
  {
    if PrimaryReplica(s.replicas).Some? {
      SettledTry(env, s, PRIMARY_REPLICA_TASK_MAX_RETRIES, server);
    } else {
      SeekSettles(env, s, FETCH_REPLICAS_MAX_RETRIES, server);
      SeekCost(env, s, FETCH_REPLICAS_MAX_RETRIES);
      SettledTry(env, SeekPrimaryReplica(env, s, FETCH_REPLICAS_MAX_RETRIES).state,
                 PRIMARY_REPLICA_TASK_MAX_RETRIES, server);
    }
  }

  lemma SettledTry(env: Env, s: State, tries: nat, server: string)
    requires SettledOn(env, server) && PrimaryReplica(s.replicas).Some? && tries >= 2
    ensures var o := TryOnPrimary(env, s, tries);
            o.result.Ok? && CostOf(o.state.log).tasks <= CostOf(s.log).tasks + 2
  {
    var at := PrimaryReplica(s.replicas).value.server;
    var run := RunTask(env, s, OnPrimaryReplica, at);
    TryUnfolds(env, s, tries);
    RunCost(env, s, at);
    if run.result.Err? {
      var waited := Log(run.state, Waited);
      SeekSettles(env, waited, FETCH_REPLICAS_MAX_RETRIES, server);
      SeekCost(env, waited, FETCH_REPLICAS_MAX_RETRIES);
      var sought := SeekPrimaryReplica(env, waited, FETCH_REPLICAS_MAX_RETRIES).state;
      SettledHit(env, sought, tries - 1, server);
    }
  }

  lemma SettledHit(env: Env, s: State, tries: nat, server: string)
    requires SettledOn(env, server) && tries > 0
    requires PrimaryReplica(s.replicas).Some? && PrimaryReplica(s.replicas).value.server == server
    ensures var o := TryOnPrimary(env, s, tries);
            o.result.Ok? && CostOf(o.state.log).tasks == CostOf(s.log).tasks + 1
  {
    TryUnfolds(env, s, tries);
    RunCost(env, s, server);
  }

  // ----- any replica, then the primary -----

  /** The first `m` replicas were tried in order, and each was out of reach. */
  ghost predicate OutOfReach(s: State, log: seq<Event>, m: nat) {
    && m <= |s.replicas| && |s.log| + m <= |log| && s.log <= log
    && (forall i | |s.log| <= i < |s.log| + m :: Missed(log[i], s.replicas[i - |s.log|]))
  }

  predicate Missed(e: Event, r: Replica) {
    && e.TaskRun? && e.mode == OnAnyReplica && e.at == r.server
    && e.answer.Err? && Says(e.answer.error, UnableToConnect)
  }

  /** How trying any replica ended, after `m` replicas out of reach. */
  ghost predicate AnyEnds(s: State, m: nat, o: Outcome<string>) {
    var log := o.state.log;
    && o.state.replicas == s.replicas
    && OutOfReach(s, log, m)
    && if m == |s.replicas| then |log| == |s.log| + m && o.result == Err(NO_CONNECTION)
       else && |log| == |s.log| + m + 1
            && log[|log| - 1] == TaskRun(OnAnyReplica, s.replicas[m].server, o.result)
            && !(o.result.Err? && Says(o.result.error, UnableToConnect))
  }

  lemma {:induction false} AnyReplicaRun(env: Env, s: State, now: State, i: nat) returns (m: nat)
    requires i <= |s.replicas| && now.replicas == s.replicas
    requires |now.log| == |s.log| + i && OutOfReach(s, now.log, i)
    ensures AnyEnds(s, m, RunOnAnyReplica(env, now, i))
    decreases |s.replicas| - i
  {
    if i == |s.replicas| {
      return i;
    }
    var run := RunTask(env, now, OnAnyReplica, s.replicas[i].server);
    if run.result.Err? && Says(run.result.error, UnableToConnect) {
      m := AnyReplicaRun(env, s, run.state, i + 1);
    } else {
      m := i;
    }
  }

  /**
   How a failsafe run ended after `m` replicas out of reach: without connection, with the answer
   of the next replica, or, that one not being the primary, as the run on the primary from there.
   */
  ghost predicate FailsafeEnds(env: Env, s: State, m: nat, o: Outcome<string>) {
    var log, n := o.state.log, |s.log| + m;
    && OutOfReach(s, log, m)
    && if m == |s.replicas| then o == Outcome(Err(NO_CONNECTION), State(s.replicas, log)) && |log| == n
       else
         && |log| > n
         && log[n].TaskRun? && log[n].mode == OnAnyReplica && log[n].at == s.replicas[m].server
         && match log[n].answer
            case Ok(value) => o == Outcome(Ok(value), State(s.replicas, log)) && |log| == n + 1
            case Err(e) =>
              && !Says(e, UnableToConnect)
              && if Says(e, ReplicaNotPrimary)
                 then o == RunOnPrimaryReplica(env, State(s.replicas, log[..n + 1])) && OnlyPrimary(log[..n + 1], log)
                 else o == Outcome(Err(e), State(s.replicas, log)) && |log| == n + 1
  }

  /** The failsafe run. Replicas are tried in order past connection failures only, and final answers are final. */
  lemma FailsafeLaw(env: Env, s: State)
    ensures exists m: nat :: FailsafeEnds(env, s, m, RunFailsafe(env, s))
    ensures s.log <= RunFailsafe(env, s).state.log
    ensures Ends(|s.log|, RunFailsafe(env, s))
  {
    var any := RunOnAnyReplica(env, s, 0);
    var m := AnyReplicaRun(env, s, s, 0);
    var o := RunFailsafe(env, s);
    PrimaryEnds(env, any.state);
    FailsafeFrom(env, s, m, any);
    forall i | |s.log| <= i < |o.state.log| ensures EndsRun(o.state.log, o.result, i) {
      if i < |any.state.log| {
        assert o.state.log[i] == any.state.log[i];
        assert i < |s.log| + m ==> Missed(any.state.log[i], s.replicas[i - |s.log|]);
      }
    }
  }

  lemma FailsafeFrom(env: Env, s: State, m: nat, any: Outcome<string>)
    requires AnyEnds(s, m, any)
    ensures FailsafeEnds(env, s, m, if any.result.Err? && Says(any.result.error, ReplicaNotPrimary)
                                    then RunOnPrimaryReplica(env, any.state) else any)
  {
    PrimaryModes(env, any.state);
    if any.result.Err? && Says(any.result.error, ReplicaNotPrimary) {
      var log := RunOnPrimaryReplica(env, any.state).state.log;
      assert log[..|any.state.log|] == any.state.log;
      assert forall i | 0 <= i < |any.state.log| :: log[i] == any.state.log[i];
    }
  }

  lemma {:induction false} AnyCost(s: State, log: seq<Event>, m: nat)
    requires OutOfReach(s, log, m)
    ensures CostOf(log[..|s.log| + m]).tasks == CostOf(s.log).tasks + m
    ensures CostOf(log[..|s.log| + m]).lists == CostOf(s.log).lists
  {
    if m == 0 {
      assert log[..|s.log|] == s.log;
    } else {
      AnyCost(s, log, m - 1);
      var n := |s.log| + m - 1;
      assert Missed(log[n], s.replicas[m - 1]);
      CostPrefix(log, n);
    }
  }

  lemma CostPrefix(log: seq<Event>, n: nat)
    requires n < |log|
    ensures CostOf(log[..n + 1]) == Add(CostOf(log[..n]), log[n])
  {
    assert log[..n + 1] == log[..n] + [log[n]];
    CostAppend(log[..n], log[n]);
  }

  lemma AnyEndsCost(s: State, m: nat, any: Outcome<string>)
    requires AnyEnds(s, m, any)
    ensures var c, d := CostOf(s.log), CostOf(any.state.log);
            d.tasks <= c.tasks + |s.replicas| && d.lists == c.lists
  {
    var log := any.state.log;
    AnyCost(s, log, m);
    if m < |s.replicas| {
      assert log == log[..|s.log| + m] + [log[|log| - 1]];
      CostAppend(log[..|s.log| + m], log[|log| - 1]);
    } else {
      assert log == log[..|s.log| + m];
    }
  }

  /** At most one task per replica and ten more, and at most 110 lists. */
  lemma FailsafeCost(env: Env, s: State)
    ensures var c, d := CostOf(s.log), CostOf(RunFailsafe(env, s).state.log);
            d.tasks <= c.tasks + |s.replicas| + 10 && d.lists <= c.lists + 110
  {
    var any := RunOnAnyReplica(env, s, 0);
    var m := AnyReplicaRun(env, s, s, 0);
    AnyEndsCost(s, m, any);
    PrimaryCost(env, any.state);
  }
}
