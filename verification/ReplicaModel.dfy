/**
 Finding the primary replica of a database in a cluster, and running tasks on replicas,
 as functions from a state to an outcome.

 The answers of the servers are an arbitrary function of the whole history, as are the
 results of tasks. Calls on one database object do not overlap.
 */
module ReplicaModel {
  import opened Wrappers

  const PRIMARY_REPLICA_TASK_MAX_RETRIES: nat := 10
  const FETCH_REPLICAS_MAX_RETRIES: nat := 10

  datatype Replica = Replica(server: string, term: int, primary: bool, preferred: bool)

  datatype Template = UnableToConnect | ReplicaNotPrimary | DatabaseDoesNotExist | OtherTemplate(number: int)

  /**
   What a promise is rejected with. An error built from a text, as all those thrown by the
   functions below are, carries no template, so it is never taken for one of the two that
   are retried.
   */
  datatype Failure = DriverError(template: Option<Template>, text: string) | ForeignError(text: string)
  {
    predicate Is(t: Template) { DriverError? && template == Some(t) }
  }

  const NO_CONNECTION: Failure := DriverError(None, "Unable to connect to TypeDB server.")

  datatype Mode = OnAnyReplica | OnPrimaryReplica | OnServer

  /** `Listed` closes one attempt to list the replicas, made of one or more `ListCall`s. */
  datatype Event =
    | ListCall(server: string, listing: Result<seq<Replica>, Failure>)
    | Listed(list: Result<seq<Replica>, Failure>)
    | TaskRun(mode: Mode, at: string, answer: Result<string, Failure>)
    | Waited

  datatype Env = Env(
    servers: seq<string>,
    list: (seq<Event>, string) -> Result<seq<Replica>, Failure>,
    task: (seq<Event>, string) -> Result<string, Failure>)

  datatype State = State(replicas: seq<Replica>, log: seq<Event>)

  datatype Outcome<+T> = Outcome(result: Result<T, Failure>, state: State)

  // ----- choosing the primary -----

  function Primaries(rs: seq<Replica>): seq<Replica> {
    if rs == [] then []
    else if rs[0].primary then [rs[0]] + Primaries(rs[1..]) else Primaries(rs[1..])
  }

  /** The reduction that keeps the current replica unless the next has a higher term. */
  function HighestTerm(current: Replica, rest: seq<Replica>): Replica
    decreases |rest|
  {
    if rest == [] then current
    else HighestTerm(if rest[0].term > current.term then rest[0] else current, rest[1..])
  }

  function PrimaryReplica(rs: seq<Replica>): Option<Replica> {
    var primaries := Primaries(rs);
    if primaries == [] then None else Some(HighestTerm(primaries[0], primaries[1..]))
  }

  // ----- listing replicas -----

  function Log(s: State, e: Event): State {
    s.(log := s.log + [e])
  }

  predicate TryNextServer(e: Failure) {
    e.Is(DatabaseDoesNotExist) || e.Is(UnableToConnect)
  }

  function CallServers(env: Env, s: State, i: nat): Outcome<seq<Replica>>
    requires i <= |env.servers|
    decreases |env.servers| - i
  {
    if i == |env.servers| then Outcome(Err(NO_CONNECTION), s)
    else
      var listing := env.list(s.log, env.servers[i]);
      var s' := Log(s, ListCall(env.servers[i], listing));
      if listing.Err? && TryNextServer(listing.error) then CallServers(env, s', i + 1)
      else Outcome(listing, s')
  }

  function FetchReplicas(env: Env, s: State): Outcome<seq<Replica>> {
    var o := CallServers(env, s, 0);
    Outcome(o.result, Log(o.state, Listed(o.result)))
  }

  /** List the replicas until some list has a primary; at most `tries` times. */
  function SeekPrimaryReplica(env: Env, s: State, tries: nat): (o: Outcome<Replica>)
    ensures o.result.Ok? ==> PrimaryReplica(o.state.replicas) == Some(o.result.value)
    decreases tries, s
  {
    if tries == 0 then Outcome(Err(NO_CONNECTION), s)
    else
      var listed := FetchReplicas(env, s);
      if listed.result.Err? then Outcome(Err(listed.result.error), listed.state)
      else
        var s' := listed.state.(replicas := listed.result.value);
        var primary := PrimaryReplica(s'.replicas);
        if primary.Some? then Outcome(Ok(primary.value), s')
        else SeekPrimaryReplica(env, Log(s', Waited), tries - 1)
  }

  // ----- running tasks -----

  function RunTask(env: Env, s: State, mode: Mode, server: string): Outcome<string> {
    var answer := env.task(s.log, server);
    Outcome(answer, Log(s, TaskRun(mode, server, answer)))
  }

  predicate Retried(e: Failure) {
    e.Is(UnableToConnect) || e.Is(ReplicaNotPrimary)
  }

  function TryOnPrimary(env: Env, s: State, tries: nat): Outcome<string>
    requires PrimaryReplica(s.replicas).Some?
    decreases tries, s
  {
    if tries == 0 then Outcome(Err(NO_CONNECTION), s)
    else
      var run := RunTask(env, s, OnPrimaryReplica, PrimaryReplica(s.replicas).value.server);
      if run.result.Ok? || !Retried(run.result.error) then run
      else
        var sought := SeekPrimaryReplica(env, Log(run.state, Waited), FETCH_REPLICAS_MAX_RETRIES);
        if sought.result.Err? then Outcome(Err(sought.result.error), sought.state)
        else TryOnPrimary(env, sought.state, tries - 1)
  }

  function RunOnPrimaryReplica(env: Env, s: State): Outcome<string> {
    if PrimaryReplica(s.replicas).Some? then TryOnPrimary(env, s, PRIMARY_REPLICA_TASK_MAX_RETRIES)
    else
      var sought := SeekPrimaryReplica(env, s, FETCH_REPLICAS_MAX_RETRIES);
      if sought.result.Err? then Outcome(Err(sought.result.error), sought.state)
      else TryOnPrimary(env, sought.state, PRIMARY_REPLICA_TASK_MAX_RETRIES)
  }

  function RunOnAnyReplica(env: Env, s: State, i: nat): Outcome<string>
    requires i <= |s.replicas|
    decreases |s.replicas| - i
  {
    if i == |s.replicas| then Outcome(Err(NO_CONNECTION), s)
    else
      var run := RunTask(env, s, OnAnyReplica, s.replicas[i].server);
      if run.result.Err? && run.result.error.Is(UnableToConnect) then RunOnAnyReplica(env, run.state, i + 1)
      else run
  }

  function RunFailsafe(env: Env, s: State): Outcome<string> {
    var any := RunOnAnyReplica(env, s, 0);
    if any.result.Err? && any.result.error.Is(ReplicaNotPrimary) then RunOnPrimaryReplica(env, any.state)
    else any
  }

  // ----- the database manager -----

  /** A failure of the manager lists the error of every server. */
  datatype ManagerResult = Done(value: string) | Failed(error: Failure) | AllNodesFailed(errors: seq<(string, Failure)>)

  datatype ManagerOutcome = ManagerOutcome(result: ManagerResult, log: seq<Event>)

  /** A new database object, then a run on its primary. */
  function GetAndRunOnPrimary(env: Env, log: seq<Event>): ManagerOutcome {
    var got := FetchReplicas(env, State([], log));
    if got.result.Err? then ManagerOutcome(Failed(got.result.error), got.state.log)
    else
      var run := RunOnPrimaryReplica(env, got.state.(replicas := got.result.value));
      ManagerOutcome(if run.result.Ok? then Done(run.result.value) else Failed(run.result.error), run.state.log)
  }

  function ManagerRun(env: Env, log: seq<Event>, i: nat, errors: seq<(string, Failure)>): ManagerOutcome
    requires i <= |env.servers|
    decreases |env.servers| - i
  {
    if i == |env.servers| then ManagerOutcome(AllNodesFailed(errors), log)
    else
      var run := RunTask(env, State([], log), OnServer, env.servers[i]);
      match run.result
      case Ok(value) => ManagerOutcome(Done(value), run.state.log)
      case Err(e) =>
        if e.Is(ReplicaNotPrimary) then GetAndRunOnPrimary(env, run.state.log)
        else ManagerRun(env, run.state.log, i + 1, errors + [(env.servers[i], e)])
  }
}
