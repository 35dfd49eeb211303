/**
 The database object, whose replica list is replaced while it is being used, and the
 database manager. Every method is proved to do what the function of the same name in
 ReplicaModel says.
 */
module ReplicaDriver {
  import opened Wrappers
  import opened ReplicaModel

  /** The servers and everything that has been exchanged with them. */
  class Cluster {
    const env: Env
    var log: seq<Event>

    constructor (env: Env)
      ensures this.env == env && log == []
    {
      this.env := env;
      log := [];
    }

    method RunTask(mode: Mode, server: string) returns (answer: Result<string, Failure>)
      modifies this
      ensures forall rs :: Outcome(answer, State(rs, log)) == ReplicaModel.RunTask(env, State(rs, old(log)), mode, server)
    {
      answer := env.task(log, server);
      log := log + [TaskRun(mode, server, answer)];
    }

    method FetchReplicas() returns (result: Result<seq<Replica>, Failure>)
      modifies this
      ensures forall rs :: Outcome(result, State(rs, log)) == ReplicaModel.FetchReplicas(env, State(rs, old(log)))
    {
      result := Err(NO_CONNECTION);
      ghost var log0 := log;
      for i := 0 to |env.servers|
        invariant result == Err(NO_CONNECTION)
        invariant forall rs :: CallServers(env, State(rs, log), i) == CallServers(env, State(rs, log0), 0)
      {
        var listing := env.list(log, env.servers[i]);
        ghost var before := log;
        log := log + [ListCall(env.servers[i], listing)];
        if listing.Ok? || !TryNextServer(listing.error) {
          assert forall rs :: CallServers(env, State(rs, before), i) == Outcome(listing, State(rs, log));
          log := log + [Listed(listing)];
          return listing;
        }
        assert forall rs :: CallServers(env, State(rs, before), i) == CallServers(env, State(rs, log), i + 1);
      }
      log := log + [Listed(result)];
    }
  }

  class TypeDBDatabase {
    const cluster: Cluster
    var replicas: seq<Replica>

    ghost function View(): State
      reads this, cluster
    {
      State(replicas, cluster.log)
    }

    constructor (cluster: Cluster, replicas: seq<Replica>)
      ensures this.cluster == cluster && this.replicas == replicas
    {
      this.cluster := cluster;
      this.replicas := replicas;
    }

    method SeekPrimaryReplica() returns (result: Result<Replica, Failure>)
      modifies this, cluster
      ensures Outcome(result, View())
              == ReplicaModel.SeekPrimaryReplica(cluster.env, old(View()), FETCH_REPLICAS_MAX_RETRIES)
    {
      ghost var whole := ReplicaModel.SeekPrimaryReplica(cluster.env, View(), FETCH_REPLICAS_MAX_RETRIES);
      for tries := FETCH_REPLICAS_MAX_RETRIES downto 0
        invariant ReplicaModel.SeekPrimaryReplica(cluster.env, View(), tries) == whole
      {
        var listed := cluster.FetchReplicas();
        if listed.Err? {
          return Err(listed.error);
        }
        replicas := listed.value;
        var primary := PrimaryReplica(replicas);
        if primary.Some? {
          return Ok(primary.value);
        }
        cluster.log := cluster.log + [Waited];
      }
      return Err(NO_CONNECTION);
    }

    method RunOnPrimaryReplica() returns (result: Result<string, Failure>)
      modifies this, cluster
      ensures Outcome(result, View()) == ReplicaModel.RunOnPrimaryReplica(cluster.env, old(View()))
    {
      ghost var whole := ReplicaModel.RunOnPrimaryReplica(cluster.env, View());
      if PrimaryReplica(replicas).None? {
        var sought := SeekPrimaryReplica();
        if sought.Err? {
          return Err(sought.error);
        }
      }
      for tries := PRIMARY_REPLICA_TASK_MAX_RETRIES downto 0
        invariant PrimaryReplica(replicas).Some?
        invariant TryOnPrimary(cluster.env, View(), tries) == whole
      {
        result := cluster.RunTask(OnPrimaryReplica, PrimaryReplica(replicas).value.server);
        if result.Ok? || !Retried(result.error) {
          return;
        }
        cluster.log := cluster.log + [Waited];
        var sought := SeekPrimaryReplica();
        if sought.Err? {
          return Err(sought.error);
        }
      }
      return Err(NO_CONNECTION);
    }

    method RunOnAnyReplica() returns (result: Result<string, Failure>)
      modifies cluster
      ensures Outcome(result, View()) == ReplicaModel.RunOnAnyReplica(cluster.env, old(View()), 0)
    {
      ghost var whole := ReplicaModel.RunOnAnyReplica(cluster.env, View(), 0);
      for i := 0 to |replicas|
        invariant ReplicaModel.RunOnAnyReplica(cluster.env, View(), i) == whole
      {
        result := cluster.RunTask(OnAnyReplica, replicas[i].server);
        if result.Ok? || !result.error.Is(UnableToConnect) {
          return;
        }
      }
      return Err(NO_CONNECTION);
    }

    method RunFailsafe() returns (result: Result<string, Failure>)
      modifies this, cluster
      ensures Outcome(result, View()) == ReplicaModel.RunFailsafe(cluster.env, old(View()))
    {
      result := RunOnAnyReplica();
      if result.Err? && result.error.Is(ReplicaNotPrimary) {
        result := RunOnPrimaryReplica();
      }
    }
  }

  class TypeDBDatabaseManager {
    const cluster: Cluster

    constructor (cluster: Cluster)
      ensures this.cluster == cluster
    {
      this.cluster := cluster;
    }

    method RunFailsafe() returns (result: ManagerResult)
      modifies cluster
      ensures ManagerOutcome(result, cluster.log) == ManagerRun(cluster.env, old(cluster.log), 0, [])
    {
      ghost var whole := ManagerRun(cluster.env, cluster.log, 0, []);
      var errors := [];
      var servers := cluster.env.servers;
      for i := 0 to |servers|
        invariant ManagerRun(cluster.env, cluster.log, i, errors) == whole
      {
        var before := cluster.log;
        var answer := cluster.RunTask(OnServer, servers[i]);
        assert Outcome(answer, State([], cluster.log)) == RunTask(cluster.env, State([], before), OnServer, servers[i]);
        if answer.Ok? {
          return Done(answer.value);
        }
        if answer.error.Is(ReplicaNotPrimary) {
          ghost var log := cluster.log;
          var got := cluster.FetchReplicas();
          assert Outcome(got, State([], cluster.log)) == FetchReplicas(cluster.env, State([], log));
          if got.Err? {
            return Failed(got.error);
          }
          var database := new TypeDBDatabase(cluster, got.value);
          var run := database.RunOnPrimaryReplica();
          return if run.Ok? then Done(run.value) else Failed(run.error);
        }
        errors := errors + [(servers[i], answer.error)];
      }
      return AllNodesFailed(errors);
    }
  }
}
