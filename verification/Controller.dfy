/** The JVB controller, in the form of the source: objects whose fields the methods overwrite. */
module Controller {
  import opened Basics
  import opened Naming
  import opened Resources
  import opened Api
  import opened Program
  import opened Clusters
  import Environment
  import Finalizers
  import opened Deletion

  type ReplicaName = n: Name | n.Replica? witness Replica(0)

  /** `isEnvAlreadyExist` and `isHostAddressExist`. */
  method EnvExists(envs: seq<EnvVar>, name: string) returns (found: bool)
    ensures found <==> exists i :: 0 <= i < |envs| && envs[i].name == name
  {
    for env := 0 to |envs|
      invariant forall i :: 0 <= i < env ==> envs[i].name != name
    {
      if envs[env].name == name { return true; }
    }
    return false;
  }

  /** The level loop of `prepareLoggingCM`. */
  method FindLoggingLevel(envs: seq<EnvVar>) returns (level: string)
    ensures level == LoggingLevel(envs)
    ensures forall i :: Environment.LastAt(envs, "LOGGING_LEVEL", i) ==> level == envs[i].value
    ensures (forall i :: 0 <= i < |envs| ==> envs[i].name != "LOGGING_LEVEL") ==> level == "INFO"
  {
    level := "INFO";
    for k := 0 to |envs|
      invariant level == LoggingLevel(envs[..k])
    {
      assert envs[..k + 1][..k] == envs[..k];
      if envs[k].name == "LOGGING_LEVEL" { level := envs[k].value; }
    }
    assert envs[..|envs|] == envs;
    Environment.LastValueIsLast(envs, "LOGGING_LEVEL");
  }

  class Jvb {
    const cluster: Cluster
    const addresses: map<Name, string>
    var obj: JvbObject
    var envs: seq<EnvVar>
    var replicaName: ReplicaName
    var replica: int
    var port: int

    ghost predicate Valid()
      reads this
    {
      port == BasePort(obj.spec)
    }

    ghost function ThePlan(): Plan
      reads this
    {
      PlanFor(obj, addresses)
    }

    constructor (cluster: Cluster, addresses: map<Name, string>, obj: JvbObject, envs: seq<EnvVar>)
      ensures this.cluster == cluster && this.addresses == addresses && this.obj == obj && this.envs == envs && Valid()
    {
      this.cluster, this.addresses, this.obj, this.envs := cluster, addresses, obj, envs;
      replicaName, replica := Replica(0), 0;
      port := if obj.spec.port != 0 then obj.spec.port else 10000;
    }

    // ---- Builders ----

    method PrepareLoggingConfig() returns (m: ConfigMap)
      ensures m == LoggingConfig(envs)
    {
      var level := FindLoggingLevel(envs);
      m := ConfigMap("jvb", LoggingAt(level));
    }

    method PrepareService() returns (v: Service)
      requires Valid() && replicaName == Replica(replica)
      ensures v == InstanceService(ThePlan(), replica)
    {
      var p := Wrap32(port + replica);
      v := Service(obj.spec.serviceAnnotations, obj.spec.serviceType, "jvb", obj.spec.protocol, p, p, replicaName);
    }

    /** Appends the generated block to the shared list, so that later replicas find it there. */
    method AdditionalEnvironments() returns (result: seq<EnvVar>)
      requires Valid() && replicaName == Replica(replica)
      modifies this`envs
      ensures envs == ExtendEnv(ThePlan(), old(envs), replica) && result == envs
    {
      hide Itoa, Wrap32;
      var text := Itoa(Wrap32(port + replica));
      var known := EnvExists(envs, "JVB_PORT");
      var hostKnown := EnvExists(envs, "DOCKER_HOST_ADDRESS");
      if obj.spec.protocol == "TCP" {
        if known { return envs; }
        var additional := [];
        if !hostKnown { additional := additional + [GetDockerHostAddr()]; }
        additional := additional + [Plain("JVB_PORT", "30300"),
                                    Plain("JVB_TCP_PORT", text), Plain("JVB_TCP_MAPPED_PORT", text),
                                    Plain("TCP_HARVESTER_PORT", text), Plain("TCP_HARVESTER_MAPPED_PORT", text)];
        envs := envs + additional;
      } else if obj.spec.protocol == "UDP" {
        if known { return envs; }
        var additional := [];
        if !hostKnown { additional := additional + [GetDockerHostAddr()]; }
        additional := additional + [Plain("JVB_PORT", text)];
        envs := envs + additional;
      }
      return envs;
    }

    function GetDockerHostAddr(): EnvVar
      reads this
    {
      if obj.spec.serviceType != "LoadBalancer" then Plain("DOCKER_HOST_ADDRESS", "")
      else Plain("DOCKER_HOST_ADDRESS", if replicaName in addresses then addresses[replicaName] else "")
    }

    method PrepareExporterContainer() returns (c: ExporterContainer)
      ensures c == ExporterSidecar(ThePlan())
    {
      match obj.spec.exporter.kind {
        case "telegraf" => c := Telegraf(obj.spec.exporter.image, obj.spec.exporter.environments);
        case _ => c := Videobridge(obj.spec.exporter.image, obj.spec.exporter.port);
      }
    }

    method PrepareVolumes() returns (volume: seq<Name>)
      requires replicaName == Replica(replica)
      ensures volume == Mounts(ThePlan(), replica)
    {
      volume := [];
      if obj.spec.exporter.kind == "telegraf" {
        return volume + [ShutdownMap, SipOf(replicaName.index), Foreign(obj.spec.exporter.configMap), LoggingMap];
      }
      return volume + [ShutdownMap, SipOf(replicaName.index), LoggingMap];
    }

    method ServiceForExporter() returns (v: Service)
      requires replicaName == Replica(replica)
      ensures v == ExporterService(ThePlan(), replica)
    {
      var port := obj.spec.exporter.port;
      v := Service(map[], "ClusterIP", "exporter", "TCP", port, port, replicaName);
    }

    method PrepareSipConfig() returns (m: ConfigMap)
      ensures m == SipConfig(ThePlan())
    {
      m := ConfigMap("jvb", SipOptions(obj.spec.customSip));
    }

    method PreparePod() returns (pod: Pod)
      requires Valid() && replicaName == Replica(replica)
      modifies this`envs
      ensures envs == ExtendEnv(ThePlan(), old(envs), replica) && pod == PodFor(ThePlan(), replica, envs)
    {
      var p := Wrap32(port + replica);
      var env := AdditionalEnvironments();
      var exporter := PrepareExporterContainer();
      var mounts := PrepareVolumes();
      pod := Pod(obj.spec.image, env, obj.spec.protocol, p, exporter, mounts);
    }

    // ---- One replica ----

    method ServicePerInstance() returns (err: Err)
      requires Valid() && replicaName == Replica(replica)
      modifies cluster
      ensures Reply(err, cluster.State()) == EnsureService(old(cluster.State()), ThePlan(), replica)
    {
      var getErr, service := cluster.GetService(replicaName);
      var prepared := PrepareService();
      if obj.spec.exporter.kind == "" {
        var exporter := ServiceForExporter();
        var exporterErr := cluster.Request(CreateService(ExporterOf(replica), exporter));
      }
      if getErr == NotFound {
        err := cluster.Request(CreateService(replicaName, prepared));
      } else if getErr == Ok {
        var updated := service.value.(annotations := prepared.annotations, serviceType := obj.spec.serviceType,
                                      portName := prepared.portName, protocol := prepared.protocol,
                                      port := prepared.port, targetPort := prepared.targetPort);
        err := cluster.Request(UpdateService(replicaName, updated));
      } else {
        err := cluster.Refuse();
      }
    }

    /** One turn of the loop of `Create`. */
    method CreateOne()
      requires Valid() && replicaName == Replica(replica)
      modifies cluster, this`envs
      ensures var c := CreateReplica(old(cluster.State()), ThePlan(), old(envs), replica);
              cluster.State() == c.w && envs == c.envs
    {
      var getErr, found := cluster.GetDeployment(replicaName);
      if getErr != NotFound { return; }
      var svcErr := ServicePerInstance();
      var sip := PrepareSipConfig();
      var sipErr := cluster.Request(CreateConfigMap(SipOf(replica), sip));
      var pod := PreparePod();
      var prepared := Deployment(replicaName, replicaName, obj.annotations, pod);
      var err := cluster.Request(CreateDeployment(replicaName, prepared));
    }

    method DeleteReplicaService() returns (err: Err)
      modifies cluster
      ensures Reply(err, cluster.State()) == DropService(old(cluster.State()), replicaName.index)
    {
      var getErr, svc := cluster.GetService(replicaName);
      if getErr == NotFound { return Ok; }
      if getErr != Ok { return getErr; }
      err := cluster.Request(DeleteService(replicaName));
      if err != Ok { return; }
      var expErr, exp := cluster.GetService(ExporterOf(replicaName.index));
      if expErr == NotFound { return Ok; }
      if expErr != Ok { return expErr; }
      err := cluster.Request(DeleteService(ExporterOf(replicaName.index)));
    }

    method DeleteInstance() returns (err: Err)
      modifies cluster
      ensures Reply(err, cluster.State()) == DropInstance(old(cluster.State()), replicaName.index)
    {
      var getErr, d := cluster.GetDeployment(replicaName);
      if getErr == NotFound { return Ok; }
      if getErr != Ok { return getErr; }
      err := cluster.Request(DeleteDeployment(replicaName));
    }

    /** One replica removed; errors are logged and swallowed. */
    method DeleteOne()
      modifies cluster
      ensures cluster.State() == DropReplica(old(cluster.State()), replicaName.index)
    {
      var svcErr := DeleteReplicaService();
      var err := DeleteInstance();
    }

    method UpdateOrCreate(n: Name, m: ConfigMap)
      modifies cluster
      ensures cluster.State() == PutConfigMap(old(cluster.State()), n, m)
    {
      var err := cluster.Request(UpdateConfigMap(n, m));
      if err == NotFound {
        var createErr := cluster.Request(CreateConfigMap(n, m));
      }
    }

    /** One turn of the loop of `Update`; a replica that cannot be read ends the reconcile. */
    method UpdateOne() returns (err: Err)
      requires Valid() && replicaName == Replica(replica)
      modifies cluster, this`envs
      ensures var u := UpdateReplica(old(cluster.State()), ThePlan(), old(envs), replica);
              cluster.State() == u.w && envs == u.envs && (u.ok <==> err == Ok)
    {
      var sip := PrepareSipConfig();
      UpdateOrCreate(SipOf(replica), sip);
      var instance;
      err, instance := cluster.GetDeployment(replicaName);
      if err != Ok { return; }
      var svcErr := ServicePerInstance();
      var pod := PreparePod();
      var updErr := cluster.Request(UpdateDeployment(replicaName, instance.value.(pod := pod)));
    }

    // ---- The loops ----

    /** Creates what is missing of replicas 1..n. */
    method Create()
      requires Valid() && obj.spec.replicas < MAX_INT32
      modifies cluster, this`envs, this`replicaName, this`replica
      ensures var c := Program.Create(old(cluster.State()), ThePlan(), old(envs));
              cluster.State() == c.w && envs == c.envs
    {
      var shutdownErr := cluster.Request(CreateConfigMap(ShutdownMap, ShutdownConfig()));
      var logging := PrepareLoggingConfig();
      var loggingErr := cluster.Request(CreateConfigMap(LoggingMap, logging));
      ghost var w, envs0, p := cluster.State(), envs, ThePlan();
      var r := 1;
      while r <= obj.spec.replicas
        invariant 1 <= r && (r <= obj.spec.replicas + 1 || r == 1)
        invariant Valid() && ThePlan() == p
        invariant cluster.State() == CreateUpTo(w, p, envs0, r - 1).w
        invariant envs == CreateUpTo(w, p, envs0, r - 1).envs
      {
        replicaName := Replica(r);
        replica := r;
        CreateOne();
        r := r + 1;
      }
      CreateUpToNothing(w, p, envs0, obj.spec.replicas, r - 1);
    }

    /** Removes the replicas between the spec and the status, from above. */
    method UpdateReplicaCount()
      modifies cluster, this`replicaName
      ensures cluster.State() == ScaleDown(old(cluster.State()), ThePlan())
    {
      hide DropReplica;
      if obj.status > obj.spec.replicas {
        var current := obj.status;
        ghost var n := obj.spec.replicas;
        while current != obj.spec.replicas && current != 1
          invariant n <= current
          invariant ScaleDownFrom(cluster.State(), n, current) == ScaleDownFrom(old(cluster.State()), n, obj.status)
          decreases current - n
        {
          replicaName := Replica(current);
          DeleteOne();
          current := current - 1;
        }
      }
    }

    method UpdateStatus() returns (err: Err)
      modifies cluster, this`obj
      ensures obj == old(obj).(status := old(obj).spec.replicas)
      ensures Reply(err, cluster.State()) == PutStatus(old(cluster.State()), obj)
    {
      obj := obj.(status := obj.spec.replicas);
      err := cluster.UpdateJvbStatus(obj);
    }

    method Update() returns (err: Err)
      requires Valid() && obj.spec.replicas < MAX_INT32
      modifies cluster, this
      ensures var u := UpdateChildren(old(cluster.State()), old(ThePlan()), old(envs));
              if !u.ok then cluster.State() == u.w && err != Ok
              else Reply(err, cluster.State()) == PutStatus(u.w, old(obj).(status := old(obj).spec.replicas))
    {
      hide ScaleDown, PutConfigMap, UpdateReplica, PutStatus, WriteStatus;
      UpdateReplicaCount();
      UpdateOrCreate(ShutdownMap, ShutdownConfig());
      var logging := PrepareLoggingConfig();
      UpdateOrCreate(LoggingMap, logging);
      ghost var w, envs0, p := cluster.State(), envs, ThePlan();
      var r := 1;
      while r <= obj.spec.replicas
        invariant 1 <= r && (r <= obj.spec.replicas + 1 || r == 1)
        invariant Valid() && obj == old(obj)
        invariant UpdateUpTo(w, p, envs0, r - 1) == Run(cluster.State(), envs, true)
      {
        replicaName := Replica(r);
        replica := r;
        err := UpdateOne();
        if err != Ok {
          UpdateStopsAt(w, p, envs0, r, obj.spec.replicas);
          return;
        }
        r := r + 1;
      }
      UpdateUpToNothing(w, p, envs0, obj.spec.replicas, r - 1);
      err := UpdateStatus();
    }

    method DeleteConfigMaps() returns (names: seq<Name>)
      modifies cluster
      ensures cluster.State() == DropListed(old(cluster.State()), names)
      ensures Lists(names, old(cluster.State()).store)
    {
      var err;
      err, names := cluster.ListConfigMaps();
      if err != Ok { return; }
      ghost var w := cluster.State();
      for cm := 0 to |names|
        invariant cluster.State() == DropConfigMaps(w, names[..cm])
      {
        assert names[..cm + 1][..cm] == names[..cm];
        var delErr := cluster.Request(DeleteConfigMap(names[cm]));
      }
      assert names[..|names|] == names;
    }

    method DeleteReplicas(n: int)
      requires n < MAX_INT32
      modifies cluster, this`replicaName
      ensures cluster.State() == DropUpTo(old(cluster.State()), n)
    {
      hide DropReplica;
      var r := 1;
      while r <= n
        invariant 1 <= r && (r <= n + 1 || r == 1)
        invariant cluster.State() == DropUpTo(old(cluster.State()), r - 1)
      {
        replicaName := Replica(r);
        DeleteOne();
        r := r + 1;
      }
      DropUpToNothing(old(cluster.State()), n, r - 1);
    }

    /** Releases the object, then removes replicas 1..n and every labelled ConfigMap. */
    method Delete() returns (names: seq<Name>)
      requires obj.spec.replicas < MAX_INT32
      modifies cluster, this
      ensures cluster.State() == ReconcileDeleting(old(cluster.State()), old(obj), names).w
      ensures Lists(names, old(cluster.State()).store)
    {
      hide Program.RemoveFinalizer, DropUpTo, DropListed, Lists;
      var n := obj.spec.replicas;
      var finErr;
      finErr, obj := Finalizers.RemoveFinalizer(cluster, obj);
      DeleteReplicas(n);
      names := DeleteConfigMaps();
      ListingUnaffected(old(cluster.State()), old(obj), n, names);
    }
  }

  lemma CreateUpToNothing(w: World, p: Plan, envs: seq<EnvVar>, n: int, m: int)
    requires m == n || (m == 0 && n <= 0)
    ensures CreateUpTo(w, p, envs, n) == CreateUpTo(w, p, envs, m)
  {
  }

  lemma UpdateUpToNothing(w: World, p: Plan, envs: seq<EnvVar>, n: int, m: int)
    requires m == n || (m == 0 && n <= 0)
    ensures UpdateUpTo(w, p, envs, n) == UpdateUpTo(w, p, envs, m)
  {
  }

  lemma DropUpToNothing(w: World, n: int, m: int)
    requires m == n || (m == 0 && n <= 0)
    ensures DropUpTo(w, n) == DropUpTo(w, m)
  {
  }

  lemma {:induction false} DropUpToKeepsConfigMaps(w: World, n: int)
    ensures DropUpTo(w, n).store.configMaps == w.store.configMaps
    decreases if n < 0 then 0 else n
  {
    hide DropReplica;
    if n >= 1 {
      DropUpToKeepsConfigMaps(w, n - 1);
      DropReplicaKeepsConfigMaps(DropUpTo(w, n - 1), n);
    }
  }

  /** What a deletion does before it lists the ConfigMaps does not change the listing. */
  lemma ListingUnaffected(w: World, o: JvbObject, n: int, names: seq<Name>)
    requires Lists(names, DropUpTo(Program.RemoveFinalizer(w, o).w, n).store)
    ensures Lists(names, w.store)
  {
    hide DropUpTo;
    DropUpToKeepsConfigMaps(Program.RemoveFinalizer(w, o).w, n);
  }

  /** A turn that fails is the last. */
  lemma {:induction false} UpdateStopsAt(w: World, p: Plan, envs: seq<EnvVar>, r: int, n: int)
    requires r <= n && !UpdateUpTo(w, p, envs, r).ok
    ensures UpdateUpTo(w, p, envs, n) == UpdateUpTo(w, p, envs, r)
    decreases n - r
  {
    if r < n { UpdateStopsAt(w, p, envs, r, n - 1); }
  }

  // ---- Reconcile ----

  class Reconciler {
    const cluster: Cluster
    const addresses: map<Name, string>

    constructor (cluster: Cluster, addresses: map<Name, string>)
      ensures this.cluster == cluster && this.addresses == addresses
    {
      this.cluster, this.addresses := cluster, addresses;
    }

    /** `names` is the ConfigMap listing of a deletion. */
    method Reconcile() returns (done: bool, names: seq<Name>)
      requires cluster.jvb.Some? ==> cluster.jvb.value.spec.replicas < MAX_INT32
      modifies cluster
      ensures Result(cluster.State(), done) == Program.Reconcile(old(cluster.State()), addresses, names)
      ensures old(cluster.jvb).Some? && old(cluster.jvb).value.deleting
              && NextFault(old(cluster.State())) in {Clean, Stale} ==>
                Lists(names, old(cluster.State()).store)
    {
      names := [];
      var getErr, got := cluster.GetJvb();
      if getErr != Ok { return getErr == NotFound, []; }
      var o := got.value;
      if o.deleting {
        var doomed := new Jvb(cluster, addresses, o, []);
        names := doomed.Delete();
        return true, names;
      }
      var finErr, tagged := Finalizers.AddFinalizer(cluster, o);
      var jvb := new Jvb(cluster, addresses, tagged, tagged.spec.environments);
      jvb.Create();
      var err := jvb.Update();
      return err == Ok, [];
    }
  }
}
