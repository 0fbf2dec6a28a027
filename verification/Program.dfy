/**
 What one reconcile does, as a function of the world it starts in. The controller classes
 are proved to compute exactly these functions; the theorems are about them.
 */
module Program {
  import opened Naming
  import opened Resources
  import opened Api

  /** A point inside a reconcile: the world, the controller's environment list, and whether it is still going. */
  datatype Run = Run(w: World, envs: seq<EnvVar>, ok: bool)

  // ---- One replica ----

  /** The exporter Service is created where the spec names no exporter type; the reply is only logged. */
  function WithExporter(w: World, p: Plan, r: int): World {
    if p.spec.exporter.kind == "" then Mutate(w, CreateService(ExporterOf(r), ExporterService(p, r))).w else w
  }

  /** `servicePerInstance`. */
  function EnsureService(w: World, p: Plan, r: int): Reply {
    var got := Look(w, Replica(r) in w.store.services);
    var w' := WithExporter(got.w, p, r);
    match got.err
    case NotFound => Mutate(w', CreateService(Replica(r), InstanceService(p, r)))
    case Ok =>
      if Replica(r) in w.store.services then
        Mutate(w', UpdateService(Replica(r), Refreshed(w.store.services[Replica(r)], p, r)))
      else Refused(w')
    case _ => Refused(w')
  }

  function CreateReplica(w: World, p: Plan, envs: seq<EnvVar>, r: int): Run {
    var got := Look(w, Has(w.store, r));
    if got.err != NotFound then Run(got.w, envs, true) else
    var w1 := EnsureService(got.w, p, r).w;
    var w2 := Mutate(w1, CreateConfigMap(SipOf(r), SipConfig(p))).w;
    var envs' := ExtendEnv(p, envs, r);
    Run(Mutate(w2, CreateDeployment(Replica(r), Instance(p, r, envs'))).w, envs', true)
  }

  /** `deleteService`: without the main Service the exporter Service is not even looked for. */
  function DropService(w: World, r: int): Reply {
    var got := Look(w, Replica(r) in w.store.services);
    if got.err == NotFound then Reply(Ok, got.w)
    else if got.err != Ok then got
    else
      var del := Mutate(got.w, DeleteService(Replica(r)));
      if del.err != Ok then del
      else
        var exp := Look(del.w, ExporterOf(r) in del.w.store.services);
        if exp.err == NotFound then Reply(Ok, exp.w)
        else if exp.err != Ok then exp
        else Mutate(exp.w, DeleteService(ExporterOf(r)))
  }

  /** `deleteInstance`. */
  function DropInstance(w: World, r: int): Reply {
    var got := Look(w, Has(w.store, r));
    if got.err == NotFound then Reply(Ok, got.w)
    else if got.err != Ok then got
    else Mutate(got.w, DeleteDeployment(Replica(r)))
  }

  function DropReplica(w: World, r: int): World {
    DropInstance(DropService(w, r).w, r).w
  }

  /** Update a ConfigMap, or create it when it is not there. */
  function PutConfigMap(w: World, n: Name, m: ConfigMap): World {
    var u := Mutate(w, UpdateConfigMap(n, m));
    if u.err == NotFound then Mutate(u.w, CreateConfigMap(n, m)).w else u.w
  }

  function UpdateReplica(w: World, p: Plan, envs: seq<EnvVar>, r: int): Run {
    var w1 := PutConfigMap(w, SipOf(r), SipConfig(p));
    var got := Look(w1, Has(w1.store, r));
    if got.err != Ok || !Has(w1.store, r) then Run(got.w, envs, false) else
    var instance := w1.store.deployments[Replica(r)];
    var w2 := EnsureService(got.w, p, r).w;
    var envs' := ExtendEnv(p, envs, r);
    Run(Mutate(w2, UpdateDeployment(Replica(r), instance.(pod := PodFor(p, r, envs')))).w, envs', true)
  }

  // ---- The loops ----

  function CreateConfigMaps(w: World, envs: seq<EnvVar>): World {
    var w' := Mutate(w, CreateConfigMap(ShutdownMap, ShutdownConfig())).w;
    Mutate(w', CreateConfigMap(LoggingMap, LoggingConfig(envs))).w
  }

  function CreateUpTo(w: World, p: Plan, envs: seq<EnvVar>, n: int): Run
    decreases if n < 0 then 0 else n
  {
    if n < 1 then Run(w, envs, true)
    else var c := CreateUpTo(w, p, envs, n - 1); CreateReplica(c.w, p, c.envs, n)
  }

  function Create(w: World, p: Plan, envs: seq<EnvVar>): Run {
    CreateUpTo(CreateConfigMaps(w, envs), p, envs, p.spec.replicas)
  }

  /** The loop of `updateReplicaCount`, standing at `current`. */
  function ScaleDownFrom(w: World, n: int, current: int): World
    requires n <= current
    decreases current - n
  {
    if current == n || current == 1 then w
    else ScaleDownFrom(DropReplica(w, current), n, current - 1)
  }

  function ScaleDown(w: World, p: Plan): World {
    if p.status > p.spec.replicas then ScaleDownFrom(w, p.spec.replicas, p.status) else w
  }

  function PutConfigMaps(w: World, envs: seq<EnvVar>): World {
    PutConfigMap(PutConfigMap(w, ShutdownMap, ShutdownConfig()), LoggingMap, LoggingConfig(envs))
  }

  function UpdateUpTo(w: World, p: Plan, envs: seq<EnvVar>, n: int): Run
    decreases if n < 0 then 0 else n
  {
    if n < 1 then Run(w, envs, true)
    else
      var u := UpdateUpTo(w, p, envs, n - 1);
      if u.ok then UpdateReplica(u.w, p, u.envs, n) else u
  }

  /** `Update` up to, but without, the status write. */
  function UpdateChildren(w: World, p: Plan, envs: seq<EnvVar>): Run {
    UpdateUpTo(PutConfigMaps(ScaleDown(w, p), envs), p, envs, p.spec.replicas)
  }

  /** Everything a reconcile of a live object does to child objects. */
  function Children(w: World, p: Plan): Run {
    var c := Create(w, p, p.spec.environments);
    UpdateChildren(c.w, p, c.envs)
  }

  function DropUpTo(w: World, n: int): World
    decreases if n < 0 then 0 else n
  {
    if n < 1 then w else DropReplica(DropUpTo(w, n - 1), n)
  }

  function DropConfigMaps(w: World, names: seq<Name>): World {
    if names == [] then w
    else Mutate(DropConfigMaps(w, names[..|names| - 1]), DeleteConfigMap(names[|names| - 1])).w
  }

  /** `names` is the server's listing of the ConfigMaps labelled `app=jvb`, in some order. */
  ghost predicate Lists(names: seq<Name>, s: Store) {
    && (forall n :: n in names <==> n in s.configMaps && s.configMaps[n].app == "jvb")
    && (forall i, j :: 0 <= i < j < |names| ==> names[i] != names[j])
  }

  /** `deleteCMs`. */
  function DropListed(w: World, names: seq<Name>): World {
    var got := Look(w, true);
    if got.err != Ok then got.w else DropConfigMaps(got.w, names)
  }

  // ---- The JVB object ----

  /** Outcome of a finalizer helper: the reply and the controller's copy of the object. */
  datatype Tagged = Tagged(err: Err, w: World, obj: JvbObject)

  function AddFinalizer(w: World, o: JvbObject): Tagged {
    if FINALIZER in o.finalizers then Tagged(Ok, w, o) else
    var o' := o.(finalizers := o.finalizers + [FINALIZER]);
    var put := PutObject(w, o');
    Tagged(put.err, put.w, if put.err == Ok && put.w.obj.Some? then put.w.obj.value else o')
  }

  function Without(s: seq<string>, x: string): seq<string> {
    if s == [] then [] else (if s[0] == x then [] else [s[0]]) + Without(s[1..], x)
  }

  function RemoveFinalizer(w: World, o: JvbObject): Tagged {
    if FINALIZER !in o.finalizers then Tagged(Ok, w, o) else
    var o' := o.(finalizers := Without(o.finalizers, FINALIZER));
    var put := PutObject(w, o');
    Tagged(put.err, put.w, if put.err == Ok && put.w.obj.Some? then put.w.obj.value else o')
  }

  function PlanFor(o: JvbObject, addresses: map<Name, string>): Plan {
    Plan(o.spec, o.annotations, o.status, addresses)
  }

  /** The controller reports success (`done`) or an error that puts the object back in the queue. */
  datatype Result = Result(w: World, done: bool)

  function ReconcileLive(w: World, o: JvbObject, addresses: map<Name, string>): Result {
    var t := AddFinalizer(w, o);
    var p := PlanFor(t.obj, addresses);
    var c := Children(t.w, p);
    if !c.ok then Result(c.w, false) else
    var put := PutStatus(c.w, t.obj.(status := t.obj.spec.replicas));
    Result(put.w, put.err == Ok)
  }

  function ReconcileDeleting(w: World, o: JvbObject, names: seq<Name>): Result {
    var t := RemoveFinalizer(w, o);
    Result(DropListed(DropUpTo(t.w, o.spec.replicas), names), true)
  }

  /** `Reconcile`; `names` is the ConfigMap listing a deletion gets to see. */
  function Reconcile(w: World, addresses: map<Name, string>, names: seq<Name>): Result {
    var got := Look(w, w.obj.Some?);
    if got.err == NotFound then Result(got.w, true)
    else if got.err != Ok || w.obj.None? then Result(got.w, false)
    else if w.obj.value.deleting then ReconcileDeleting(got.w, w.obj.value, names)
    else ReconcileLive(got.w, w.obj.value, addresses)
  }
}
