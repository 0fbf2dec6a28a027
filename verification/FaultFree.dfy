/** The store that a fault-free reconcile leaves behind, stated replica by replica. */
module FaultFree {
  import opened Basics
  import opened Naming
  import opened Resources
  import opened Api
  import opened Program
  import opened Environment

  // ---- The intended outcome ----

  /** Least index of 1..n without a Deployment. */
  function FirstMissing(s: Store, n: int): Option<int>
    decreases if n < 0 then 0 else n
  {
    if n < 1 then None
    else match FirstMissing(s, n - 1)
         case Some(q) => Some(q)
         case None => if Has(s, n) then None else Some(n)
  }

  lemma {:induction false} FirstMissingIsLeast(s: Store, n: int)
    ensures match FirstMissing(s, n)
            case Some(q) => 1 <= q <= n && !Has(s, q) && forall i :: 1 <= i < q ==> Has(s, i)
            case None => forall i :: 1 <= i <= n ==> Has(s, i)
    decreases if n < 0 then 0 else n
  {
    if n >= 1 { FirstMissingIsLeast(s, n - 1); }
  }

  /** The index whose port the generated variables announce. */
  function BlockIndex(s: Store, p: Plan): int {
    match FirstMissing(s, p.spec.replicas)
    case Some(q) => q
    case None => 1
  }

  function FinalEnv(s: Store, p: Plan): seq<EnvVar> {
    ExtendEnv(p, p.spec.environments, BlockIndex(s, p))
  }

  /** A slot served by `servicePerInstance`. */
  function Exposed(x: Slot, p: Plan, r: int): Slot {
    x.(svc := Some(if x.svc.Some? then Refreshed(x.svc.value, p, r) else InstanceService(p, r)),
       exp := if p.spec.exporter.kind == "" && x.exp.None? then Some(ExporterService(p, r)) else x.exp)
  }

  /** What replica `r` is meant to look like, given what was there. */
  function Desired(x: Slot, p: Plan, r: int, env: seq<EnvVar>): Slot {
    Exposed(x, p, r).(
      dep := Some(if x.dep.Some? then x.dep.value.(pod := PodFor(p, r, env)) else Instance(p, r, env)),
      sip := Some(SipConfig(p)))
  }

  /** A removed replica: the exporter Service goes only along with the main Service. */
  function Emptied(x: Slot): Slot {
    x.(dep := None, svc := None, exp := if x.svc.Some? then None else x.exp)
  }

  function ConvergedSlot(s: Store, p: Plan, r: int): Slot {
    if Wanted(p, r) then Desired(At(s, r), p, r, FinalEnv(s, p))
    else if Doomed(p, r) then Emptied(At(s, r))
    else At(s, r)
  }

  /** `t` is what a complete reconcile makes of `s`. */
  ghost predicate Converged(s: Store, p: Plan, t: Store) {
    && (forall r :: At(t, r) == ConvergedSlot(s, p, r))
    && SameForeign(s, t)
    && Find(t.configMaps, ShutdownMap) == Some(ShutdownConfig())
    && Find(t.configMaps, LoggingMap) == Some(LoggingConfig(p.spec.environments))
  }

  lemma ConvergedIsUnique(s: Store, p: Plan, t: Store, t': Store)
    requires Converged(s, p, t) && Converged(s, p, t')
    ensures t == t'
  {
    forall r ensures At(t, r) == At(t', r) {
      assert At(t, r) == ConvergedSlot(s, p, r) == At(t', r);
    }
    StoreExtensionality(t, t');
  }

  // ---- One replica ----

  lemma SameForeignTransitive(s: Store, t: Store, u: Store)
    requires SameForeign(s, t) && SameForeign(t, u)
    ensures SameForeign(s, u)
  {
  }

  lemma SameRestReflexive(s: Store)
    ensures SameForeign(s, s) && SameShared(s, s)
  {
  }

  lemma SameSharedTransitive(s: Store, t: Store, u: Store)
    requires SameShared(s, t) && SameShared(t, u)
    ensures SameShared(s, u)
  {
  }

  /** Only the slot of `r` may differ. */
  ghost predicate OnlySlot(s: Store, t: Store, r: int) {
    (forall q :: q != r ==> At(t, q) == At(s, q)) && SameForeign(s, t) && SameShared(s, t)
  }

  lemma OnlySlotTransitive(s: Store, t: Store, u: Store, r: int)
    requires OnlySlot(s, t, r) && OnlySlot(t, u, r)
    ensures OnlySlot(s, u, r)
  {
    hide At;
    SameForeignTransitive(s, t, u);
    forall q | q != r ensures At(u, q) == At(s, q) {
      assert At(t, q) == At(s, q);
    }
  }

  /** A request on an object of replica `r` touches slot `r` only. */
  lemma ExecOnlySlot(s: Store, c: Call, r: int)
    requires match c
             case CreateDeployment(n, _) => n == Replica(r)
             case UpdateDeployment(n, _) => n == Replica(r)
             case DeleteDeployment(n) => n == Replica(r)
             case CreateService(n, _) => n in {Replica(r), ExporterOf(r)}
             case UpdateService(n, _) => n in {Replica(r), ExporterOf(r)}
             case DeleteService(n) => n in {Replica(r), ExporterOf(r)}
             case CreateConfigMap(n, _) => n == SipOf(r)
             case UpdateConfigMap(n, _) => n == SipOf(r)
             case DeleteConfigMap(n) => n == SipOf(r)
    ensures OnlySlot(s, Exec(s, c), r)
  {
  }

  /** Without faults a request is served and its verdict returned. */
  lemma MutateFree(w: World, c: Call)
    requires w.faults == []
    ensures Mutate(w, c) == Reply(Verdict(w.store, c), Served(w, c))
  {
    hide Verdict, Served;
  }

  lemma WithExporterFree(w: World, p: Plan, r: int)
    requires w.faults == []
    ensures var t := WithExporter(w, p, r); var x := At(w.store, r);
            t.faults == [] && OnlySlot(w.store, t.store, r)
            && At(t.store, r) == x.(exp := if p.spec.exporter.kind == "" && x.exp.None?
                                           then Some(ExporterService(p, r)) else x.exp)
  {
    hide Mutate, OnlySlot, ExporterService;
    var c := CreateService(ExporterOf(r), ExporterService(p, r));
    MutateFree(w, c);
    ExecOnlySlot(w.store, c, r);
    SameSlot(w.store, r);
  }

  lemma SameSlot(s: Store, r: int)
    ensures OnlySlot(s, s, r)
  {
  }

  /** The request on the main Service, whichever it is. */
  lemma MainServiceFree(w: World, c: Call, v: Service, r: int)
    requires w.faults == []
    requires c == if Replica(r) in w.store.services then UpdateService(Replica(r), v) else CreateService(Replica(r), v)
    ensures var t := Mutate(w, c).w;
            t.faults == [] && OnlySlot(w.store, t.store, r) && At(t.store, r) == At(w.store, r).(svc := Some(v))
  {
    hide Mutate, OnlySlot;
    MutateFree(w, c);
    ExecOnlySlot(w.store, c, r);
  }

  lemma EnsureServiceFree(w: World, p: Plan, r: int)
    requires w.faults == []
    ensures var t := EnsureService(w, p, r).w;
            t.faults == [] && OnlySlot(w.store, t.store, r) && At(t.store, r) == Exposed(At(w.store, r), p, r)
  {
    hide Mutate, OnlySlot, WithExporter, ExporterService, InstanceService, Refreshed;
    var w1 := WithExporter(w, p, r);
    WithExporterFree(w, p, r);
    assert At(w1.store, r).svc == At(w.store, r).svc;
    var v := if Replica(r) in w.store.services then Refreshed(w.store.services[Replica(r)], p, r)
             else InstanceService(p, r);
    var c := if Replica(r) in w.store.services then UpdateService(Replica(r), v) else CreateService(Replica(r), v);
    MainServiceFree(w1, c, v, r);
    assert EnsureService(w, p, r) == Mutate(w1, c);
    OnlySlotTransitive(w.store, w1.store, Mutate(w1, c).w.store, r);
  }

  lemma CreateReplicaFree(w: World, p: Plan, envs: seq<EnvVar>, r: int)
    requires w.faults == []
    ensures var c := CreateReplica(w, p, envs, r); var t := c.w; var x := At(w.store, r);
            && t.faults == [] && OnlySlot(w.store, t.store, r)
            && (Has(w.store, r) ==> At(t.store, r) == x && c.envs == envs)
            && (!Has(w.store, r) ==>
                  c.envs == ExtendEnv(p, envs, r)
                  && At(t.store, r) == Exposed(x, p, r).(dep := Some(Instance(p, r, c.envs)),
                                                         sip := if x.sip.Some? then x.sip else Some(SipConfig(p))))
  {
    if !Has(w.store, r) {
      var w1 := EnsureService(w, p, r).w;
      EnsureServiceFree(w, p, r);
      var sip := CreateConfigMap(SipOf(r), SipConfig(p));
      var w2 := Mutate(w1, sip).w;
      ExecOnlySlot(w1.store, sip, r);
      OnlySlotTransitive(w.store, w1.store, w2.store, r);
      var dep := CreateDeployment(Replica(r), Instance(p, r, ExtendEnv(p, envs, r)));
      ExecOnlySlot(w2.store, dep, r);
      OnlySlotTransitive(w.store, w2.store, Exec(w2.store, dep), r);
      assert At(w1.store, r).dep == None;
    }
  }

  lemma PutSipFree(w: World, m: ConfigMap, r: int)
    requires w.faults == []
    ensures var t := PutConfigMap(w, SipOf(r), m);
            t.faults == [] && OnlySlot(w.store, t.store, r) && At(t.store, r) == At(w.store, r).(sip := Some(m))
  {
    hide Mutate, OnlySlot;
    var update, create := UpdateConfigMap(SipOf(r), m), CreateConfigMap(SipOf(r), m);
    MutateFree(w, update);
    ExecOnlySlot(w.store, update, r);
    ExecOnlySlot(w.store, create, r);
    var u := Mutate(w, update);
    if u.err == NotFound { MutateFree(u.w, create); }
  }

  lemma PutPodFree(w: World, r: int, d: Deployment)
    requires w.faults == [] && Has(w.store, r)
    ensures var t := Mutate(w, UpdateDeployment(Replica(r), d)).w;
            t.faults == [] && OnlySlot(w.store, t.store, r) && At(t.store, r) == At(w.store, r).(dep := Some(d))
  {
    hide Mutate, OnlySlot;
    MutateFree(w, UpdateDeployment(Replica(r), d));
    ExecOnlySlot(w.store, UpdateDeployment(Replica(r), d), r);
  }

  lemma UpdateReplicaFree(w: World, p: Plan, envs: seq<EnvVar>, r: int)
    requires w.faults == [] && Has(w.store, r)
    ensures var u := UpdateReplica(w, p, envs, r); var t := u.w;
            && u.ok && t.faults == [] && OnlySlot(w.store, t.store, r)
            && u.envs == ExtendEnv(p, envs, r)
            && At(t.store, r) == Desired(At(w.store, r), p, r, u.envs)
  {
    hide Mutate, OnlySlot, PutConfigMap, EnsureService, Exposed, PodFor, ExtendEnv, SipConfig;
    var w1 := PutConfigMap(w, SipOf(r), SipConfig(p));
    PutSipFree(w, SipConfig(p), r);
    assert At(w.store, r).dep.Some? && At(w1.store, r).dep == At(w.store, r).dep;
    var w2 := EnsureService(w1, p, r).w;
    EnsureServiceFree(w1, p, r);
    OnlySlotTransitive(w.store, w1.store, w2.store, r);
    ExposedFields(At(w.store, r), p, r, SipConfig(p));
    assert At(w2.store, r).dep == At(w.store, r).dep;
    var d := w1.store.deployments[Replica(r)].(pod := PodFor(p, r, ExtendEnv(p, envs, r)));
    PutPodFree(w2, r, d);
    OnlySlotTransitive(w.store, w2.store, Mutate(w2, UpdateDeployment(Replica(r), d)).w.store, r);
  }

  /** Services and SIP options do not get in each other's way. */
  lemma ExposedFields(x: Slot, p: Plan, r: int, sip: ConfigMap)
    ensures Exposed(x, p, r).dep == x.dep
    ensures Exposed(x.(sip := Some(sip)), p, r) == Exposed(x, p, r).(sip := Some(sip))
  {
  }

  lemma DropServiceFree(w: World, r: int)
    requires w.faults == []
    ensures var t := DropService(w, r).w; var x := At(w.store, r);
            t.faults == [] && OnlySlot(w.store, t.store, r)
            && At(t.store, r) == x.(svc := None, exp := if x.svc.Some? then None else x.exp)
  {
    hide Mutate, OnlySlot;
    SameSlot(w.store, r);
    if Replica(r) in w.store.services {
      var main, exp := DeleteService(Replica(r)), DeleteService(ExporterOf(r));
      MutateFree(w, main);
      var w1 := Mutate(w, main).w;
      ExecOnlySlot(w.store, main, r);
      MutateFree(w1, exp);
      ExecOnlySlot(w1.store, exp, r);
      OnlySlotTransitive(w.store, w1.store, Mutate(w1, exp).w.store, r);
    }
  }

  lemma DropReplicaFree(w: World, r: int)
    requires w.faults == []
    ensures var t := DropReplica(w, r);
            t.faults == [] && OnlySlot(w.store, t.store, r) && At(t.store, r) == Emptied(At(w.store, r))
  {
    hide Mutate, OnlySlot, DropService;
    var w1 := DropService(w, r).w;
    DropServiceFree(w, r);
    SameSlot(w1.store, r);
    MutateFree(w1, DeleteDeployment(Replica(r)));
    ExecOnlySlot(w1.store, DeleteDeployment(Replica(r)), r);
    OnlySlotTransitive(w.store, w1.store, DropReplica(w, r).store, r);
  }

  // ---- Loops ----

  function EnvSoFar(s: Store, p: Plan, n: int): seq<EnvVar> {
    match FirstMissing(s, n)
    case Some(q) => ExtendEnv(p, p.spec.environments, q)
    case None => p.spec.environments
  }

  function CreatedSlot(s: Store, p: Plan, r: int, n: int): Slot {
    var x := At(s, r);
    if 1 <= r <= n && x.dep.None? then
      Exposed(x, p, r).(dep := Some(Instance(p, r, EnvSoFar(s, p, n))),
                        sip := if x.sip.Some? then x.sip else Some(SipConfig(p)))
    else x
  }

  lemma EnvSoFarStep(s: Store, p: Plan, n: int)
    requires n >= 1
    ensures EnvSoFar(s, p, n) == if Has(s, n) then EnvSoFar(s, p, n - 1) else ExtendEnv(p, EnvSoFar(s, p, n - 1), n)
  {
    match FirstMissing(s, n - 1)
    case Some(q) => ExtendEnvOnce(p, p.spec.environments, q, n);
    case None =>
  }

  lemma CreatedSlotStep(s: Store, p: Plan, r: int, n: int)
    requires n >= 1 && r != n
    ensures CreatedSlot(s, p, r, n) == CreatedSlot(s, p, r, n - 1)
  {
    FirstMissingIsLeast(s, n - 1);
    if At(s, r).dep.None? { assert !Has(s, r); }
  }

  lemma {:induction false} CreateUpToFree(w: World, p: Plan, n: int)
    requires w.faults == []
    ensures var c := CreateUpTo(w, p, p.spec.environments, n); var t := c.w;
            && t.faults == [] && SameForeign(w.store, t.store) && SameShared(w.store, t.store)
            && c.envs == EnvSoFar(w.store, p, n)
            && forall r :: At(t.store, r) == CreatedSlot(w.store, p, r, n)
    decreases if n < 0 then 0 else n
  {
    hide CreateReplica, SameForeign, SameShared;
    if n >= 1 {
      CreateUpToFree(w, p, n - 1);
      var b := CreateUpTo(w, p, p.spec.environments, n - 1);
      var c := CreateReplica(b.w, p, b.envs, n);
      CreateReplicaFree(b.w, p, b.envs, n);
      SameForeignTransitive(w.store, b.w.store, c.w.store);
      SameSharedTransitive(w.store, b.w.store, c.w.store);
      assert At(b.w.store, n) == CreatedSlot(w.store, p, n, n - 1) == At(w.store, n);
      assert Has(b.w.store, n) <==> At(b.w.store, n).dep.Some?;
      assert Has(w.store, n) <==> At(w.store, n).dep.Some?;
      EnvSoFarStep(w.store, p, n);
      forall r ensures At(c.w.store, r) == CreatedSlot(w.store, p, r, n) {
        assert At(b.w.store, r) == CreatedSlot(w.store, p, r, n - 1);
        if r != n { CreatedSlotStep(w.store, p, r, n); }
      }
    } else {
      SameRestReflexive(w.store);
    }
  }

  function ScaledSlot(s: Store, n: int, current: int, r: int): Slot {
    if n < r <= current && (current >= 1 ==> r > 1) then Emptied(At(s, r)) else At(s, r)
  }

  lemma {:induction false} ScaleDownFromFree(w: World, n: int, current: int)
    requires w.faults == [] && n <= current
    ensures var t := ScaleDownFrom(w, n, current);
            && t.faults == [] && SameForeign(w.store, t.store) && SameShared(w.store, t.store)
            && forall r :: At(t.store, r) == ScaledSlot(w.store, n, current, r)
    decreases current - n
  {
    hide DropReplica, SameForeign, SameShared;
    if current != n && current != 1 {
      var b := DropReplica(w, current);
      DropReplicaFree(w, current);
      ScaleDownFromFree(b, n, current - 1);
      var t := ScaleDownFrom(w, n, current);
      SameForeignTransitive(w.store, b.store, t.store);
      SameSharedTransitive(w.store, b.store, t.store);
      forall r ensures At(t.store, r) == ScaledSlot(w.store, n, current, r) {
        assert At(t.store, r) == ScaledSlot(b.store, n, current - 1, r);
      }
    } else {
      SameRestReflexive(w.store);
    }
  }

  /** The indices the scale-down loop visits, in the order it visits them. */
  function Visited(n: int, current: int): seq<int>
    requires n <= current
    decreases current - n
  {
    if current == n || current == 1 then [] else [current] + Visited(n, current - 1)
  }

  function DropAll(w: World, indices: seq<int>): World
    decreases |indices|
  {
    if indices == [] then w else DropAll(DropReplica(w, indices[0]), indices[1..])
  }

  /**
   The loop goes down from the status one by one, whatever faults it meets, to the greater of
   the spec and 1; from a status below 1 it goes down to the spec.
   */
  lemma {:induction false} ScaleDownTargets(w: World, n: int, status: int)
    requires n < status
    ensures ScaleDownFrom(w, n, status) == DropAll(w, Visited(n, status))
    ensures |Visited(n, status)| == status - (if status >= 1 then Max(n, 1) else n)
    ensures forall i :: 0 <= i < |Visited(n, status)| ==> Visited(n, status)[i] == status - i
    decreases status - n
  {
    hide DropReplica;
    if status != 1 {
      var rest := Visited(n, status - 1);
      assert Visited(n, status) == [status] + rest && ([status] + rest)[1..] == rest;
      if status - 1 > n {
        ScaleDownTargets(DropReplica(w, status), n, status - 1);
      } else {
        assert rest == [];
      }
    }
  }

  function UpdatedSlot(s: Store, p: Plan, envs: seq<EnvVar>, r: int, n: int): Slot {
    if 1 <= r <= n then Desired(At(s, r), p, r, ExtendEnv(p, envs, 1)) else At(s, r)
  }

  lemma {:induction false} UpdateUpToFree(w: World, p: Plan, envs: seq<EnvVar>, n: int)
    requires w.faults == [] && forall r :: 1 <= r <= n ==> Has(w.store, r)
    ensures var u := UpdateUpTo(w, p, envs, n); var t := u.w;
            && u.ok && t.faults == [] && SameForeign(w.store, t.store) && SameShared(w.store, t.store)
            && u.envs == (if n < 1 then envs else ExtendEnv(p, envs, 1))
            && forall r :: At(t.store, r) == UpdatedSlot(w.store, p, envs, r, n)
    decreases if n < 0 then 0 else n
  {
    hide UpdateReplica, Desired, SameForeign, SameShared;
    if n >= 1 {
      UpdateUpToFree(w, p, envs, n - 1);
      var b := UpdateUpTo(w, p, envs, n - 1);
      assert At(b.w.store, n) == At(w.store, n);
      assert Has(w.store, n) && At(b.w.store, n).dep.Some?;
      UpdateReplicaFree(b.w, p, b.envs, n);
      ExtendEnvOnce(p, envs, 1, n);
      var u := UpdateUpTo(w, p, envs, n);
      SameForeignTransitive(w.store, b.w.store, u.w.store);
      SameSharedTransitive(w.store, b.w.store, u.w.store);
      forall r ensures At(u.w.store, r) == UpdatedSlot(w.store, p, envs, r, n) {
        assert At(b.w.store, r) == UpdatedSlot(w.store, p, envs, r, n - 1);
      }
    } else {
      SameRestReflexive(w.store);
    }
  }

  // ---- The whole reconcile ----

  /** Only the two shared ConfigMaps differ. */
  ghost predicate OnlyShared(s: Store, t: Store) {
    (forall r :: At(t, r) == At(s, r)) && SameForeign(s, t)
  }

  lemma OnlySharedTransitive(s: Store, t: Store, u: Store)
    requires OnlyShared(s, t) && OnlyShared(t, u)
    ensures OnlyShared(s, u)
  {
    forall r ensures At(u, r) == At(s, r) { assert At(t, r) == At(s, r); }
  }

  lemma PutSharedOnly(s: Store, n: Name, m: ConfigMap)
    requires n in {ShutdownMap, LoggingMap}
    ensures OnlyShared(s, s.(configMaps := s.configMaps[n := m]))
    ensures OnlyShared(s, s)
  {
  }

  lemma CreateSharedFree(w: World, n: Name, m: ConfigMap)
    requires w.faults == [] && n in {ShutdownMap, LoggingMap}
    ensures var t := Mutate(w, CreateConfigMap(n, m)).w;
            t.faults == [] && OnlyShared(w.store, t.store) && t.store.deployments == w.store.deployments
  {
    hide Mutate, OnlyShared;
    MutateFree(w, CreateConfigMap(n, m));
    PutSharedOnly(w.store, n, m);
  }

  lemma CreateConfigMapsFree(w: World, envs: seq<EnvVar>)
    requires w.faults == []
    ensures var t := CreateConfigMaps(w, envs);
            t.faults == [] && OnlyShared(w.store, t.store)
            && t.store.deployments == w.store.deployments
  {
    hide Mutate, OnlyShared, LoggingConfig;
    var w1 := Mutate(w, CreateConfigMap(ShutdownMap, ShutdownConfig())).w;
    CreateSharedFree(w, ShutdownMap, ShutdownConfig());
    CreateSharedFree(w1, LoggingMap, LoggingConfig(envs));
    OnlySharedTransitive(w.store, w1.store, CreateConfigMaps(w, envs).store);
  }

  lemma PutConfigMapFree(w: World, n: Name, m: ConfigMap)
    requires w.faults == []
    ensures PutConfigMap(w, n, m).faults == []
    ensures PutConfigMap(w, n, m).store == w.store.(configMaps := w.store.configMaps[n := m])
  {
  }

  lemma PutConfigMapsFree(w: World, envs: seq<EnvVar>)
    requires w.faults == []
    ensures var t := PutConfigMaps(w, envs);
            && t.faults == [] && OnlyShared(w.store, t.store)
            && Find(t.store.configMaps, ShutdownMap) == Some(ShutdownConfig())
            && Find(t.store.configMaps, LoggingMap) == Some(LoggingConfig(envs))
  {
    var w1 := PutConfigMap(w, ShutdownMap, ShutdownConfig());
    PutConfigMapFree(w, ShutdownMap, ShutdownConfig());
    PutConfigMapFree(w1, LoggingMap, LoggingConfig(envs));
    PutSharedOnly(w.store, ShutdownMap, ShutdownConfig());
    PutSharedOnly(w1.store, LoggingMap, LoggingConfig(envs));
    OnlySharedTransitive(w.store, w1.store, PutConfigMaps(w, envs).store);
  }

  lemma {:induction false} FirstMissingSame(s: Store, t: Store, n: int)
    requires s.deployments == t.deployments
    ensures FirstMissing(s, n) == FirstMissing(t, n)
    decreases if n < 0 then 0 else n
  {
    if n >= 1 { FirstMissingSame(s, t, n - 1); }
  }

  lemma CreateFree(w: World, p: Plan)
    requires w.faults == []
    ensures var c := Create(w, p, p.spec.environments); var n := p.spec.replicas;
            && c.w.faults == [] && SameForeign(w.store, c.w.store)
            && c.envs == EnvSoFar(w.store, p, n)
            && forall r :: At(c.w.store, r) == CreatedSlot(w.store, p, r, n)
  {
    var w1 := CreateConfigMaps(w, p.spec.environments);
    CreateConfigMapsFree(w, p.spec.environments);
    FirstMissingSame(w.store, w1.store, p.spec.replicas);
    CreateUpToFree(w1, p, p.spec.replicas);
    var c := Create(w, p, p.spec.environments);
    forall r ensures At(c.w.store, r) == CreatedSlot(w.store, p, r, p.spec.replicas) {
      assert At(c.w.store, r) == CreatedSlot(w1.store, p, r, p.spec.replicas);
      assert At(w1.store, r) == At(w.store, r);
    }
  }

  lemma ScaleDownFree(w: World, p: Plan)
    requires w.faults == []
    ensures var t := ScaleDown(w, p);
            && t.faults == [] && SameForeign(w.store, t.store)
            && forall r :: At(t.store, r) == if Doomed(p, r) then Emptied(At(w.store, r)) else At(w.store, r)
  {
    if p.status > p.spec.replicas { ScaleDownFromFree(w, p.spec.replicas, p.status); }
  }

  /** The list `Create` ends with, extended for replica 1, is the list every replica gets. */
  lemma FinalEnvReached(s: Store, p: Plan)
    ensures ExtendEnv(p, EnvSoFar(s, p, p.spec.replicas), 1) == FinalEnv(s, p)
  {
    match FirstMissing(s, p.spec.replicas)
    case Some(q) => ExtendEnvOnce(p, p.spec.environments, q, 1);
    case None =>
  }

  lemma EnvSoFarLogging(s: Store, p: Plan)
    ensures LoggingConfig(EnvSoFar(s, p, p.spec.replicas)) == LoggingConfig(p.spec.environments)
  {
    match FirstMissing(s, p.spec.replicas)
    case Some(q) => LoggingUnaffected(p, p.spec.environments, q);
    case None =>
  }

  /** The slot a replica has when the update loop starts. */
  function ReadySlot(s: Store, p: Plan, r: int): Slot {
    if Doomed(p, r) then Emptied(At(s, r)) else CreatedSlot(s, p, r, p.spec.replicas)
  }

  function Prepared(w: World, p: Plan): World {
    var c := Create(w, p, p.spec.environments);
    PutConfigMaps(ScaleDown(c.w, p), c.envs)
  }

  lemma PreparedFree(w: World, p: Plan)
    requires w.faults == []
    ensures var t := Prepared(w, p);
            && t.faults == [] && SameForeign(w.store, t.store)
            && (forall r :: At(t.store, r) == ReadySlot(w.store, p, r))
            && Find(t.store.configMaps, ShutdownMap) == Some(ShutdownConfig())
            && Find(t.store.configMaps, LoggingMap) == Some(LoggingConfig(p.spec.environments))
  {
    var c := Create(w, p, p.spec.environments);
    CreateFree(w, p);
    EnvSoFarLogging(w.store, p);
    var w2 := ScaleDown(c.w, p);
    ScaleDownFree(c.w, p);
    PutConfigMapsFree(w2, c.envs);
    var t := Prepared(w, p);
    forall r ensures At(t.store, r) == ReadySlot(w.store, p, r) {
      assert At(t.store, r) == At(w2.store, r);
      assert At(c.w.store, r) == CreatedSlot(w.store, p, r, p.spec.replicas);
    }
    SameForeignTransitive(w.store, c.w.store, w2.store);
    SameForeignTransitive(w.store, w2.store, t.store);
  }

  lemma ReadyThenUpdated(s: Store, p: Plan, ready: Store, r: int)
    requires At(ready, r) == ReadySlot(s, p, r)
    ensures UpdatedSlot(ready, p, EnvSoFar(s, p, p.spec.replicas), r, p.spec.replicas) == ConvergedSlot(s, p, r)
  {
    hide ExtendEnv, PodFor, EnvSoFar, FinalEnv;
    FinalEnvReached(s, p);
  }

  /** A fault-free reconcile runs to the end and leaves exactly the intended store. */
  lemma ChildrenFree(w: World, p: Plan)
    requires w.faults == []
    ensures var c := Children(w, p);
            c.ok && c.w.faults == [] && Converged(w.store, p, c.w.store)
  {
    hide CreateUpTo, UpdateUpTo, ScaleDown, PutConfigMaps, CreateConfigMaps, UpdatedSlot, ConvergedSlot, SameForeign;
    var s, n := w.store, p.spec.replicas;
    var envs := Create(w, p, p.spec.environments).envs;
    CreateFree(w, p);
    var ready := Prepared(w, p);
    PreparedFree(w, p);
    forall r | 1 <= r <= n ensures Has(ready.store, r) {
      assert At(ready.store, r) == ReadySlot(s, p, r);
      assert At(ready.store, r).dep.Some?;
    }
    UpdateUpToFree(ready, p, envs, n);
    var u := UpdateUpTo(ready, p, envs, n);
    assert u == Children(w, p);
    forall r ensures At(u.w.store, r) == ConvergedSlot(s, p, r) {
      assert At(u.w.store, r) == UpdatedSlot(ready.store, p, envs, r, n);
      ReadyThenUpdated(s, p, ready.store, r);
    }
    SameForeignTransitive(s, ready.store, u.w.store);
  }
}
