/**
 Which lost requests break the prefix property: the exact condition for a first reconcile under
 any faults, at every API call.
 */
module BrokenPrefix {
  import opened Basics
  import opened Naming
  import opened Resources
  import opened Api
  import opened Program
  import opened Environment
  import opened FaultFree
  import opened Footprint
  import opened Recovery
  import opened Lifecycle

  ghost predicate IsPrefix(s: Store) {
    exists k :: Interval(s, k)
  }

  // ---- The create loop ----

  /** The world after `n` turns of the create loop. */
  function Turns(w: World, p: Plan, n: int): World {
    CreateUpTo(w, p, p.spec.environments, n).w
  }

  /** The world in which a turn that has found nothing comes to create the Deployment. */
  function BeforeCreate(b: World, p: Plan, r: int): World {
    Mutate(EnsureService(Spent(b), p, r).w, CreateConfigMap(SipOf(r), SipConfig(p))).w
  }

  /** The read of the replica is answered, and the creation of its Deployment arrives. */
  predicate GoesThrough(b: World, p: Plan, r: int) {
    NextFault(b) in {Clean, Stale} && NextFault(BeforeCreate(b, p, r)) != Dropped
  }

  predicate ComesUp(w: World, p: Plan, r: int) {
    GoesThrough(Turns(w, p, r - 1), p, r)
  }

  /** No replica comes up above one that does not. */
  ghost predicate InOrder(w: World, p: Plan, n: int) {
    forall q, r :: 1 <= q < r <= n && ComesUp(w, p, r) ==> ComesUp(w, p, q)
  }

  lemma CreateDeploymentEffect(w: World, r: int, d: Deployment)
    requires !Has(w.store, r)
    ensures var t := Mutate(w, CreateDeployment(Replica(r), d)).w.store;
            && (Has(t, r) <==> NextFault(w) != Dropped)
            && forall q :: q != r ==> (Has(t, q) <==> Has(w.store, q))
  {
  }

  lemma SipEffect(w: World, r: int, m: ConfigMap)
    ensures Mutate(w, CreateConfigMap(SipOf(r), m)).w.store.deployments == w.store.deployments
  {
  }

  /** One turn brings up its replica exactly if it goes through, and touches no other. */
  lemma TurnEffect(b: World, p: Plan, envs: seq<EnvVar>, r: int)
    requires !Has(b.store, r) && Wanted(p, r)
    ensures var t := CreateReplica(b, p, envs, r).w.store;
            && (Has(t, r) <==> GoesThrough(b, p, r))
            && forall q :: q != r ==> (Has(t, q) <==> Has(b.store, q))
  {
    hide Mutate, EnsureService, ExtendEnv, SipConfig, Instance, Continues;
    EnsureServiceFootprint(Spent(b), p, false, r);
    var w1 := EnsureService(Spent(b), p, r).w;
    SipEffect(w1, r, SipConfig(p));
    var envs' := ExtendEnv(p, envs, r);
    CreateDeploymentEffect(BeforeCreate(b, p, r), r, Instance(p, r, envs'));
    var got, f := Look(b, false), NextFault(b);
    assert f.Clean? || f.Stale? || f.Dropped? || f.Lost?;
    assert got.w == Spent(b) && (got.err == NotFound <==> NextFault(b) in {Clean, Stale});
    if got.err == NotFound {
      assert CreateReplica(b, p, envs, r).w ==
             Mutate(BeforeCreate(b, p, r), CreateDeployment(Replica(r), Instance(p, r, envs'))).w;
    }
  }

  lemma {:induction false} CreatedIff(w: World, p: Plan, n: int)
    requires Interval(w.store, 0) && n <= p.spec.replicas
    ensures forall r :: Has(Turns(w, p, n).store, r) <==> 1 <= r <= n && ComesUp(w, p, r)
    decreases if n < 0 then 0 else n
  {
    hide CreateReplica, GoesThrough;
    if n >= 1 {
      CreatedIff(w, p, n - 1);
      var b := CreateUpTo(w, p, p.spec.environments, n - 1);
      assert Turns(w, p, n - 1) == b.w;
      assert !Has(b.w.store, n);
      TurnEffect(b.w, p, b.envs, n);
      assert Turns(w, p, n) == CreateReplica(b.w, p, b.envs, n).w;
    }
  }

  /** The greatest index that comes up. */
  function Height(w: World, p: Plan, n: int): int
    decreases if n < 0 then 0 else n
  {
    if n < 1 then 0 else if ComesUp(w, p, n) then n else Height(w, p, n - 1)
  }

  lemma {:induction false} HeightIsGreatest(w: World, p: Plan, n: int)
    ensures var h := Height(w, p, n);
            && 0 <= h && (n >= 0 ==> h <= n) && (h > 0 ==> ComesUp(w, p, h))
            && forall r :: h < r <= n ==> !ComesUp(w, p, r)
    decreases if n < 0 then 0 else n
  {
    hide ComesUp;
    if n >= 1 { HeightIsGreatest(w, p, n - 1); }
  }

  /** After its turns the create loop has made an interval exactly if the replicas came up in order. */
  lemma PrefixAfterTurnsIff(w: World, p: Plan, n: int)
    requires Interval(w.store, 0) && n <= p.spec.replicas
    ensures IsPrefix(Turns(w, p, n).store) <==> InOrder(w, p, n)
  {
    hide ComesUp, Turns, Has;
    CreatedIff(w, p, n);
    var t := Turns(w, p, n).store;
    if InOrder(w, p, n) {
      HeightIsGreatest(w, p, n);
      if n < 1 { assert Height(w, p, n) == 0; }
      forall r ensures Has(t, r) <==> 1 <= r <= Height(w, p, n) {
        if 1 <= r < Height(w, p, n) { assert ComesUp(w, p, r); }
      }
      assert Interval(t, Height(w, p, n));
    } else {
      var q, r :| 1 <= q < r <= n && ComesUp(w, p, r) && !ComesUp(w, p, q);
      assert Has(t, r) && !Has(t, q);
    }
  }

  // ---- Every API call ----

  ghost predicate SameReplicas(s: Store, t: Store) {
    forall r :: Has(t, r) <==> Has(s, r)
  }

  /** No request between the two worlds makes or removes a replica. */
  ghost predicate Still(a: World, b: World) {
    Extends(a, b) && forall k: nat :: |a.steps| <= k <= |b.steps| ==> SameReplicas(a.store, StoreAt(b, k))
  }

  /** At every request between the two worlds the replicas are an interval. */
  ghost predicate PrefixAlong(a: World, b: World) {
    Extends(a, b) && forall k: nat :: |a.steps| <= k <= |b.steps| ==> IsPrefix(StoreAt(b, k))
  }

  lemma ExtendsTransitive(a: World, b: World, c: World)
    requires Extends(a, b) && Extends(b, c)
    ensures Extends(a, c)
  {
    assert c.steps[..|a.steps|] == b.steps[..|a.steps|];
    ExtendsStoreAt(b, c, |a.steps|);
  }

  lemma StillTransitive(a: World, b: World, c: World)
    requires Still(a, b) && Still(b, c)
    ensures Still(a, c)
  {
    ExtendsTransitive(a, b, c);
    assert StoreAt(b, |b.steps|) == b.store;
    forall k: nat | |a.steps| <= k <= |c.steps| ensures SameReplicas(a.store, StoreAt(c, k)) {
      if k <= |b.steps| {
        ExtendsStoreAt(b, c, k);
      } else {
        assert SameReplicas(a.store, b.store) && SameReplicas(b.store, StoreAt(c, k));
      }
    }
  }

  lemma StillReflexive(w: World)
    ensures Still(w, w)
  {
  }

  lemma StillStore(a: World, b: World)
    requires Still(a, b)
    ensures SameReplicas(a.store, b.store)
  {
    assert StoreAt(b, |b.steps|) == b.store;
  }

  lemma PrefixTransitive(a: World, b: World, c: World)
    requires PrefixAlong(a, b) && PrefixAlong(b, c)
    ensures PrefixAlong(a, c)
  {
    hide IsPrefix;
    ExtendsTransitive(a, b, c);
    forall k: nat | |a.steps| <= k <= |c.steps| ensures IsPrefix(StoreAt(c, k)) {
      if k <= |b.steps| { ExtendsStoreAt(b, c, k); }
    }
  }

  lemma SamePrefix(s: Store, t: Store)
    requires SameReplicas(s, t) && IsPrefix(s)
    ensures IsPrefix(t)
  {
    var k :| Interval(s, k);
    assert Interval(t, k);
  }

  lemma StillPrefix(a: World, b: World)
    requires Still(a, b) && IsPrefix(a.store)
    ensures PrefixAlong(a, b)
  {
    forall k: nat | |a.steps| <= k <= |b.steps| ensures IsPrefix(StoreAt(b, k)) { SamePrefix(a.store, StoreAt(b, k)); }
  }

  lemma LookStill(w: World, present: bool)
    ensures Still(w, Look(w, present).w) && Look(w, present).w.store == w.store
    ensures Look(w, present).err == Ok ==> present
  {
  }

  /** A request: nothing happens, or one step. */
  lemma MutateExtends(w: World, c: Call)
    ensures var t := Mutate(w, c).w;
            && Extends(w, t) && |t.steps| <= |w.steps| + 1
            && (t.store == w.store || t.store == Exec(w.store, c))
            && forall k: nat :: |w.steps| <= k <= |t.steps| ==> StoreAt(t, k) == w.store || StoreAt(t, k) == t.store
  {
    hide Exec, Verdict;
    var s := Served(Spent(w), c);
    assert s.steps[..|w.steps|] == w.steps && s.steps[|w.steps|] == Step(w.store, c);
  }

  lemma MutateStill(w: World, c: Call)
    requires !c.CreateDeployment? && !c.DeleteDeployment?
    ensures Still(w, Mutate(w, c).w)
  {
    hide Mutate;
    MutateExtends(w, c);
    assert SameReplicas(w.store, Exec(w.store, c)) && SameReplicas(w.store, w.store);
  }

  lemma EnsureServiceStill(w: World, p: Plan, r: int)
    ensures Still(w, EnsureService(w, p, r).w)
  {
    hide Still, Mutate, Look, InstanceService, ExporterService, Refreshed;
    var present := Replica(r) in w.store.services;
    var got := Look(w, present);
    LookStill(w, present);
    var w1 := WithExporter(got.w, p, r);
    if p.spec.exporter.kind == "" {
      MutateStill(got.w, CreateService(ExporterOf(r), ExporterService(p, r)));
    } else {
      StillReflexive(got.w);
    }
    StillTransitive(w, got.w, w1);
    if got.err == NotFound {
      MutateStill(w1, CreateService(Replica(r), InstanceService(p, r)));
    } else if got.err == Ok {
      MutateStill(w1, UpdateService(Replica(r), Refreshed(w.store.services[Replica(r)], p, r)));
    } else {
      RefusedStill(w1);
    }
    StillTransitive(w, w1, EnsureService(w, p, r).w);
  }

  lemma RefusedStill(w: World)
    ensures Still(w, Refused(w).w)
  {
  }

  lemma PutStill(w: World, n: Name, m: ConfigMap)
    ensures Still(w, PutConfigMap(w, n, m))
  {
    hide Still, Mutate;
    var u := Mutate(w, UpdateConfigMap(n, m));
    MutateStill(w, UpdateConfigMap(n, m));
    if u.err == NotFound {
      MutateStill(u.w, CreateConfigMap(n, m));
      StillTransitive(w, u.w, PutConfigMap(w, n, m));
    }
  }

  lemma UpdateReplicaStill(w: World, p: Plan, envs: seq<EnvVar>, r: int)
    ensures Still(w, UpdateReplica(w, p, envs, r).w)
  {
    hide Still, Mutate, Look, PutConfigMap, EnsureService, ExtendEnv, PodFor, SipConfig;
    var w1 := PutConfigMap(w, SipOf(r), SipConfig(p));
    PutStill(w, SipOf(r), SipConfig(p));
    var got := Look(w1, Has(w1.store, r));
    LookStill(w1, Has(w1.store, r));
    StillTransitive(w, w1, got.w);
    if got.err == Ok {
      var w2 := EnsureService(got.w, p, r).w;
      EnsureServiceStill(got.w, p, r);
      StillTransitive(w, got.w, w2);
      var d := w1.store.deployments[Replica(r)].(pod := PodFor(p, r, ExtendEnv(p, envs, r)));
      MutateStill(w2, UpdateDeployment(Replica(r), d));
      StillTransitive(w, w2, UpdateReplica(w, p, envs, r).w);
    }
  }

  lemma {:induction false} UpdateUpToStill(w: World, p: Plan, envs: seq<EnvVar>, n: int)
    ensures Still(w, UpdateUpTo(w, p, envs, n).w)
    decreases if n < 0 then 0 else n
  {
    hide Still, UpdateReplica;
    if n >= 1 {
      UpdateUpToStill(w, p, envs, n - 1);
      var u := UpdateUpTo(w, p, envs, n - 1);
      if u.ok {
        UpdateReplicaStill(u.w, p, u.envs, n);
        StillTransitive(w, u.w, UpdateUpTo(w, p, envs, n).w);
      }
    } else {
      StillReflexive(w);
    }
  }

  lemma DropServiceStill(w: World, r: int)
    ensures Still(w, DropService(w, r).w)
  {
    hide Still, Mutate, Look;
    var present := Replica(r) in w.store.services;
    var got := Look(w, present);
    LookStill(w, present);
    if got.err == Ok {
      var del := Mutate(got.w, DeleteService(Replica(r)));
      MutateStill(got.w, DeleteService(Replica(r)));
      StillTransitive(w, got.w, del.w);
      if del.err == Ok {
        var left := ExporterOf(r) in del.w.store.services;
        var exp := Look(del.w, left);
        LookStill(del.w, left);
        StillTransitive(w, del.w, exp.w);
        if exp.err == Ok {
          MutateStill(exp.w, DeleteService(ExporterOf(r)));
          StillTransitive(w, exp.w, DropService(w, r).w);
        }
      }
    }
  }

  /** Dropping a replica that is not there. */
  lemma DropReplicaStill(w: World, r: int)
    requires !Has(w.store, r)
    ensures Still(w, DropReplica(w, r))
  {
    hide Still, Look, DropService, SameReplicas;
    var w1 := DropService(w, r).w;
    DropServiceStill(w, r);
    StillStore(w, w1);
    assert Has(w1.store, r) <==> Has(w.store, r) by { SameReplica(w.store, w1.store, r); }
    LookStill(w1, Has(w1.store, r));
    StillTransitive(w, w1, Look(w1, false).w);
  }

  lemma SameReplica(s: Store, t: Store, r: int)
    requires SameReplicas(s, t)
    ensures Has(t, r) <==> Has(s, r)
  {
  }

  lemma {:induction false} ScaleDownFromStill(w: World, n: int, current: int)
    requires n <= current && NoneAbove(w.store, n)
    ensures Still(w, ScaleDownFrom(w, n, current))
    decreases current - n
  {
    hide Still, DropReplica, Has;
    if current != n && current != 1 {
      var b := DropReplica(w, current);
      DropReplicaStill(w, current);
      StillStore(w, b);
      ScaleDownFromStill(b, n, current - 1);
      StillTransitive(w, b, ScaleDownFrom(b, n, current - 1));
    } else {
      StillReflexive(w);
    }
  }

  lemma CreateConfigMapsStill(w: World, envs: seq<EnvVar>)
    ensures Still(w, CreateConfigMaps(w, envs))
  {
    hide Still, Mutate;
    var shutdown := CreateConfigMap(ShutdownMap, ShutdownConfig());
    var logging := CreateConfigMap(LoggingMap, LoggingConfig(envs));
    var w1 := Mutate(w, shutdown).w;
    MutateStill(w, shutdown);
    MutateStill(w1, logging);
    StillTransitive(w, w1, Mutate(w1, logging).w);
  }

  /** `Update`, in a store without replicas above the spec. */
  lemma UpdateStill(w: World, p: Plan, envs: seq<EnvVar>)
    requires NoneAbove(w.store, p.spec.replicas)
    ensures Still(w, UpdateChildren(w, p, envs).w)
  {
    hide Still, PutConfigMap, UpdateUpTo, ScaleDownFrom;
    var w1 := ScaleDown(w, p);
    if p.status > p.spec.replicas { ScaleDownFromStill(w, p.spec.replicas, p.status); } else { StillReflexive(w); }
    var w2 := PutConfigMap(w1, ShutdownMap, ShutdownConfig());
    PutStill(w1, ShutdownMap, ShutdownConfig());
    StillTransitive(w, w1, w2);
    var w3 := PutConfigMap(w2, LoggingMap, LoggingConfig(envs));
    PutStill(w2, LoggingMap, LoggingConfig(envs));
    StillTransitive(w, w2, w3);
    UpdateUpToStill(w3, p, envs, p.spec.replicas);
    StillTransitive(w, w3, UpdateUpTo(w3, p, envs, p.spec.replicas).w);
  }

  /** A turn of the create loop between two intervals. */
  lemma TurnAlong(b: World, p: Plan, envs: seq<EnvVar>, r: int)
    requires IsPrefix(b.store) && IsPrefix(CreateReplica(b, p, envs, r).w.store)
    ensures PrefixAlong(b, CreateReplica(b, p, envs, r).w)
  {
    hide Still, Mutate, Look, EnsureService, ExtendEnv, SipConfig, Instance, IsPrefix, PrefixAlong, Exec;
    var got := Look(b, Has(b.store, r));
    LookStill(b, Has(b.store, r));
    StillPrefix(b, got.w);
    if got.err == NotFound {
      var w1 := EnsureService(got.w, p, r).w;
      EnsureServiceStill(got.w, p, r);
      var sip := CreateConfigMap(SipOf(r), SipConfig(p));
      var w2 := Mutate(w1, sip).w;
      MutateStill(w1, sip);
      StillTransitive(got.w, w1, w2);
      StillTransitive(b, got.w, w2);
      StillPrefix(b, w2);
      StillStore(b, w2);
      SamePrefix(b.store, w2.store);
      LastAlong(w2, CreateDeployment(Replica(r), Instance(p, r, ExtendEnv(p, envs, r))));
      PrefixTransitive(b, w2, CreateReplica(b, p, envs, r).w);
    }
  }

  lemma LastAlong(w: World, c: Call)
    requires IsPrefix(w.store) && IsPrefix(Mutate(w, c).w.store)
    ensures PrefixAlong(w, Mutate(w, c).w)
  {
    hide Mutate, IsPrefix;
    MutateExtends(w, c);
  }

  lemma {:induction false} CreateAlong(w: World, p: Plan, n: int)
    requires Interval(w.store, 0) && n <= p.spec.replicas && InOrder(w, p, n)
    ensures PrefixAlong(w, Turns(w, p, n))
    decreases if n < 0 then 0 else n
  {
    hide IsPrefix, PrefixAlong, CreateReplica, ComesUp;
    PrefixAfterTurnsIff(w, p, n);
    if n >= 1 {
      PrefixAfterTurnsIff(w, p, n - 1);
      CreateAlong(w, p, n - 1);
      var b := CreateUpTo(w, p, p.spec.environments, n - 1);
      TurnAlong(b.w, p, b.envs, n);
      PrefixTransitive(w, b.w, Turns(w, p, n));
    } else {
      StillReflexive(w);
      EmptyIsPrefix(w.store);
      StillPrefix(w, w);
    }
  }

  lemma EmptyIsPrefix(s: Store)
    requires Interval(s, 0)
    ensures IsPrefix(s)
  {
  }

  ghost predicate NoneAbove(s: Store, n: int) {
    forall r :: Has(s, r) ==> r <= n
  }

  lemma AfterCreate(w: World, p: Plan)
    requires Interval(w.store, 0)
    ensures NoneAbove(Turns(w, p, p.spec.replicas).store, p.spec.replicas)
  {
    hide Turns, ComesUp;
    CreatedIff(w, p, p.spec.replicas);
  }

  /** Where a first reconcile starts to create replicas. */
  function CreateStart(s: Store, p: Plan, faults: seq<Fault>): World {
    CreateConfigMaps(Fresh(s, faults), p.spec.environments)
  }

  lemma StartIsEmpty(s: Store, p: Plan, faults: seq<Fault>)
    requires Interval(s, 0)
    ensures Interval(CreateStart(s, p, faults).store, 0) && Still(Fresh(s, faults), CreateStart(s, p, faults))
  {
    hide CreateConfigMaps;
    CreateConfigMapsStill(Fresh(s, faults), p.spec.environments);
    StillStore(Fresh(s, faults), CreateStart(s, p, faults));
  }

  lemma InOrderAlong(s: Store, p: Plan, faults: seq<Fault>)
    requires Interval(s, 0) && InOrder(CreateStart(s, p, faults), p, p.spec.replicas)
    ensures PrefixAlong(Fresh(s, faults), Children(Fresh(s, faults), p).w)
  {
    hide CreateConfigMaps, PrefixAlong, IsPrefix, Still, InOrder, UpdateChildren, CreateUpTo;
    var w0, w1 := Fresh(s, faults), CreateStart(s, p, faults);
    StartIsEmpty(s, p, faults);
    EmptyIsPrefix(s);
    StillPrefix(w0, w1);
    CreateAlong(w1, p, p.spec.replicas);
    var c := CreateUpTo(w1, p, p.spec.environments, p.spec.replicas);
    PrefixTransitive(w0, w1, c.w);
    AfterCreate(w1, p);
    UpdateStill(c.w, p, c.envs);
    PrefixAfterTurnsIff(w1, p, p.spec.replicas);
    StillPrefix(c.w, UpdateChildren(c.w, p, c.envs).w);
    PrefixTransitive(w0, c.w, UpdateChildren(c.w, p, c.envs).w);
  }

  /**
   From a store without replicas, whatever faults strike the reconcile, the replicas are 1..k for
   some k at every API call if and only if they come up in order: none comes up above one whose
   read fails or whose creation is dropped. No other lost request matters.
   */
  lemma PrefixUnderFaultsIff(s: Store, p: Plan, faults: seq<Fault>)
    requires Interval(s, 0)
    ensures (forall cut: nat :: IsPrefix(Partial(s, p, Attempt(faults, cut))))
            <==> InOrder(CreateStart(s, p, faults), p, p.spec.replicas)
  {
    hide Children, CreateConfigMaps, CreateUpTo, IsPrefix, InOrder, UpdateChildren, Continues;
    var w0, w1, n := Fresh(s, faults), CreateStart(s, p, faults), p.spec.replicas;
    var w := Children(w0, p).w;
    StartIsEmpty(s, p, faults);
    if InOrder(w1, p, n) {
      InOrderAlong(s, p, faults);
      forall cut: nat ensures IsPrefix(Partial(s, p, Attempt(faults, cut))) {
        var k := if cut < |w.steps| then cut else |w.steps|;
        assert IsPrefix(StoreAt(w, k));
      }
    } else {
      PrefixAfterTurnsIff(w1, p, n);
      var c := CreateUpTo(w1, p, p.spec.environments, n);
      CreateUpToFootprint(w1, p, false, n);
      UpdateFootprint(c.w, p, false, c.envs);
      ChildrenSplit(w0, p);
      ContinuesStoreAt(p, c.w, w);
      assert Partial(s, p, Attempt(faults, |c.w.steps|)) == c.w.store;
    }
  }

  // ---- A witness ----

  lemma {:induction false} CreateGoesOn(w: World, p: Plan, m: int, n: int)
    requires m <= n <= p.spec.replicas
    ensures Continues(p, false, CreateUpTo(w, p, p.spec.environments, m).w, CreateUpTo(w, p, p.spec.environments, n).w)
    decreases n - m
  {
    hide CreateReplica, Continues, EnvState;
    var b := CreateUpTo(w, p, p.spec.environments, m);
    if m == n {
      ContinuesReflexive(p, false, b.w);
    } else {
      CreateGoesOn(w, p, m, n - 1);
      var c := CreateUpTo(w, p, p.spec.environments, n - 1);
      CreateUpToFootprint(w, p, false, n - 1);
      if n >= 1 {
        CreateReplicaFootprint(c.w, p, false, c.envs, n);
        ContinuesTransitive(p, false, b.w, c.w, CreateUpTo(w, p, p.spec.environments, n).w);
      }
    }
  }

  /** The first three requests of a reconcile: the shared ConfigMaps, and a read of replica 1 that is lost. */
  const LOST_READ := [Clean, Clean, Dropped]

  lemma LostReadSkipsFirst(s: Store, p: Plan)
    requires p.spec.replicas >= 2 && !Has(s, 1) && !Has(s, 2)
    ensures var c := CreateUpTo(CreateConfigMaps(Fresh(s, LOST_READ), p.spec.environments), p, p.spec.environments, 2);
            Has(c.w.store, 2) && !Has(c.w.store, 1)
  {
    hide EnsureService, ExtendEnv;
    var envs := p.spec.environments;
    var w0 := Fresh(s, LOST_READ);
    var w1 := CreateConfigMaps(w0, envs);
    assert LOST_READ[1..] == [Clean, Dropped] && [Clean, Dropped][1..] == [Dropped];
    assert w1.faults == [Dropped] && w1.store.deployments == s.deployments;
    var c0 := CreateUpTo(w1, p, envs, 0);
    assert c0 == Run(w1, envs, true);
    var c1 := CreateReplica(w1, p, envs, 1);
    assert c1.w == w1.(faults := []) && c1.envs == envs by { assert [Dropped][1..] == []; }
    assert CreateUpTo(w1, p, envs, 1) == c1;
    var c2 := CreateReplica(c1.w, p, envs, 2);
    GentleCreateReplica(c1.w, p, envs, 2);
    CreateReplicaFootprint(c1.w, p, false, envs, 2);
    CreateReplicaFree(c1.w, p, envs, 2);
    assert At(c2.w.store, 1) == At(c1.w.store, 1);
    assert At(c2.w.store, 1).dep == None;
  }

  /**
   A witness: one lost read makes the first reconcile of two or more replicas skip the first one,
   and somewhere along it replica 2 exists without replica 1.
   */
  lemma LostReadBreaksPrefix(s: Store, p: Plan) returns (cut: nat)
    requires Interval(s, 0) && p.spec.replicas >= 2
    ensures var t := Partial(s, p, Attempt(LOST_READ, cut)); Has(t, 2) && !Has(t, 1)
    ensures !InStep(Partial(s, p, Attempt(LOST_READ, cut)), p)
  {
    hide Children, CreateUpTo, UpdateChildren, CreateConfigMaps, Continues;
    var w0, n := Fresh(s, LOST_READ), p.spec.replicas;
    var w1 := CreateConfigMaps(w0, p.spec.environments);
    LostReadSkipsFirst(s, p);
    var c := CreateUpTo(w1, p, p.spec.environments, 2);
    CreateGoesOn(w1, p, 2, n);
    var all := CreateUpTo(w1, p, p.spec.environments, n);
    CreateUpToFootprint(w1, p, false, n);
    UpdateFootprint(all.w, p, false, all.envs);
    ChildrenSplit(w0, p);
    var w := Children(w0, p).w;
    ContinuesTransitive(p, false, c.w, all.w, w);
    cut := |c.w.steps|;
    ContinuesStoreAt(p, c.w, w);
    assert !(exists k :: Interval(Partial(s, p, Attempt(LOST_READ, cut)), k));
  }
}
