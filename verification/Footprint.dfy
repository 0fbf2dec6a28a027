/**
 The requests a reconcile of a live object may issue, whatever faults strike it: `Legit` says
 which, and `ChildrenFootprint` shows that every request that takes effect is one of them.
 */
module Footprint {
  import opened Basics
  import opened Naming
  import opened Resources
  import opened Api
  import opened Program
  import opened Environment

  ghost predicate Legit(p: Plan, s: Store, c: Call) {
    match c
    case CreateDeployment(n, d) =>
      n.Replica? && Wanted(p, n.index) && EnvOf(p, d.pod.env) && d == Instance(p, n.index, d.pod.env)
    case UpdateDeployment(n, d) =>
      n.Replica? && Wanted(p, n.index) && n in s.deployments && EnvOf(p, d.pod.env)
      && d == s.deployments[n].(pod := PodFor(p, n.index, d.pod.env))
    case DeleteDeployment(n) => n.Replica? && Doomed(p, n.index)
    case CreateService(n, v) =>
      || (n.Replica? && Wanted(p, n.index) && v == InstanceService(p, n.index))
      || (n.ExporterOf? && Wanted(p, n.index) && p.spec.exporter.kind == "" && v == ExporterService(p, n.index))
    case UpdateService(n, v) =>
      n.Replica? && Wanted(p, n.index) && n in s.services && v == Refreshed(s.services[n], p, n.index)
    case DeleteService(n) =>
      (n.Replica? || n.ExporterOf?) && Doomed(p, n.index) && (n.ExporterOf? ==> Replica(n.index) !in s.services)
    case CreateConfigMap(n, m) => LegitConfigMap(p, n, m)
    case UpdateConfigMap(n, m) => LegitConfigMap(p, n, m)
    case DeleteConfigMap(_) => false
  }

  predicate LegitConfigMap(p: Plan, n: Name, m: ConfigMap) {
    || (n.ShutdownMap? && m == ShutdownConfig())
    || (n.LoggingMap? && m == LoggingConfig(p.spec.environments))
    || (n.SipOf? && Wanted(p, n.index) && m == SipConfig(p))
  }

  predicate SharedThere(s: Store) {
    ShutdownMap in s.configMaps && LoggingMap in s.configMaps
  }

  /** Everything a pod of the replica mounts, and its Service, is there. */
  predicate Equipped(s: Store, r: int) {
    SharedThere(s) && SipOf(r) in s.configMaps && Replica(r) in s.services
  }

  /** Replicas come up in ascending order, each with its equipment in place, and go away in descending order. */
  ghost predicate Orderly(p: Plan, s: Store, c: Call) {
    match c
    case CreateDeployment(n, _) => n.Replica? ==> Equipped(s, n.index) && (n.index > 1 ==> Has(s, n.index - 1))
    case DeleteDeployment(n) => n.Replica? ==> forall q :: n.index < q <= p.status ==> !Has(s, q)
    case _ => true
  }

  ghost predicate LegitStep(p: Plan, calm: bool, step: Step, after: Store) {
    && Legit(p, step.found, step.call)
    && (calm ==> Orderly(p, step.found, step.call))
    && after == Exec(step.found, step.call)
  }

  /** The log of `b` starts with the log of `a`. */
  ghost predicate Extends(a: World, b: World) {
    |a.steps| <= |b.steps| && b.steps[..|a.steps|] == a.steps && StoreAt(b, |a.steps|) == a.store
  }

  /** The requests logged between `a` and `b`, with the stores they lead to, all obey a rule. */
  ghost predicate Obeys(rule: (Step, Store) -> bool, a: World, b: World) {
    forall k {:trigger b.steps[k]} :: |a.steps| <= k < |b.steps| ==> rule(b.steps[k], StoreAt(b, k + 1))
  }

  lemma ExtendsStoreAt(a: World, b: World, k: nat)
    requires Extends(a, b) && k <= |a.steps|
    ensures StoreAt(b, k) == StoreAt(a, k)
    ensures k < |a.steps| ==> b.steps[k] == a.steps[k]
  {
    if k < |a.steps| { assert b.steps[k] == b.steps[..|a.steps|][k]; }
  }

  lemma ObeysTransitive(rule: (Step, Store) -> bool, a: World, b: World, c: World)
    requires Extends(a, b) && Extends(b, c)
    requires Obeys(rule, a, b) && Obeys(rule, b, c)
    ensures Extends(a, c) && Obeys(rule, a, c)
  {
    assert c.steps[..|a.steps|] == b.steps[..|a.steps|];
    ExtendsStoreAt(b, c, |a.steps|);
    forall k | |a.steps| <= k < |c.steps| ensures rule(c.steps[k], StoreAt(c, k + 1)) {
      if k < |b.steps| {
        ExtendsStoreAt(b, c, k);
        ExtendsStoreAt(b, c, k + 1);
      }
    }
  }

  ghost function StepRule(p: Plan, calm: bool): (Step, Store) -> bool {
    (step, after) => LegitStep(p, calm, step, after)
  }

  lemma {:induction false} InvariantHolds(rule: (Step, Store) -> bool, inv: Store -> bool, a: World, b: World, k: nat)
    requires Extends(a, b) && Obeys(rule, a, b)
    requires |a.steps| <= k <= |b.steps|
    requires inv(a.store)
    requires forall step: Step, t: Store {:trigger rule(step, t)} :: rule(step, t) && inv(step.found) ==> inv(t)
    ensures inv(StoreAt(b, k))
    decreases k
  {
    if k > |a.steps| {
      InvariantHolds(rule, inv, a, b, k - 1);
      assert rule(b.steps[k - 1], StoreAt(b, k));
    }
  }

  // ---- Runs that meet version conflicts only ----

  predicate Mild(faults: seq<Fault>) {
    forall f :: f in faults ==> f == Clean || f == Stale
  }

  /** Nothing but conflicts is to come. */
  predicate Gentle(w: World) {
    Mild(w.faults)
  }

  lemma GentleSpent(w: World)
    requires Gentle(w)
    ensures NextFault(w) in {Clean, Stale} && Gentle(Spent(w))
  {
    if w.faults != [] {
      assert w.faults[0] in w.faults;
      assert forall f :: f in w.faults[1..] ==> f in w.faults;
    }
  }

  /** Conflicts strike updates; everything else is served and answered as usual. */
  lemma GentleReplies(w: World, present: bool, c: Call)
    requires Gentle(w)
    ensures Look(w, present).err == if present then Ok else NotFound
    ensures !c.IsUpdate() ==> Mutate(w, c).w.store == Exec(w.store, c)
  {
    GentleSpent(w);
  }

  /** `k` requests go well, the next one is struck. */
  function Delayed(k: nat, f: Fault): seq<Fault> {
    if k == 0 then [f] else [Clean] + Delayed(k - 1, f)
  }

  lemma {:induction false} DelayedIsMild(k: nat)
    ensures Mild(Delayed(k, Stale))
  {
    if k > 0 { DelayedIsMild(k - 1); }
  }

  lemma DelayedStep(w: World, k: nat, f: Fault, present: bool, c: Call)
    requires w.faults == Delayed(k, f) && k >= 1
    ensures Look(w, present) == Reply(if present then Ok else NotFound, w.(faults := Delayed(k - 1, f)))
    ensures Mutate(w, c) == Reply(Verdict(w.store, c), Served(w.(faults := Delayed(k - 1, f)), c))
  {
    hide Verdict, Served;
    assert Delayed(k, f)[0] == Clean && Delayed(k, f)[1..] == Delayed(k - 1, f);
  }

  // ---- Continuing a run ----

  /**
   `b` continues `a` by legitimate requests on child objects only, and by orderly ones in a
   `calm` run, which conflicts at most disturb.
   */
  ghost predicate Continues(p: Plan, calm: bool, a: World, b: World) {
    && (calm ==> Gentle(a))
    && (forall f :: f in b.faults ==> f in a.faults)
    && b.obj == a.obj && b.events == a.events
    && Extends(a, b)
    && Obeys(StepRule(p, calm), a, b)
  }

  lemma ContinuesGently(p: Plan, calm: bool, a: World, b: World)
    requires Continues(p, calm, a, b)
    ensures calm || Gentle(a) ==> Gentle(b)
  {
  }

  lemma ContinuesReflexive(p: Plan, calm: bool, w: World)
    requires calm ==> Gentle(w)
    ensures Continues(p, calm, w, w)
  {
  }

  lemma ContinuesTransitive(p: Plan, calm: bool, a: World, b: World, c: World)
    requires Continues(p, calm, a, b) && Continues(p, calm, b, c)
    ensures Continues(p, calm, a, c)
  {
    ObeysTransitive(StepRule(p, calm), a, b, c);
  }

  lemma LookContinues(p: Plan, calm: bool, w: World, present: bool)
    requires calm ==> Gentle(w)
    ensures Continues(p, calm, w, Look(w, present).w)
    ensures Look(w, present).w.store == w.store
    ensures Look(w, present).err == Ok ==> present
    ensures Look(w, present).err == NotFound ==> !present
  {
  }

  lemma ServedContinues(p: Plan, calm: bool, w: World, c: Call)
    requires Legit(p, w.store, c)
    requires calm ==> Gentle(w) && Orderly(p, w.store, c)
    ensures Continues(p, calm, w, Served(Spent(w), c))
  {
    hide Legit, Orderly, Exec;
    var s := Served(Spent(w), c);
    assert s.steps[..|w.steps|] == w.steps;
    assert StoreAt(s, |w.steps|) == w.store && s.steps[|w.steps|] == Step(w.store, c);
    SpentSubset(w);
  }

  lemma SpentSubset(w: World)
    ensures forall f :: f in Spent(w).faults ==> f in w.faults
  {
  }

  lemma SpentContinues(p: Plan, calm: bool, w: World)
    requires calm ==> Gentle(w)
    ensures Continues(p, calm, w, Spent(w))
  {
    hide LegitStep;
    SpentSubset(w);
  }

  lemma MutateContinues(p: Plan, calm: bool, w: World, c: Call)
    requires Legit(p, w.store, c)
    requires calm ==> Gentle(w) && Orderly(p, w.store, c)
    ensures Continues(p, calm, w, Mutate(w, c).w)
    ensures Mutate(w, c).w.store in {w.store, Exec(w.store, c)}
  {
    hide Continues, Legit, Orderly, Exec, Gentle;
    ServedContinues(p, calm, w, c);
    SpentContinues(p, calm, w);
    assert Served(Spent(w), c).store == Exec(w.store, c) && Spent(w).store == w.store;
  }

  lemma ServiceCallsLegit(p: Plan, s: Store, r: int)
    requires Wanted(p, r)
    ensures p.spec.exporter.kind == "" ==> var c := CreateService(ExporterOf(r), ExporterService(p, r));
            Legit(p, s, c) && Orderly(p, s, c)
    ensures var c := CreateService(Replica(r), InstanceService(p, r)); Legit(p, s, c) && Orderly(p, s, c)
    ensures Replica(r) in s.services ==> var c := UpdateService(Replica(r), Refreshed(s.services[Replica(r)], p, r));
            Legit(p, s, c) && Orderly(p, s, c)
  {
  }

  lemma WithExporterFootprint(w: World, p: Plan, calm: bool, r: int)
    requires Wanted(p, r)
    requires calm ==> Gentle(w)
    ensures Continues(p, calm, w, WithExporter(w, p, r))
    ensures WithExporter(w, p, r).store.deployments == w.store.deployments
    ensures Find(WithExporter(w, p, r).store.services, Replica(r)) == Find(w.store.services, Replica(r))
  {
    hide Legit, Orderly, Continues, Mutate;
    ServiceCallsLegit(p, w.store, r);
    if p.spec.exporter.kind == "" {
      MutateContinues(p, calm, w, CreateService(ExporterOf(r), ExporterService(p, r)));
    } else {
      ContinuesReflexive(p, calm, w);
    }
  }

  lemma EnsureServiceFootprint(w: World, p: Plan, calm: bool, r: int)
    requires Wanted(p, r)
    requires calm ==> Gentle(w)
    ensures Continues(p, calm, w, EnsureService(w, p, r).w)
    ensures EnsureService(w, p, r).w.store.deployments == w.store.deployments
  {
    hide Legit, Orderly, Continues, Mutate, Look, InstanceService, ExporterService, Refreshed;
    var got := Look(w, Replica(r) in w.store.services);
    LookContinues(p, calm, w, Replica(r) in w.store.services);
    ContinuesGently(p, calm, w, got.w);
    var w1 := WithExporter(got.w, p, r);
    WithExporterFootprint(got.w, p, calm, r);
    ContinuesTransitive(p, calm, w, got.w, w1);
    ContinuesGently(p, calm, w, w1);
    ServiceCallsLegit(p, w1.store, r);
    if got.err == NotFound {
      MutateContinues(p, calm, w1, CreateService(Replica(r), InstanceService(p, r)));
    } else if got.err == Ok {
      assert w1.store.services[Replica(r)] == w.store.services[Replica(r)];
      MutateContinues(p, calm, w1, UpdateService(Replica(r), Refreshed(w.store.services[Replica(r)], p, r)));
    } else {
      RefusedContinues(p, calm, w1);
    }
    ContinuesTransitive(p, calm, w, w1, EnsureService(w, p, r).w);
  }

  lemma RefusedContinues(p: Plan, calm: bool, w: World)
    requires calm ==> Gentle(w)
    ensures Continues(p, calm, w, Refused(w).w)
    ensures Refused(w).w.store == w.store
  {
  }

  lemma GentleSip(w: World, m: ConfigMap, r: int)
    requires Gentle(w) && SharedThere(w.store) && Replica(r) in w.store.services
    ensures Equipped(Mutate(w, CreateConfigMap(SipOf(r), m)).w.store, r)
  {
    hide Mutate, Gentle;
    GentleReplies(w, true, CreateConfigMap(SipOf(r), m));
  }

  lemma CreateCallsLegit(p: Plan, s: Store, envs: seq<EnvVar>, r: int)
    requires Wanted(p, r)
    ensures var c := CreateConfigMap(SipOf(r), SipConfig(p)); Legit(p, s, c) && Orderly(p, s, c)
    ensures EnvOf(p, envs) ==> var c := CreateDeployment(Replica(r), Instance(p, r, envs));
            Legit(p, s, c) && (Equipped(s, r) && (r > 1 ==> Has(s, r - 1)) ==> Orderly(p, s, c))
  {
    hide EnvOf;
  }

  /** Conflicts do not keep a Service from being there. */
  lemma GentleService(w: World, p: Plan, r: int)
    requires Gentle(w) && Wanted(p, r)
    ensures Replica(r) in EnsureService(w, p, r).w.store.services
  {
    hide Mutate, Look, Continues, Gentle, InstanceService, Refreshed;
    var present := Replica(r) in w.store.services;
    GentleReplies(w, present, DeleteService(Replica(r)));
    var got := Look(w, present);
    LookContinues(p, true, w, present);
    ContinuesGently(p, true, w, got.w);
    var w1 := WithExporter(got.w, p, r);
    WithExporterFootprint(got.w, p, true, r);
    ContinuesGently(p, true, got.w, w1);
    if present {
      MutateKeepsService(w1, UpdateService(Replica(r), Refreshed(w.store.services[Replica(r)], p, r)), r);
    } else {
      GentleReplies(w1, true, CreateService(Replica(r), InstanceService(p, r)));
    }
  }

  lemma MutateKeepsService(w: World, c: Call, r: int)
    requires c.UpdateService? && Replica(r) in w.store.services
    ensures Replica(r) in Mutate(w, c).w.store.services
  {
  }

  /** No reconcile of a live object removes a ConfigMap. */
  lemma ContinuesKeepsMaps(p: Plan, calm: bool, a: World, b: World)
    requires Continues(p, calm, a, b)
    ensures a.store.configMaps.Keys <= b.store.configMaps.Keys
  {
    var rule := StepRule(p, calm);
    var inv := (u: Store) => a.store.configMaps.Keys <= u.configMaps.Keys;
    forall step: Step, t: Store | rule(step, t) && inv(step.found) ensures inv(t) {
      assert LegitStep(p, calm, step, t);
    }
    InvariantHolds(rule, inv, a, b, |b.steps|);
  }

  lemma SharedStay(p: Plan, calm: bool, a: World, b: World)
    requires Continues(p, calm, a, b) && SharedThere(a.store)
    ensures SharedThere(b.store)
  {
    hide Continues;
    ContinuesKeepsMaps(p, calm, a, b);
    assert ShutdownMap in a.store.configMaps.Keys && LoggingMap in a.store.configMaps.Keys;
  }

  lemma CreateReplicaFootprint(w: World, p: Plan, calm: bool, envs: seq<EnvVar>, r: int)
    requires Wanted(p, r) && EnvState(p, envs)
    requires calm ==> Gentle(w) && SharedThere(w.store) && (r > 1 ==> Has(w.store, r - 1))
    ensures Continues(p, calm, w, CreateReplica(w, p, envs, r).w)
    ensures EnvState(p, CreateReplica(w, p, envs, r).envs)
  {
    hide Continues, Gentle, EnvOf, Legit, Orderly, Mutate, Look, EnsureService, ExtendEnv, Instance, SipConfig;
    var got := Look(w, Has(w.store, r));
    LookContinues(p, calm, w, Has(w.store, r));
    if got.err == NotFound {
      ContinuesGently(p, calm, w, got.w);
      var w1 := EnsureService(got.w, p, r).w;
      EnsureServiceFootprint(got.w, p, calm, r);
      ContinuesTransitive(p, calm, w, got.w, w1);
      ContinuesGently(p, calm, w, w1);
      var envs' := ExtendEnv(p, envs, r);
      EnvStateStep(p, envs, r);
      CreateCallsLegit(p, w1.store, envs', r);
      var w2 := Mutate(w1, CreateConfigMap(SipOf(r), SipConfig(p))).w;
      MutateContinues(p, calm, w1, CreateConfigMap(SipOf(r), SipConfig(p)));
      ContinuesTransitive(p, calm, w, w1, w2);
      ContinuesGently(p, calm, w, w2);
      CreateCallsLegit(p, w2.store, envs', r);
      if calm {
        GentleService(got.w, p, r);
        SharedStay(p, calm, w, w1);
        GentleSip(w1, SipConfig(p), r);
      }
      MutateContinues(p, calm, w2, CreateDeployment(Replica(r), Instance(p, r, envs')));
      ContinuesTransitive(p, calm, w, w2, CreateReplica(w, p, envs, r).w);
    }
  }

  lemma PutConfigMapFootprint(w: World, p: Plan, calm: bool, n: Name, m: ConfigMap)
    requires LegitConfigMap(p, n, m)
    requires calm ==> Gentle(w)
    ensures Continues(p, calm, w, PutConfigMap(w, n, m))
  {
    var u := Mutate(w, UpdateConfigMap(n, m));
    MutateContinues(p, calm, w, UpdateConfigMap(n, m));
    if u.err == NotFound {
      MutateContinues(p, calm, u.w, CreateConfigMap(n, m));
      ContinuesTransitive(p, calm, w, u.w, PutConfigMap(w, n, m));
    }
  }

  lemma UpdatePodLegit(p: Plan, s: Store, d: Deployment, envs: seq<EnvVar>, r: int)
    requires Wanted(p, r) && Find(s.deployments, Replica(r)) == Some(d) && EnvOf(p, envs)
    ensures var c := UpdateDeployment(Replica(r), d.(pod := PodFor(p, r, envs))); Legit(p, s, c) && Orderly(p, s, c)
  {
    hide EnvOf;
  }

  lemma UpdateReplicaFootprint(w: World, p: Plan, calm: bool, envs: seq<EnvVar>, r: int)
    requires Wanted(p, r) && EnvState(p, envs)
    requires calm ==> Gentle(w)
    ensures Continues(p, calm, w, UpdateReplica(w, p, envs, r).w)
    ensures EnvState(p, UpdateReplica(w, p, envs, r).envs)
  {
    hide Continues, Gentle, EnvOf, Legit, Orderly, Mutate, Look;
    hide EnsureService, PutConfigMap, ExtendEnv, PodFor, SipConfig;
    var w1 := PutConfigMap(w, SipOf(r), SipConfig(p));
    PutConfigMapFootprint(w, p, calm, SipOf(r), SipConfig(p));
    ContinuesGently(p, calm, w, w1);
    var got := Look(w1, Has(w1.store, r));
    LookContinues(p, calm, w1, Has(w1.store, r));
    ContinuesTransitive(p, calm, w, w1, got.w);
    if got.err == Ok {
      ContinuesGently(p, calm, w, got.w);
      var w2 := EnsureService(got.w, p, r).w;
      EnsureServiceFootprint(got.w, p, calm, r);
      ContinuesTransitive(p, calm, w, got.w, w2);
      ContinuesGently(p, calm, w, w2);
      var envs' := ExtendEnv(p, envs, r);
      EnvStateStep(p, envs, r);
      var d := w1.store.deployments[Replica(r)];
      UpdatePodLegit(p, w2.store, d, envs', r);
      MutateContinues(p, calm, w2, UpdateDeployment(Replica(r), d.(pod := PodFor(p, r, envs'))));
      ContinuesTransitive(p, calm, w, w2, UpdateReplica(w, p, envs, r).w);
    }
  }

  lemma DropCallsLegit(p: Plan, s: Store, r: int)
    requires Doomed(p, r)
    ensures Legit(p, s, DeleteService(Replica(r))) && Orderly(p, s, DeleteService(Replica(r)))
    ensures Replica(r) !in s.services ==>
              Legit(p, s, DeleteService(ExporterOf(r))) && Orderly(p, s, DeleteService(ExporterOf(r)))
    ensures Legit(p, s, DeleteDeployment(Replica(r)))
  {
  }

  /** A deletion the server has confirmed is a deletion. */
  lemma ConfirmedDeletion(w: World, n: Name)
    ensures var del := Mutate(w, DeleteService(n)); del.err == Ok ==> n !in del.w.store.services
  {
  }

  lemma DropServiceFootprint(w: World, p: Plan, calm: bool, r: int)
    requires Doomed(p, r)
    requires calm ==> Gentle(w)
    ensures Continues(p, calm, w, DropService(w, r).w)
    ensures DropService(w, r).w.store.deployments == w.store.deployments
  {
    hide Continues, Gentle, Legit, Orderly, Mutate, Look, Doomed;
    var got := Look(w, Replica(r) in w.store.services);
    LookContinues(p, calm, w, Replica(r) in w.store.services);
    DropCallsLegit(p, w.store, r);
    if got.err == Ok {
      ContinuesGently(p, calm, w, got.w);
      var del := Mutate(got.w, DeleteService(Replica(r)));
      MutateContinues(p, calm, got.w, DeleteService(Replica(r)));
      ConfirmedDeletion(got.w, Replica(r));
      ContinuesTransitive(p, calm, w, got.w, del.w);
      if del.err == Ok {
        ContinuesGently(p, calm, w, del.w);
        var exp := Look(del.w, ExporterOf(r) in del.w.store.services);
        LookContinues(p, calm, del.w, ExporterOf(r) in del.w.store.services);
        DropCallsLegit(p, exp.w.store, r);
        ContinuesTransitive(p, calm, w, del.w, exp.w);
        if exp.err == Ok {
          ContinuesGently(p, calm, w, exp.w);
          MutateContinues(p, calm, exp.w, DeleteService(ExporterOf(r)));
          ContinuesTransitive(p, calm, w, exp.w, DropService(w, r).w);
        }
      }
    }
  }

  lemma DropReplicaFootprint(w: World, p: Plan, calm: bool, r: int)
    requires Doomed(p, r)
    requires calm ==> Gentle(w) && forall q :: r < q <= p.status ==> !Has(w.store, q)
    ensures Continues(p, calm, w, DropReplica(w, r))
  {
    var w1 := DropService(w, r).w;
    DropServiceFootprint(w, p, calm, r);
    var got := Look(w1, Has(w1.store, r));
    LookContinues(p, calm, w1, Has(w1.store, r));
    ContinuesTransitive(p, calm, w, w1, got.w);
    if got.err == Ok {
      assert calm ==> forall q :: r < q <= p.status ==> !Has(w.store, q) && Has(got.w.store, q) == Has(w.store, q);
      MutateContinues(p, calm, got.w, DeleteDeployment(Replica(r)));
      ContinuesTransitive(p, calm, w, got.w, DropReplica(w, r));
    }
  }

  // ---- Loops ----

  /** A replica the plan does not want never appears, and one it does not doom never disappears. */
  ghost predicate Keeps(p: Plan, s: Store, t: Store) {
    forall r :: (Has(t, r) && !Has(s, r) ==> Wanted(p, r)) && (Has(s, r) && !Has(t, r) ==> Doomed(p, r))
  }

  lemma LegitKeeps(p: Plan, s0: Store, s: Store, c: Call)
    requires Legit(p, s, c) && Keeps(p, s0, s)
    ensures Keeps(p, s0, Exec(s, c))
  {
    var t := Exec(s, c);
    forall r ensures Has(t, r) && !Has(s0, r) ==> Wanted(p, r) ensures Has(s0, r) && !Has(t, r) ==> Doomed(p, r) {
      assert Has(t, r) != Has(s, r) ==> c.name == Replica(r);
    }
  }

  lemma ContinuesKeeps(p: Plan, calm: bool, a: World, b: World)
    requires Continues(p, calm, a, b)
    ensures Keeps(p, a.store, b.store)
  {
    var rule := StepRule(p, calm);
    var inv := u => Keeps(p, a.store, u);
    forall step: Step, t: Store | rule(step, t) && inv(step.found) ensures inv(t) {
      assert LegitStep(p, calm, step, t);
      LegitKeeps(p, a.store, step.found, step.call);
    }
    InvariantHolds(rule, inv, a, b, |b.steps|);
  }

  lemma GentleCreateReplica(w: World, p: Plan, envs: seq<EnvVar>, r: int)
    requires Gentle(w) && Wanted(p, r) && EnvState(p, envs)
    ensures Has(CreateReplica(w, p, envs, r).w.store, r)
  {
    hide EnsureService, Continues, ExtendEnv, EnvState;
    var got := Look(w, Has(w.store, r));
    GentleReplies(w, Has(w.store, r), DeleteService(Replica(r)));
    if got.err == NotFound {
      LookContinues(p, true, w, Has(w.store, r));
      ContinuesGently(p, true, w, got.w);
      var w1 := EnsureService(got.w, p, r).w;
      EnsureServiceFootprint(got.w, p, true, r);
      ContinuesGently(p, true, got.w, w1);
      var sip := CreateConfigMap(SipOf(r), SipConfig(p));
      var w2 := Mutate(w1, sip).w;
      MutateContinues(p, true, w1, sip);
      ContinuesGently(p, true, w1, w2);
      GentleReplies(w2, true, CreateDeployment(Replica(r), Instance(p, r, ExtendEnv(p, envs, r))));
    }
  }

  /** Under conflicts only, the create loop leaves none of the indices it has passed missing. */
  lemma {:induction false} GentleCreateUpTo(w: World, p: Plan, n: int)
    requires Gentle(w) && n <= p.spec.replicas
    ensures var c := CreateUpTo(w, p, p.spec.environments, n);
            Gentle(c.w) && forall r :: 1 <= r <= n ==> Has(c.w.store, r)
    decreases if n < 0 then 0 else n, 1
  {
    hide CreateReplica, Continues, EnvState, Gentle;
    var c := CreateUpTo(w, p, p.spec.environments, n);
    CreateUpToFootprint(w, p, false, n);
    ContinuesGently(p, false, w, c.w);
    if n >= 1 {
      GentleCreateUpTo(w, p, n - 1);
      var b := CreateUpTo(w, p, p.spec.environments, n - 1);
      CreateUpToFootprint(w, p, false, n - 1);
      CreateReplicaFootprint(b.w, p, false, b.envs, n);
      GentleCreateReplica(b.w, p, b.envs, n);
      ContinuesKeeps(p, false, b.w, c.w);
    }
  }

  lemma {:induction false} CreateUpToFootprint(w: World, p: Plan, calm: bool, n: int)
    requires n <= p.spec.replicas
    requires calm ==> Gentle(w) && SharedThere(w.store)
    ensures Continues(p, calm, w, CreateUpTo(w, p, p.spec.environments, n).w)
    ensures EnvState(p, CreateUpTo(w, p, p.spec.environments, n).envs)
    decreases if n < 0 then 0 else n, 0
  {
    hide CreateReplica, Continues, Gentle;
    if n >= 1 {
      CreateUpToFootprint(w, p, calm, n - 1);
      var c := CreateUpTo(w, p, p.spec.environments, n - 1);
      ContinuesGently(p, calm, w, c.w);
      if calm {
        GentleCreateUpTo(w, p, n - 1);
        SharedStay(p, calm, w, c.w);
      }
      CreateReplicaFootprint(c.w, p, calm, c.envs, n);
      ContinuesTransitive(p, calm, w, c.w, CreateUpTo(w, p, p.spec.environments, n).w);
    } else {
      ContinuesReflexive(p, calm, w);
    }
  }

  lemma GentleDropReplica(w: World, p: Plan, r: int)
    requires Gentle(w) && Doomed(p, r)
    ensures !Has(DropReplica(w, r).store, r)
  {
    hide DropService, Continues;
    var w1 := DropService(w, r).w;
    DropServiceFootprint(w, p, true, r);
    ContinuesGently(p, true, w, w1);
    GentleReplies(w1, Has(w1.store, r), DeleteDeployment(Replica(r)));
    GentleSpent(w1);
    GentleReplies(Spent(w1), true, DeleteDeployment(Replica(r)));
  }

  lemma DropReplicaClears(w: World, p: Plan, r: int)
    requires Gentle(w) && Doomed(p, r) && forall q :: r < q <= p.status ==> !Has(w.store, q)
    ensures Gentle(DropReplica(w, r)) && forall q :: r <= q <= p.status ==> !Has(DropReplica(w, r).store, q)
  {
    hide DropReplica, Continues, Has, Gentle;
    DropReplicaFootprint(w, p, true, r);
    ContinuesGently(p, true, w, DropReplica(w, r));
    ContinuesKeeps(p, true, w, DropReplica(w, r));
    GentleDropReplica(w, p, r);
  }

  lemma {:induction false} ScaleDownFromFootprint(w: World, p: Plan, calm: bool, current: int)
    requires p.spec.replicas <= current <= p.status
    requires p.status >= 1 ==> current >= 1
    requires calm ==> Gentle(w) && forall q :: current < q <= p.status ==> !Has(w.store, q)
    ensures Continues(p, calm, w, ScaleDownFrom(w, p.spec.replicas, current))
    decreases current - p.spec.replicas
  {
    hide DropReplica, Continues, Has;
    if current != p.spec.replicas && current != 1 {
      DropReplicaFootprint(w, p, calm, current);
      var w1 := DropReplica(w, current);
      if calm { DropReplicaClears(w, p, current); }
      ScaleDownFromFootprint(w1, p, calm, current - 1);
      ContinuesTransitive(p, calm, w, w1, ScaleDownFrom(w, p.spec.replicas, current));
    } else {
      ContinuesReflexive(p, calm, w);
    }
  }

  lemma {:induction false} UpdateUpToFootprint(w: World, p: Plan, calm: bool, envs: seq<EnvVar>, n: int)
    requires n <= p.spec.replicas && EnvState(p, envs)
    requires calm ==> Gentle(w)
    ensures Continues(p, calm, w, UpdateUpTo(w, p, envs, n).w)
    ensures EnvState(p, UpdateUpTo(w, p, envs, n).envs)
    decreases if n < 0 then 0 else n
  {
    hide UpdateReplica, Continues, EnvState;
    if n >= 1 {
      UpdateUpToFootprint(w, p, calm, envs, n - 1);
      var u := UpdateUpTo(w, p, envs, n - 1);
      ContinuesGently(p, calm, w, u.w);
      if u.ok {
        UpdateReplicaFootprint(u.w, p, calm, u.envs, n);
        ContinuesTransitive(p, calm, w, u.w, UpdateUpTo(w, p, envs, n).w);
      }
    } else {
      ContinuesReflexive(p, calm, w);
    }
  }

  lemma CreateConfigMapsFootprint(w: World, p: Plan, calm: bool)
    requires calm ==> Gentle(w)
    ensures Continues(p, calm, w, CreateConfigMaps(w, p.spec.environments))
    ensures calm ==> Gentle(CreateConfigMaps(w, p.spec.environments))
    ensures calm ==> SharedThere(CreateConfigMaps(w, p.spec.environments).store)
  {
    hide Mutate, Continues, LoggingConfig, Gentle;
    MapsLegit(p, w.store);
    var shutdown := CreateConfigMap(ShutdownMap, ShutdownConfig());
    var logging := CreateConfigMap(LoggingMap, LoggingConfig(p.spec.environments));
    var w1 := Mutate(w, shutdown).w;
    MutateContinues(p, calm, w, shutdown);
    ContinuesGently(p, calm, w, w1);
    MapsLegit(p, w1.store);
    MutateContinues(p, calm, w1, logging);
    ContinuesTransitive(p, calm, w, w1, Mutate(w1, logging).w);
    ContinuesGently(p, calm, w, Mutate(w1, logging).w);
    if calm {
      GentleReplies(w, true, shutdown);
      GentleReplies(w1, true, logging);
    }
  }

  lemma MapsLegit(p: Plan, s: Store)
    ensures var c := CreateConfigMap(ShutdownMap, ShutdownConfig()); Legit(p, s, c) && Orderly(p, s, c)
    ensures var c := CreateConfigMap(LoggingMap, LoggingConfig(p.spec.environments)); Legit(p, s, c) && Orderly(p, s, c)
  {
  }

  lemma PutConfigMapsFootprint(w: World, p: Plan, calm: bool, envs: seq<EnvVar>)
    requires calm ==> Gentle(w)
    requires EnvState(p, envs)
    ensures Continues(p, calm, w, PutConfigMaps(w, envs))
  {
    EnvStateLogging(p, envs);
    var w1 := PutConfigMap(w, ShutdownMap, ShutdownConfig());
    PutConfigMapFootprint(w, p, calm, ShutdownMap, ShutdownConfig());
    PutConfigMapFootprint(w1, p, calm, LoggingMap, LoggingConfig(envs));
    ContinuesTransitive(p, calm, w, w1, PutConfigMaps(w, envs));
  }

  lemma CreateFootprint(w: World, p: Plan, calm: bool)
    requires calm ==> Gentle(w)
    ensures Continues(p, calm, w, Create(w, p, p.spec.environments).w)
    ensures EnvState(p, Create(w, p, p.spec.environments).envs)
  {
    var w1 := CreateConfigMaps(w, p.spec.environments);
    CreateConfigMapsFootprint(w, p, calm);
    CreateUpToFootprint(w1, p, calm, p.spec.replicas);
    ContinuesTransitive(p, calm, w, w1, Create(w, p, p.spec.environments).w);
  }

  lemma UpdateFootprint(w: World, p: Plan, calm: bool, envs: seq<EnvVar>)
    requires EnvState(p, envs)
    requires calm ==> Gentle(w)
    ensures Continues(p, calm, w, UpdateChildren(w, p, envs).w)
  {
    hide Continues, Gentle, EnvState, PutConfigMaps, UpdateUpTo, ScaleDownFrom;
    var w1 := ScaleDown(w, p);
    if p.status > p.spec.replicas {
      ScaleDownFromFootprint(w, p, calm, p.status);
    } else {
      ContinuesReflexive(p, calm, w);
    }
    ContinuesGently(p, calm, w, w1);
    var w2 := PutConfigMaps(w1, envs);
    PutConfigMapsFootprint(w1, p, calm, envs);
    ContinuesTransitive(p, calm, w, w1, w2);
    ContinuesGently(p, calm, w, w2);
    UpdateUpToFootprint(w2, p, calm, envs, p.spec.replicas);
    ContinuesTransitive(p, calm, w, w2, UpdateUpTo(w2, p, envs, p.spec.replicas).w);
  }

  /**
   Whatever faults strike a reconcile, every request that takes effect on a child object is
   legitimate for the plan it works from, and the JVB object is left alone.
   */
  lemma ChildrenFootprint(w: World, p: Plan, calm: bool)
    requires calm ==> Gentle(w)
    ensures Continues(p, calm, w, Children(w, p).w)
  {
    hide Continues, Gentle, EnvState, Create, UpdateChildren;
    var c := Create(w, p, p.spec.environments);
    CreateFootprint(w, p, calm);
    ContinuesGently(p, calm, w, c.w);
    UpdateFootprint(c.w, p, calm, c.envs);
    ContinuesTransitive(p, calm, w, c.w, Children(w, p).w);
  }

  // ---- Success ----

  lemma PutKeepsDeployments(w: World, n: Name, m: ConfigMap)
    ensures PutConfigMap(w, n, m).store.deployments == w.store.deployments
  {
  }

  lemma OkReplica(w: World, p: Plan, envs: seq<EnvVar>, r: int)
    ensures UpdateReplica(w, p, envs, r).ok ==> Has(w.store, r)
  {
    hide PutConfigMap, EnsureService, ExtendEnv, PodFor, SipConfig, Mutate;
    PutKeepsDeployments(w, SipOf(r), SipConfig(p));
  }

  /** An update loop that succeeds has found every replica, and none goes away behind its back. */
  lemma {:induction false} OkUpTo(w: World, p: Plan, envs: seq<EnvVar>, n: int)
    requires n <= p.spec.replicas && EnvState(p, envs)
    ensures var u := UpdateUpTo(w, p, envs, n); u.ok ==> forall r :: 1 <= r <= n ==> Has(u.w.store, r)
    decreases if n < 0 then 0 else n
  {
    hide UpdateReplica, Continues, EnvState;
    if n >= 1 {
      OkUpTo(w, p, envs, n - 1);
      var b := UpdateUpTo(w, p, envs, n - 1);
      UpdateUpToFootprint(w, p, false, envs, n - 1);
      if b.ok {
        OkReplica(b.w, p, b.envs, n);
        UpdateReplicaFootprint(b.w, p, false, b.envs, n);
        ContinuesKeeps(p, false, b.w, UpdateReplica(b.w, p, b.envs, n).w);
      }
    }
  }

  lemma OkMeansThere(w: World, p: Plan)
    ensures var c := Children(w, p); c.ok ==> forall r :: Wanted(p, r) ==> Has(c.w.store, r)
  {
    hide Create, ScaleDown, PutConfigMaps, UpdateUpTo, EnvState;
    CreateFootprint(w, p, false);
    var c := Create(w, p, p.spec.environments);
    OkUpTo(PutConfigMaps(ScaleDown(c.w, p), c.envs), p, c.envs, p.spec.replicas);
  }
}
