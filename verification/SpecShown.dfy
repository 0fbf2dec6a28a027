/** What a quiescent state shows of the current spec, and the one way in which a swallowed conflict hides it. */
module SpecShown {
  import opened Basics
  import opened Naming
  import opened Resources
  import opened Api
  import opened Program
  import opened Environment
  import opened FaultFree
  import opened Footprint
  import opened Recovery
  import opened Lifecycle
  import opened EventLoop
  import opened Exactness
  import opened UnderFaults
  import opened SelfTrigger
  import opened Uninterrupted

  // ---- Quiescent states show the spec ----

  function SpecPlan(spec: Spec): Plan {
    Plan(spec, map[], 0, map[])
  }

  /** Every replica asked for is wired up and configured as the spec says, its pod included. */
  ghost predicate Shown(s: Store, spec: Spec) {
    forall r :: 1 <= r <= spec.replicas ==> ReplicaShown(s, SpecPlan(spec), r)
  }

  ghost predicate ReplicaShown(s: Store, p: Plan, r: int) {
    && Configured(s, p, r)
    && (p.spec.replicas <= MAX_INT32 ==> WiredUp(s, p, r))
    && var pod := s.deployments[Replica(r)].pod;
       pod == PodFor(p, r, pod.env) && p.spec.environments <= pod.env
  }

  lemma OnlySpecMatters(s: Store, p: Plan, q: Plan, r: int)
    requires p.spec == q.spec && ReplicaShown(s, p, r)
    ensures ReplicaShown(s, q, r)
  {
    hide LastValue, Itoa;
    assert forall i :: Wanted(p, i) <==> Wanted(q, i);
    assert PortOf(p, r) == PortOf(q, r) && Mounts(p, r) == Mounts(q, r) && ExporterSidecar(p) == ExporterSidecar(q);
  }

  lemma ExtendsSpecEnv(p: Plan, r: int)
    ensures p.spec.environments <= ExtendEnv(p, p.spec.environments, r)
  {
    hide PortBlock, HasName;
  }

  /** A fault-free reconcile shows the spec it works from. */
  lemma CompletionShows(s: Store, p: Plan)
    requires Labelled(After(s, p))
    ensures Shown(After(s, p), p.spec)
  {
    hide After, Labelled, Configured, WiredUp, PodFor, ExtendEnv;
    var t := After(s, p);
    AfterConverged(s, p);
    ExtendsSpecEnv(p, BlockIndex(s, p));
    forall r | 1 <= r <= p.spec.replicas ensures ReplicaShown(t, SpecPlan(p.spec), r) {
      ConvergedPorts(s, p, t, r);
      ConfigurationTheorem(s, p, r);
      if p.spec.replicas <= MAX_INT32 { ConvergedWiring(s, p, t, r); }
      PodEnv(p, r, FinalEnv(s, p));
      OnlySpecMatters(t, p, SpecPlan(p.spec), r);
    }
  }

  lemma PodEnv(p: Plan, r: int, env: seq<EnvVar>)
    ensures PodFor(p, r, env).env == env
  {
  }

  /** No fault strikes the requests on children; anything may happen to the object and its copies. */
  predicate Spared(a: Action) {
    a.Tag? ==> a.faults == []
  }

  ghost predicate ShowInv(s: System)
    requires s.history != []
  {
    && Labelled(s.store)
    && (s.phase.Idle? ==> Pending(s) || Shown(s.store, s.Current().spec))
    && (s.phase.Working? ==>
          && (forall k: nat :: k <= |s.phase.run.w.steps| ==> Labelled(StoreAt(s.phase.run.w, k)))
          && Shown(s.phase.run.w.store, s.phase.seen.spec))
  }

  lemma EditKeepsShown(s: System, a: Action)
    requires Inv(s) && ShowInv(s) && a.Edit? && Heard(s, a)
    ensures ShowInv(Next(s, a))
  {
    hide Next, Labelled, Shown;
    var t := Next(s, a);
    EditEffect(s, a);
    if Pending(s) {
      assert t.inbox[..|s.inbox|] == s.inbox;
      assert forall i :: 0 <= i < |s.inbox| ==> t.inbox[i] == s.inbox[i];
    } else if a.spec != s.Current().spec && s.phase.Idle? {
      assert Passes(t.inbox[|s.inbox|]);
    }
  }

  lemma DeliverKeepsShown(s: System)
    requires Inv(s) && ShowInv(s) && s.inbox != []
    ensures ShowInv(Next(s, Deliver))
  {
    hide Next, Labelled, Shown;
    DeliverEffect(s);
    var t := Next(s, Deliver);
    if i :| 0 <= i < |s.inbox| && Passes(s.inbox[i]) {
      if i > 0 { assert t.inbox[i - 1] == s.inbox[i]; }
    }
  }

  lemma RunLabelled(s: Store, p: Plan, k: nat)
    requires Labelled(s) && k <= |Children(Fresh(s, []), p).w.steps|
    ensures Labelled(StoreAt(Children(Fresh(s, []), p).w, k))
  {
    hide Children, Labelled;
    PartialLabelled(s, p, Attempt([], k));
  }

  lemma TagKeepsShown(s: System, a: Action)
    requires Inv(s) && ShowInv(s) && a.Tag? && Enabled(s, a) && Spared(a)
    ensures ShowInv(Next(s, a))
  {
    hide Children, Tagging, Labelled, Shown;
    TaggingFaithful(s, a.fault);
    var (t, seen) := Tagging(s, a.fault);
    var p := PlanFor(seen, a.addresses);
    var run := Children(Fresh(s.store, []), p);
    forall k: nat | k <= |run.w.steps| ensures Labelled(StoreAt(run.w, k)) { RunLabelled(s.store, p, k); }
    assert StoreAt(run.w, |run.w.steps|) == run.w.store == After(s.store, p);
    CompletionShows(s.store, p);
  }

  lemma FinishKeepsShown(s: System, a: Action)
    requires Inv(s) && ShowInv(s) && a.Finish? && Enabled(s, a)
    ensures ShowInv(Next(s, a))
  {
    hide Next, Labelled, Shown;
    FinishEffect(s, a);
  }

  lemma NextKeepsShown(s: System, a: Action)
    requires Inv(s) && ShowInv(s) && Enabled(s, a) && Spared(a) && Heard(s, a)
    ensures ShowInv(Next(s, a))
  {
    hide Children, Labelled, Shown, Tagging;
    match a
    case Edit(_, _, _) => EditKeepsShown(s, a);
    case Deliver => DeliverKeepsShown(s);
    case Begin(_) =>
    case Tag(_, _, _) => TagKeepsShown(s, a);
    case Serve =>
    case Finish(_) => FinishKeepsShown(s, a);
    case Crash =>
  }

  lemma {:induction false} RunKeepsShown(s: System, actions: seq<Action>)
    requires Due(s) && Labelled(s.store) && AllHeard(s, actions) && forall a :: a in actions ==> Spared(a)
    ensures ShowInv(RunAll(s, actions))
  {
    hide Labelled, Shown, AllHeard, Heard;
    if actions != [] {
      var init := actions[..|actions| - 1];
      HeardSoFar(s, actions);
      RunKeepsShown(s, init);
      RunKeepsInv(s, init);
      var b, a := RunAll(s, init), actions[|actions| - 1];
      if Enabled(b, a) { NextKeepsShown(b, a); }
    }
  }

  /**
   Where no fault strikes the requests on children, a quiescent state shows the current spec:
   every replica asked for exists, is wired up, and runs a pod as the spec describes it. Faults
   on the finalizer and status writes, edits, crashes and outdated reads do not matter.
   */
  lemma QuiescentMeansShown(s: System, actions: seq<Action>)
    requires Due(s) && Labelled(s.store) && AllHeard(s, actions) && forall a :: a in actions ==> Spared(a)
    requires Quiescent(RunAll(s, actions))
    ensures var t := RunAll(s, actions);
            t.Current().status == t.Current().spec.replicas && Shown(t.store, t.Current().spec)
  {
    hide Shown;
    RunKeepsShown(s, actions);
    RunKeepsInv(s, actions);
  }

  // ---- Swallowed conflicts ----

  /** A conflict is about to refuse the write of the Deployment. */
  predicate Refuses(w: World, p: Plan, envs: seq<EnvVar>, r: int) {
    NextFault(BeforeWrite(UpdateUpTo(w, p, envs, r - 1).w, p, r)) == Stale
  }

  lemma UpdateOneGently(w: World, p: Plan, envs: seq<EnvVar>, r: int)
    requires Gentle(w) && Wanted(p, r) && Has(w.store, r)
    ensures var u, d := UpdateReplica(w, p, envs, r), w.store.deployments[Replica(r)];
            && u.ok && Gentle(u.w) && u.envs == ExtendEnv(p, envs, r)
            && u.w.store.deployments ==
               w.store.deployments[Replica(r) := if NextFault(BeforeWrite(w, p, r)) == Stale then d
                                                 else d.(pod := PodFor(p, r, u.envs))]
  {
    hide PutConfigMap, EnsureService, ExtendEnv, PodFor, SipConfig, Continues, Mild, Legit, UpdateReplica;
    var w1, b := PutConfigMap(w, SipOf(r), SipConfig(p)), BeforeWrite(w, p, r);
    UpdateReplicaEffect(w, p, envs, r);
    PutConfigMapFootprint(w, p, true, SipOf(r), SipConfig(p));
    ContinuesGently(p, true, w, w1);
    GentleSpent(w1);
    EnsureServiceFootprint(Spent(w1), p, true, r);
    ContinuesGently(p, true, Spent(w1), b);
    GentleSpent(b);
    var d := w.store.deployments[Replica(r)];
    if NextFault(b) == Stale { assert w.store.deployments[Replica(r) := d] == w.store.deployments; }
  }

  lemma {:induction false} UpdateGently(w: World, p: Plan, envs: seq<EnvVar>, n: int, r: int)
    requires Gentle(w) && n <= p.spec.replicas && Wanted(p, r)
    requires Has(w.store, r) && forall i :: Wanted(p, i) ==> Has(w.store, i)
    ensures var u := UpdateUpTo(w, p, envs, n);
            && u.ok && Gentle(u.w) && u.envs == (if n < 1 then envs else ExtendEnv(p, envs, 1))
            && (forall i :: Wanted(p, i) ==> Has(u.w.store, i))
            && u.w.store.deployments[Replica(r)] ==
               var d := w.store.deployments[Replica(r)];
               if r > n || Refuses(w, p, envs, r) then d else d.(pod := PodFor(p, r, ExtendEnv(p, envs, 1)))
    decreases if n < 0 then 0 else n
  {
    hide UpdateReplica, ExtendEnv, PodFor, Gentle, BeforeWrite;
    if n >= 1 {
      UpdateGently(w, p, envs, n - 1, r);
      var b := UpdateUpTo(w, p, envs, n - 1);
      assert Wanted(p, n);
      UpdateOneGently(b.w, p, b.envs, n);
      ExtendEnvOnce(p, envs, 1, n);
    }
  }

  /**
   Under conflicts `Update` always succeeds, so that the status is written and the queue may
   fall empty; but the pod of a replica is the one of the spec if and only if no conflict
   refused its Deployment, or it was that pod before.
   */
  lemma PodShownIff(w: World, p: Plan, envs: seq<EnvVar>, r: int)
    requires Gentle(w) && Wanted(p, r) && Has(w.store, r) && forall i :: Wanted(p, i) ==> Has(w.store, i)
    ensures var u, pod := UpdateUpTo(w, p, envs, p.spec.replicas), PodFor(p, r, ExtendEnv(p, envs, 1));
            && u.ok && Has(u.w.store, r)
            && (u.w.store.deployments[Replica(r)].pod == pod <==>
                  !Refuses(w, p, envs, r) || w.store.deployments[Replica(r)].pod == pod)
  {
    hide UpdateUpTo, ExtendEnv, PodFor, Refuses, Gentle;
    UpdateGently(w, p, envs, p.spec.replicas, r);
  }

  // ---- A quiescent state with an outdated pod ----

  /** How many requests it takes to bring a ConfigMap up to date. */
  function PutCost(s: Store, n: Name): nat {
    if n in s.configMaps then 1 else 2
  }

  lemma LatePut(w: World, k: nat, n: Name, m: ConfigMap)
    requires w.faults == Delayed(PutCost(w.store, n) + k, Stale)
    ensures var t := PutConfigMap(w, n, m);
            t.faults == Delayed(k, Stale) && t.store == w.store.(configMaps := w.store.configMaps[n := m])
  {
    hide Mutate, Delayed;
    var cost := PutCost(w.store, n) + k;
    DelayedStep(w, cost, Stale, true, UpdateConfigMap(n, m));
    if n !in w.store.configMaps {
      DelayedStep(Mutate(w, UpdateConfigMap(n, m)).w, cost - 1, Stale, true, CreateConfigMap(n, m));
    }
  }

  function EnsureCost(p: Plan): nat {
    if p.spec.exporter.kind == "" then 3 else 2
  }

  lemma LateExporter(w: World, p: Plan, k: nat, r: int)
    requires w.faults == Delayed(EnsureCost(p) - 2 + k, Stale)
    ensures var t := WithExporter(w, p, r);
            && t.faults == Delayed(k, Stale) && t.store.deployments == w.store.deployments
            && Find(t.store.services, Replica(r)) == Find(w.store.services, Replica(r))
  {
    hide Mutate, Delayed, ExporterService;
    if p.spec.exporter.kind == "" {
      DelayedStep(w, k + 1, Stale, true, CreateService(ExporterOf(r), ExporterService(p, r)));
    }
  }

  lemma LateEnsure(w: World, p: Plan, r: int)
    requires w.faults == Delayed(EnsureCost(p), Stale)
    ensures var t := EnsureService(w, p, r).w;
            t.faults == Delayed(0, Stale) && t.store.deployments == w.store.deployments
  {
    hide Mutate, Look, Delayed, Refreshed, InstanceService, WithExporter;
    var present := Replica(r) in w.store.services;
    var c := if present then UpdateService(Replica(r), Refreshed(w.store.services[Replica(r)], p, r))
             else CreateService(Replica(r), InstanceService(p, r));
    DelayedStep(w, EnsureCost(p), Stale, present, c);
    var got := Look(w, present);
    LateExporter(got.w, p, 1, r);
    DelayedStep(WithExporter(got.w, p, r), 1, Stale, true, c);
  }

  lemma LateReplica(w: World, p: Plan, envs: seq<EnvVar>)
    requires w.faults == Delayed(PutCost(w.store, SipOf(1)) + 1 + EnsureCost(p), Stale) && Has(w.store, 1)
    ensures var u := UpdateReplica(w, p, envs, 1);
            u.ok && u.w.faults == [] && u.w.store.deployments == w.store.deployments
  {
    hide Mutate, Look, Delayed, PutConfigMap, EnsureService, PodFor, SipConfig, ExtendEnv;
    var w1 := PutConfigMap(w, SipOf(1), SipConfig(p));
    LatePut(w, 1 + EnsureCost(p), SipOf(1), SipConfig(p));
    DelayedStep(w1, 1 + EnsureCost(p), Stale, true, DeleteService(Replica(1)));
    var got := Look(w1, true);
    LateEnsure(got.w, p, 1);
    var w2 := EnsureService(got.w, p, 1).w;
    var d := w1.store.deployments[Replica(1)].(pod := PodFor(p, 1, ExtendEnv(p, envs, 1)));
    LastIsStale(w2, UpdateDeployment(Replica(1), d));
  }

  lemma LastIsStale(w: World, c: Call)
    requires w.faults == Delayed(0, Stale) && c.UpdateDeployment? && c.name in w.store.deployments
    ensures Mutate(w, c).w.store == w.store && Mutate(w, c).w.faults == []
  {
    assert [Stale][1..] == [];
  }

  /** After the refused write the other replicas are updated as usual. */
  lemma {:induction false} LateUpTo(w: World, p: Plan, envs: seq<EnvVar>, m: int)
    requires w.faults == Delayed(PutCost(w.store, SipOf(1)) + 1 + EnsureCost(p), Stale)
    requires m >= 1 && Has(w.store, 1) && forall r :: 1 <= r <= m ==> Has(w.store, r)
    ensures var u := UpdateUpTo(w, p, envs, m);
            && u.ok && u.w.faults == [] && Has(u.w.store, 1)
            && u.w.store.deployments[Replica(1)] == w.store.deployments[Replica(1)]
            && forall r :: Has(w.store, r) ==> Has(u.w.store, r)
    decreases m
  {
    hide UpdateReplica, Delayed, PutCost, EnsureCost, Exposed, PodFor;
    if m == 1 {
      assert UpdateUpTo(w, p, envs, 0) == Run(w, envs, true);
      LateReplica(w, p, envs);
    } else {
      LateUpTo(w, p, envs, m - 1);
      var b := UpdateUpTo(w, p, envs, m - 1);
      UpdateReplicaFree(b.w, p, b.envs, m);
      var u := UpdateReplica(b.w, p, b.envs, m);
      OtherSlots(b.w.store, u.w.store, m);
      assert At(u.w.store, 1) == At(b.w.store, 1);
      assert At(u.w.store, m).dep.Some?;
    }
  }

  lemma OtherSlots(s: Store, t: Store, m: int)
    requires OnlySlot(s, t, m)
    ensures forall r :: r != m ==> At(t, r) == At(s, r) && (Has(t, r) <==> Has(s, r))
  {
    forall r | r != m ensures Has(t, r) <==> Has(s, r) {
      assert At(t, r) == At(s, r);
      assert Has(t, r) <==> At(t, r).dep.Some?;
    }
  }

  /** The fault that hits the write of the Deployment of replica 1 when all replicas exist. */
  function LateFaults(s: Store, p: Plan): seq<Fault>
    requires p.spec.replicas >= 1
  {
    Delayed(PutCost(s, SipOf(1)) + 1 + EnsureCost(p) + 2 + p.spec.replicas + 2, Stale)
  }

  /** A reconcile whose write of that Deployment is refused succeeds. */
  lemma LateChildren(s: Store, p: Plan)
    requires 1 <= p.spec.replicas && p.status <= p.spec.replicas
    requires Has(s, 1) && forall r :: 1 <= r <= p.spec.replicas ==> Has(s, r)
    ensures var run := Children(Fresh(s, LateFaults(s, p)), p);
            run.ok && Has(run.w.store, 1) && run.w.store.deployments[Replica(1)] == s.deployments[Replica(1)]
  {
    hide Delayed, CreateConfigMaps, CreateUpTo, PutConfigMap, UpdateUpTo, LoggingConfig, ShutdownConfig, EnsureCost;
    var n, envs := p.spec.replicas, p.spec.environments;
    var cost := PutCost(s, SipOf(1)) + 1 + EnsureCost(p);
    var w0 := Fresh(s, LateFaults(s, p));
    CreateShared(s, envs, cost + 2 + n, Stale);
    var w1 := CreateConfigMaps(w0, envs);
    assert forall r :: Has(w1.store, r) <==> Has(s, r);
    CreateNothing(w1, p, envs, n, cost + 2, Stale);
    var c := Create(w0, p, envs);
    assert c.w == w1.(faults := Delayed(cost + 2, Stale)) && ScaleDown(c.w, p) == c.w;
    LatePut(c.w, cost + 1, ShutdownMap, ShutdownConfig());
    var w2 := PutConfigMap(c.w, ShutdownMap, ShutdownConfig());
    LatePut(w2, cost, LoggingMap, LoggingConfig(c.envs));
    var w3 := PutConfigMaps(c.w, c.envs);
    assert PutCost(w3.store, SipOf(1)) == PutCost(s, SipOf(1));
    assert forall r :: Has(w3.store, r) <==> Has(s, r);
    LateUpTo(w3, p, c.envs, n);
  }

  /** The first steps of a reconcile of an object that has its finalizer. */
  lemma BeginUnderFaults(s: System, faults: seq<Fault>, addresses: map<Name, string>)
    requires Versioned(s) && s.phase == Idle && s.queued && FINALIZER in s.Current().finalizers
    ensures var run := Children(Fresh(s.store, faults), PlanFor(s.Current(), addresses));
            RunAll(s, [Begin(|s.history| - 1), Tag(Clean, faults, addresses)] + Serves(|run.w.steps|))
            == s.(queued := false, store := run.w.store, phase := Working(s.Current(), run, |run.w.steps|))
  {
    hide Children, RunAll, Advance, Continues;
    var begin, tag := Begin(|s.history| - 1), Tag(Clean, faults, addresses);
    var p := PlanFor(s.Current(), addresses);
    var run := Children(Fresh(s.store, faults), p);
    RunOne(s, begin);
    BeginStep(s);
    RunAfter(s, [begin], tag);
    var s1 := s.(queued := false, phase := Read(s.Current()));
    TagAsIs(s1, faults, addresses);
    assert [begin] + [tag] == [begin, tag];
    var s2 := RunAll(s, [begin, tag]);
    ChildrenFootprint(Fresh(s.store, faults), p, false);
    ContinuesStoreAt(p, Fresh(s.store, faults), run.w);
    ServeMany(s2, |run.w.steps|);
    RunAllAppend(s, [begin, tag], Serves(|run.w.steps|));
  }

  lemma TagAsIs(s: System, faults: seq<Fault>, addresses: map<Name, string>)
    requires s.history != [] && s.phase.Read? && FINALIZER in s.phase.seen.finalizers
    ensures Advance(s, Tag(Clean, faults, addresses)) ==
            s.(phase := Working(s.phase.seen, Children(Fresh(s.store, faults), PlanFor(s.phase.seen, addresses)), 0))
  {
    hide Children;
  }

  /** The status write alone wakes nobody. */
  lemma QuietInbox(o: JvbObject, t: System)
    requires t.history != []
    requires t.inbox == [] || (t.inbox == [Updated(o, t.Current())] && o.status != t.Current().status)
    ensures Count(t.inbox) == 0
  {
    CountOne(Updated(o, t.Current()));
  }

  /** The pod of replica 1 is not the one the spec describes. */
  predicate Outdated(s: Store, spec: Spec)
    requires Has(s, 1)
  {
    var pod := s.deployments[Replica(1)].pod;
    pod != PodFor(SpecPlan(spec), 1, pod.env)
  }

  lemma OutdatedIsNotShown(s: Store, spec: Spec)
    requires Has(s, 1) && spec.replicas >= 1 && Outdated(s, spec)
    ensures !Shown(s, spec)
  {
    hide PodFor, Configured, WiredUp;
    assert Shown(s, spec) ==> ReplicaShown(s, SpecPlan(spec), 1);
  }

  /** The status write of a run that went through wakes nobody. */
  lemma FinishQuietly(s: System)
    requires Versioned(s) && s.phase.Working? && s.phase.at == |s.phase.run.w.steps| && s.phase.run.ok
    requires s.phase.seen == s.Current() && !s.queued && s.inbox == []
    ensures var t := Advance(s, Finish(Clean));
            && t.store == s.store && t.phase == Idle && !t.queued && Count(t.inbox) == 0 && t.history != []
            && t.Current().spec == s.Current().spec && t.Current().status == s.Current().spec.replicas
  {
    hide Children, Advance, Count;
    var o := s.Current();
    var w := World(s.store, Some(o), [], [], []);
    FinishStep(s, w);
    StatusFree(w, o, o.spec.replicas);
    QuietInbox(o, Advance(s, Finish(Clean)));
  }

  /** A turn whose requests on children meet conflicts, when that is a success. */
  lemma StruckTurn(s: System, faults: seq<Fault>, addresses: map<Name, string>) returns (actions: seq<Action>)
    requires Due(s) && s.inbox == [] && FINALIZER in s.Current().finalizers && Mild(faults)
    requires Children(Fresh(s.store, faults), PlanFor(s.Current(), addresses)).ok
    ensures AllHeard(s, actions) && forall a :: a in actions ==> OnlyConflicts(a) && !a.Edit?
    ensures var t, run := RunAll(s, actions), Children(Fresh(s.store, faults), PlanFor(s.Current(), addresses));
            && Quiescent(t) && t.store == run.w.store && t.Current().spec == s.Current().spec
            && t.Current().status == s.Current().spec.replicas
  {
    hide Children, RunAll, Advance, AllHeard, Count;
    var run := Children(Fresh(s.store, faults), PlanFor(s.Current(), addresses));
    BeginUnderFaults(s, faults, addresses);
    var pre := [Begin(|s.history| - 1), Tag(Clean, faults, addresses)] + Serves(|run.w.steps|);
    FinishQuietly(RunAll(s, pre));
    RunAfter(s, pre, Finish(Clean));
    var s2 := RunAll(s, pre + [Finish(Clean)]);
    DeliverAll(s2);
    actions := pre + [Finish(Clean)] + Delivers(|s2.inbox|);
    RunAllAppend(s, pre + [Finish(Clean)], Delivers(|s2.inbox|));
    NoEditsAllHeard(s, actions);
  }

  /**
   The proviso on faults is needed: whenever a reconcile of replicas that all exist is due, a
   single conflict can end it in a quiescent state, status and all, in which the Deployment of
   replica 1 is the old one; if that is outdated, the state does not show the spec.
   */
  lemma ConflictHidesSpec(s: System, addresses: map<Name, string>) returns (actions: seq<Action>)
    requires Due(s) && s.inbox == [] && FINALIZER in s.Current().finalizers
    requires s.Current().status <= s.Current().spec.replicas && 1 <= s.Current().spec.replicas
    requires Has(s.store, 1) && forall r :: 1 <= r <= s.Current().spec.replicas ==> Has(s.store, r)
    ensures AllHeard(s, actions) && forall a :: a in actions ==> OnlyConflicts(a) && !a.Edit?
    ensures var t := RunAll(s, actions);
            && Quiescent(t) && AsAsked(t) && t.Current().spec == s.Current().spec && Has(t.store, 1)
            && t.store.deployments[Replica(1)] == s.store.deployments[Replica(1)]
            && (Outdated(s.store, s.Current().spec) ==> !Shown(t.store, t.Current().spec))
  {
    hide Children, RunAll, LateFaults, AllHeard, Shown, Outdated;
    var p := PlanFor(s.Current(), addresses);
    var faults := LateFaults(s.store, p);
    LateFaultsAreMild(s.store, p);
    LateChildren(s.store, p);
    SuccessfulRun(s.store, p, faults);
    assert forall r :: 1 <= r <= s.Current().spec.replicas <==> Wanted(p, r);
    actions := StruckTurn(s, faults, addresses);
    var t := RunAll(s, actions);
    OutdatedAlike(s.store, t.store, s.Current().spec);
    if Outdated(t.store, s.Current().spec) { OutdatedIsNotShown(t.store, s.Current().spec); }
  }

  lemma OutdatedAlike(s: Store, t: Store, spec: Spec)
    requires Has(s, 1) && Has(t, 1) && s.deployments[Replica(1)] == t.deployments[Replica(1)]
    ensures Outdated(s, spec) <==> Outdated(t, spec)
  {
  }

  lemma LateFaultsAreMild(s: Store, p: Plan)
    requires p.spec.replicas >= 1
    ensures Mild(LateFaults(s, p))
  {
    DelayedIsMild(PutCost(s, SipOf(1)) + 1 + EnsureCost(p) + 2 + p.spec.replicas + 2);
  }

  // ---- Such a state is reached ----

  /** The first reconcile of a new object, undisturbed, and an edit of its image. */
  lemma ImageEdited(s: System, image: string, addresses: map<Name, string>) returns (actions: seq<Action>, t: System)
    requires Initial(s) && s.Current().spec.replicas >= 1 && image != s.Current().spec.image
    ensures AllHeard(s, actions) && forall a :: a in actions ==> OnlyConflicts(a)
    ensures t == RunAll(s, actions) && Due(t) && t.inbox == [] && FINALIZER in t.Current().finalizers
    ensures t.Current().spec == s.Current().spec.(image := image) && t.Current().status == t.Current().spec.replicas
    ensures Has(t.store, 1) && t.store.deployments[Replica(1)].pod.image == s.Current().spec.image
    ensures forall r :: 1 <= r <= t.Current().spec.replicas ==> Has(t.store, r)
  {
    hide RunAll, Turn, Reconcile, Converged, AllHeard, Count, Next, Heard;
    var o, w := s.Current(), World(s.store, Some(s.Current()), s.inbox, [], []);
    var p := PlanFor(o, addresses);
    var turn := Turn(s, addresses);
    TurnIsReconcile(s, addresses, []);
    LiveReconcile(w, o, addresses, []);
    TurnConflictsOnly(s, addresses);
    NoEditsAllHeard(s, turn);
    RunKeepsInv(s, turn);
    var t1 := RunAll(s, turn);
    forall r | 1 <= r <= o.spec.replicas ensures Has(t1.store, r) { ConvergedHas(s.store, p, t1.store, r); }
    ConvergedPorts(s.store, p, t1.store, 1);
    PodImage(p, 1, FinalEnv(s.store, p));
    var edit := Edit(o.spec.(image := image), t1.Current().annotations, t1.Current().finalizers);
    EditIsHeard(t1, edit);
    RunAfter(s, turn, edit);
    EditEffect(t1, edit);
    var t2 := RunAll(s, turn + [edit]);
    CountAppend(t1.inbox, t2.inbox[|t1.inbox|]);
    DeliverAll(t2);
    OneEditHeard(s, turn, edit, Delivers(|t2.inbox|));
    RunAllAppend(s, turn + [edit], Delivers(|t2.inbox|));
    actions := turn + [edit] + Delivers(|t2.inbox|);
    t := RunAll(s, actions);
  }

  lemma PodImage(p: Plan, r: int, env: seq<EnvVar>)
    ensures PodFor(p, r, env).image == p.spec.image
  {
  }

  lemma EditIsHeard(s: System, a: Action)
    requires s.history != [] && a.Edit? && s.Current().finalizers != []
    ensures Heard(s, a) && Advance(s, a) == Next(s, a)
  {
  }

  /**
   From every new object with a replica, an edit of the image and one conflict lead to a quiescent
   state that runs the old image.
   */
  lemma OldImageStays(s: System, image: string, addresses: map<Name, string>) returns (actions: seq<Action>)
    requires Initial(s) && s.Current().spec.replicas >= 1 && image != s.Current().spec.image
    ensures AllHeard(s, actions) && forall a :: a in actions ==> OnlyConflicts(a)
    ensures var t := RunAll(s, actions);
            && Quiescent(t) && AsAsked(t) && t.Current().spec == s.Current().spec.(image := image)
            && Has(t.store, 1) && t.store.deployments[Replica(1)].pod.image == s.Current().spec.image
            && !Shown(t.store, t.Current().spec)
  {
    hide RunAll, AllHeard, Shown, AsAsked, Outdated;
    var a1, t1 := ImageEdited(s, image, addresses);
    var a2 := ConflictHidesSpec(t1, addresses);
    OldImageIsOutdated(t1.store, t1.Current().spec);
    RunAllAppend(s, a1, a2);
    AllHeardAppend(s, a1, a2);
    actions := a1 + a2;
  }

  lemma OldImageIsOutdated(s: Store, spec: Spec)
    requires Has(s, 1) && s.deployments[Replica(1)].pod.image != spec.image
    ensures Outdated(s, spec)
  {
  }
}
