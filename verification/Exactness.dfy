/** When exactly the replicas in existence are those asked for: after one reconcile, and in quiescent states. */
module Exactness {
  import opened Basics
  import opened Naming
  import opened Resources
  import opened Api
  import opened Program
  import opened FaultFree
  import opened Footprint
  import opened Recovery
  import opened Conflicts
  import opened EventLoop

  // ---- One reconcile ----

  /** What a reconcile of the plan keeps of the replicas it finds, and adds to them. */
  ghost predicate LeftBy(s: Store, p: Plan, t: Store) {
    forall r :: Has(t, r) <==> Wanted(p, r) || (Has(s, r) && !Doomed(p, r))
  }

  ghost predicate Exact(t: Store, n: int) {
    forall r :: Has(t, r) <==> 1 <= r <= n
  }

  /** Every replica is one the plan asks for, or one the scale-down loop visits. */
  ghost predicate WithinReach(s: Store, p: Plan) {
    forall r :: Has(s, r) ==> 1 <= r <= Max(p.spec.replicas, p.status)
  }

  lemma LeftByExactIff(s: Store, p: Plan, t: Store)
    requires LeftBy(s, p, t) && p.spec.replicas >= 1
    ensures Exact(t, p.spec.replicas) <==> WithinReach(s, p)
  {
    if Exact(t, p.spec.replicas) {
      forall r | Has(s, r) ensures 1 <= r <= Max(p.spec.replicas, p.status) {
        assert Has(t, r) <==> 1 <= r <= p.spec.replicas;
      }
    }
  }

  /**
   A fault-free reconcile leaves exactly the replicas asked for if and only if it finds none
   beyond both spec and status.
   */
  lemma AfterExactIff(s: Store, p: Plan)
    requires p.spec.replicas >= 1
    ensures Exact(After(s, p), p.spec.replicas) <==> WithinReach(s, p)
  {
    hide After, Exact, WithinReach;
    AfterConverged(s, p);
    forall r ensures Has(After(s, p), r) <==> Wanted(p, r) || (Has(s, r) && !Doomed(p, r)) {
      ConvergedHas(s, p, After(s, p), r);
    }
    LeftByExactIff(s, p, After(s, p));
  }

  /** The same for a reconcile that meets conflicts. */
  lemma GentleExactIff(s: Store, p: Plan, faults: seq<Fault>)
    requires p.spec.replicas >= 1 && Mild(faults)
    ensures var run := Children(Fresh(s, faults), p);
            run.ok && (Exact(run.w.store, p.spec.replicas) <==> WithinReach(s, p))
  {
    hide Children, Exact, WithinReach;
    GentleChildren(Fresh(s, faults), p);
    LeftByExactIff(s, p, Children(Fresh(s, faults), p).w.store);
  }

  // ---- Quiescent states ----

  /** What the latest reconcile found and worked from. */
  datatype Pass = Pass(found: Store, plan: Plan)

  function LastPass(s: System, actions: seq<Action>): Option<Pass>
    requires s.history != []
  {
    if actions == [] then None
    else
      var init, a := actions[..|actions| - 1], actions[|actions| - 1];
      var b := RunAll(s, init);
      if a.Tag? && Enabled(b, a) then Some(Pass(b.store, PlanFor(Tagging(b, a.fault).1, a.addresses)))
      else LastPass(s, init)
  }

  /** Conflicts at most strike the requests on children; anything may happen to the object and its copies. */
  predicate MildlyStruck(a: Action) {
    a.Tag? ==> Mild(a.faults)
  }

  ghost predicate LeftByPass(x: Option<Pass>, t: Store, spec: Spec) {
    x.Some? && LeftBy(x.value.found, x.value.plan, t) && x.value.plan.spec == spec
  }

  ghost predicate PassInv(s: System, x: Option<Pass>)
    requires s.history != []
  {
    && (s.phase.Idle? ==> Pending(s) || LeftByPass(x, s.store, s.Current().spec))
    && (s.phase.Working? ==> LeftByPass(x, s.phase.run.w.store, s.phase.seen.spec))
  }

  lemma EditKeepsPass(s: System, a: Action, x: Option<Pass>)
    requires Inv(s) && PassInv(s, x) && a.Edit? && Heard(s, a)
    ensures PassInv(Next(s, a), x)
  {
    hide Next, LeftByPass;
    var t := Next(s, a);
    EditEffect(s, a);
    if Pending(s) {
      assert t.inbox[..|s.inbox|] == s.inbox;
      assert forall i :: 0 <= i < |s.inbox| ==> t.inbox[i] == s.inbox[i];
    } else if a.spec != s.Current().spec && s.phase.Idle? {
      assert Passes(t.inbox[|s.inbox|]);
    }
  }

  lemma DeliverKeepsPass(s: System, x: Option<Pass>)
    requires Inv(s) && PassInv(s, x) && s.inbox != []
    ensures PassInv(Next(s, Deliver), x)
  {
    hide Next, LeftByPass;
    DeliverEffect(s);
    var t := Next(s, Deliver);
    if i :| 0 <= i < |s.inbox| && Passes(s.inbox[i]) {
      if i > 0 { assert t.inbox[i - 1] == s.inbox[i]; }
    }
  }

  lemma TagStartsPass(s: System, a: Action)
    requires Inv(s) && a.Tag? && Enabled(s, a) && MildlyStruck(a)
    ensures PassInv(Next(s, a), Some(Pass(s.store, PlanFor(Tagging(s, a.fault).1, a.addresses))))
  {
    hide Children, Tagging;
    TaggingFaithful(s, a.fault);
    var p := PlanFor(Tagging(s, a.fault).1, a.addresses);
    GentleChildren(Fresh(s.store, a.faults), p);
  }

  lemma FinishKeepsPass(s: System, a: Action, x: Option<Pass>)
    requires Inv(s) && PassInv(s, x) && a.Finish? && Enabled(s, a)
    ensures PassInv(Next(s, a), x)
  {
    hide Next, LeftByPass;
    FinishEffect(s, a);
  }

  lemma NextKeepsPass(s: System, a: Action, x: Option<Pass>)
    requires Inv(s) && PassInv(s, x) && Enabled(s, a) && MildlyStruck(a) && Heard(s, a) && !a.Tag?
    ensures PassInv(Next(s, a), x)
  {
    hide Children, LeftByPass, Tagging;
    match a
    case Edit(_, _, _) => EditKeepsPass(s, a, x);
    case Deliver => DeliverKeepsPass(s, x);
    case Begin(_) =>
    case Serve =>
    case Finish(_) => FinishKeepsPass(s, a, x);
    case Crash =>
  }

  lemma {:induction false} RunKeepsPass(s: System, actions: seq<Action>)
    requires Due(s) && AllHeard(s, actions) && forall a :: a in actions ==> MildlyStruck(a)
    ensures PassInv(RunAll(s, actions), LastPass(s, actions))
  {
    hide LeftByPass, AllHeard, Heard, Tagging;
    if actions != [] {
      var init, a := actions[..|actions| - 1], actions[|actions| - 1];
      HeardSoFar(s, actions);
      RunKeepsPass(s, init);
      RunKeepsInv(s, init);
      var b := RunAll(s, init);
      if Enabled(b, a) {
        if a.Tag? { TagStartsPass(b, a); } else { NextKeepsPass(b, a, LastPass(s, init)); }
      }
    }
  }

  /**
   A quiescent state has exactly the replicas asked for if and only if the latest reconcile found
   none beyond the spec and the status it worked from: whatever edits, crashes and outdated reads
   came before.
   */
  lemma QuiescentExactIff(s: System, actions: seq<Action>)
    requires Due(s) && AllHeard(s, actions) && forall a :: a in actions ==> MildlyStruck(a)
    requires Quiescent(RunAll(s, actions)) && RunAll(s, actions).Current().spec.replicas >= 1
    ensures var t, x := RunAll(s, actions), LastPass(s, actions);
            x.Some? && (Exact(t.store, t.Current().spec.replicas) <==> WithinReach(x.value.found, x.value.plan))
  {
    hide LastPass, RunAll, Exact, WithinReach;
    RunKeepsPass(s, actions);
    var t, x := RunAll(s, actions), LastPass(s, actions);
    LeftByExactIff(x.value.found, x.value.plan, t.store);
  }

  // ---- Replicas out of reach ----

  /** A replica beyond a settled spec stays as it is, however often the spec is reconciled. */
  lemma {:induction false} OverhangIsForGood(s: Store, p: Plan, k: nat, r: int)
    requires r > p.spec.replicas
    ensures Has(Repeated(s, Settled(p), k), r) <==> Has(s, r)
  {
    hide After;
    if k > 0 {
      OverhangIsForGood(s, p, k - 1, r);
      RepeatedConverged(s, Settled(p), k);
      ConvergedHas(Repeated(s, Settled(p), k - 1), Settled(p), Repeated(s, Settled(p), k), r);
    }
  }

  lemma {:induction false} CreateNothing(w: World, p: Plan, envs: seq<EnvVar>, n: nat, k: nat, f: Fault)
    requires w.faults == Delayed(n + k, f) && forall r :: 1 <= r <= n ==> Has(w.store, r)
    ensures CreateUpTo(w, p, envs, n) == Run(w.(faults := Delayed(k, f)), envs, true)
  {
    hide Delayed, EnsureService, ExtendEnv, Mutate, Look;
    if n >= 1 {
      CreateNothing(w, p, envs, n - 1, k + 1, f);
      var b := CreateUpTo(w, p, envs, n - 1);
      DelayedStep(b.w, k + 1, f, Has(b.w.store, n), DeleteService(Replica(n)));
    }
  }

  lemma CreateShared(s: Store, envs: seq<EnvVar>, k: nat, f: Fault)
    ensures var w := CreateConfigMaps(Fresh(s, Delayed(k + 2, f)), envs);
            && w.faults == Delayed(k, f) && w.store.deployments == s.deployments && w.store.services == s.services
            && ShutdownMap in w.store.configMaps && LoggingMap in w.store.configMaps
            && forall m: Name :: m.SipOf? ==> (m in w.store.configMaps <==> m in s.configMaps)
  {
    hide Delayed, Mutate, LoggingConfig, ShutdownConfig;
    var w0 := Fresh(s, Delayed(k + 2, f));
    var shutdown := CreateConfigMap(ShutdownMap, ShutdownConfig());
    var logging := CreateConfigMap(LoggingMap, LoggingConfig(envs));
    DelayedStep(w0, k + 2, f, true, shutdown);
    DelayedStep(Mutate(w0, shutdown).w, k + 1, f, true, logging);
  }

  /** How many requests `deleteService` makes. */
  function ServiceCost(s: Store, r: int): nat {
    if Replica(r) !in s.services then 1 else if ExporterOf(r) !in s.services then 3 else 4
  }

  lemma DropServiceCost(w: World, r: int, k: nat, f: Fault)
    requires w.faults == Delayed(ServiceCost(w.store, r) + k, f)
    ensures var t := DropService(w, r).w; t.faults == Delayed(k, f) && t.store.deployments == w.store.deployments
  {
    hide Delayed, Mutate, Look;
    var cost := ServiceCost(w.store, r) + k;
    var main, exp := DeleteService(Replica(r)), DeleteService(ExporterOf(r));
    DelayedStep(w, cost, f, Replica(r) in w.store.services, main);
    if Replica(r) in w.store.services {
      var got := Look(w, true);
      DelayedStep(got.w, cost - 1, f, true, main);
      var del := Mutate(got.w, main);
      DelayedStep(del.w, cost - 2, f, ExporterOf(r) in del.w.store.services, exp);
      if ExporterOf(r) in del.w.store.services {
        DelayedStep(Look(del.w, true).w, cost - 3, f, true, exp);
      }
    }
  }

  /** The deletion of the Deployment is the request that is dropped. */
  lemma DropIsLost(w: World, r: int)
    requires w.faults == Delayed(ServiceCost(w.store, r) + 1, Dropped) && Has(w.store, r)
    ensures var t := DropReplica(w, r); t.faults == [] && t.store.deployments == w.store.deployments
  {
    hide DropService;
    DropServiceCost(w, r, 1, Dropped);
    var w1 := DropService(w, r).w;
    DelayedStep(w1, 1, Dropped, true, DeleteDeployment(Replica(r)));
    assert Delayed(0, Dropped) == [Dropped] && [Dropped][1..] == [];
  }

  lemma ScaleDownLost(w: World, p: Plan)
    requires p.spec.replicas >= 1 && p.status == p.spec.replicas + 1 && Has(w.store, p.status)
    requires w.faults == Delayed(ServiceCost(w.store, p.status) + 1, Dropped)
    ensures var t := ScaleDown(w, p); t.faults == [] && t.store.deployments == w.store.deployments
  {
    hide DropReplica;
    DropIsLost(w, p.status);
    var t := DropReplica(w, p.status);
    assert ScaleDownFrom(t, p.spec.replicas, p.status - 1) == t;
  }

  /** What follows the scale-down loop in a run that meets no further fault. */
  lemma UpdateOnly(w: World, p: Plan, envs: seq<EnvVar>, r: int)
    requires w.faults == [] && r > p.spec.replicas && Has(w.store, r)
    requires forall i :: Wanted(p, i) ==> Has(w.store, i)
    ensures var u := UpdateUpTo(PutConfigMaps(w, envs), p, envs, p.spec.replicas); u.ok && Has(u.w.store, r)
  {
    hide UpdateUpTo, PutConfigMaps, Desired;
    var w1 := PutConfigMaps(w, envs);
    PutConfigMapsFree(w, envs);
    forall i | Has(w.store, i) ensures Has(w1.store, i) {
      assert At(w1.store, i) == At(w.store, i) && At(w.store, i).dep.Some?;
    }
    UpdateUpToFree(w1, p, envs, p.spec.replicas);
    var u := UpdateUpTo(w1, p, envs, p.spec.replicas);
    assert At(u.w.store, r) == At(w1.store, r);
    assert At(u.w.store, r).dep.Some?;
  }

  /**
   A deletion that fails in the scale-down loop is swallowed: the reconcile succeeds, writes the
   smaller status, and no later reconcile of the spec removes the replica.
   */
  lemma FailedDeletionStrands(s: Store, p: Plan) returns (faults: seq<Fault>)
    requires p.spec.replicas >= 1 && p.status == p.spec.replicas + 1
    requires forall r :: 1 <= r <= p.status ==> Has(s, r)
    ensures var run := Children(Fresh(s, faults), p);
            run.ok && forall k: nat :: Has(Repeated(run.w.store, Settled(p), k), p.status)
    ensures !Has(After(s, p), p.status)
  {
    hide Delayed, CreateUpTo, CreateConfigMaps, ScaleDown, PutConfigMaps, UpdateUpTo, Repeated, After, Settled;
    var n, cost, envs := p.spec.replicas, ServiceCost(s, p.status), p.spec.environments;
    faults := Delayed(cost + 1 + n + 2, Dropped);
    CreateShared(s, envs, cost + 1 + n, Dropped);
    var w1 := CreateConfigMaps(Fresh(s, faults), envs);
    assert forall r :: Has(w1.store, r) <==> Has(s, r);
    CreateNothing(w1, p, envs, n, cost + 1, Dropped);
    var c := Create(Fresh(s, faults), p, envs);
    assert c.w == w1.(faults := Delayed(cost + 1, Dropped)) && c.envs == envs;
    ScaleDownLost(c.w, p);
    assert forall i :: Has(ScaleDown(c.w, p).store, i) <==> Has(s, i);
    UpdateOnly(ScaleDown(c.w, p), p, envs, p.status);
    var run := Children(Fresh(s, faults), p);
    forall k: nat ensures Has(Repeated(run.w.store, Settled(p), k), p.status) {
      OverhangIsForGood(run.w.store, p, k, p.status);
    }
    AfterConverged(s, p);
    ConvergedHas(s, p, After(s, p), p.status);
  }
}
