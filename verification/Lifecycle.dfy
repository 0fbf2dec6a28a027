/** Whole histories of one JVB object: spec edits, complete reconciles, failed attempts and the final deletion. */
module Lifecycle {
  import opened Basics
  import opened Naming
  import opened Resources
  import opened Api
  import opened Program
  import opened FaultFree
  import opened Footprint
  import opened Recovery
  import opened Conflicts

  /** The child objects together with what the next reconcile will read. */
  datatype Site = Site(store: Store, plan: Plan)

  datatype Happening =
    | Completes                      // a reconcile that meets no fault
    | Fails(attempt: Attempt)        // a reconcile cut short, its status never written
    | Limps(faults: seq<Fault>)      // a reconcile that runs on through swallowed errors
    | Edits(next: Plan)              // the user changes spec, annotations or addresses

  function Happens(x: Site, h: Happening): Site {
    match h
    case Completes => Site(After(x.store, x.plan), Settled(x.plan))
    case Fails(a) => x.(store := Partial(x.store, x.plan, a))
    case Limps(faults) =>
      var run := Children(Fresh(x.store, faults), x.plan);
      Site(run.w.store, if run.ok then Settled(x.plan) else x.plan)
    case Edits(next) => x.(plan := next.(status := x.plan.status))
  }

  function Play(x: Site, hs: seq<Happening>): Site {
    if hs == [] then x else Happens(Play(x, hs[..|hs| - 1]), hs[|hs| - 1])
  }

  // ---- Wiring ----

  ghost predicate LabelledSlot(x: Slot, r: int) {
    && (x.svc.Some? ==> x.svc.value.selector == Replica(r))
    && (x.exp.Some? ==> x.exp.value.selector == Replica(r))
    && (x.dep.Some? ==> x.dep.value.podLabel == Replica(r) && x.dep.value.selector == Replica(r))
  }

  ghost predicate Labelled(s: Store) {
    forall r :: LabelledSlot(At(s, r), r)
  }

  lemma LegitKeepsLabels(s: Store, p: Plan, c: Call, r: int)
    requires Legit(p, s, c) && LabelledSlot(At(s, r), r)
    ensures LabelledSlot(At(Exec(s, c), r), r)
  {
  }

  lemma PartialLabelled(s: Store, p: Plan, a: Attempt)
    requires Labelled(s)
    ensures Labelled(Partial(s, p, a))
  {
    var w0 := Fresh(s, a.faults);
    var rule := StepRule(p, false);
    var inv := u => Labelled(u);
    ChildrenFootprint(w0, p, false);
    forall step: Step, t: Store | rule(step, t) && inv(step.found) ensures inv(t) {
      assert LegitStep(p, false, step, t);
      forall r ensures LabelledSlot(At(t, r), r) { LegitKeepsLabels(step.found, p, step.call, r); }
    }
    var w := Children(w0, p).w;
    InvariantHolds(rule, inv, w0, w, if a.cut < |w.steps| then a.cut else |w.steps|);
  }

  /** A run seen to its end is an attempt that was not cut. */
  lemma PartialWhole(s: Store, p: Plan, faults: seq<Fault>)
    ensures var w := Children(Fresh(s, faults), p).w; Partial(s, p, Attempt(faults, |w.steps|)) == w.store
  {
    hide Children;
  }

  lemma HappensLabelled(x: Site, h: Happening)
    requires Labelled(x.store)
    ensures Labelled(Happens(x, h).store)
  {
    match h
    case Completes =>
      var a := Attempt([], |Children(Fresh(x.store, []), x.plan).w.steps|);
      PartialLabelled(x.store, x.plan, a);
      PartialWhole(x.store, x.plan, []);
    case Fails(a) => PartialLabelled(x.store, x.plan, a);
    case Limps(faults) =>
      var a := Attempt(faults, |Children(Fresh(x.store, faults), x.plan).w.steps|);
      PartialLabelled(x.store, x.plan, a);
      PartialWhole(x.store, x.plan, faults);
    case Edits(_) =>
  }

  lemma {:induction false} PlayLabelled(x: Site, hs: seq<Happening>)
    requires Labelled(x.store)
    ensures Labelled(Play(x, hs).store)
  {
    if hs != [] {
      PlayLabelled(x, hs[..|hs| - 1]);
      HappensLabelled(Play(x, hs[..|hs| - 1]), hs[|hs| - 1]);
    }
  }

  /** Service and pod of a replica find each other, and nobody else, on a port of their own. */
  ghost predicate WiredUp(s: Store, p: Plan, r: int) {
    && Replica(r) in s.services && Has(s, r)
    && var svc, dep := s.services[Replica(r)], s.deployments[Replica(r)];
    && svc.port == svc.targetPort == dep.pod.port == Wrap32((if p.spec.port != 0 then p.spec.port else 10000) + r)
    && svc.portName == "jvb" && svc.protocol == dep.pod.protocol == p.spec.protocol
    && svc.serviceType == p.spec.serviceType && svc.annotations == p.spec.serviceAnnotations
    && svc.selector == dep.podLabel == dep.selector
    && (forall q :: q != r && Has(s, q) ==> s.deployments[Replica(q)].podLabel != svc.selector)
    && (forall q :: q != r && Wanted(p, q) ==>
          Replica(q) in s.services && s.services[Replica(q)].port != svc.port)
    && (p.spec.exporter.kind == "" ==>
          ExporterOf(r) in s.services && s.services[ExporterOf(r)].selector == dep.podLabel)
  }

  /** A replica mounts its own SIP options and the two shared files, all of them as the spec has them. */
  ghost predicate Configured(s: Store, p: Plan, r: int) {
    && Has(s, r)
    && var pod := s.deployments[Replica(r)].pod; var mounts := pod.mounts;
    && pod.image == p.spec.image
    && pod.exporter == (var x := p.spec.exporter;
                        if x.kind == "telegraf" then Telegraf(x.image, x.environments)
                        else Videobridge(x.image, x.port))
    && (forall m: Name :: m in mounts && !m.Foreign? <==> m in {SipOf(r), ShutdownMap, LoggingMap})
    && (forall m: Name :: m in mounts && m.Foreign? <==>
          p.spec.exporter.kind == "telegraf" && m == Foreign(p.spec.exporter.configMap))
    && Find(s.configMaps, SipOf(r)) == Some(ConfigMap("jvb", SipOptions(p.spec.customSip)))
    && Find(s.configMaps, ShutdownMap) == Some(ConfigMap("jvb", ShutdownScript))
    && Find(s.configMaps, LoggingMap) == Some(ConfigMap("jvb", LoggingAt(LoggingLevel(p.spec.environments))))
  }

  lemma ConvergedPorts(s: Store, p: Plan, t: Store, r: int)
    requires Converged(s, p, t) && Wanted(p, r)
    ensures Replica(r) in t.services && Has(t, r) && SipOf(r) in t.configMaps
    ensures t.deployments[Replica(r)].pod == PodFor(p, r, FinalEnv(s, p))
    ensures t.services[Replica(r)].port == t.services[Replica(r)].targetPort == PortOf(p, r)
    ensures var svc := t.services[Replica(r)];
            && svc.protocol == p.spec.protocol && svc.portName == "jvb"
            && svc.serviceType == p.spec.serviceType && svc.annotations == p.spec.serviceAnnotations
    ensures p.spec.exporter.kind == "" ==> At(t, r).exp.Some? && ExporterOf(r) in t.services
  {
    assert At(t, r) == ConvergedSlot(s, p, r);
    assert At(t, r).svc.Some? && At(t, r).dep.Some? && At(t, r).sip.Some?;
  }

  lemma ConvergedWiring(s: Store, p: Plan, t: Store, r: int)
    requires Converged(s, p, t) && Labelled(t) && Wanted(p, r) && p.spec.replicas <= MAX_INT32
    ensures WiredUp(t, p, r)
  {
    ConvergedPorts(s, p, t, r);
    assert LabelledSlot(At(t, r), r);
    forall q | q != r && Wanted(p, q)
      ensures Replica(q) in t.services && t.services[Replica(q)].port != t.services[Replica(r)].port
    {
      ConvergedPorts(s, p, t, q);
      if PortOf(p, q) == PortOf(p, r) { Wrap32Injective(BasePort(p.spec) + q, BasePort(p.spec) + r); }
    }
    forall q | q != r && Has(t, q) ensures t.deployments[Replica(q)].podLabel != Replica(r) {
      assert LabelledSlot(At(t, q), q);
    }
  }

  /** Whatever happened before, a complete reconcile leaves every replica wired up. */
  lemma WiringTheorem(x: Site, hs: seq<Happening>, r: int)
    requires Labelled(x.store)
    requires Wanted(Play(x, hs).plan, r) && Play(x, hs).plan.spec.replicas <= MAX_INT32
    ensures WiredUp(Happens(Play(x, hs), Completes).store, Play(x, hs).plan, r)
  {
    var y := Play(x, hs);
    PlayLabelled(x, hs);
    HappensLabelled(y, Completes);
    AfterConverged(y.store, y.plan);
    ConvergedWiring(y.store, y.plan, After(y.store, y.plan), r);
  }

  /** Whatever happened before, a complete reconcile leaves every replica with the configuration of the spec. */
  lemma ConfigurationTheorem(s: Store, p: Plan, r: int)
    requires Wanted(p, r)
    ensures Configured(After(s, p), p, r)
  {
    var t := After(s, p);
    AfterConverged(s, p);
    ConvergedPorts(s, p, t, r);
    assert At(t, r) == ConvergedSlot(s, p, r);
    assert t.deployments[Replica(r)].pod.mounts == Mounts(p, r);
  }

  /**
   The exporter Service is created once and never updated: it tells the metrics port of the
   spec exactly when it was not there before, or told that port already.
   */
  lemma ExporterPortIff(s: Store, p: Plan, r: int)
    requires Wanted(p, r) && p.spec.exporter.kind == ""
    ensures Has(After(s, p), r)
    ensures var x, pod := At(After(s, p), r).exp, After(s, p).deployments[Replica(r)].pod;
            && x.Some? && pod.exporter == Videobridge(p.spec.exporter.image, p.spec.exporter.port)
            && (x.value.port == pod.exporter.port <==>
                  At(s, r).exp.None? || At(s, r).exp.value.port == p.spec.exporter.port)
  {
    AfterConverged(s, p);
    ConvergedPorts(s, p, After(s, p), r);
    assert At(After(s, p), r) == ConvergedSlot(s, p, r);
  }

  /**
   A replica as the source builds it: of the main Service only the selector survives, the exporter
   Service is made only where there is none, and of the Deployment labels and annotations survive.
   */
  predicate Built(x: Slot, y: Slot, p: Plan, r: int) {
    var port := Wrap32((if p.spec.port != 0 then p.spec.port else 10000) + r);
    var selector := if x.svc.Some? then x.svc.value.selector else Replica(r);
    var metrics := p.spec.exporter.port;
    && y.svc == Some(Service(p.spec.serviceAnnotations, p.spec.serviceType, "jvb", p.spec.protocol,
                             port, port, selector))
    && y.exp == (if x.exp.Some? || p.spec.exporter.kind != "" then x.exp
                 else Some(Service(map[], "ClusterIP", "exporter", "TCP", metrics, metrics, Replica(r))))
    && y.dep.Some?
    && (if x.dep.Some? then y.dep.value == x.dep.value.(pod := y.dep.value.pod)
        else y.dep.value == Deployment(Replica(r), Replica(r), p.annotations, y.dep.value.pod))
  }

  lemma DesiredIsBuilt(x: Slot, p: Plan, r: int, env: seq<EnvVar>)
    ensures Built(x, Desired(x, p, r, env), p, r)
  {
    hide PodFor;
  }

  /** A reconcile builds every replica asked for, whatever it finds. */
  lemma ReplicaAfter(s: Store, p: Plan, r: int)
    requires Wanted(p, r)
    ensures Built(At(s, r), At(After(s, p), r), p, r)
  {
    hide FinalEnv, PodFor, Built, Desired, After, At;
    AfterConverged(s, p);
    assert At(After(s, p), r) == ConvergedSlot(s, p, r);
    DesiredIsBuilt(At(s, r), p, r, FinalEnv(s, p));
  }

  /** And of the others: a doomed replica loses all but its SIP options, the rest is left alone. */
  lemma OthersAfter(s: Store, p: Plan, r: int)
    requires !(1 <= r <= p.spec.replicas)
    ensures var x, y := At(s, r), At(After(s, p), r);
            if p.spec.replicas < r <= p.status && (r > 1 || p.status < 1)
            then y == Slot(None, None, if x.svc.Some? then None else x.exp, x.sip) else y == x
  {
    AfterConverged(s, p);
    assert At(After(s, p), r) == ConvergedSlot(s, p, r);
  }

  // ---- Equipment at every atomic step ----

  /** Every replica finds the ConfigMaps it mounts. */
  ghost predicate AllMounted(s: Store) {
    forall r :: Has(s, r) ==> SharedThere(s) && SipOf(r) in s.configMaps
  }

  lemma OrderlyKeepsMounted(p: Plan, s: Store, c: Call)
    requires Legit(p, s, c) && Orderly(p, s, c) && AllMounted(s)
    ensures AllMounted(Exec(s, c))
  {
    var t := Exec(s, c);
    forall r | Has(t, r) ensures SharedThere(t) && SipOf(r) in t.configMaps {
      if !Has(s, r) { assert c.CreateDeployment? && c.name == Replica(r); }
    }
  }

  /**
   At every API call of a reconcile that meets conflicts at most, every replica finds what it
   mounts, and none is created before its Service.
   */
  lemma EquippedAtEveryStep(s: Store, p: Plan, a: Attempt)
    requires AllMounted(s) && Mild(a.faults)
    ensures AllMounted(Partial(s, p, a))
    ensures forall step :: step in Children(Fresh(s, a.faults), p).w.steps && step.call.CreateDeployment? ==>
              step.call.name.Replica? && Equipped(step.found, step.call.name.index)
  {
    hide Children, AllMounted;
    var w0 := Fresh(s, a.faults);
    var rule := StepRule(p, true);
    var inv := u => AllMounted(u);
    ChildrenFootprint(w0, p, true);
    forall step: Step, t: Store | rule(step, t) && inv(step.found) ensures inv(t) {
      assert LegitStep(p, true, step, t);
      OrderlyKeepsMounted(p, step.found, step.call);
    }
    var w := Children(w0, p).w;
    InvariantHolds(rule, inv, w0, w, if a.cut < |w.steps| then a.cut else |w.steps|);
    forall step | step in w.steps && step.call.CreateDeployment?
      ensures step.call.name.Replica? && Equipped(step.found, step.call.name.index)
    {
      var k :| 0 <= k < |w.steps| && w.steps[k] == step;
      assert StepRule(p, true)(w.steps[k], StoreAt(w, k + 1));
    }
  }

  // ---- Prefix at every atomic step ----

  ghost predicate Interval(s: Store, k: int) {
    k >= 0 && forall r :: Has(s, r) <==> 1 <= r <= k
  }

  /** How many replicas there may be while a reconcile of the plan is under way. */
  predicate Between(p: Plan, k: int) {
    Min(p.spec.replicas, p.status) <= k <= Max(1, Max(p.spec.replicas, p.status))
  }

  ghost predicate InStep(s: Store, p: Plan) {
    exists k :: Interval(s, k) && Between(p, k)
  }

  lemma OrderlyKeepsInStep(p: Plan, s: Store, c: Call)
    requires Legit(p, s, c) && Orderly(p, s, c) && InStep(s, p)
    ensures InStep(Exec(s, c), p)
  {
    var k :| Interval(s, k) && Between(p, k);
    var t := Exec(s, c);
    if c.CreateDeployment? && !Has(s, c.name.index) {
      assert Has(t, c.name.index) && c.name.index == k + 1;
      assert forall r :: Has(t, r) <==> Has(s, r) || r == k + 1;
      assert Interval(t, k + 1);
    } else if c.DeleteDeployment? && Has(s, c.name.index) {
      assert c.name.index <= k;
      assert Has(s, k);
      assert c.name.index == k;
      assert forall r :: Has(t, r) <==> Has(s, r) && r != k;
      assert Interval(t, k - 1);
    } else {
      assert forall r :: Has(t, r) <==> Has(s, r);
      assert Interval(t, k);
    }
  }

  lemma PartialInStep(s: Store, p: Plan, a: Attempt)
    requires InStep(s, p) && Mild(a.faults)
    ensures InStep(Partial(s, p, a), p)
  {
    var w0 := Fresh(s, a.faults);
    var rule := StepRule(p, true);
    var inv := u => InStep(u, p);
    ChildrenFootprint(w0, p, true);
    forall step: Step, t: Store | rule(step, t) && inv(step.found) ensures inv(t) {
      assert LegitStep(p, true, step, t);
      OrderlyKeepsInStep(p, step.found, step.call);
    }
    var w := Children(w0, p).w;
    InvariantHolds(rule, inv, w0, w, if a.cut < |w.steps| then a.cut else |w.steps|);
  }

  /** The replicas that are left when `n` have been asked for; replica 1 survives scaling to zero. */
  ghost predicate Steady(s: Store, n: int) {
    exists k :: Interval(s, k) && if n >= 1 then k == n else k <= 1
  }

  /** A reconcile of the plan has been completed. */
  ghost predicate AtRest(s: Store, p: Plan) {
    p.status == p.spec.replicas && Steady(s, p.status)
  }

  lemma IndicesRest(s: Store, p: Plan, t: Store)
    requires InStep(s, p)
    requires forall r :: Has(t, r) <==> Wanted(p, r) || (Has(s, r) && !Doomed(p, r))
    ensures Steady(t, p.spec.replicas)
  {
    var k :| Interval(s, k) && Between(p, k);
    if p.spec.replicas >= 1 {
      assert Interval(t, p.spec.replicas);
    } else {
      assert Interval(t, Min(k, 1));
    }
  }

  lemma CompletionRests(s: Store, p: Plan, t: Store)
    requires InStep(s, p) && Converged(s, p, t)
    ensures AtRest(t, Settled(p))
  {
    forall r ensures Has(t, r) <==> Wanted(p, r) || (Has(s, r) && !Doomed(p, r)) {
      ConvergedHas(s, p, t, r);
    }
    IndicesRest(s, p, t);
  }

  lemma SteadyInStep(s: Store, p: Plan)
    requires Steady(s, p.status)
    ensures InStep(s, p)
  {
    var k :| Interval(s, k) && if p.status >= 1 then k == p.status else k <= 1;
    assert Interval(s, k) && Between(p, k);
  }

  /** The last spec has been reconciled to the end. */
  predicate Done(hs: seq<Happening>) {
    hs != [] && match hs[|hs| - 1]
                case Completes => true
                case Edits(_) => false
                case Limps(faults) => Mild(faults) || Done(hs[..|hs| - 1])
                case Fails(_) => Done(hs[..|hs| - 1])
  }

  /**
   Reconciles may be cut off anywhere and meet any version conflicts, but the spec changes only
   once the last one is done.
   */
  predicate Patient(hs: seq<Happening>) {
    hs == [] ||
    var init := hs[..|hs| - 1];
    Patient(init) &&
    match hs[|hs| - 1]
    case Completes => true
    case Fails(a) => Mild(a.faults)
    case Limps(faults) => Mild(faults)
    case Edits(_) => Done(init)
  }

  lemma {:induction false} PatientInvariant(x: Site, hs: seq<Happening>)
    requires Interval(x.store, 0) && x.plan.status == 0 && Patient(hs)
    ensures InStep(Play(x, hs).store, Play(x, hs).plan)
    ensures Done(hs) ==> AtRest(Play(x, hs).store, Play(x, hs).plan)
  {
    if hs == [] {
      assert Between(x.plan, 0);
    } else {
      var init, h := hs[..|hs| - 1], hs[|hs| - 1];
      PatientInvariant(x, init);
      var y := Play(x, init);
      match h {
        case Completes =>
          AfterConverged(y.store, y.plan);
          CompletionRests(y.store, y.plan, After(y.store, y.plan));
          SteadyInStep(After(y.store, y.plan), Settled(y.plan));
        case Fails(a) =>
          PartialInStep(y.store, y.plan, a);
          if Done(init) { PartialAtRest(y.store, y.plan, a); }
        case Limps(faults) =>
          LimpRests(y.store, y.plan, faults);
          SteadyInStep(Happens(y, h).store, Settled(y.plan));
        case Edits(next) =>
          SteadyInStep(y.store, next.(status := y.plan.status));
      }
    }
  }

  /** A reconcile that meets conflicts only is as good as a complete one, as far as the indices go. */
  lemma LimpRests(s: Store, p: Plan, faults: seq<Fault>)
    requires InStep(s, p) && Mild(faults)
    ensures var run := Children(Fresh(s, faults), p); run.ok && AtRest(run.w.store, Settled(p))
  {
    hide Children;
    GentleChildren(Fresh(s, faults), p);
    IndicesRest(s, p, Children(Fresh(s, faults), p).w.store);
  }

  /** Repeating a reconcile that is done leaves the replicas alone at every step. */
  lemma PartialAtRest(s: Store, p: Plan, a: Attempt)
    requires AtRest(s, p) && Mild(a.faults)
    ensures AtRest(Partial(s, p, a), p)
  {
    SteadyInStep(s, p);
    PartialInStep(s, p, a);
  }

  /**
   At every API call of every reconcile, cut off or not, and with whatever version conflicts,
   the replicas in existence are exactly 1..k for some k.
   */
  lemma PrefixAtEveryStep(x: Site, hs: seq<Happening>, a: Attempt)
    requires Interval(x.store, 0) && x.plan.status == 0 && Patient(hs) && Mild(a.faults)
    ensures InStep(Partial(Play(x, hs).store, Play(x, hs).plan, a), Play(x, hs).plan)
  {
    PatientInvariant(x, hs);
    PartialInStep(Play(x, hs).store, Play(x, hs).plan, a);
  }

  lemma ContinuesStoreAt(p: Plan, a: World, b: World)
    requires Continues(p, false, a, b)
    ensures |a.steps| <= |b.steps| && StoreAt(b, |a.steps|) == a.store
  {
  }

  /** No fault makes a reconcile remove a replica the spec asks for, or create one it does not. */
  lemma ServedIndices(s: Store, p: Plan, faults: seq<Fault>)
    ensures forall step :: step in Children(Fresh(s, faults), p).w.steps ==> ServesWithin(p, step.call)
  {
    hide Children;
    ChildrenFootprint(Fresh(s, faults), p, false);
    var w := Children(Fresh(s, faults), p).w;
    forall step | step in w.steps ensures ServesWithin(p, step.call) {
      var k :| 0 <= k < |w.steps| && w.steps[k] == step;
      assert StepRule(p, false)(w.steps[k], StoreAt(w, k + 1));
    }
  }

  /** Deployments up to the spec are written only, and those above it, up to the status, deleted only. */
  predicate ServesWithin(p: Plan, c: Call) {
    && (c.CreateDeployment? || c.UpdateDeployment? ==> c.name.Replica? && 1 <= c.name.index <= p.spec.replicas)
    && (c.DeleteDeployment? ==> c.name.Replica? && p.spec.replicas < c.name.index <= p.status)
  }
}
