/** What repeated reconciles of one plan achieve: fixpoints, recovery from cut and faulty attempts. */
module Recovery {
  import opened Basics
  import opened Naming
  import opened Resources
  import opened Api
  import opened Program
  import opened Environment
  import opened FaultFree
  import opened Footprint

  /** The child objects after a complete fault-free reconcile. */
  function After(s: Store, p: Plan): Store {
    Children(Fresh(s, []), p).w.store
  }

  lemma AfterConverged(s: Store, p: Plan)
    ensures Converged(s, p, After(s, p))
  {
    ChildrenFree(Fresh(s, []), p);
  }

  /** The plan of the next reconcile, once the status has been written. */
  function Settled(p: Plan): Plan {
    p.(status := p.spec.replicas)
  }

  // ---- Fixpoint ----

  lemma NothingMissing(s: Store, p: Plan)
    requires forall r :: Wanted(p, r) ==> Has(s, r)
    ensures BlockIndex(s, p) == 1
  {
    FirstMissingIsLeast(s, p.spec.replicas);
  }

  lemma ConvergedHas(s: Store, p: Plan, t: Store, r: int)
    requires Converged(s, p, t)
    ensures Has(t, r) <==> Wanted(p, r) || (Has(s, r) && !Doomed(p, r))
  {
    assert At(t, r) == ConvergedSlot(s, p, r);
    assert Has(t, r) <==> At(t, r).dep.Some?;
    assert Has(s, r) <==> At(s, r).dep.Some?;
  }

  /** The second reconcile changes at most the environment of the pods. */
  lemma SecondPass(s: Store, p: Plan, t: Store, u: Store, r: int)
    requires Converged(s, p, t) && Converged(t, Settled(p), u)
    ensures At(u, r) == if Wanted(p, r) then Desired(At(s, r), p, r, ExtendEnv(p, p.spec.environments, 1)) else At(t, r)
  {
    hide Desired, ExtendEnv, At, Emptied, SameForeign;
    ExtendSettled(p, 1);
    var q := Settled(p);
    forall i | Wanted(q, i) ensures Has(t, i) { ConvergedHas(s, p, t, i); }
    NothingMissing(t, q);
    assert At(u, r) == ConvergedSlot(t, q, r);
    assert At(t, r) == ConvergedSlot(s, p, r);
    assert !Doomed(q, r);
    if Wanted(p, r) {
      DesiredTwice(At(s, r), p, r, FinalEnv(s, p), FinalEnv(t, q));
    }
  }

  /** What a replica is meant to look like does not depend on the status, and aiming twice is aiming once. */
  lemma DesiredTwice(x: Slot, p: Plan, r: int, env: seq<EnvVar>, env': seq<EnvVar>)
    ensures Desired(Desired(x, p, r, env), Settled(p), r, env') == Desired(x, p, r, env')
  {
  }

  lemma ExtendSettled(p: Plan, r: int)
    ensures ExtendEnv(Settled(p), Settled(p).spec.environments, r) == ExtendEnv(p, p.spec.environments, r)
  {
    hide Itoa, Wrap32, HasName;
    assert PortBlock(Settled(p), r) == PortBlock(p, r);
  }

  lemma SecondPassFrame(s: Store, p: Plan, t: Store, u: Store)
    requires Converged(s, p, t) && Converged(t, Settled(p), u)
    ensures SameForeign(t, u) && SameShared(t, u)
  {
  }

  lemma ThirdPassSlot(s: Store, p: Plan, t: Store, u: Store, v: Store, r: int)
    requires Converged(s, p, t) && Converged(t, Settled(p), u) && Converged(u, Settled(p), v)
    ensures At(v, r) == At(u, r)
  {
    hide Desired, ExtendEnv, FinalEnv, At, SameForeign;
    ExtendSettled(p, 1);
    SecondPass(s, p, t, u, r);
    SecondPass(t, Settled(p), u, v, r);
    if Wanted(p, r) {
      assert At(t, r) == ConvergedSlot(s, p, r);
      DesiredTwice(At(s, r), p, r, FinalEnv(s, p), ExtendEnv(p, p.spec.environments, 1));
    }
  }

  lemma ThirdPass(s: Store, p: Plan, t: Store, u: Store, v: Store)
    requires Converged(s, p, t) && Converged(t, Settled(p), u) && Converged(u, Settled(p), v)
    ensures v == u
  {
    forall r ensures At(v, r) == At(u, r) { ThirdPassSlot(s, p, t, u, v, r); }
    SecondPassFrame(t, Settled(p), u, v);
    StoreExtensionality(u, v);
  }

  /** The store after `k` complete reconciles of one plan. */
  function Repeated(s: Store, p: Plan, k: nat): Store {
    if k == 0 then s
    else After(Repeated(s, p, k - 1), if k == 1 then p else Settled(p))
  }

  lemma RepeatedConverged(s: Store, p: Plan, k: nat)
    requires k >= 1
    ensures Converged(Repeated(s, p, k - 1), if k == 1 then p else Settled(p), Repeated(s, p, k))
  {
    AfterConverged(Repeated(s, p, k - 1), if k == 1 then p else Settled(p));
  }

  /** From the second reconcile on, reconciling changes nothing. */
  lemma {:induction false} FixpointAfterTwo(s: Store, p: Plan, k: nat)
    requires k >= 2
    ensures Repeated(s, p, k) == Repeated(s, p, 2)
  {
    if k > 2 {
      FixpointAfterTwo(s, p, k - 1);
      RepeatedConverged(s, p, 1);
      RepeatedConverged(s, p, 2);
      RepeatedConverged(s, p, k);
      ThirdPass(s, p, Repeated(s, p, 1), Repeated(s, p, 2), Repeated(s, p, k));
    }
  }

  /** Blocks for different replicas differ, because ports and their decimal forms do. */
  lemma BlocksDiffer(p: Plan, envs: seq<EnvVar>, q: int, r: int)
    requires -0x1_0000_0000 < q - r < 0x1_0000_0000
    requires WantsBlock(p, envs)
    ensures ExtendEnv(p, envs, q) == ExtendEnv(p, envs, r) <==> q == r
  {
    if ExtendEnv(p, envs, q) == ExtendEnv(p, envs, r) {
      var a, b := ExtendEnv(p, envs, q), ExtendEnv(p, envs, r);
      var i := |a| - |PortBlock(p, q)|;
      assert a[i..] == PortBlock(p, q) && b[i..] == PortBlock(p, r);
      var j := if p.spec.protocol == "TCP" then 1 else 0;
      assert PortBlock(p, q)[j].value == PortBlock(p, r)[j].value;
      ItoaInjective(PortOf(p, q), PortOf(p, r));
      Wrap32Injective(BasePort(p.spec) + q, BasePort(p.spec) + r);
    }
  }

  /** Replica 1 is the first one missing, or none is. */
  ghost predicate StartsAtOne(s: Store, p: Plan) {
    !Has(s, 1) || forall r :: Wanted(p, r) ==> Has(s, r)
  }

  /** The list handed to the pods is the one for replica 1. */
  lemma FinalEnvIsFirst(s: Store, p: Plan)
    requires 1 <= p.spec.replicas <= MAX_INT32
    ensures FinalEnv(s, p) == ExtendEnv(p, p.spec.environments, 1) <==>
            !WantsBlock(p, p.spec.environments) || StartsAtOne(s, p)
  {
    FirstMissingIsLeast(s, p.spec.replicas);
    if WantsBlock(p, p.spec.environments) { BlocksDiffer(p, p.spec.environments, BlockIndex(s, p), 1); }
  }

  lemma SecondPassIdleIff(s: Store, p: Plan, t: Store, u: Store)
    requires Converged(s, p, t) && Converged(t, Settled(p), u)
    ensures u == t <==> p.spec.replicas < 1 || FinalEnv(s, p) == ExtendEnv(p, p.spec.environments, 1)
  {
    if p.spec.replicas < 1 || FinalEnv(s, p) == ExtendEnv(p, p.spec.environments, 1) {
      forall r ensures At(u, r) == At(t, r) {
        SecondPass(s, p, t, u, r);
        assert At(t, r) == ConvergedSlot(s, p, r);
      }
      SecondPassFrame(s, p, t, u);
      StoreExtensionality(t, u);
    } else {
      SecondPass(s, p, t, u, 1);
      assert At(t, 1) == ConvergedSlot(s, p, 1);
      assert At(u, 1).dep.value.pod.env != At(t, 1).dep.value.pod.env;
    }
  }

  /**
   One reconcile is already a fixpoint exactly when there is no replica, no block is
   generated, or the block is the one for replica 1.
   */
  lemma FixpointAfterOneIff(s: Store, p: Plan)
    requires p.spec.replicas <= MAX_INT32
    ensures Repeated(s, p, 2) == Repeated(s, p, 1) <==>
            p.spec.replicas < 1 || !WantsBlock(p, p.spec.environments) || StartsAtOne(s, p)
  {
    RepeatedConverged(s, p, 1);
    RepeatedConverged(s, p, 2);
    SecondPassIdleIff(s, p, Repeated(s, p, 1), Repeated(s, p, 2));
    if p.spec.replicas >= 1 { FinalEnvIsFirst(s, p); }
  }

  // ---- Environment ----

  /**
   Every replica gets the same list: the spec's, followed by the block for one index, which
   announces a replica's own port for that index only.
   */
  lemma OneBlockForAll(s: Store, p: Plan, r: int)
    requires Wanted(p, r) && p.spec.replicas <= MAX_INT32
    ensures Has(After(s, p), r)
    ensures var pod, envs := After(s, p).deployments[Replica(r)].pod, p.spec.environments;
            && pod.port == PortOf(p, r)
            && (!WantsBlock(p, envs) ==> pod.env == envs)
            && (WantsBlock(p, envs) ==>
                  pod.env == envs + AddedVars(p, envs, BlockIndex(s, p))
                  && (pod.env == envs + AddedVars(p, envs, r) <==> r == BlockIndex(s, p)))
    ensures 1 <= BlockIndex(s, p) <= p.spec.replicas
    ensures forall i :: 1 <= i < BlockIndex(s, p) ==> Has(s, i)
    ensures Has(s, BlockIndex(s, p)) ==> forall i :: Wanted(p, i) ==> Has(s, i)
  {
    AfterConverged(s, p);
    assert At(After(s, p), r) == ConvergedSlot(s, p, r);
    assert At(After(s, p), r).dep.Some?;
    FirstMissingIsLeast(s, p.spec.replicas);
    if WantsBlock(p, p.spec.environments) {
      BlocksDiffer(p, p.spec.environments, BlockIndex(s, p), r);
    }
  }

  // ---- Recovery ----

  /** Where a replica is headed, leaving aside its environment list and the exporter of a doomed one. */
  function Heading(x: Slot, p: Plan, r: int): Slot {
    if Wanted(p, r) then Desired(x, p, r, [])
    else if Doomed(p, r) then Emptied(x).(exp := None)
    else x
  }

  /** The exporter Service of a doomed replica is what it was, or gone. */
  predicate Dwindles(x: Slot, y: Slot, p: Plan, r: int) {
    Doomed(p, r) ==> y.exp == None || y.exp == x.exp
  }

  ghost predicate OnCourse(s: Store, p: Plan, u: Store) {
    && (forall r :: Heading(At(u, r), p, r) == Heading(At(s, r), p, r) && Dwindles(At(s, r), At(u, r), p, r))
    && SameForeign(s, u)
  }

  lemma ExecElsewhere(s: Store, c: Call, r: int)
    requires c.name !in {Replica(r), ExporterOf(r), SipOf(r)}
    ensures At(Exec(s, c), r) == At(s, r)
  {
  }

  lemma DeploymentKeepsHeading(s: Store, p: Plan, c: Call, r: int)
    requires Legit(p, s, c) && c.name == Replica(r)
    requires c.CreateDeployment? || c.UpdateDeployment? || c.DeleteDeployment?
    ensures Heading(At(Exec(s, c), r), p, r) == Heading(At(s, r), p, r)
    ensures At(Exec(s, c), r).exp == At(s, r).exp
  {
    hide EnvOf;
  }

  lemma ServiceKeepsHeading(s: Store, p: Plan, c: Call, r: int)
    requires Legit(p, s, c) && (c.CreateService? || c.UpdateService? || c.DeleteService?)
    requires c.name == Replica(r) || c.name == ExporterOf(r)
    ensures Heading(At(Exec(s, c), r), p, r) == Heading(At(s, r), p, r)
    ensures Doomed(p, r) ==> At(Exec(s, c), r).exp == None || At(Exec(s, c), r).exp == At(s, r).exp
  {
  }

  lemma ConfigMapKeepsHeading(s: Store, p: Plan, c: Call, r: int)
    requires Legit(p, s, c) && (c.CreateConfigMap? || c.UpdateConfigMap?) && c.name == SipOf(r)
    ensures Heading(At(Exec(s, c), r), p, r) == Heading(At(s, r), p, r)
    ensures At(Exec(s, c), r).exp == At(s, r).exp
  {
  }

  /** No legitimate request changes where a replica is headed. */
  lemma LegitKeepsHeading(s: Store, p: Plan, c: Call, r: int)
    requires Legit(p, s, c)
    ensures Heading(At(Exec(s, c), r), p, r) == Heading(At(s, r), p, r)
    ensures Dwindles(At(s, r), At(Exec(s, c), r), p, r)
  {
    hide Heading, At, Exec, EnvOf;
    if c.name !in {Replica(r), ExporterOf(r), SipOf(r)} {
      ExecElsewhere(s, c, r);
    } else if c.CreateDeployment? || c.UpdateDeployment? || c.DeleteDeployment? {
      DeploymentKeepsHeading(s, p, c, r);
    } else if c.CreateService? || c.UpdateService? || c.DeleteService? {
      ServiceKeepsHeading(s, p, c, r);
    } else {
      ConfigMapKeepsHeading(s, p, c, r);
    }
  }

  lemma LegitKeepsForeign(s: Store, p: Plan, c: Call)
    requires Legit(p, s, c)
    ensures SameForeign(s, Exec(s, c))
  {
  }

  lemma LegitKeepsCourse(s: Store, p: Plan, u: Store, c: Call)
    requires Legit(p, u, c) && OnCourse(s, p, u)
    ensures OnCourse(s, p, Exec(u, c))
  {
    hide Heading, Legit, At, SameForeign;
    var t := Exec(u, c);
    forall r ensures Heading(At(t, r), p, r) == Heading(At(s, r), p, r) && Dwindles(At(s, r), At(t, r), p, r) {
      LegitKeepsHeading(u, p, c, r);
    }
    LegitKeepsForeign(u, p, c);
    SameForeignTransitive(s, u, t);
  }

  /** An attempt struck by faults, of which only the first `cut` effective requests were served. */
  datatype Attempt = Attempt(faults: seq<Fault>, cut: nat)

  function Partial(s: Store, p: Plan, a: Attempt): Store {
    var w := Children(Fresh(s, a.faults), p).w;
    StoreAt(w, if a.cut < |w.steps| then a.cut else |w.steps|)
  }

  lemma PartialOnCourse(s: Store, p: Plan, a: Attempt, u: Store)
    requires OnCourse(s, p, u)
    ensures OnCourse(s, p, Partial(u, p, a))
  {
    hide OnCourse, Children, Legit;
    var w0 := Fresh(u, a.faults);
    var w := Children(w0, p).w;
    ChildrenFootprint(w0, p, false);
    var rule := StepRule(p, false);
    var inv := v => OnCourse(s, p, v);
    forall step: Step, t: Store | rule(step, t) && inv(step.found) ensures inv(t) {
      assert LegitStep(p, false, step, t);
      LegitKeepsCourse(s, p, step.found, step.call);
    }
    InvariantHolds(rule, inv, w0, w, if a.cut < |w.steps| then a.cut else |w.steps|);
  }

  /** The store after any number of failed attempts, one after the other. */
  function Attempted(s: Store, p: Plan, attempts: seq<Attempt>): Store {
    if attempts == [] then s
    else Partial(Attempted(s, p, attempts[..|attempts| - 1]), p, attempts[|attempts| - 1])
  }

  lemma {:induction false} AttemptedOnCourse(s: Store, p: Plan, attempts: seq<Attempt>)
    ensures OnCourse(s, p, Attempted(s, p, attempts))
  {
    hide Heading, Partial, Dwindles;
    if attempts == [] {
      NowhereYet(s, p);
    } else {
      AttemptedOnCourse(s, p, attempts[..|attempts| - 1]);
      PartialOnCourse(s, p, attempts[|attempts| - 1], Attempted(s, p, attempts[..|attempts| - 1]));
    }
  }

  lemma NowhereYet(s: Store, p: Plan)
    ensures OnCourse(s, p, s)
  {
  }

  /** Two slots that agree except for the environment of the pod. */
  predicate SameButEnv(x: Slot, y: Slot) {
    && x.svc == y.svc && x.sip == y.sip && x.dep.Some? == y.dep.Some?
    && (x.dep.Some? ==> x.dep.value == y.dep.value.(pod := y.dep.value.pod.(env := x.dep.value.pod.env)))
  }

  lemma WantedConverge(s: Store, m: Store, p: Plan, v: Store, u: Store, r: int)
    requires OnCourse(s, p, m) && Converged(s, p, v) && Converged(m, p, u) && Wanted(p, r)
    ensures SameButEnv(At(u, r), At(v, r)) && At(u, r).exp == At(v, r).exp
    ensures At(u, r).dep.Some? && At(u, r).dep.value.pod.env == FinalEnv(m, p)
    ensures At(v, r).dep.Some? && At(v, r).dep.value.pod.env == FinalEnv(s, p)
  {
    hide FinalEnv, At, InstanceService, ExporterService, SipConfig;
    assert At(u, r) == ConvergedSlot(m, p, r) == Desired(At(m, r), p, r, FinalEnv(m, p));
    assert At(v, r) == ConvergedSlot(s, p, r) == Desired(At(s, r), p, r, FinalEnv(s, p));
    assert Heading(At(m, r), p, r) == Heading(At(s, r), p, r);
  }

  /** An exporter Service whose main Service is gone. */
  predicate Stranded(x: Slot) {
    x.exp.Some? && x.svc.None?
  }

  lemma DoomedConverge(s: Store, m: Store, p: Plan, v: Store, u: Store, r: int)
    requires OnCourse(s, p, m) && Converged(s, p, v) && Converged(m, p, u) && Doomed(p, r)
    ensures SameButEnv(At(u, r), At(v, r)) && At(u, r).dep == At(v, r).dep
    ensures At(u, r).exp == At(v, r).exp <==> (Stranded(At(m, r)) <==> Stranded(At(s, r)))
  {
    hide At;
    assert At(u, r) == ConvergedSlot(m, p, r) == Emptied(At(m, r));
    assert At(v, r) == ConvergedSlot(s, p, r) == Emptied(At(s, r));
    assert Heading(At(m, r), p, r) == Heading(At(s, r), p, r) && Dwindles(At(s, r), At(m, r), p, r);
  }

  lemma OthersConverge(s: Store, m: Store, p: Plan, v: Store, u: Store, r: int)
    requires OnCourse(s, p, m) && Converged(s, p, v) && Converged(m, p, u) && !Doomed(p, r) && !Wanted(p, r)
    ensures At(u, r) == At(v, r)
  {
    hide At;
    assert At(u, r) == ConvergedSlot(m, p, r) == At(m, r);
    assert At(v, r) == ConvergedSlot(s, p, r) == At(s, r);
    assert Heading(At(m, r), p, r) == Heading(At(s, r), p, r);
  }

  /** Stores reached from two starting points headed the same way. */
  lemma SameHeadingConverges(s: Store, m: Store, p: Plan, v: Store, u: Store, r: int)
    requires OnCourse(s, p, m) && Converged(s, p, v) && Converged(m, p, u)
    ensures SameButEnv(At(u, r), At(v, r))
    ensures !Doomed(p, r) ==> At(u, r).exp == At(v, r).exp
  {
    hide OnCourse, Converged, At;
    if Wanted(p, r) {
      WantedConverge(s, m, p, v, u, r);
    } else if Doomed(p, r) {
      DoomedConverge(s, m, p, v, u, r);
    } else {
      OthersConverge(s, m, p, v, u, r);
    }
  }

  /** When the two stores hold the same for one replica. */
  lemma SlotExactIff(s: Store, m: Store, p: Plan, v: Store, u: Store, r: int)
    requires OnCourse(s, p, m) && Converged(s, p, v) && Converged(m, p, u)
    ensures At(u, r) == At(v, r) <==>
            (Wanted(p, r) ==> FinalEnv(m, p) == FinalEnv(s, p))
            && (Doomed(p, r) ==> (Stranded(At(m, r)) <==> Stranded(At(s, r))))
  {
    hide OnCourse, Converged, At, FinalEnv, Stranded;
    if Wanted(p, r) {
      WantedConverge(s, m, p, v, u, r);
    } else if Doomed(p, r) {
      DoomedConverge(s, m, p, v, u, r);
    } else {
      OthersConverge(s, m, p, v, u, r);
    }
  }

  /**
   However often a reconcile has been cut short or struck by faults, one complete reconcile
   then yields the Deployments, Services, ConfigMaps and ports of an undisturbed run; only the
   environment lists, and the exporters of replicas that had to go, may differ.
   */
  lemma CrashRecovery(s: Store, p: Plan, attempts: seq<Attempt>)
    ensures var u, v := After(Attempted(s, p, attempts), p), After(s, p);
            && (forall r :: SameButEnv(At(u, r), At(v, r)))
            && (forall r :: !Doomed(p, r) ==> At(u, r).exp == At(v, r).exp)
            && SameForeign(v, u) && SameShared(v, u)
  {
    hide After, OnCourse, Converged, SameButEnv, At, SameForeign, SameShared;
    var m := Attempted(s, p, attempts);
    var u, v := After(m, p), After(s, p);
    AttemptedOnCourse(s, p, attempts);
    AfterConverged(m, p);
    AfterConverged(s, p);
    SameRest(s, m, p, v, u);
    forall r ensures SameButEnv(At(u, r), At(v, r)) && (!Doomed(p, r) ==> At(u, r).exp == At(v, r).exp) {
      SameHeadingConverges(s, m, p, v, u, r);
    }
  }

  /** The same doomed replicas have an exporter Service without a main Service. */
  ghost predicate SameStranded(s: Store, m: Store, p: Plan) {
    forall r :: Doomed(p, r) ==> (Stranded(At(m, r)) <==> Stranded(At(s, r)))
  }

  /** The generated block, if any, is for the same index. */
  ghost predicate SameBlock(s: Store, m: Store, p: Plan) {
    p.spec.replicas < 1 || !WantsBlock(p, p.spec.environments) || BlockIndex(m, p) == BlockIndex(s, p)
  }

  lemma SameBlockIff(s: Store, m: Store, p: Plan)
    requires p.spec.replicas <= MAX_INT32
    ensures SameBlock(s, m, p) <==> (p.spec.replicas < 1 || FinalEnv(m, p) == FinalEnv(s, p))
  {
    hide ExtendEnv, WantsBlock;
    FirstMissingIsLeast(s, p.spec.replicas);
    FirstMissingIsLeast(m, p.spec.replicas);
    if p.spec.replicas >= 1 && WantsBlock(p, p.spec.environments) {
      BlocksDiffer(p, p.spec.environments, BlockIndex(m, p), BlockIndex(s, p));
    } else if p.spec.replicas >= 1 {
      NoBlock(p, p.spec.environments, BlockIndex(m, p));
      NoBlock(p, p.spec.environments, BlockIndex(s, p));
    }
  }

  lemma NoBlock(p: Plan, envs: seq<EnvVar>, r: int)
    requires !WantsBlock(p, envs)
    ensures ExtendEnv(p, envs, r) == envs
  {
  }

  lemma RecoveryExactIff(s: Store, m: Store, p: Plan, v: Store, u: Store)
    requires OnCourse(s, p, m) && Converged(s, p, v) && Converged(m, p, u)
    ensures u == v <==> (p.spec.replicas < 1 || FinalEnv(m, p) == FinalEnv(s, p)) && SameStranded(s, m, p)
  {
    hide OnCourse, At, FinalEnv, Stranded;
    if u == v {
      forall r | Doomed(p, r) ensures Stranded(At(m, r)) <==> Stranded(At(s, r)) { SlotExactIff(s, m, p, v, u, r); }
      SlotExactIff(s, m, p, v, u, 1);
    } else if (p.spec.replicas < 1 || FinalEnv(m, p) == FinalEnv(s, p)) && SameStranded(s, m, p) {
      forall r ensures At(u, r) == At(v, r) { SlotExactIff(s, m, p, v, u, r); }
      SameRest(s, m, p, v, u);
      StoreExtensionality(u, v);
    }
  }

  lemma SameRest(s: Store, m: Store, p: Plan, v: Store, u: Store)
    requires OnCourse(s, p, m) && Converged(s, p, v) && Converged(m, p, u)
    ensures SameForeign(u, v) && SameForeign(v, u) && SameShared(u, v) && SameShared(v, u)
  {
    hide At, Heading, Dwindles;
  }

  /**
   Recovery is exact if and only if the disturbed attempts left the generated block to the same
   index, and cut no exporter Service loose from a replica that had to go.
   */
  lemma CrashRecoveryExactIff(s: Store, p: Plan, attempts: seq<Attempt>)
    requires p.spec.replicas <= MAX_INT32
    ensures var m := Attempted(s, p, attempts);
            After(m, p) == After(s, p) <==> SameBlock(s, m, p) && SameStranded(s, m, p)
  {
    hide After, OnCourse, Converged, SameBlock, SameStranded, FinalEnv;
    var m := Attempted(s, p, attempts);
    AttemptedOnCourse(s, p, attempts);
    AfterConverged(m, p);
    AfterConverged(s, p);
    RecoveryExactIff(s, m, p, After(s, p), After(m, p));
    SameBlockIff(s, m, p);
  }

  // ---- The exporter that recovery cannot reach ----

  /** What is left of a reconcile after the first `deleteService` of its scale-down loop. */
  lemma RestOfRun(w1: World, p: Plan, envs: seq<EnvVar>)
    requires p.status > p.spec.replicas && p.status > 1 && EnvState(p, envs)
    ensures Continues(p, false, DropService(w1, p.status).w, UpdateChildren(w1, p, envs).w)
  {
    hide Continues, UpdateUpTo, PutConfigMaps, DropService, ScaleDownFrom;
    var d := DropService(w1, p.status).w;
    var got := Look(d, Has(d.store, p.status));
    LookContinues(p, false, d, Has(d.store, p.status));
    if got.err == Ok {
      MutateContinues(p, false, got.w, DeleteDeployment(Replica(p.status)));
      ContinuesTransitive(p, false, d, got.w, Mutate(got.w, DeleteDeployment(Replica(p.status))).w);
    }
    var w2 := DropReplica(w1, p.status);
    assert Continues(p, false, d, w2);
    ScaleDownFromFootprint(w2, p, false, p.status - 1);
    var w3 := ScaleDownFrom(w2, p.spec.replicas, p.status - 1);
    ContinuesTransitive(p, false, d, w2, w3);
    FirstDrop(w1, p);
    var w4 := PutConfigMaps(w3, envs);
    PutConfigMapsFootprint(w3, p, false, envs);
    ContinuesTransitive(p, false, d, w3, w4);
    UpdateUpToFootprint(w4, p, false, envs, p.spec.replicas);
    ContinuesTransitive(p, false, d, w4, UpdateUpTo(w4, p, envs, p.spec.replicas).w);
  }

  lemma FirstDrop(w: World, p: Plan)
    requires p.status > p.spec.replicas && p.status > 1
    ensures ScaleDown(w, p) == ScaleDownFrom(DropReplica(w, p.status), p.spec.replicas, p.status - 1)
  {
    hide DropReplica;
  }

  lemma DropServiceSteps(w: World, r: int)
    requires w.faults == [] && Replica(r) in w.store.services && ExporterOf(r) in w.store.services
    ensures var d := DropService(w, r).w;
            |d.steps| == |w.steps| + 2 && d.steps[|w.steps| + 1].found == Exec(w.store, DeleteService(Replica(r)))
  {
  }

  /**
   A crash between the two deletions of `deleteService` leaves an exporter Service that no
   later reconcile of the plan removes, although an undisturbed reconcile would have.
   */
  lemma CutStrandsExporter(s: Store, p: Plan) returns (cut: nat)
    requires p.status > p.spec.replicas && p.status > 1
    requires At(s, p.status).svc.Some? && At(s, p.status).exp.Some?
    ensures At(After(Partial(s, p, Attempt([], cut)), p), p.status).exp.Some?
    ensures At(After(s, p), p.status).exp == None
  {
    hide After, Partial, Children, DropService, UpdateChildren, Create, Continues, ExtendEnv;
    var r := p.status;
    var c := Create(Fresh(s, []), p, p.spec.environments);
    CreateFree(Fresh(s, []), p);
    CreateFootprint(Fresh(s, []), p, true);
    assert At(c.w.store, r) == CreatedSlot(s, p, r, p.spec.replicas) == At(s, r);
    var d := DropService(c.w, r).w;
    DropServiceSteps(c.w, r);
    RestOfRun(c.w, p, c.envs);
    cut := |c.w.steps| + 1;
    var m := Partial(s, p, Attempt([], cut));
    ChildrenSplit(Fresh(s, []), p);
    PartialPastDrop(s, p, d, cut);
    assert At(m, r).svc == None && At(m, r).exp.Some?;
    AfterConverged(m, p);
    AfterConverged(s, p);
    assert At(After(m, p), r) == ConvergedSlot(m, p, r);
    assert At(After(s, p), r) == ConvergedSlot(s, p, r);
  }

  lemma PartialPastDrop(s: Store, p: Plan, d: World, cut: nat)
    requires cut < |d.steps|
    ensures Continues(p, false, d, Children(Fresh(s, []), p).w) ==>
              Partial(s, p, Attempt([], cut)) == d.steps[cut].found
  {
    hide Children, LegitStep;
    var w := Children(Fresh(s, []), p).w;
    if Continues(p, false, d, w) { ExtendsStoreAt(d, w, cut); }
  }

  lemma ChildrenSplit(w: World, p: Plan)
    ensures var c := Create(w, p, p.spec.environments); Children(w, p) == UpdateChildren(c.w, p, c.envs)
  {
    hide Create, UpdateChildren;
  }
}
