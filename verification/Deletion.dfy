/** Deleting the JVB object: what is removed, when nothing is left, and whole lifecycles that leave no trace. */
module Deletion {
  import opened Basics
  import opened Naming
  import opened Resources
  import opened Api
  import opened Program
  import opened FaultFree
  import opened Recovery
  import opened Lifecycle

  // ---- A fault-free deletion ----

  function RemovedSlot(s: Store, n: int, r: int): Slot {
    if 1 <= r <= n then Emptied(At(s, r)) else At(s, r)
  }

  lemma DeleteServiceKeepsConfigMaps(w: World, present: bool, n: Name)
    ensures Mutate(w, DeleteService(n)).w.store.configMaps == w.store.configMaps
    ensures Look(w, present).w.store == w.store
  {
  }

  lemma DropServiceKeepsConfigMaps(w: World, r: int)
    ensures DropService(w, r).w.store.configMaps == w.store.configMaps
  {
    hide Mutate, Look;
    var got := Look(w, Replica(r) in w.store.services);
    DeleteServiceKeepsConfigMaps(w, Replica(r) in w.store.services, Replica(r));
    DeleteServiceKeepsConfigMaps(got.w, true, Replica(r));
    var del := Mutate(got.w, DeleteService(Replica(r)));
    DeleteServiceKeepsConfigMaps(del.w, ExporterOf(r) in del.w.store.services, Replica(r));
    DeleteServiceKeepsConfigMaps(Look(del.w, ExporterOf(r) in del.w.store.services).w, true, ExporterOf(r));
  }

  lemma DropReplicaKeepsConfigMaps(w: World, r: int)
    ensures DropReplica(w, r).store.configMaps == w.store.configMaps
  {
    hide DropService;
    DropServiceKeepsConfigMaps(w, r);
  }

  lemma {:induction false} DropUpToFree(w: World, n: int)
    requires w.faults == []
    ensures var t := DropUpTo(w, n);
            && t.faults == [] && SameForeign(w.store, t.store) && SameShared(w.store, t.store)
            && t.store.configMaps == w.store.configMaps
            && forall r :: At(t.store, r) == RemovedSlot(w.store, n, r)
    decreases if n < 0 then 0 else n
  {
    hide DropReplica, SameForeign, SameShared;
    if n >= 1 {
      DropUpToFree(w, n - 1);
      var b := DropUpTo(w, n - 1);
      DropReplicaFree(b, n);
      DropReplicaKeepsConfigMaps(b, n);
      SameForeignTransitive(w.store, b.store, DropUpTo(w, n).store);
      SameSharedTransitive(w.store, b.store, DropUpTo(w, n).store);
      forall r ensures At(DropUpTo(w, n).store, r) == RemovedSlot(w.store, n, r) {
        assert At(b.store, r) == RemovedSlot(w.store, n - 1, r);
      }
    } else {
      SameRestReflexive(w.store);
    }
  }

  lemma {:induction false} DropConfigMapsFree(w: World, names: seq<Name>)
    requires w.faults == []
    ensures var t := DropConfigMaps(w, names);
            && t.faults == []
            && t.store == w.store.(configMaps := w.store.configMaps - (set n | n in names))
  {
    if names == [] {
      assert w.store.configMaps - (set n | n in names) == w.store.configMaps;
    } else {
      var init, last := names[..|names| - 1], names[|names| - 1];
      DropConfigMapsFree(w, init);
      assert (set n | n in names) == (set n | n in init) + {last};
      assert w.store.configMaps - (set n | n in names) == w.store.configMaps - (set n | n in init) - {last};
    }
  }

  /** The child objects after a fault-free deletion with the ConfigMap listing `names`. */
  function Deleted(s: Store, n: int, names: seq<Name>): Store {
    DropListed(DropUpTo(Fresh(s, []), n), names).store
  }

  predicate Ours(s: Store, n: Name) {
    n in s.configMaps && s.configMaps[n].app == "jvb"
  }

  lemma DeletedSlots(s: Store, n: int, names: seq<Name>, t: Store, r: int)
    requires Lists(names, s) && t == Deleted(s, n, names)
    ensures At(t, r).dep == RemovedSlot(s, n, r).dep
    ensures At(t, r).svc == RemovedSlot(s, n, r).svc
    ensures At(t, r).exp == RemovedSlot(s, n, r).exp
    ensures forall m: Name :: Find(t.configMaps, m) == if Ours(s, m) then None else Find(s.configMaps, m)
    ensures forall m: Name :: !m.Replica? ==> Find(t.deployments, m) == Find(s.deployments, m)
    ensures forall m: Name :: !m.Replica? && !m.ExporterOf? ==> Find(t.services, m) == Find(s.services, m)
  {
    var w := DropUpTo(Fresh(s, []), n);
    DropUpToFree(Fresh(s, []), n);
    DropConfigMapsFree(w, names);
    assert At(w.store, r) == RemovedSlot(s, n, r);
  }

  /** Nothing of what the operator creates is left. */
  ghost predicate Vacant(s: Store) {
    && (forall r :: At(s, r) == Slot(None, None, None, None))
    && ShutdownMap !in s.configMaps && LoggingMap !in s.configMaps
    && (forall m :: !Ours(s, m))
  }

  /** No Deployment, Service or labelled ConfigMap of the operator is left. */
  ghost predicate Swept(s: Store) {
    && (forall r :: At(s, r).dep == None && At(s, r).svc == None && At(s, r).exp == None)
    && (forall m :: !Ours(s, m))
  }

  /** All replicas are within 1..n, and no exporter is without its main Service. */
  ghost predicate Covered(s: Store, n: int) {
    forall r ::
      && (At(s, r).dep.Some? || At(s, r).svc.Some? ==> 1 <= r <= n)
      && (At(s, r).exp.Some? ==> At(s, r).svc.Some?)
  }

  /** Deletion removes everything if and only if the spec's replica count covers what exists. */
  lemma DeletionSweepsIff(s: Store, n: int, names: seq<Name>)
    requires Lists(names, s)
    ensures Swept(Deleted(s, n, names)) <==> Covered(s, n)
  {
    var t := Deleted(s, n, names);
    forall r ensures At(t, r).dep == RemovedSlot(s, n, r).dep
      ensures At(t, r).svc == RemovedSlot(s, n, r).svc && At(t, r).exp == RemovedSlot(s, n, r).exp
    {
      DeletedSlots(s, n, names, t, r);
    }
    DeletedSlots(s, n, names, t, 0);
    forall m ensures !Ours(t, m) {
      assert Find(t.configMaps, m) == if Ours(s, m) then None else Find(s.configMaps, m);
    }
    if Swept(t) {
      forall r ensures At(s, r).dep.Some? || At(s, r).svc.Some? ==> 1 <= r <= n
        ensures At(s, r).exp.Some? ==> At(s, r).svc.Some?
      {
        assert At(t, r).dep == None && At(t, r).svc == None && At(t, r).exp == None;
      }
    }
  }

  // ---- Lifecycles ----

  /** Spec edits, to whatever replica counts, and complete reconciles. */
  predicate Unbroken(hs: seq<Happening>) {
    forall i :: 0 <= i < |hs| ==> hs[i].Completes? || hs[i].Edits?
  }

  /** The replicas that exist at rest: those asked for, or a replica 1 that survived scaling to zero. */
  predicate Live(s: Store, n: int, r: int) {
    if n >= 1 then 1 <= r <= n else r == 1 && Has(s, 1)
  }

  predicate TidySlot(x: Slot, live: bool) {
    && (x.dep.Some? <==> live) && (x.svc.Some? <==> live)
    && (x.exp.Some? ==> live)
    && (x.sip.Some? ==> x.sip.value.app == "jvb")
  }

  /** The operator's objects are those of the live replicas; everything else is as in `s0`. */
  ghost predicate Tidy(s0: Store, s: Store, n: int) {
    && (forall r :: TidySlot(At(s, r), Live(s, n, r)))
    && SameForeign(s0, s)
    && (ShutdownMap in s.configMaps ==> Ours(s, ShutdownMap))
    && (LoggingMap in s.configMaps ==> Ours(s, LoggingMap))
  }

  lemma CompletionTidiesSlot(s: Store, p: Plan, t: Store, r: int)
    requires TidySlot(At(s, r), Live(s, p.status, r)) && Converged(s, p, t)
    ensures TidySlot(At(t, r), Live(t, p.spec.replicas, r))
  {
    hide FinalEnv, ExporterService, InstanceService;
    assert At(t, r) == ConvergedSlot(s, p, r);
    ConvergedHas(s, p, t, 1);
    assert Has(s, r) <==> At(s, r).dep.Some?;
  }

  lemma CompletionTidies(s0: Store, s: Store, p: Plan, t: Store)
    requires Tidy(s0, s, p.status) && Converged(s, p, t)
    ensures Tidy(s0, t, p.spec.replicas)
  {
    hide At, TidySlot, Live;
    forall r ensures TidySlot(At(t, r), Live(t, p.spec.replicas, r)) { CompletionTidiesSlot(s, p, t, r); }
    SameForeignTransitive(s0, s, t);
  }

  lemma {:induction false} LifecycleTidy(x: Site, hs: seq<Happening>)
    requires Vacant(x.store) && x.plan.status == 0 && Unbroken(hs)
    ensures var y := Play(x, hs); Tidy(x.store, y.store, y.plan.status)
    ensures Done(hs) ==> Play(x, hs).plan.status == Play(x, hs).plan.spec.replicas
  {
    if hs == [] {
      forall r ensures TidySlot(At(x.store, r), Live(x.store, 0, r)) {
        assert At(x.store, r) == Slot(None, None, None, None);
        assert At(x.store, 1).dep == None;
      }
    } else {
      var init, h := hs[..|hs| - 1], hs[|hs| - 1];
      LifecycleTidy(x, init);
      var y := Play(x, init);
      if h.Completes? {
        AfterConverged(y.store, y.plan);
        CompletionTidies(x.store, y.store, y.plan, After(y.store, y.plan));
      }
    }
  }

  lemma DeletionRestores(s0: Store, s: Store, n: int, names: seq<Name>, t: Store)
    requires Vacant(s0) && Tidy(s0, s, n) && Lists(names, s) && t == Deleted(s, n, names)
    requires n >= 1 || !Has(s, 1)
    ensures t == s0
  {
    forall r ensures At(t, r) == At(s0, r) {
      DeletedSlots(s, n, names, t, r);
      assert TidySlot(At(s, r), Live(s, n, r));
      assert Find(t.configMaps, SipOf(r)) == if Ours(s, SipOf(r)) then None else Find(s.configMaps, SipOf(r));
      assert At(s0, r) == Slot(None, None, None, None);
    }
    DeletedSlots(s, n, names, t, 0);
    forall m: Name | !m.SipOf? && m != ShutdownMap && m != LoggingMap
      ensures Find(t.configMaps, m) == Find(s0.configMaps, m)
    {
      assert Find(s.configMaps, m) == Find(s0.configMaps, m);
      assert !Ours(s0, m);
    }
    StoreExtensionality(t, s0);
  }

  /** What deletion does not reach: replica 1, when the spec asks for none. */
  lemma DeletionMisses(s0: Store, s: Store, n: int, names: seq<Name>)
    requires Vacant(s0) && Lists(names, s) && n < 1 && Has(s, 1)
    ensures Has(Deleted(s, n, names), 1) && Deleted(s, n, names) != s0
  {
    var t := Deleted(s, n, names);
    DeletedSlots(s, n, names, t, 1);
    assert At(t, 1).dep == At(s, 1).dep && At(t, 1).dep.Some? && At(s0, 1).dep == None;
  }

  /** Some completed reconcile of the history was asked for a replica. */
  predicate EverAsked(x: Site, hs: seq<Happening>) {
    hs != [] && (EverAsked(x, hs[..|hs| - 1])
                 || (hs[|hs| - 1].Completes? && Play(x, hs[..|hs| - 1]).plan.spec.replicas >= 1))
  }

  lemma {:induction false} FirstReplicaStays(x: Site, hs: seq<Happening>)
    requires Vacant(x.store) && x.plan.status == 0 && Unbroken(hs)
    ensures Has(Play(x, hs).store, 1) <==> EverAsked(x, hs)
  {
    if hs == [] {
      assert At(x.store, 1).dep == None;
    } else {
      var init := hs[..|hs| - 1];
      FirstReplicaStays(x, init);
      LifecycleTidy(x, init);
      var y := Play(x, init);
      if hs[|hs| - 1].Completes? {
        AfterConverged(y.store, y.plan);
        ConvergedHas(y.store, y.plan, After(y.store, y.plan), 1);
        assert TidySlot(At(y.store, 1), Live(y.store, y.plan.status, 1));
      }
    }
  }

  /**
   From a namespace without jvb objects, let any sequence of spec edits and complete reconciles
   that ends with a complete reconcile be followed by the deletion. The namespace is as it was if
   and only if the last spec asks for a replica or no reconcile before it
   was asked for one.
   */
  lemma LeakFreeLifecycle(x: Site, hs: seq<Happening>)
    requires Vacant(x.store) && x.plan.status == 0 && Unbroken(hs) && Done(hs)
    ensures var y := Play(x, hs); var n := y.plan.spec.replicas;
            forall names :: Lists(names, y.store) ==>
              (Deleted(y.store, n, names) == x.store <==> n >= 1 || !EverAsked(x, hs))
  {
    hide Play, Deleted, Vacant, Tidy, EverAsked;
    LifecycleTidy(x, hs);
    FirstReplicaStays(x, hs);
    var y := Play(x, hs);
    var n := y.plan.spec.replicas;
    forall names | Lists(names, y.store)
      ensures Deleted(y.store, n, names) == x.store <==> n >= 1 || !EverAsked(x, hs)
    {
      if n >= 1 || !Has(y.store, 1) {
        DeletionRestores(x.store, y.store, n, names, Deleted(y.store, n, names));
      } else {
        DeletionMisses(x.store, y.store, n, names);
      }
    }
  }

  /** Scaling to zero keeps replica 1, and a deletion that follows does not see it. */
  lemma ScalingToZeroLeaks(s: Store, p: Plan, names: seq<Name>)
    requires Has(s, 1) && p.spec.replicas < 1 && p.status >= 1
    requires Lists(names, After(s, p))
    ensures Has(Deleted(After(s, p), p.spec.replicas, names), 1)
  {
    var t := After(s, p);
    AfterConverged(s, p);
    ConvergedHas(s, p, t, 1);
    var u := Deleted(t, p.spec.replicas, names);
    DeletedSlots(t, p.spec.replicas, names, u, 1);
    assert At(u, 1).dep == At(t, 1).dep && At(t, 1).dep.Some?;
  }
}
