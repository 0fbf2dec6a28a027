/**
 Deletions that are cut short or struck by faults: what they leave, whether the controller takes
 them up again, and what they come to if it does.
 */
module Removal {
  import opened Basics
  import opened Naming
  import opened Resources
  import opened Api
  import opened Program
  import opened Footprint
  import opened Deletion
  import opened EventLoop
  import opened SelfTrigger
  import opened Uninterrupted

  // ---- The requests of a deletion ----

  /** A deletion of replicas 1..n that started in `base` may make this request. */
  ghost predicate Removes(base: Store, n: int, found: Store, c: Call) {
    match c
    case DeleteDeployment(m) => m.Replica? && 1 <= m.index <= n
    case DeleteService(m) =>
      && (m.Replica? || m.ExporterOf?) && 1 <= m.index <= n
      && (m.ExporterOf? ==> Replica(m.index) in base.services && Replica(m.index) !in found.services)
    case DeleteConfigMap(m) => Ours(base, m)
    case _ => false
  }

  /** What a deletion may have made of a slot `x`: an exporter Service goes after its main Service only. */
  predicate SlotLeft(x: Slot, y: Slot, removable: bool) {
    && (y.dep == x.dep || (removable && y.dep == None))
    && (y.svc == x.svc || (removable && y.svc == None))
    && (y.exp == x.exp || (removable && y.exp == None && y.svc == None && x.svc.Some?))
  }

  ghost predicate Left(base: Store, n: int, u: Store) {
    && (forall r :: SlotLeft(At(base, r), At(u, r), 1 <= r <= n))
    && RestLeft(base, u)
  }

  ghost predicate RestLeft(base: Store, u: Store) {
    && (forall m: Name ::
          Find(u.configMaps, m) == Find(base.configMaps, m) || (Ours(base, m) && Find(u.configMaps, m) == None))
    && (forall m: Name :: !m.Replica? ==> Find(u.deployments, m) == Find(base.deployments, m))
    && (forall m: Name :: !m.Replica? && !m.ExporterOf? ==> Find(u.services, m) == Find(base.services, m))
  }

  lemma LeftAtFirst(base: Store, n: int)
    ensures Left(base, n, base)
  {
  }

  lemma RemovesKeepsSlot(base: Store, n: int, u: Store, c: Call, r: int)
    requires Removes(base, n, u, c) && SlotLeft(At(base, r), At(u, r), 1 <= r <= n)
    ensures SlotLeft(At(base, r), At(Exec(u, c), r), 1 <= r <= n)
  {
  }

  lemma RemovesKeepsRest(base: Store, n: int, u: Store, c: Call)
    requires Removes(base, n, u, c) && RestLeft(base, u)
    ensures RestLeft(base, Exec(u, c))
  {
  }

  lemma RemovesKeepsLeft(base: Store, n: int, u: Store, c: Call)
    requires Removes(base, n, u, c) && Left(base, n, u)
    ensures Left(base, n, Exec(u, c))
  {
    hide SlotLeft, At, RestLeft, Removes, Exec;
    forall r ensures SlotLeft(At(base, r), At(Exec(u, c), r), 1 <= r <= n) { RemovesKeepsSlot(base, n, u, c, r); }
    RemovesKeepsRest(base, n, u, c);
  }

  ghost predicate RemovalStep(base: Store, n: int, step: Step, after: Store) {
    Removes(base, n, step.found, step.call) && after == Exec(step.found, step.call)
  }

  ghost function RemovalRule(base: Store, n: int): (Step, Store) -> bool {
    (step, after) => RemovalStep(base, n, step, after)
  }

  /** `b` continues `a` by requests of the deletion only. */
  ghost predicate GoesOn(base: Store, n: int, a: World, b: World) {
    b.obj == a.obj && b.events == a.events && Extends(a, b) && Obeys(RemovalRule(base, n), a, b)
  }

  lemma GoesOnReflexive(base: Store, n: int, w: World)
    ensures GoesOn(base, n, w, w)
  {
  }

  lemma GoesOnTransitive(base: Store, n: int, a: World, b: World, c: World)
    requires GoesOn(base, n, a, b) && GoesOn(base, n, b, c)
    ensures GoesOn(base, n, a, c)
  {
    ObeysTransitive(RemovalRule(base, n), a, b, c);
  }

  lemma LeftAlong(base: Store, n: int, a: World, b: World, k: nat)
    requires GoesOn(base, n, a, b) && Left(base, n, a.store) && |a.steps| <= k <= |b.steps|
    ensures Left(base, n, StoreAt(b, k))
  {
    hide Left, Removes;
    var rule := RemovalRule(base, n);
    var inv := u => Left(base, n, u);
    forall step: Step, t: Store | rule(step, t) && inv(step.found) ensures inv(t) {
      assert RemovalStep(base, n, step, t);
      RemovesKeepsLeft(base, n, step.found, step.call);
    }
    InvariantHolds(rule, inv, a, b, k);
  }

  lemma LookGoesOn(base: Store, n: int, w: World, present: bool)
    ensures GoesOn(base, n, w, Look(w, present).w)
    ensures Look(w, present).w.store == w.store
    ensures Look(w, present).err == Ok ==> present
  {
  }

  lemma MutateGoesOn(base: Store, n: int, w: World, c: Call)
    requires Removes(base, n, w.store, c) && Left(base, n, w.store)
    ensures GoesOn(base, n, w, Mutate(w, c).w)
    ensures Left(base, n, Mutate(w, c).w.store)
  {
    hide Removes, Left, Exec;
    var s := Served(Spent(w), c);
    assert s.steps[..|w.steps|] == w.steps && s.steps[|w.steps|] == Step(w.store, c);
    assert StoreAt(s, |w.steps|) == w.store && StoreAt(s, |w.steps| + 1) == Exec(w.store, c);
    RemovesKeepsLeft(base, n, w.store, c);
  }

  // ---- The program ----

  lemma DropServiceGoesOn(base: Store, n: int, w: World, r: int)
    requires Left(base, n, w.store) && 1 <= r <= n
    ensures GoesOn(base, n, w, DropService(w, r).w) && Left(base, n, DropService(w, r).w.store)
  {
    hide GoesOn, Left, Mutate, Look;
    var got := Look(w, Replica(r) in w.store.services);
    LookGoesOn(base, n, w, Replica(r) in w.store.services);
    if got.err == Ok {
      HadService(base, n, w.store, r);
      var del := Mutate(got.w, DeleteService(Replica(r)));
      MutateGoesOn(base, n, got.w, DeleteService(Replica(r)));
      ConfirmedDeletion(got.w, Replica(r));
      GoesOnTransitive(base, n, w, got.w, del.w);
      if del.err == Ok {
        var exp := Look(del.w, ExporterOf(r) in del.w.store.services);
        LookGoesOn(base, n, del.w, ExporterOf(r) in del.w.store.services);
        GoesOnTransitive(base, n, w, del.w, exp.w);
        if exp.err == Ok {
          MutateGoesOn(base, n, exp.w, DeleteService(ExporterOf(r)));
          GoesOnTransitive(base, n, w, exp.w, DropService(w, r).w);
        }
      }
    }
  }

  /** A Service that is left was there at first. */
  lemma HadService(base: Store, n: int, u: Store, r: int)
    requires Left(base, n, u) && Replica(r) in u.services
    ensures Replica(r) in base.services
  {
    assert SlotLeft(At(base, r), At(u, r), 1 <= r <= n);
    assert At(u, r).svc.Some?;
  }

  lemma DropReplicaGoesOn(base: Store, n: int, w: World, r: int)
    requires Left(base, n, w.store) && 1 <= r <= n
    ensures GoesOn(base, n, w, DropReplica(w, r)) && Left(base, n, DropReplica(w, r).store)
  {
    hide GoesOn, Left, Mutate, Look, DropService;
    var w1 := DropService(w, r).w;
    DropServiceGoesOn(base, n, w, r);
    var got := Look(w1, Has(w1.store, r));
    LookGoesOn(base, n, w1, Has(w1.store, r));
    GoesOnTransitive(base, n, w, w1, got.w);
    if got.err == Ok {
      MutateGoesOn(base, n, got.w, DeleteDeployment(Replica(r)));
      GoesOnTransitive(base, n, w, got.w, DropReplica(w, r));
    }
  }

  lemma {:induction false} DropUpToGoesOn(base: Store, n: int, w: World, m: int)
    requires Left(base, n, w.store) && m <= n
    ensures GoesOn(base, n, w, DropUpTo(w, m)) && Left(base, n, DropUpTo(w, m).store)
    decreases if m < 0 then 0 else m
  {
    hide GoesOn, Left, DropReplica;
    if m >= 1 {
      DropUpToGoesOn(base, n, w, m - 1);
      DropReplicaGoesOn(base, n, DropUpTo(w, m - 1), m);
      GoesOnTransitive(base, n, w, DropUpTo(w, m - 1), DropUpTo(w, m));
    } else {
      GoesOnReflexive(base, n, w);
    }
  }

  lemma {:induction false} DropConfigMapsGoesOn(base: Store, n: int, w: World, names: seq<Name>)
    requires Left(base, n, w.store) && forall m :: m in names ==> Ours(base, m)
    ensures GoesOn(base, n, w, DropConfigMaps(w, names)) && Left(base, n, DropConfigMaps(w, names).store)
  {
    hide GoesOn, Left, Mutate;
    if names != [] {
      var init, last := names[..|names| - 1], names[|names| - 1];
      DropConfigMapsGoesOn(base, n, w, init);
      MutateGoesOn(base, n, DropConfigMaps(w, init), DeleteConfigMap(last));
      GoesOnTransitive(base, n, w, DropConfigMaps(w, init), DropConfigMaps(w, names));
    } else {
      GoesOnReflexive(base, n, w);
    }
  }

  lemma DeletionGoesOn(base: Store, n: int, w: World, names: seq<Name>)
    requires w.store == base && Lists(names, base)
    ensures GoesOn(base, n, w, DropListed(DropUpTo(w, n), names))
  {
    hide GoesOn, Left, Look, DropUpTo, DropConfigMaps;
    LeftAtFirst(base, n);
    var d := DropUpTo(w, n);
    DropUpToGoesOn(base, n, w, n);
    var got := Look(d, true);
    LookGoesOn(base, n, d, true);
    GoesOnTransitive(base, n, w, d, got.w);
    if got.err == Ok {
      DropConfigMapsGoesOn(base, n, got.w, names);
      GoesOnTransitive(base, n, w, got.w, DropConfigMaps(got.w, names));
    }
  }

  // ---- The order of a deletion ----

  ghost function KindRule(maps: bool): (Step, Store) -> bool {
    (step: Step, after: Store) => step.call.DeleteConfigMap? == maps
  }

  /** All requests between the two worlds delete ConfigMaps, or none does. */
  ghost predicate OfKind(maps: bool, a: World, b: World) {
    Extends(a, b) && Obeys(KindRule(maps), a, b)
  }

  lemma KindTransitive(maps: bool, a: World, b: World, c: World)
    requires OfKind(maps, a, b) && OfKind(maps, b, c)
    ensures OfKind(maps, a, c)
  {
    ObeysTransitive(KindRule(maps), a, b, c);
  }

  lemma KindReflexive(maps: bool, w: World)
    ensures OfKind(maps, w, w)
  {
  }

  lemma RequestsOfKind(w: World, present: bool, c: Call)
    ensures OfKind(c.DeleteConfigMap?, w, Mutate(w, c).w)
    ensures OfKind(true, w, Look(w, present).w) && OfKind(false, w, Look(w, present).w)
  {
    hide Exec, Verdict;
    var s := Served(Spent(w), c);
    assert s.steps[..|w.steps|] == w.steps && s.steps[|w.steps|] == Step(w.store, c);
  }

  lemma DropReplicaOfKind(w: World, r: int)
    ensures OfKind(false, w, DropReplica(w, r))
  {
    hide OfKind, Mutate, Look;
    var main, exp, dep := DeleteService(Replica(r)), DeleteService(ExporterOf(r)), DeleteDeployment(Replica(r));
    var got := Look(w, Replica(r) in w.store.services);
    RequestsOfKind(w, Replica(r) in w.store.services, main);
    RequestsOfKind(got.w, true, main);
    var del := Mutate(got.w, main);
    KindTransitive(false, w, got.w, del.w);
    var left := ExporterOf(r) in del.w.store.services;
    RequestsOfKind(del.w, left, exp);
    KindTransitive(false, w, del.w, Look(del.w, left).w);
    RequestsOfKind(Look(del.w, left).w, true, exp);
    KindTransitive(false, w, Look(del.w, left).w, Mutate(Look(del.w, left).w, exp).w);
    var w1 := DropService(w, r).w;
    assert OfKind(false, w, w1);
    var inst := Look(w1, Has(w1.store, r));
    RequestsOfKind(w1, Has(w1.store, r), dep);
    KindTransitive(false, w, w1, inst.w);
    RequestsOfKind(inst.w, true, dep);
    KindTransitive(false, w, inst.w, Mutate(inst.w, dep).w);
  }

  lemma {:induction false} DropUpToOfKind(w: World, n: int)
    ensures OfKind(false, w, DropUpTo(w, n))
    decreases if n < 0 then 0 else n
  {
    hide OfKind, DropReplica;
    if n >= 1 {
      DropUpToOfKind(w, n - 1);
      DropReplicaOfKind(DropUpTo(w, n - 1), n);
      KindTransitive(false, w, DropUpTo(w, n - 1), DropUpTo(w, n));
    } else {
      KindReflexive(false, w);
    }
  }

  lemma {:induction false} DropConfigMapsOfKind(w: World, names: seq<Name>)
    ensures OfKind(true, w, DropConfigMaps(w, names))
  {
    hide OfKind, Mutate;
    if names != [] {
      var init, c := names[..|names| - 1], DeleteConfigMap(names[|names| - 1]);
      DropConfigMapsOfKind(w, init);
      RequestsOfKind(DropConfigMaps(w, init), true, c);
      KindTransitive(true, w, DropConfigMaps(w, init), DropConfigMaps(w, names));
    } else {
      KindReflexive(true, w);
    }
  }

  /** Under any faults a deletion turns to the ConfigMaps only when it is through with the replicas. */
  lemma ConfigMapsGoLast(w: World, o: JvbObject, names: seq<Name>, i: nat, j: nat)
    requires w.obj == Some(o) && o.deleting
    ensures var u := ReconcileDeleting(w, o, names).w;
            |w.steps| <= i < j < |u.steps| && u.steps[i].call.DeleteConfigMap? ==> u.steps[j].call.DeleteConfigMap?
  {
    hide OfKind, DropUpTo, DropConfigMaps, Look, RemoveFinalizer;
    ReleaseEffect(w, o);
    var t := RemoveFinalizer(w, o).w;
    var d := DropUpTo(t, o.spec.replicas);
    DropUpToOfKind(t, o.spec.replicas);
    RequestsOfKind(d, true, DeleteConfigMap(ShutdownMap));
    var got := Look(d, true);
    DropConfigMapsOfKind(got.w, names);
    KindTransitive(true, d, got.w, DropConfigMaps(got.w, names));
    var u := ReconcileDeleting(w, o, names).w;
    if |w.steps| <= i < j < |u.steps| && u.steps[i].call.DeleteConfigMap? { FirstThen(t, d, u, i, j); }
  }

  lemma FirstThen(a: World, b: World, c: World, i: nat, j: nat)
    requires OfKind(false, a, b) && OfKind(true, b, c)
    requires |a.steps| <= i < j < |c.steps| && c.steps[i].call.DeleteConfigMap?
    ensures c.steps[j].call.DeleteConfigMap?
  {
    if i < |b.steps| {
      ExtendsStoreAt(b, c, i);
    }
    assert KindRule(true)(c.steps[j], StoreAt(c, j + 1));
  }

  // ---- Cuts ----

  /** A deletion that stops before the release of the object, or `served` requests on children after it. */
  datatype Cut = BeforeRelease | AfterRelease(served: nat)

  /** What the next reconcile finds, itself spared by faults. */
  function CutOff(w: World, o: JvbObject, names: seq<Name>, cut: Cut): World {
    match cut
    case BeforeRelease => World(w.store, w.obj, w.events, [], [])
    case AfterRelease(served) =>
      var t := RemoveFinalizer(w, o).w;
      var u := ReconcileDeleting(w, o, names).w;
      World(StoreAt(u, Min(|t.steps| + served, |u.steps|)), t.obj, t.events, [], [])
  }

  /** The deletion has taken the operator's finalizer off the stored object. */
  predicate Released(w: World, o: JvbObject, cut: Cut) {
    cut.AfterRelease? && FINALIZER in o.finalizers && Lands(NextFault(w))
  }

  /** Somebody other than the operator holds on to the object. */
  predicate HeldByOthers(o: JvbObject) {
    exists i :: 0 <= i < |o.finalizers| && o.finalizers[i] != FINALIZER
  }

  /** The object outlives the cut: the release did not land, or somebody else holds on to it. */
  predicate Outlives(w: World, o: JvbObject, cut: Cut) {
    Released(w, o, cut) ==> HeldByOthers(o)
  }

  lemma {:induction false} WithoutEmptyIff(s: seq<string>, x: string)
    ensures Without(s, x) == [] <==> forall i :: 0 <= i < |s| ==> s[i] == x
  {
    if s != [] {
      WithoutEmptyIff(s[1..], x);
      assert forall i :: 1 <= i < |s| ==> s[i] == s[1..][i - 1];
    }
  }

  /** The release: the object and the event it leaves. */
  lemma ReleaseEffect(w: World, o: JvbObject)
    requires w.obj == Some(o) && o.deleting
    ensures var t, rest := RemoveFinalizer(w, o).w, Without(o.finalizers, FINALIZER);
            && t.store == w.store && t.steps == w.steps
            && (if !Released(w, o, AfterRelease(0)) then t.obj == Some(o) && t.events == w.events
                else if rest == [] then t.obj == None && t.events == w.events + [Removed(o)]
                else t.obj.Some? && t.obj.value == o.(finalizers := rest, version := o.version + 1)
                     && t.events == w.events + [Updated(o, t.obj.value)])
  {
    hide Without;
    WithoutIsGone(o.finalizers, FINALIZER);
  }

  lemma CutObject(w: World, o: JvbObject, names: seq<Name>, cut: Cut)
    requires w.obj == Some(o) && o.deleting
    ensures var v := CutOff(w, o, names, cut);
            && v.faults == [] && (v.obj.Some? <==> Outlives(w, o, cut))
            && (v.obj.Some? ==> v.obj.value.deleting && v.obj.value.spec == o.spec)
            && v.events == w.events + v.events[|w.events|..]
            && (if Released(w, o, cut) then Count(v.events[|w.events|..]) == 1 else v.events == w.events)
  {
    hide DropUpTo, DropListed, Without;
    ReleaseEffect(w, o);
    WithoutEmptyIff(o.finalizers, FINALIZER);
    var v := CutOff(w, o, names, cut);
    if Released(w, o, cut) {
      var e := v.events[|w.events|];
      assert v.events == w.events + [e] && Passes(e);
      CountOne(e);
      assert v.events[|w.events|..] == [e];
    } else {
      assert v.events[|w.events|..] == [];
    }
  }

  lemma CutStore(w: World, o: JvbObject, names: seq<Name>, cut: Cut)
    requires w.obj == Some(o) && o.deleting && Lists(names, w.store)
    ensures Left(w.store, o.spec.replicas, CutOff(w, o, names, cut).store)
  {
    hide DropUpTo, DropListed, Left, GoesOn, RemoveFinalizer, Lists;
    var n := o.spec.replicas;
    LeftAtFirst(w.store, n);
    if cut.AfterRelease? {
      ReleaseEffect(w, o);
      var t := RemoveFinalizer(w, o).w;
      var u := ReconcileDeleting(w, o, names).w;
      DeletionGoesOn(w.store, n, t, names);
      GoesOnLonger(w.store, n, t, u);
      LeftAlong(w.store, n, t, u, Min(|t.steps| + cut.served, |u.steps|));
    }
  }

  lemma GoesOnLonger(base: Store, n: int, a: World, b: World)
    requires GoesOn(base, n, a, b)
    ensures |a.steps| <= |b.steps|
  {
  }

  /**
   Wherever a deletion is cut, and whatever faults have struck it, the next reconcile takes it up
   again if and only if the object outlives the cut: it then deletes everything within 1..n;
   otherwise it, and every later one, leaves what is left for good.
   */
  lemma CutDeletionResumesIff(
    w: World, o: JvbObject, names: seq<Name>, cut: Cut, addresses: map<Name, string>, listed: seq<Name>)
    requires w.obj == Some(o) && o.deleting
    ensures var v := CutOff(w, o, names, cut); var next := Reconcile(v, addresses, listed);
            if Outlives(w, o, cut) then v.obj.Some? && next.w.store == Deleted(v.store, o.spec.replicas, listed)
            else v.obj == None && next == Result(v, true)
  {
    hide CutOff, Deleted, ReconcileDeleting, Outlives;
    var v := CutOff(w, o, names, cut);
    CutObject(w, o, names, cut);
    if v.obj.Some? { ReconcileDeletes(v, v.obj.value, addresses, listed); }
  }

  // ---- The end of a resumed deletion ----

  /** An exporter Service whose main Service the cut deletion removed. */
  predicate CutLoose(s: Store, v: Store, n: int, r: int) {
    1 <= r <= n && Replica(r) in s.services && Replica(r) !in v.services && ExporterOf(r) in v.services
  }

  lemma ResumedSlot(s: Store, v: Store, n: int, names: seq<Name>, listed: seq<Name>, r: int)
    requires Left(s, n, v) && Lists(names, s) && Lists(listed, v)
    ensures var d, u := At(Deleted(s, n, names), r), At(Deleted(v, n, listed), r);
            && u.dep == d.dep && u.svc == d.svc
            && u.exp == (if CutLoose(s, v, n, r) then At(s, r).exp else d.exp)
            && (CutLoose(s, v, n, r) ==> d.exp == None && u.exp.Some?)
  {
    hide Deleted, Left, Lists;
    DeletedSlots(s, n, names, Deleted(s, n, names), r);
    DeletedSlots(v, n, listed, Deleted(v, n, listed), r);
    LeftSlot(s, n, v, r);
  }

  lemma LeftSlot(s: Store, n: int, v: Store, r: int)
    requires Left(s, n, v)
    ensures SlotLeft(At(s, r), At(v, r), 1 <= r <= n)
  {
  }

  lemma ResumedRest(s: Store, v: Store, n: int, names: seq<Name>, listed: seq<Name>, m: Name)
    requires Left(s, n, v) && Lists(names, s) && Lists(listed, v)
    ensures var d, u := Deleted(s, n, names), Deleted(v, n, listed);
            && Find(u.configMaps, m) == Find(d.configMaps, m)
            && (!m.Replica? ==> Find(u.deployments, m) == Find(d.deployments, m))
            && (!m.Replica? && !m.ExporterOf? ==> Find(u.services, m) == Find(d.services, m))
  {
    hide Deleted, Lists, SlotLeft, At;
    DeletedSlots(s, n, names, Deleted(s, n, names), 0);
    DeletedSlots(v, n, listed, Deleted(v, n, listed), 0);
    assert Find(v.configMaps, m) == Find(s.configMaps, m) || (Ours(s, m) && Find(v.configMaps, m) == None);
  }

  /** The stores agree but for the exporters cut loose, which are still there. */
  ghost predicate UpToExporters(s: Store, v: Store, n: int, d: Store, u: Store) {
    && u.deployments == d.deployments && u.configMaps == d.configMaps
    && (forall m: Name :: !m.ExporterOf? ==> Find(u.services, m) == Find(d.services, m))
    && (forall r :: Find(u.services, ExporterOf(r)) ==
          if CutLoose(s, v, n, r) then Find(s.services, ExporterOf(r)) else Find(d.services, ExporterOf(r)))
  }

  lemma ResumedDeletion(s: Store, v: Store, n: int, names: seq<Name>, listed: seq<Name>)
    requires Left(s, n, v) && Lists(names, s) && Lists(listed, v)
    ensures var d, u := Deleted(s, n, names), Deleted(v, n, listed);
            && UpToExporters(s, v, n, d, u)
            && (u == d <==> forall r :: !CutLoose(s, v, n, r))
  {
    hide Deleted, Left, Lists, CutLoose;
    var d, u := Deleted(s, n, names), Deleted(v, n, listed);
    forall m: Name
      ensures Find(u.configMaps, m) == Find(d.configMaps, m)
      ensures Find(u.deployments, m) == Find(d.deployments, m)
      ensures !m.ExporterOf? ==> Find(u.services, m) == Find(d.services, m)
    {
      ResumedRest(s, v, n, names, listed, m);
      if m.Replica? { ResumedSlot(s, v, n, names, listed, m.index); }
    }
    MapExtensionality(u.deployments, d.deployments);
    MapExtensionality(u.configMaps, d.configMaps);
    forall r ensures Find(u.services, ExporterOf(r)) ==
                     if CutLoose(s, v, n, r) then Find(s.services, ExporterOf(r)) else Find(d.services, ExporterOf(r))
      ensures CutLoose(s, v, n, r) ==> Find(u.services, ExporterOf(r)) != Find(d.services, ExporterOf(r))
    {
      ResumedSlot(s, v, n, names, listed, r);
    }
    if forall r :: !CutLoose(s, v, n, r) {
      forall m: Name ensures Find(u.services, m) == Find(d.services, m) {
        if m.ExporterOf? { assert !CutLoose(s, v, n, m.index); }
      }
      MapExtensionality(u.services, d.services);
    }
  }

  // ---- Deletions cut again and again ----

  /** One reconcile of the object being deleted: what strikes it, the listing it gets, and where it is cut. */
  datatype Try = Try(faults: seq<Fault>, listed: seq<Name>, cut: Cut)

  /** The world after a number of such reconciles; without the object they do nothing. */
  function Tried(w: World, tries: seq<Try>): World {
    if tries == [] then w
    else
      var v, last := Tried(w, tries[..|tries| - 1]), tries[|tries| - 1];
      if v.obj.None? then v else CutOff(v.(faults := last.faults), v.obj.value, last.listed, last.cut)
  }

  /** Every reconcile gets the listing of the store it finds. */
  ghost predicate Listed(w: World, tries: seq<Try>) {
    tries == [] ||
    (Listed(w, tries[..|tries| - 1]) && Lists(tries[|tries| - 1].listed, Tried(w, tries[..|tries| - 1]).store))
  }

  lemma LeftSlots(x: Slot, y: Slot, z: Slot, removable: bool)
    requires SlotLeft(x, y, removable) && SlotLeft(y, z, removable)
    ensures SlotLeft(x, z, removable)
  {
  }

  lemma RestLeftTransitive(s: Store, u: Store, v: Store)
    requires RestLeft(s, u) && RestLeft(u, v)
    ensures RestLeft(s, v)
  {
    forall m: Name
      ensures Find(v.configMaps, m) == Find(s.configMaps, m) || (Ours(s, m) && Find(v.configMaps, m) == None)
    {
      assert Find(u.configMaps, m) == Find(s.configMaps, m) || (Ours(s, m) && Find(u.configMaps, m) == None);
    }
  }

  lemma LeftTransitive(s: Store, n: int, u: Store, v: Store)
    requires Left(s, n, u) && Left(u, n, v)
    ensures Left(s, n, v)
  {
    hide SlotLeft, At, RestLeft;
    forall r ensures SlotLeft(At(s, r), At(v, r), 1 <= r <= n) {
      LeftSlots(At(s, r), At(u, r), At(v, r), 1 <= r <= n);
    }
    RestLeftTransitive(s, u, v);
  }

  lemma StillHeld(o: JvbObject)
    requires HeldByOthers(o)
    ensures HeldByOthers(o.(finalizers := Without(o.finalizers, FINALIZER)))
  {
    WithoutEmptyIff(o.finalizers, FINALIZER);
    WithoutIsGone(o.finalizers, FINALIZER);
    var rest := Without(o.finalizers, FINALIZER);
    assert rest[0] in rest && rest[0] != FINALIZER;
  }

  lemma CutHeld(w: World, o: JvbObject, names: seq<Name>, cut: Cut)
    requires w.obj == Some(o) && o.deleting && HeldByOthers(o)
    ensures CutOff(w, o, names, cut).obj.Some? && HeldByOthers(CutOff(w, o, names, cut).obj.value)
  {
    hide CutOff, Without;
    CutObject(w, o, names, cut);
    if cut.AfterRelease? {
      ReleaseEffect(w, o);
      CutKeepsObject(w, o, names, cut.served);
      StillHeld(o);
    } else {
      CutBefore(w, o, names);
    }
  }

  lemma CutBefore(w: World, o: JvbObject, names: seq<Name>)
    ensures CutOff(w, o, names, BeforeRelease).obj == w.obj
  {
  }

  lemma {:induction false} TriedLeaves(w: World, o: JvbObject, tries: seq<Try>)
    requires w.obj == Some(o) && o.deleting && Listed(w, tries)
    ensures var v := Tried(w, tries);
            && Left(w.store, o.spec.replicas, v.store)
            && (v.obj.Some? ==> v.obj.value.deleting && v.obj.value.spec == o.spec)
            && (HeldByOthers(o) ==> v.obj.Some? && HeldByOthers(v.obj.value))
  {
    hide CutOff, Left, HeldByOthers, Lists, Outlives;
    if tries == [] {
      LeftAtFirst(w.store, o.spec.replicas);
    } else {
      var init, last := tries[..|tries| - 1], tries[|tries| - 1];
      TriedLeaves(w, o, init);
      var v := Tried(w, init);
      if v.obj.Some? {
        var x := v.(faults := last.faults);
        CutObject(x, v.obj.value, last.listed, last.cut);
        CutStore(x, v.obj.value, last.listed, last.cut);
        LeftTransitive(w.store, o.spec.replicas, v.store, Tried(w, tries).store);
        if HeldByOthers(v.obj.value) { CutHeld(x, v.obj.value, last.listed, last.cut); }
      }
    }
  }

  /**
   However often a deletion has been cut, as long as the object is there a fault-free reconcile
   ends where the undisturbed deletion would have, up to exporter Services that the cuts left
   without their main Service; and exactly there if there are none. A foreign finalizer is enough
   for the object to be there.
   */
  lemma ResumedDeletionEnds(w: World, o: JvbObject, names: seq<Name>, tries: seq<Try>, addresses: map<Name, string>)
    requires w.obj == Some(o) && o.deleting && Lists(names, w.store) && Listed(w, tries)
    ensures HeldByOthers(o) ==> Tried(w, tries).obj.Some?
    ensures var s, n, v := w.store, o.spec.replicas, Tried(w, tries);
            v.obj.Some? ==> forall listed :: Lists(listed, v.store) ==>
              var d, u := Deleted(s, n, names), Reconcile(v.(faults := []), addresses, listed).w.store;
              UpToExporters(s, v.store, n, d, u) && (u == d <==> forall r :: !CutLoose(s, v.store, n, r))
  {
    hide Tried, Deleted, Reconcile, Lists, UpToExporters, CutLoose, Left, HeldByOthers;
    TriedLeaves(w, o, tries);
    var n, v := o.spec.replicas, Tried(w, tries);
    if v.obj.Some? {
      forall listed | Lists(listed, v.store)
        ensures var d, u := Deleted(w.store, n, names), Reconcile(v.(faults := []), addresses, listed).w.store;
                UpToExporters(w.store, v.store, n, d, u) && (u == d <==> forall r :: !CutLoose(w.store, v.store, n, r))
      {
        ReconcileDeletes(v.(faults := []), v.obj.value, addresses, listed);
        ResumedDeletion(w.store, v.store, n, names, listed);
      }
    }
  }

  /**
   The controller hears of the object again exactly when the release lands. A release that fails
   is only logged: the reconcile reports success, the children go, and the object stays with its
   finalizer and nothing due.
   */
  lemma FailedReleaseIsNotRetried(w: World, o: JvbObject, names: seq<Name>, served: nat)
    requires w.obj == Some(o) && o.deleting && FINALIZER in o.finalizers
    ensures ReconcileDeleting(w, o, names).done
    ensures var v := CutOff(w, o, names, AfterRelease(served));
            (v.events == w.events <==> !Lands(NextFault(w))) && (!Lands(NextFault(w)) ==> v.obj == Some(o))
  {
    hide CutOff, DropUpTo, DropListed;
    CutObject(w, o, names, AfterRelease(served));
    ReleaseEffect(w, o);
    CutKeepsObject(w, o, names, served);
    var v := CutOff(w, o, names, AfterRelease(served));
    if v.events == w.events { assert v.events[|w.events|..] == []; }
  }

  lemma CutKeepsObject(w: World, o: JvbObject, names: seq<Name>, served: nat)
    ensures CutOff(w, o, names, AfterRelease(served)).obj == RemoveFinalizer(w, o).w.obj
  {
    hide DropUpTo, DropListed, RemoveFinalizer;
  }
}
