/**
 Reconciles of the state machine that nothing interrupts are the program itself; and one edit
 in the middle of a reconcile is enough to strand replicas.
 */
module Uninterrupted {
  import opened Basics
  import opened Naming
  import opened Resources
  import opened Api
  import opened Program
  import opened FaultFree
  import opened Footprint
  import opened Recovery
  import opened Lifecycle
  import opened Deletion
  import opened EventLoop
  import opened SelfTrigger

  // ---- Runs of the state machine ----

  function Serves(k: nat): seq<Action> {
    seq(k, _ => Serve)
  }

  lemma {:induction false} RunAllAppend(s: System, a: seq<Action>, b: seq<Action>)
    requires s.history != []
    ensures RunAll(s, a + b) == RunAll(RunAll(s, a), b)
  {
    if b == [] {
      assert a + b == a;
    } else {
      assert (a + b)[..|a + b| - 1] == a + b[..|b| - 1];
      RunAllAppend(s, a, b[..|b| - 1]);
    }
  }

  /** Serving the requests of a run one after the other. */
  lemma {:induction false} ServeMany(s: System, k: nat)
    requires s.history != [] && s.phase.Working? && s.phase.at == 0 && k <= |s.phase.run.w.steps|
    requires s.store == StoreAt(s.phase.run.w, 0)
    ensures RunAll(s, Serves(k)) == s.(store := StoreAt(s.phase.run.w, k), phase := s.phase.(at := k))
  {
    if k > 0 {
      assert Serves(k)[..k - 1] == Serves(k - 1);
      ServeMany(s, k - 1);
    }
  }

  /** The actions of one reconcile that nothing interrupts. */
  function Turn(s: System, addresses: map<Name, string>): seq<Action>
    requires s.history != []
  {
    var (t, seen) := Tagging(s.(phase := Read(s.Current())), Clean);
    [Begin(|s.history| - 1), Tag(Clean, [], addresses)]
    + Serves(|Children(Fresh(s.store, []), PlanFor(seen, addresses)).w.steps|) + [Finish(Clean)]
  }

  lemma RunOne(s: System, a: Action)
    requires s.history != []
    ensures RunAll(s, [a]) == Advance(s, a)
  {
    hide Advance;
    assert [a][..0] == [] && RunAll(s, []) == s;
  }

  lemma RunAfter(s: System, pre: seq<Action>, a: Action)
    requires s.history != []
    ensures RunAll(s, pre + [a]) == Advance(RunAll(s, pre), a)
  {
    hide Advance;
    assert (pre + [a])[..|pre|] == pre;
  }

  lemma BeginStep(s: System)
    requires s.history != [] && s.phase == Idle && s.queued
    ensures Advance(s, Begin(|s.history| - 1)) == s.(queued := false, phase := Read(s.Current()))
  {
  }

  lemma TagStep(s: System, addresses: map<Name, string>)
    requires s.history != [] && s.phase.Read?
    ensures var (t, seen) := Tagging(s, Clean);
            Advance(s, Tag(Clean, [], addresses))
            == t.(phase := Working(seen, Children(Fresh(s.store, []), PlanFor(seen, addresses)), 0))
  {
    hide Children, Tagging, Fresh;
  }

  /** The status write of a run that went through, when the object read is still current. */
  lemma FinishStep(s: System, w: World)
    requires s.history != [] && s.phase.Working? && s.phase.at == |s.phase.run.w.steps| && s.phase.run.ok
    requires s.phase.seen == s.Current() && !s.Current().deleting && !s.queued
    requires w.faults == [] && w.obj == Some(s.Current()) && w.events == s.inbox
    ensures var t := Advance(s, Finish(Clean));
            var put := PutStatus(w, s.phase.seen.(status := s.phase.seen.spec.replicas));
            && put.err == Ok && t.store == s.store && put.w.obj == Some(t.Current()) && t.inbox == put.w.events
            && t.phase == Idle && !t.queued
  {
    hide Children;
  }

  lemma BeginAndTag(s: System, addresses: map<Name, string>)
    requires s.history != [] && s.phase == Idle && s.queued
    ensures var (t, seen) := Tagging(s.(queued := false, phase := Read(s.Current())), Clean);
            RunAll(s, [Begin(|s.history| - 1), Tag(Clean, [], addresses)])
            == t.(phase := Working(seen, Children(Fresh(s.store, []), PlanFor(seen, addresses)), 0))
  {
    hide Children, Tagging, RunAll, Advance, Fresh;
    var a, b := Begin(|s.history| - 1), Tag(Clean, [], addresses);
    assert [a] + [b] == [a, b];
    RunAfter(s, [a], b);
    RunOne(s, a);
    BeginStep(s);
    TagStep(s.(queued := false, phase := Read(s.Current())), addresses);
  }

  /** The children of a tagged object, reconciled by the state machine and by the program. */
  lemma SameChildren(s: Store, w: World, p: Plan)
    requires w.faults == [] && w.store == s
    ensures var run := Children(Fresh(s, []), p);
            run.ok && StoreAt(run.w, 0) == s && run.w.store == Children(w, p).w.store
    ensures Children(w, p).ok && Children(w, p).w.faults == []
            && Children(w, p).w.obj == w.obj && Children(w, p).w.events == w.events
  {
    hide Children, Converged;
    var w0 := Fresh(s, []);
    ChildrenFree(w0, p);
    ChildrenFootprint(w0, p, true);
    ChildrenFree(w, p);
    ChildrenFootprint(w, p, true);
    ConvergedIsUnique(s, p, Children(w0, p).w.store, Children(w, p).w.store);
  }

  /** A turn up to its status write. */
  lemma TurnUpToStatus(s: System, addresses: map<Name, string>)
    requires Versioned(s) && s.phase == Idle && s.queued
    ensures var (t, seen) := Tagging(s.(queued := false, phase := Read(s.Current())), Clean);
            var run := Children(Fresh(s.store, []), PlanFor(seen, addresses));
            RunAll(s, Turn(s, addresses))
            == Advance(t.(store := run.w.store, phase := Working(seen, run, |run.w.steps|)), Finish(Clean))
  {
    hide Children, Turn, Tagging, RunAll, Advance, Converged;
    var (t, seen) := Tagging(s.(queued := false, phase := Read(s.Current())), Clean);
    var w0 := Fresh(s.store, []);
    var run := Children(w0, PlanFor(seen, addresses));
    TaggingFaithful(s.(queued := false, phase := Read(s.Current())), Clean);
    SameChildren(s.store, w0, PlanFor(seen, addresses));
    var head := [Begin(|s.history| - 1), Tag(Clean, [], addresses)];
    BeginAndTag(s, addresses);
    ServeMany(RunAll(s, head), |run.w.steps|);
    RunAllAppend(s, head, Serves(|run.w.steps|));
    RunAfter(s, head + Serves(|run.w.steps|), Finish(Clean));
    TurnShape(s, addresses, seen);
  }

  /**
   A turn of the state machine that nothing interrupts is the program: same children, same
   object, same events.
   */
  lemma TurnIsReconcile(s: System, addresses: map<Name, string>, names: seq<Name>)
    requires Versioned(s) && s.phase == Idle && s.queued
    ensures var t := RunAll(s, Turn(s, addresses));
            var res := Reconcile(World(s.store, Some(s.Current()), s.inbox, [], []), addresses, names);
            && t.store == res.w.store && res.w.obj == Some(t.Current()) && t.inbox == res.w.events
            && t.phase == Idle && t.queued == !res.done
  {
    hide Children, Turn, Tagging, RunAll, Advance, AddFinalizer;
    var w := World(s.store, Some(s.Current()), s.inbox, [], []);
    var tag := AddFinalizer(w, s.Current());
    var (t, seen) := Tagging(s.(queued := false, phase := Read(s.Current())), Clean);
    TaggingIsAddFinalizer(s, w);
    TagFree(w, s.Current());
    var p := PlanFor(seen, addresses);
    var run := Children(Fresh(s.store, []), p);
    SameChildren(s.store, tag.w, p);
    TurnUpToStatus(s, addresses);
    var s2 := t.(store := run.w.store, phase := Working(seen, run, |run.w.steps|));
    FinishStep(s2, Children(tag.w, p).w);
  }

  lemma TurnShape(s: System, addresses: map<Name, string>, seen: JvbObject)
    requires s.history != [] && seen == Tagging(s.(queued := false, phase := Read(s.Current())), Clean).1
    ensures Turn(s, addresses) ==
            [Begin(|s.history| - 1), Tag(Clean, [], addresses)]
            + Serves(|Children(Fresh(s.store, []), PlanFor(seen, addresses)).w.steps|) + [Finish(Clean)]
  {
    hide Children;
  }

  lemma TaggingIsAddFinalizer(s: System, w: World)
    requires Versioned(s) && w == World(s.store, Some(s.Current()), s.inbox, [], [])
    ensures var (t, seen) := Tagging(s.(queued := false, phase := Read(s.Current())), Clean);
            var tag := AddFinalizer(w, s.Current());
            && seen == tag.obj == t.Current() && t.inbox == tag.w.events && t.store == s.store
            && !t.queued && Versioned(t)
  {
    TaggingFaithful(s.(queued := false, phase := Read(s.Current())), Clean);
  }

  // ---- Lifecycles and the program ----

  /** The reconciles of a lifecycle that meet no fault are those of the program, status write included. */
  lemma ReconcileCompletes(w: World, o: JvbObject, addresses: map<Name, string>, names: seq<Name>)
    requires w.faults == [] && w.obj == Some(o) && !o.deleting
    ensures var res := Reconcile(w, addresses, names);
            && res.done && res.w.obj.Some?
            && Site(res.w.store, PlanFor(res.w.obj.value, addresses))
               == Happens(Site(w.store, PlanFor(o, addresses)), Completes)
  {
    hide Reconcile, After, Converged;
    var p := PlanFor(o, addresses);
    LiveReconcile(w, o, addresses, names);
    AfterConverged(w.store, p);
    ConvergedIsUnique(w.store, p, Reconcile(w, addresses, names).w.store, After(w.store, p));
  }

  lemma DropUpToSameStore(w: World, v: World, n: int)
    requires w.faults == v.faults == [] && w.store == v.store
    ensures DropUpTo(w, n).store == DropUpTo(v, n).store && DropUpTo(w, n).faults == DropUpTo(v, n).faults == []
  {
    hide SameForeign, SameShared;
    var a, b := DropUpTo(w, n).store, DropUpTo(v, n).store;
    DropUpToFree(w, n);
    DropUpToFree(v, n);
    SameRestSymmetric(w.store, a);
    SameForeignTransitive(a, w.store, b);
    SameSharedTransitive(a, w.store, b);
    forall r ensures At(a, r) == At(b, r) {
      assert At(a, r) == RemovedSlot(w.store, n, r) == At(b, r);
    }
    StoreExtensionality(a, b);
  }

  lemma SameRestSymmetric(s: Store, t: Store)
    requires SameForeign(s, t) && SameShared(s, t)
    ensures SameForeign(t, s) && SameShared(t, s)
  {
  }

  /** The deletion of a lifecycle is the one of the program. */
  lemma ReconcileDeletes(w: World, o: JvbObject, addresses: map<Name, string>, names: seq<Name>)
    requires w.faults == [] && w.obj == Some(o) && o.deleting
    ensures Reconcile(w, addresses, names).w.store == Deleted(w.store, o.spec.replicas, names)
  {
    hide DropUpTo, DropConfigMaps;
    var t := RemoveFinalizer(w, o);
    ReleaseFree(w, o);
    assert t.w.store == w.store;
    var a, b := DropUpTo(t.w, o.spec.replicas), DropUpTo(Fresh(w.store, []), o.spec.replicas);
    DropUpToSameStore(t.w, Fresh(w.store, []), o.spec.replicas);
    DropConfigMapsFree(a, names);
    DropConfigMapsFree(b, names);
  }

  // ---- An edit that strands replicas ----

  function Delivers(k: nat): seq<Action> {
    seq(k, _ => Deliver)
  }

  /** Delivering everything puts the object in the queue if the filter lets some event through. */
  lemma {:induction false} DeliverAll(s: System)
    requires s.history != []
    ensures RunAll(s, Delivers(|s.inbox|)) == s.(inbox := [], queued := s.queued || Count(s.inbox) > 0)
    decreases |s.inbox|
  {
    if s.inbox == [] {
      assert Delivers(0) == [];
    } else {
      var t := s.(inbox := s.inbox[1..], queued := s.queued || Passes(s.inbox[0]));
      RunOne(s, Deliver);
      DeliverEffect(s);
      DeliverAll(t);
      assert Delivers(|s.inbox|) == [Deliver] + Delivers(|t.inbox|);
      RunAllAppend(s, [Deliver], Delivers(|t.inbox|));
    }
  }

  lemma HeardAt(s: System, a: seq<Action>, i: nat)
    requires s.history != [] && AllHeard(s, a) && i < |a|
    ensures Heard(RunAll(s, a[..i]), a[i])
  {
    hide RunAll, Heard;
  }

  lemma AllHeardAppend(s: System, a: seq<Action>, b: seq<Action>)
    requires s.history != [] && AllHeard(s, a) && AllHeard(RunAll(s, a), b)
    ensures AllHeard(s, a + b)
  {
    hide RunAll, Heard;
    forall i | 0 <= i < |a + b| ensures Heard(RunAll(s, (a + b)[..i]), (a + b)[i]) { HeardInAppend(s, a, b, i); }
  }

  lemma HeardInAppend(s: System, a: seq<Action>, b: seq<Action>, i: nat)
    requires s.history != [] && AllHeard(s, a) && AllHeard(RunAll(s, a), b) && i < |a + b|
    ensures Heard(RunAll(s, (a + b)[..i]), (a + b)[i])
  {
    hide RunAll, Heard, AllHeard;
    if i < |a| {
      assert (a + b)[..i] == a[..i];
      HeardAt(s, a, i);
    } else {
      assert (a + b)[..i] == a + b[..i - |a|];
      RunAllAppend(s, a, b[..i - |a|]);
      HeardAt(RunAll(s, a), b, i - |a|);
    }
  }

  lemma NoEditsAllHeard(s: System, a: seq<Action>)
    requires s.history != [] && forall x :: x in a ==> !x.Edit?
    ensures AllHeard(s, a)
  {
    hide RunAll;
  }

  /** The first reconcile of a new object, up to its status write. */
  lemma FirstReconcile(s: System, addresses: map<Name, string>) returns (actions: seq<Action>, t: System)
    requires Initial(s)
    ensures forall a :: a in actions ==> OnlyConflicts(a) && !a.Edit?
    ensures t == RunAll(s, actions) && Versioned(t)
    ensures t.phase.Working? && t.phase.at == |t.phase.run.w.steps| && t.phase.run.ok
    ensures t.phase.seen == t.Current() && FINALIZER in t.Current().finalizers && t.Current().status == 0
    ensures t.Current().spec == s.Current().spec
    ensures Converged(s.store, PlanFor(t.Current(), addresses), t.store)
  {
    hide Children, RunAll, Advance, Converged, Tagging;
    var begun := s.(queued := false, phase := Read(s.Current()));
    var (tagged, seen) := Tagging(begun, Clean);
    var w := World(s.store, Some(s.Current()), s.inbox, [], []);
    TaggingIsAddFinalizer(s, w);
    TagFree(w, s.Current());
    var p := PlanFor(seen, addresses);
    var w0 := Fresh(s.store, []);
    var run := Children(w0, p);
    SameChildren(s.store, w0, p);
    ChildrenFree(w0, p);
    var head := [Begin(0), Tag(Clean, [], addresses)];
    BeginAndTag(s, addresses);
    ServeMany(RunAll(s, head), |run.w.steps|);
    RunAllAppend(s, head, Serves(|run.w.steps|));
    actions := head + Serves(|run.w.steps|);
    t := RunAll(s, actions);
  }

  /** An edit lands during the reconcile, whose status write then conflicts. */
  lemma EditThenConflict(s: System, a: Action)
    requires Versioned(s) && s.phase.Working? && s.phase.at == |s.phase.run.w.steps| && s.phase.run.ok
    requires s.phase.seen == s.Current() && a.Edit? && a.spec != s.Current().spec
    ensures var o := Edited(s.Current(), a).(version := |s.history|);
            var t := Advance(Advance(s, a), Finish(Clean));
            && t == s.(history := s.history + [o], queued := true, inbox := t.inbox, phase := Idle, quiet := false)
            && Versioned(t)
  {
    hide Children;
    EditEffect(s, a);
    var o := Edited(s.Current(), a).(version := |s.history|);
    var edited := Advance(s, a);
    assert edited.Current() == o && edited.phase == s.phase;
    var t := Advance(edited, Finish(Clean));
    assert t == edited.(queued := true, phase := Idle);
  }

  /** Reconciling once more settles the new spec, and leaves the replicas above spec and status alone. */
  lemma OverhangSurvives(s: System, addresses: map<Name, string>, r: int)
    requires Versioned(s) && s.phase == Idle && s.queued && s.inbox == []
    requires FINALIZER in s.Current().finalizers && s.Current().status < r && s.Current().spec.replicas < r
    requires Has(s.store, r)
    ensures var t := RunAll(s, Turn(s, addresses));
            && Count(t.inbox) == 0 && t.phase == Idle && !t.queued
            && t.Current().spec == s.Current().spec && Has(t.store, r)
  {
    hide Turn, RunAll, Reconcile, Converged;
    var w := World(s.store, Some(s.Current()), s.inbox, [], []);
    var p := PlanFor(s.Current(), addresses);
    TurnIsReconcile(s, addresses, []);
    LiveReconcile(w, s.Current(), addresses, []);
    var res := Reconcile(w, addresses, []);
    ConvergedHas(s.store, p, res.w.store, r);
    assert res.w.events[0..] == res.w.events;
  }

  lemma TurnConflictsOnly(s: System, addresses: map<Name, string>)
    requires s.history != []
    ensures forall a :: a in Turn(s, addresses) ==> OnlyConflicts(a) && !a.Edit?
  {
    hide Children, Tagging;
  }

  /** An edit during the first reconcile, and everything up to the next one. */
  lemma EditedMeanwhile(s: System, spec: Spec, addresses: map<Name, string>) returns (actions: seq<Action>, t: System)
    requires Initial(s) && spec.replicas < s.Current().spec.replicas && 1 <= s.Current().spec.replicas
    ensures AllHeard(s, actions) && forall a :: a in actions ==> OnlyConflicts(a)
    ensures t == RunAll(s, actions) && Versioned(t) && t.phase == Idle && t.queued && t.inbox == []
    ensures FINALIZER in t.Current().finalizers && t.Current().status == 0 && t.Current().spec == spec
    ensures Has(t.store, s.Current().spec.replicas)
  {
    hide RunAll, Advance, Converged, AllHeard, Count;
    var a1, t1 := FirstReconcile(s, addresses);
    ConvergedHas(s.store, PlanFor(t1.Current(), addresses), t1.store, s.Current().spec.replicas);
    var edit := Edit(spec, t1.Current().annotations, t1.Current().finalizers);
    EditThenConflict(t1, edit);
    RunAfter(s, a1, edit);
    RunAfter(s, a1 + [edit], Finish(Clean));
    var a2 := a1 + [edit] + [Finish(Clean)];
    var t2 := RunAll(s, a2);
    DeliverAll(t2);
    RunAllAppend(s, a2, Delivers(|t2.inbox|));
    actions := a2 + Delivers(|t2.inbox|);
    t := RunAll(s, actions);
    OneEditHeard(s, a1, edit, [Finish(Clean)] + Delivers(|t2.inbox|));
    assert actions == a1 + [edit] + ([Finish(Clean)] + Delivers(|t2.inbox|));
  }

  lemma OneEditHeard(s: System, a: seq<Action>, edit: Action, b: seq<Action>)
    requires s.history != [] && Heard(RunAll(s, a), edit)
    requires forall x :: x in a || x in b ==> !x.Edit?
    ensures AllHeard(s, a + [edit] + b)
  {
    hide RunAll, Heard;
    NoEditsAllHeard(s, a);
    var t := RunAll(s, a);
    assert [edit][..0] == [];
    EmptyRun(t);
    assert AllHeard(t, [edit]);
    AllHeardAppend(s, a, [edit]);
    NoEditsAllHeard(RunAll(s, a + [edit]), b);
    AllHeardAppend(s, a + [edit], b);
  }

  lemma EmptyRun(s: System)
    requires s.history != []
    ensures RunAll(s, []) == s
  {
  }

  /**
   Without the proviso on edits during reconciles the replicas need not be exactly those asked
   for: an edit to a smaller count while the first reconcile runs leaves the last replica behind
   in a state with nothing left to do.
   */
  lemma EditDuringReconcileStrands(s: System, spec: Spec, addresses: map<Name, string>) returns (actions: seq<Action>)
    requires Initial(s) && spec.replicas < s.Current().spec.replicas && 1 <= s.Current().spec.replicas
    ensures AllHeard(s, actions) && forall a :: a in actions ==> OnlyConflicts(a)
    ensures var t := RunAll(s, actions);
            Quiescent(t) && t.Current().spec == spec && Has(t.store, s.Current().spec.replicas)
  {
    hide RunAll, Advance, Turn, AllHeard, Count;
    var a2, s2 := EditedMeanwhile(s, spec, addresses);
    OverhangSurvives(s2, addresses, s.Current().spec.replicas);
    TurnConflictsOnly(s2, addresses);
    var s3 := RunAll(s2, Turn(s2, addresses));
    DeliverAll(s3);
    var a3 := Turn(s2, addresses) + Delivers(|s3.inbox|);
    RunAllAppend(s2, Turn(s2, addresses), Delivers(|s3.inbox|));
    RunAllAppend(s, a2, a3);
    NoEditsAllHeard(s2, a3);
    AllHeardAppend(s, a2, a3);
    actions := a2 + a3;
  }
}
