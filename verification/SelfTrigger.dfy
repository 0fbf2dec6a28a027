/** The writes a reconcile makes to its own JVB object, and whether they wake the controller up again. */
module SelfTrigger {
  import opened Basics
  import opened Naming
  import opened Resources
  import opened Api
  import opened Program
  import opened FaultFree
  import opened Footprint
  import opened EventLoop

  // ---- Child requests leave the object alone ----

  predicate SameObject(a: World, b: World) {
    a.obj == b.obj && a.events == b.events && (a.faults == [] ==> b.faults == [])
  }

  lemma RequestsSameObject(w: World, present: bool, c: Call)
    ensures SameObject(w, Look(w, present).w) && SameObject(w, Mutate(w, c).w)
  {
  }

  lemma DropReplicaSameObject(w: World, r: int)
    ensures SameObject(w, DropReplica(w, r))
  {
    var got := Look(w, Replica(r) in w.store.services);
    RequestsSameObject(w, Replica(r) in w.store.services, DeleteService(Replica(r)));
    RequestsSameObject(got.w, true, DeleteService(Replica(r)));
    var del := Mutate(got.w, DeleteService(Replica(r)));
    var exp := Look(del.w, ExporterOf(r) in del.w.store.services);
    RequestsSameObject(del.w, ExporterOf(r) in del.w.store.services, DeleteService(ExporterOf(r)));
    RequestsSameObject(exp.w, true, DeleteService(ExporterOf(r)));
    var w1 := DropService(w, r).w;
    assert SameObject(w, w1);
    var inst := Look(w1, Has(w1.store, r));
    RequestsSameObject(w1, Has(w1.store, r), DeleteDeployment(Replica(r)));
    RequestsSameObject(inst.w, true, DeleteDeployment(Replica(r)));
  }

  lemma {:induction false} DropUpToSameObject(w: World, n: int)
    ensures SameObject(w, DropUpTo(w, n))
    decreases if n < 0 then 0 else n
  {
    if n >= 1 {
      DropUpToSameObject(w, n - 1);
      DropReplicaSameObject(DropUpTo(w, n - 1), n);
    }
  }

  lemma {:induction false} DropConfigMapsSameObject(w: World, names: seq<Name>)
    ensures SameObject(w, DropConfigMaps(w, names))
  {
    if names != [] { DropConfigMapsSameObject(w, names[..|names| - 1]); }
  }

  // ---- One fault-free reconcile ----

  /** The reconcile will write a finalizer change that the event filter lets through. */
  predicate WakesItself(obj: Option<JvbObject>) {
    match obj
    case None => false
    case Some(o) => if o.deleting then FINALIZER in o.finalizers else FINALIZER !in o.finalizers && o.finalizers != []
  }

  /** Events added between two worlds that reach the queue. */
  function Wakeups(a: World, b: World): nat
    requires |a.events| <= |b.events|
  {
    Count(b.events[|a.events|..])
  }

  function Count(es: seq<Event>): nat {
    if es == [] then 0 else (if Passes(es[0]) then 1 else 0) + Count(es[1..])
  }

  /** Tagging a live object without faults. */
  lemma TagFree(w: World, o: JvbObject)
    requires w.faults == [] && w.obj == Some(o) && !o.deleting
    ensures var t := AddFinalizer(w, o);
            && t.w.obj == Some(t.obj) && t.w.store == w.store && t.w.faults == []
            && t.obj == o.(finalizers := t.obj.finalizers, version := t.obj.version) && FINALIZER in t.obj.finalizers
            && (FINALIZER in o.finalizers ==> t.w == w && t.obj == o)
            && (FINALIZER !in o.finalizers ==>
                  t.w.events == w.events + [Updated(o, t.obj)] && |t.obj.finalizers| == |o.finalizers| + 1)
  {
  }

  lemma StatusFree(w: World, o: JvbObject, n: int)
    requires w.faults == [] && w.obj == Some(o) && !o.deleting
    ensures var put := PutStatus(w, o.(status := n));
            && put.err == Ok && put.w.store == w.store && put.w.faults == [] && put.w.obj.Some?
            && var o' := put.w.obj.value;
            && o' == o.(status := n, version := o'.version)
            && (o.status == n ==> put.w == w)
            && (o.status != n ==> put.w.events == w.events + [Updated(o, o')])
  {
  }

  lemma CountOne(e: Event)
    ensures Count([]) == 0 && Count([e]) == if Passes(e) then 1 else 0
  {
    assert [e][1..] == [];
  }

  lemma CountAppend(a: seq<Event>, e: Event)
    ensures Count(a + [e]) == Count(a) + if Passes(e) then 1 else 0
  {
    if a == [] {
      assert a + [e] == [e];
      CountOne(e);
    } else {
      assert (a + [e])[1..] == a[1..] + [e];
      CountAppend(a[1..], e);
    }
  }

  lemma LiveReconcile(w: World, o: JvbObject, addresses: map<Name, string>, names: seq<Name>)
    requires w.faults == [] && w.obj == Some(o) && !o.deleting
    ensures var res := Reconcile(w, addresses, names);
            && res.done && res.w.faults == [] && |w.events| <= |res.w.events|
            && Wakeups(w, res.w) == (if WakesItself(w.obj) then 1 else 0)
            && res.w.obj.Some? && !res.w.obj.value.deleting && FINALIZER in res.w.obj.value.finalizers
            && res.w.obj.value.status == res.w.obj.value.spec.replicas && res.w.obj.value.spec == o.spec
            && res.w.obj.value.annotations == o.annotations
            && Converged(w.store, PlanFor(o, addresses), res.w.store)
            && (FINALIZER in o.finalizers && o.status == o.spec.replicas ==> SameObject(w, res.w))
  {
    var t := AddFinalizer(w, o);
    TagFree(w, o);
    var p := PlanFor(t.obj, addresses);
    var c := Children(t.w, p);
    ChildrenFree(t.w, p);
    ChildrenFootprint(t.w, p, true);
    StatusFree(c.w, t.obj, t.obj.spec.replicas);
    var put := PutStatus(c.w, t.obj.(status := t.obj.spec.replicas));
    assert Reconcile(w, addresses, names) == Result(put.w, true);
    EventsFree(w, o, t, c.w, put.w);
  }

  /** Only a finalizer added to a non-empty list gets through the filter. */
  lemma EventsFree(w: World, o: JvbObject, t: Tagged, v: World, u: World)
    requires v.events == t.w.events
    requires if FINALIZER in o.finalizers then t.w.events == w.events
             else t.w.events == w.events + [Updated(o, t.obj)] && t.obj.status == o.status
                  && |t.obj.finalizers| == |o.finalizers| + 1
    requires w.obj == Some(o) && !o.deleting
    requires u.events == v.events ||
             (u.obj.Some? && u.obj.value.status != t.obj.status && u.events == v.events + [Updated(t.obj, u.obj.value)])
    ensures |w.events| <= |u.events| && Wakeups(w, u) == if WakesItself(w.obj) then 1 else 0
  {
    var tagged := t.w.events[|w.events|..];
    CountOne(Updated(o, t.obj));
    assert tagged == if FINALIZER in o.finalizers then [] else [Updated(o, t.obj)];
    if u.events != v.events {
      var e := Updated(t.obj, u.obj.value);
      CountAppend(tagged, e);
      assert u.events[|w.events|..] == tagged + [e];
    }
  }

  /** Releasing an object that is being deleted, without faults. */
  lemma ReleaseFree(w: World, o: JvbObject)
    requires w.faults == [] && w.obj == Some(o) && o.deleting
    ensures var t := RemoveFinalizer(w, o);
            && t.w.faults == [] && |w.events| <= |t.w.events|
            && Wakeups(w, t.w) == (if WakesItself(w.obj) then 1 else 0)
            && !WakesItself(t.w.obj)
  {
    var t := RemoveFinalizer(w, o);
    WithoutIsGone(o.finalizers, FINALIZER);
    if FINALIZER in o.finalizers {
      var e := t.w.events[|w.events|];
      assert t.w.events == w.events + [e] && Passes(e);
      assert t.w.events[|w.events|..] == [e];
      CountOne(e);
    } else {
      assert t.w.events[|w.events|..] == [];
    }
  }

  lemma DeletingReconcile(w: World, o: JvbObject, addresses: map<Name, string>, names: seq<Name>)
    requires w.faults == [] && w.obj == Some(o) && o.deleting
    ensures var res := Reconcile(w, addresses, names);
            && res.done && res.w.faults == [] && |w.events| <= |res.w.events|
            && Wakeups(w, res.w) == (if WakesItself(w.obj) then 1 else 0)
            && !WakesItself(res.w.obj)
  {
    var t := RemoveFinalizer(w, o);
    ReleaseFree(w, o);
    var d := DropUpTo(t.w, o.spec.replicas);
    DropUpToSameObject(t.w, o.spec.replicas);
    var got := Look(d, true);
    RequestsSameObject(d, true, DeleteService(LoggingMap));
    DropConfigMapsSameObject(got.w, names);
    assert Reconcile(w, addresses, names) == Result(DropListed(d, names), true);
  }

  lemma {:induction false} WithoutIsGone(s: seq<string>, x: string)
    ensures x !in Without(s, x)
    ensures x in s ==> |Without(s, x)| < |s|
    ensures x !in s ==> Without(s, x) == s
  {
    if s != [] {
      WithoutIsGone(s[1..], x);
      if x !in s { assert s == [s[0]] + s[1..]; }
    }
  }

  /** A fault-free reconcile wakes the controller at most once, and the next one not at all. */
  lemma SelfTriggerBound(w: World, addresses: map<Name, string>, names: seq<Name>)
    requires w.faults == []
    ensures var res := Reconcile(w, addresses, names);
            && res.done && res.w.faults == [] && |w.events| <= |res.w.events|
            && Wakeups(w, res.w) == (if WakesItself(w.obj) then 1 else 0)
            && !WakesItself(res.w.obj)
  {
    match w.obj
    case None => assert w.events[|w.events|..] == [];
    case Some(o) =>
      if o.deleting {
        DeletingReconcile(w, o, addresses, names);
      } else {
        LiveReconcile(w, o, addresses, names);
      }
  }

  // ---- The loop ----

  datatype Loop = Loop(w: World, queued: bool)

  /** `k` turns of a loop that starts queued and hears of its own writes only. */
  function Turns(w: World, addresses: map<Name, string>, names: seq<Name>, k: nat): Loop {
    if k == 0 then Loop(w, true)
    else
      var l := Turns(w, addresses, names, k - 1);
      if !l.queued then l
      else
        var res := Reconcile(l.w, addresses, names);
        Loop(res.w, !res.done || |res.w.events| < |l.w.events| || Wakeups(l.w, res.w) > 0)
  }

  /** Without outside writes and faults the controller falls silent after two turns; usually after one. */
  lemma {:induction false} LoopTerminates(w: World, addresses: map<Name, string>, names: seq<Name>, k: nat)
    requires w.faults == [] && k >= 1
    ensures Turns(w, addresses, names, k).queued <==> k == 1 && WakesItself(w.obj)
    ensures k == 1 ==> Turns(w, addresses, names, k).w == Reconcile(w, addresses, names).w
  {
    if k == 1 {
      SelfTriggerBound(w, addresses, names);
      assert Turns(w, addresses, names, 0) == Loop(w, true);
    } else {
      LoopTerminates(w, addresses, names, k - 1);
      var l := Turns(w, addresses, names, k - 1);
      if l.queued {
        SelfTriggerBound(w, addresses, names);
        SelfTriggerBound(l.w, addresses, names);
      }
    }
  }
}
