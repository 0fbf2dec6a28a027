/**
 What a reconcile reports, under any faults: success means that the object and its replicas are
 as asked, and a turn of the state machine is queued again exactly when the program reports an
 error.
 */
module Requeue {
  import opened Basics
  import opened Naming
  import opened Resources
  import opened Api
  import opened Program
  import opened Footprint
  import opened Recovery
  import opened Lifecycle
  import opened FaultFree
  import opened EventLoop
  import opened Uninterrupted

  // ---- Success ----

  /** A read of the object that fails, and success when there is nothing to do for a live object. */
  lemma FetchDecides(w: World, addresses: map<Name, string>, names: seq<Name>)
    ensures var res := Reconcile(w, addresses, names);
            && (NextFault(w) in {Dropped, Lost} ==> !res.done && res.w == Spent(w))
            && (NextFault(w) !in {Dropped, Lost} && (w.obj == None || w.obj.value.deleting) ==> res.done)
  {
    hide DropUpTo, DropListed, RemoveFinalizer, ReconcileLive;
  }

  /** Whatever faults strike it, a reconcile of a live object that reports success has done its work. */
  lemma DoneMeans(w: World, o: JvbObject, addresses: map<Name, string>, names: seq<Name>)
    requires w.obj == Some(o) && !o.deleting
    ensures var res := Reconcile(w, addresses, names); var t := res.w;
            res.done ==>
              && t.obj.Some? && t.obj.value.spec == o.spec && t.obj.value.status == o.spec.replicas
              && forall r :: 1 <= r <= o.spec.replicas ==> Has(t.store, r)
  {
    hide Children, AddFinalizer, Continues;
    var got := Look(w, true);
    var t := AddFinalizer(got.w, o);
    TagUnder(got.w, o);
    var p := PlanFor(t.obj, addresses);
    var c := Children(t.w, p);
    OkMeansThere(t.w, p);
    ChildrenFootprint(t.w, p, false);
    SameObjectAfter(p, t.w, c.w);
    assert forall r :: 1 <= r <= o.spec.replicas ==> Wanted(p, r);
    if c.ok { StatusUnder(c.w, t.obj); }
  }

  lemma SameObjectAfter(p: Plan, a: World, b: World)
    requires Continues(p, false, a, b)
    ensures b.obj == a.obj && b.events == a.events
  {
  }

  /** Tagging under faults: the stored object and the copy both keep the spec. */
  lemma TagUnder(w: World, o: JvbObject)
    requires w.obj == Some(o) && !o.deleting
    ensures var t := AddFinalizer(w, o);
            && t.obj.spec == o.spec && !t.obj.deleting && t.w.store == w.store
            && t.w.obj.Some? && t.w.obj.value.spec == o.spec && !t.w.obj.value.deleting
  {
  }

  /** A status write that is confirmed has landed. */
  lemma StatusUnder(w: World, sent: JvbObject)
    requires w.obj.Some? && !w.obj.value.deleting
    ensures var put := PutStatus(w, sent.(status := sent.spec.replicas));
            put.err == Ok ==>
              && put.w.store == w.store && put.w.obj.Some?
              && put.w.obj.value == w.obj.value.(status := sent.spec.replicas, version := put.w.obj.value.version)
  {
  }

  /**
   A fault-free reconcile by the object: new replicas carry its annotations and image, replicas
   between its spec and its status go.
   */
  lemma ReconcileFollowsObject(w: World, o: JvbObject, addresses: map<Name, string>, names: seq<Name>, r: int)
    requires w.faults == [] && w.obj == Some(o) && !o.deleting
    ensures var t := Reconcile(w, addresses, names).w.store;
            && (1 <= r <= o.spec.replicas ==>
                  && Has(t, r) && Replica(r) in t.services
                  && var d := t.deployments[Replica(r)];
                  && d.pod.image == o.spec.image
                  && (if Has(w.store, r) then d.annotations == w.store.deployments[Replica(r)].annotations
                      else d.annotations == o.annotations && d.selector == d.podLabel == Replica(r))
                  && t.services[Replica(r)].serviceType == o.spec.serviceType
                  && t.services[Replica(r)].annotations == o.spec.serviceAnnotations)
            && (1 < r && o.spec.replicas < r <= o.status ==> !Has(t, r))
            && (r > o.spec.replicas && r > o.status ==> (Has(t, r) <==> Has(w.store, r)))
  {
    hide Reconcile, After, Configured, Converged;
    var p := PlanFor(o, addresses);
    ReconcileCompletes(w, o, addresses, names);
    if 1 <= r <= o.spec.replicas {
      ReplicaAfter(w.store, p, r);
      ConfigurationTheorem(w.store, p, r);
      ImageOf(After(w.store, p), p, r);
      SlotParts(w.store, r);
      SlotParts(After(w.store, p), r);
    } else {
      OthersAfter(w.store, p, r);
      SlotParts(w.store, r);
      SlotParts(After(w.store, p), r);
    }
  }

  lemma ImageOf(s: Store, p: Plan, r: int)
    requires Configured(s, p, r)
    ensures Has(s, r) && s.deployments[Replica(r)].pod.image == p.spec.image
  {
  }

  lemma SlotParts(s: Store, r: int)
    ensures Has(s, r) <==> At(s, r).dep.Some?
    ensures Has(s, r) ==> At(s, r).dep.value == s.deployments[Replica(r)]
    ensures Replica(r) in s.services <==> At(s, r).svc.Some?
    ensures Replica(r) in s.services ==> At(s, r).svc.value == s.services[Replica(r)]
  {
  }

  // ---- Requests depend on the store and the faults only ----

  predicate Alike(a: World, b: World) {
    a.store == b.store && a.faults == b.faults
  }

  predicate RepliesAlike(a: Reply, b: Reply) {
    a.err == b.err && Alike(a.w, b.w)
  }

  predicate RunsAlike(a: Run, b: Run) {
    a.ok == b.ok && a.envs == b.envs && Alike(a.w, b.w)
  }

  lemma RequestsAlike(a: World, b: World, present: bool, c: Call)
    requires Alike(a, b)
    ensures RepliesAlike(Look(a, present), Look(b, present)) && RepliesAlike(Mutate(a, c), Mutate(b, c))
    ensures RepliesAlike(Refused(a), Refused(b))
  {
    hide Exec, Verdict;
  }

  lemma EnsureServiceAlike(a: World, b: World, p: Plan, r: int)
    requires Alike(a, b)
    ensures RepliesAlike(EnsureService(a, p, r), EnsureService(b, p, r))
  {
    hide Look, Mutate, Refused, InstanceService, ExporterService, Refreshed;
    var present, exporter := Replica(r) in a.store.services, CreateService(ExporterOf(r), ExporterService(p, r));
    RequestsAlike(a, b, present, exporter);
    var a1, b1 := Look(a, present).w, Look(b, present).w;
    RequestsAlike(a1, b1, present, exporter);
    var a2, b2 := WithExporter(a1, p, r), WithExporter(b1, p, r);
    RequestsAlike(a2, b2, present, CreateService(Replica(r), InstanceService(p, r)));
    if present {
      RequestsAlike(a2, b2, present, UpdateService(Replica(r), Refreshed(a.store.services[Replica(r)], p, r)));
    }
  }

  lemma CreateReplicaAlike(a: World, b: World, p: Plan, envs: seq<EnvVar>, r: int)
    requires Alike(a, b)
    ensures RunsAlike(CreateReplica(a, p, envs, r), CreateReplica(b, p, envs, r))
  {
    hide Look, Mutate, EnsureService, ExtendEnv, Instance, SipConfig;
    var present, sip := Has(a.store, r), CreateConfigMap(SipOf(r), SipConfig(p));
    RequestsAlike(a, b, present, sip);
    var a1, b1 := Look(a, present).w, Look(b, present).w;
    EnsureServiceAlike(a1, b1, p, r);
    var a2, b2 := EnsureService(a1, p, r).w, EnsureService(b1, p, r).w;
    RequestsAlike(a2, b2, present, sip);
    RequestsAlike(Mutate(a2, sip).w, Mutate(b2, sip).w, present,
                  CreateDeployment(Replica(r), Instance(p, r, ExtendEnv(p, envs, r))));
  }

  lemma {:induction false} CreateUpToAlike(a: World, b: World, p: Plan, envs: seq<EnvVar>, n: int)
    requires Alike(a, b)
    ensures RunsAlike(CreateUpTo(a, p, envs, n), CreateUpTo(b, p, envs, n))
    decreases if n < 0 then 0 else n
  {
    hide CreateReplica;
    if n >= 1 {
      CreateUpToAlike(a, b, p, envs, n - 1);
      var x, y := CreateUpTo(a, p, envs, n - 1), CreateUpTo(b, p, envs, n - 1);
      CreateReplicaAlike(x.w, y.w, p, x.envs, n);
    }
  }

  lemma DropServiceAlike(a: World, b: World, r: int)
    requires Alike(a, b)
    ensures RepliesAlike(DropService(a, r), DropService(b, r))
  {
    hide Look, Mutate;
    var present, main, exp := Replica(r) in a.store.services, DeleteService(Replica(r)), DeleteService(ExporterOf(r));
    RequestsAlike(a, b, present, main);
    var a1, b1 := Look(a, present).w, Look(b, present).w;
    RequestsAlike(a1, b1, present, main);
    var a2, b2 := Mutate(a1, main).w, Mutate(b1, main).w;
    var left := ExporterOf(r) in a2.store.services;
    RequestsAlike(a2, b2, left, exp);
    RequestsAlike(Look(a2, left).w, Look(b2, left).w, left, exp);
  }

  lemma DropReplicaAlike(a: World, b: World, r: int)
    requires Alike(a, b)
    ensures Alike(DropReplica(a, r), DropReplica(b, r))
  {
    hide Look, Mutate, DropService;
    DropServiceAlike(a, b, r);
    var a1, b1 := DropService(a, r).w, DropService(b, r).w;
    var present, c := Has(a1.store, r), DeleteDeployment(Replica(r));
    RequestsAlike(a1, b1, present, c);
    RequestsAlike(Look(a1, present).w, Look(b1, present).w, present, c);
  }

  lemma {:induction false} ScaleDownFromAlike(a: World, b: World, n: int, current: int)
    requires Alike(a, b) && n <= current
    ensures Alike(ScaleDownFrom(a, n, current), ScaleDownFrom(b, n, current))
    decreases current - n
  {
    hide DropReplica;
    if current != n && current != 1 {
      DropReplicaAlike(a, b, current);
      ScaleDownFromAlike(DropReplica(a, current), DropReplica(b, current), n, current - 1);
    }
  }

  lemma PutAlike(a: World, b: World, n: Name, m: ConfigMap)
    requires Alike(a, b)
    ensures Alike(PutConfigMap(a, n, m), PutConfigMap(b, n, m))
  {
    hide Mutate;
    var update := UpdateConfigMap(n, m);
    RequestsAlike(a, b, true, update);
    RequestsAlike(Mutate(a, update).w, Mutate(b, update).w, true, CreateConfigMap(n, m));
  }

  lemma UpdateReplicaAlike(a: World, b: World, p: Plan, envs: seq<EnvVar>, r: int)
    requires Alike(a, b)
    ensures RunsAlike(UpdateReplica(a, p, envs, r), UpdateReplica(b, p, envs, r))
  {
    hide Look, Mutate, PutConfigMap, EnsureService, ExtendEnv, PodFor, SipConfig;
    PutAlike(a, b, SipOf(r), SipConfig(p));
    var a1, b1 := PutConfigMap(a, SipOf(r), SipConfig(p)), PutConfigMap(b, SipOf(r), SipConfig(p));
    var present := Has(a1.store, r);
    RequestsAlike(a1, b1, present, DeleteDeployment(Replica(r)));
    var a2, b2 := Look(a1, present).w, Look(b1, present).w;
    EnsureServiceAlike(a2, b2, p, r);
    if present {
      var d := a1.store.deployments[Replica(r)].(pod := PodFor(p, r, ExtendEnv(p, envs, r)));
      RequestsAlike(EnsureService(a2, p, r).w, EnsureService(b2, p, r).w, true, UpdateDeployment(Replica(r), d));
    }
  }

  lemma {:induction false} UpdateUpToAlike(a: World, b: World, p: Plan, envs: seq<EnvVar>, n: int)
    requires Alike(a, b)
    ensures RunsAlike(UpdateUpTo(a, p, envs, n), UpdateUpTo(b, p, envs, n))
    decreases if n < 0 then 0 else n
  {
    hide UpdateReplica;
    if n >= 1 {
      UpdateUpToAlike(a, b, p, envs, n - 1);
      var x, y := UpdateUpTo(a, p, envs, n - 1), UpdateUpTo(b, p, envs, n - 1);
      UpdateReplicaAlike(x.w, y.w, p, x.envs, n);
    }
  }

  lemma CreateAlike(a: World, b: World, p: Plan, envs: seq<EnvVar>)
    requires Alike(a, b)
    ensures RunsAlike(Create(a, p, envs), Create(b, p, envs))
  {
    hide Mutate, CreateUpTo, LoggingConfig, ShutdownConfig;
    var shutdown := CreateConfigMap(ShutdownMap, ShutdownConfig());
    var logging := CreateConfigMap(LoggingMap, LoggingConfig(envs));
    RequestsAlike(a, b, true, shutdown);
    RequestsAlike(Mutate(a, shutdown).w, Mutate(b, shutdown).w, true, logging);
    CreateUpToAlike(CreateConfigMaps(a, envs), CreateConfigMaps(b, envs), p, envs, p.spec.replicas);
  }

  lemma UpdateAlike(a: World, b: World, p: Plan, envs: seq<EnvVar>)
    requires Alike(a, b)
    ensures RunsAlike(UpdateChildren(a, p, envs), UpdateChildren(b, p, envs))
  {
    hide ScaleDownFrom, PutConfigMap, UpdateUpTo, LoggingConfig, ShutdownConfig;
    if p.status > p.spec.replicas { ScaleDownFromAlike(a, b, p.spec.replicas, p.status); }
    var a1, b1 := ScaleDown(a, p), ScaleDown(b, p);
    PutAlike(a1, b1, ShutdownMap, ShutdownConfig());
    var a2, b2 := PutConfigMap(a1, ShutdownMap, ShutdownConfig()), PutConfigMap(b1, ShutdownMap, ShutdownConfig());
    PutAlike(a2, b2, LoggingMap, LoggingConfig(envs));
    UpdateUpToAlike(PutConfigMaps(a1, envs), PutConfigMaps(b1, envs), p, envs, p.spec.replicas);
  }

  lemma ChildrenAlike(a: World, b: World, p: Plan)
    requires Alike(a, b)
    ensures RunsAlike(Children(a, p), Children(b, p))
  {
    hide Create, UpdateChildren;
    CreateAlike(a, b, p, p.spec.environments);
    var x, y := Create(a, p, p.spec.environments), Create(b, p, p.spec.environments);
    UpdateAlike(x.w, y.w, p, x.envs);
  }

  // ---- A turn under faults ----

  /** What the reconcile of the current object finds in front of it when `faults` are to strike it. */
  function Facing(s: System, faults: seq<Fault>): World
    requires s.history != []
  {
    World(s.store, Some(s.Current()), s.inbox, faults, [])
  }

  /** The fault that strikes the finalizer write, if there is one. */
  function TagFault(s: System, faults: seq<Fault>): Fault
    requires s.history != []
  {
    if FINALIZER in s.Current().finalizers then Clean else NextFault(Spent(Facing(s, faults)))
  }

  function Tagged(s: System, faults: seq<Fault>): Program.Tagged
    requires s.history != []
  {
    AddFinalizer(Spent(Facing(s, faults)), s.Current())
  }

  function ChildRun(s: System, faults: seq<Fault>, addresses: map<Name, string>): Run
    requires s.history != []
  {
    var t := Tagged(s, faults);
    Children(Fresh(s.store, t.w.faults), PlanFor(t.obj, addresses))
  }

  /** The actions of one reconcile, every fault where the program meets it; a fetch that fails is no action. */
  function StruckActions(s: System, faults: seq<Fault>, addresses: map<Name, string>): seq<Action>
    requires s.history != []
  {
    if NextFault(Facing(s, faults)) in {Dropped, Lost} then []
    else
      var run := ChildRun(s, faults, addresses);
      [Begin(|s.history| - 1), Tag(TagFault(s, faults), Tagged(s, faults).w.faults, addresses)]
      + Serves(|run.w.steps|) + [Finish(NextFault(run.w))]
  }

  lemma TagStepUnder(s: System, fault: Fault, faults: seq<Fault>, addresses: map<Name, string>)
    requires s.history != [] && s.phase.Read?
    ensures var (t, seen) := Tagging(s, fault);
            Advance(s, Tag(fault, faults, addresses))
            == t.(phase := Working(seen, Children(Fresh(s.store, faults), PlanFor(seen, addresses)), 0))
  {
    hide Children, Tagging, Fresh;
  }

  /** A write of the object under a fault, in the program and in the state machine. */
  lemma SubmitUnder(s: System, w: World, x: ObjectWrite)
    requires s.history != [] && w.obj == Some(s.Current()) && w.events == s.inbox && x.obj.Some?
    ensures var f, put := NextFault(w), Submit(w, x);
            var t := if Lands(f) then Write(s, x) else s;
            && put.w.store == w.store && put.w.faults == Spent(w).faults
            && put.w.obj == Some(t.Current()) && put.w.events == t.inbox
            && (put.err == Ok <==> Told(f, x.err) == Ok)
  {
  }

  lemma TagWriteExists(s: System, sent: JvbObject)
    requires s.history != [] && !s.Current().deleting
    ensures WriteObject(Some(s.Current()), sent).obj.Some? && WriteStatus(Some(s.Current()), sent).obj.Some?
  {
  }

  /** The state machine tags as the program does. */
  lemma TaggingUnder(s: System, faults: seq<Fault>)
    requires Due(s)
    ensures var begun := s.(queued := false, phase := Read(s.Current()));
            var (t, seen) := Tagging(begun, TagFault(s, faults));
            var tag := Tagged(s, faults);
            && t.history != []
            && seen == tag.obj && tag.w.obj == Some(t.Current()) && t.inbox == tag.w.events && tag.w.store == s.store
            && t == begun.(history := t.history, inbox := t.inbox)
  {
    hide Submit, WriteObject, Lands, Told;
    var o, w := s.Current(), Spent(Facing(s, faults));
    var begun := s.(queued := false, phase := Read(o));
    if FINALIZER !in o.finalizers {
      var sent := o.(finalizers := o.finalizers + [FINALIZER]);
      TagWriteExists(s, sent);
      SubmitUnder(begun, w, WriteObject(Some(o), sent));
    }
  }

  /** The state machine writes the status as the program does. */
  lemma FinishUnder(s: System, w: World)
    requires s.history != [] && !s.Current().deleting
    requires s.phase.Working? && s.phase.at == |s.phase.run.w.steps| && s.phase.run.ok && !s.queued
    requires w.obj == Some(s.Current()) && w.events == s.inbox
    ensures var t := Advance(s, Finish(NextFault(w)));
            var put := PutStatus(w, s.phase.seen.(status := s.phase.seen.spec.replicas));
            && t.history != [] && t.store == s.store && put.w.store == w.store
            && put.w.obj == Some(t.Current()) && t.inbox == put.w.events
            && t.phase == Idle && (t.queued <==> put.err != Ok)
  {
    hide Children, Submit, WriteStatus, Lands, Told;
    var sent := s.phase.seen.(status := s.phase.seen.spec.replicas);
    TagWriteExists(s, sent);
    SubmitUnder(s, w, WriteStatus(Some(s.Current()), sent));
  }

  /** A run that ends with an error leaves the object alone. */
  lemma FinishFailed(s: System, f: Fault)
    requires s.history != [] && s.phase.Working? && s.phase.at == |s.phase.run.w.steps| && !s.phase.run.ok
    ensures Advance(s, Finish(f)) == s.(queued := true, phase := Idle)
  {
    hide Children;
  }

  /** Children under the faults that are left after the tagging. */
  lemma SameRun(s: System, faults: seq<Fault>, addresses: map<Name, string>)
    requires s.history != [] && Tagged(s, faults).w.store == s.store
    ensures var tag, run := Tagged(s, faults), ChildRun(s, faults, addresses);
            var c := Children(tag.w, PlanFor(tag.obj, addresses));
            && RunsAlike(c, run) && c.w.obj == tag.w.obj && c.w.events == tag.w.events
            && StoreAt(run.w, 0) == s.store
  {
    hide Children, Continues, AddFinalizer;
    var tag := Tagged(s, faults);
    var p, w0 := PlanFor(tag.obj, addresses), Fresh(s.store, tag.w.faults);
    ChildrenAlike(tag.w, w0, p);
    ChildrenFootprint(tag.w, p, false);
    SameObjectAfter(p, tag.w, Children(tag.w, p).w);
    ChildrenFootprint(w0, p, false);
    StartOf(p, w0, Children(w0, p).w);
  }

  lemma StartOf(p: Plan, a: World, b: World)
    requires Continues(p, false, a, b) && a.steps == []
    ensures StoreAt(b, 0) == a.store
  {
  }

  lemma NotDeleting(s: System)
    requires Versioned(s)
    ensures s.history != [] && !s.Current().deleting
  {
  }

  /** A turn up to its status write. */
  lemma StruckUpToStatus(s: System, faults: seq<Fault>, addresses: map<Name, string>)
    requires Due(s) && NextFault(Facing(s, faults)) !in {Dropped, Lost}
    ensures var (t, seen) := Tagging(s.(queued := false, phase := Read(s.Current())), TagFault(s, faults));
            var run := ChildRun(s, faults, addresses);
            RunAll(s, StruckActions(s, faults, addresses))
            == Advance(t.(store := run.w.store, phase := Working(seen, run, |run.w.steps|)), Finish(NextFault(run.w)))
  {
    hide Children, Tagging, RunAll, Advance, TagFault, AddFinalizer, ChildRun;
    var begun := s.(queued := false, phase := Read(s.Current()));
    var f := TagFault(s, faults);
    var (t, seen) := Tagging(begun, f);
    var tag, run := Tagged(s, faults), ChildRun(s, faults, addresses);
    TaggingUnder(s, faults);
    SameRun(s, faults, addresses);
    var begin, mark := Begin(|s.history| - 1), Tag(f, tag.w.faults, addresses);
    RunOne(s, begin);
    BeginStep(s);
    RunAfter(s, [begin], mark);
    assert [begin] + [mark] == [begin, mark];
    TagStepUnder(begun, f, tag.w.faults, addresses);
    ChildRunIs(s, faults, addresses);
    var s1 := RunAll(s, [begin, mark]);
    ServeMany(s1, |run.w.steps|);
    RunAllAppend(s, [begin, mark], Serves(|run.w.steps|));
    RunAfter(s, [begin, mark] + Serves(|run.w.steps|), Finish(NextFault(run.w)));
  }

  lemma ChildRunIs(s: System, faults: seq<Fault>, addresses: map<Name, string>)
    requires s.history != []
    ensures var tag := Tagged(s, faults);
            ChildRun(s, faults, addresses) == Children(Fresh(s.store, tag.w.faults), PlanFor(tag.obj, addresses))
  {
    hide Children, AddFinalizer;
  }

  /**
   Under any faults a turn of the state machine that nothing else interrupts is the program: same
   children, same object, same events; and the object is back in the queue exactly when the
   program reports an error.
   */
  lemma StruckTurnIsReconcile(s: System, faults: seq<Fault>, addresses: map<Name, string>, names: seq<Name>)
    requires Due(s)
    ensures var t := RunAll(s, StruckActions(s, faults, addresses));
            var res := Reconcile(Facing(s, faults), addresses, names);
            && t.store == res.w.store && res.w.obj == Some(t.Current()) && t.inbox == res.w.events
            && t.phase == Idle && (t.queued <==> !res.done)
  {
    hide Children, Tagging, RunAll, Advance, TagFault, AddFinalizer, ChildRun, StruckActions;
    NotDeleting(s);
    var w := Facing(s, faults);
    if NextFault(w) in {Dropped, Lost} {
      FetchDecides(w, addresses, names);
      NoActions(s, faults, addresses);
    } else {
      var begun := s.(queued := false, phase := Read(s.Current()));
      var (t, seen) := Tagging(begun, TagFault(s, faults));
      var tag, run := Tagged(s, faults), ChildRun(s, faults, addresses);
      TaggingUnder(s, faults);
      TagUnder(Spent(w), s.Current());
      SameRun(s, faults, addresses);
      StruckUpToStatus(s, faults, addresses);
      var s2 := t.(store := run.w.store, phase := Working(seen, run, |run.w.steps|));
      LiveUnder(s, faults, addresses, names);
      if run.ok {
        FinishUnder(s2, Children(tag.w, PlanFor(tag.obj, addresses)).w);
      } else {
        FinishFailed(s2, NextFault(run.w));
      }
    }
  }

  lemma NoActions(s: System, faults: seq<Fault>, addresses: map<Name, string>)
    requires s.history != [] && NextFault(Facing(s, faults)) in {Dropped, Lost}
    ensures RunAll(s, StruckActions(s, faults, addresses)) == s
  {
  }

  /** What the program does once the object has been fetched. */
  lemma LiveUnder(s: System, faults: seq<Fault>, addresses: map<Name, string>, names: seq<Name>)
    requires s.history != [] && !s.Current().deleting && NextFault(Facing(s, faults)) !in {Dropped, Lost}
    ensures var tag := Tagged(s, faults);
            var c := Children(tag.w, PlanFor(tag.obj, addresses));
            Reconcile(Facing(s, faults), addresses, names) ==
            if !c.ok then Result(c.w, false)
            else var put := PutStatus(c.w, tag.obj.(status := tag.obj.spec.replicas)); Result(put.w, put.err == Ok)
  {
    hide Children, AddFinalizer, PutStatus;
  }
}
