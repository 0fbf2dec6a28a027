/**
 The controller's event loop around one live JVB object, as a state machine: spec edits, filtered
 watch events, a work queue, reconciles whose API calls interleave with edits, and crashes.
 */
module EventLoop {
  import opened Basics
  import opened Naming
  import opened Resources
  import opened Api
  import opened Program
  import opened Footprint
  import opened Lifecycle
  import opened Conflicts

  /** `isSpecUpdated`: which update events reach the queue. */
  predicate IsSpecUpdated(before: JvbObject, after: JvbObject) {
    !(|before.finalizers| < 1 && |after.finalizers| >= 1) && before.status == after.status
  }

  predicate Passes(e: Event) {
    match e
    case Updated(before, after) => IsSpecUpdated(before, after)
    case Removed(_) => true
  }

  datatype Phase =
    | Idle
    | Read(seen: JvbObject)                          // the object has been fetched
    | Working(seen: JvbObject, run: Run, at: nat)    // `at` child requests have been served

  /**
   `history` holds every version of the object the server has stored; the last one is current.
   `quiet` records that no edit and no crash has struck a reconcile, and no reconcile has read
   an outdated object.
   */
  datatype System = System(
    history: seq<JvbObject>,
    store: Store,
    queued: bool,
    inbox: seq<Event>,
    phase: Phase,
    quiet: bool)
  {
    function Current(): JvbObject
      requires history != []
    {
      history[|history| - 1]
    }
  }

  datatype Action =
    | Edit(spec: Spec, annotations: map<string, string>, finalizers: seq<string>)
    | Deliver
    | Begin(version: nat)                            // fetch, possibly from an outdated cache
    | Tag(fault: Fault, faults: seq<Fault>, addresses: map<Name, string>)
    | Serve
    | Finish(fault: Fault)
    | Crash

  /** Outcome of a write to the object: whether it landed, and what the controller is told. */
  predicate Lands(fault: Fault) { fault == Clean || fault == Lost }

  function Told(fault: Fault, err: Err): Err {
    match fault
    case Clean => err
    case Stale => if err == Ok then Conflict else err
    case _ => Failed
  }

  function Write(s: System, x: ObjectWrite): System
    requires s.history != []
  {
    s.(history := if x.obj.Some? && x.obj.value != s.Current() then s.history + [x.obj.value] else s.history,
       inbox := s.inbox + x.events)
  }

  predicate Enabled(s: System, a: Action) {
    match a
    case Edit(_, _, _) => true
    case Deliver => s.inbox != []
    case Begin(v) => s.phase.Idle? && s.queued && v < |s.history|
    case Tag(_, _, _) => s.phase.Read?
    case Serve => s.phase.Working? && s.phase.at < |s.phase.run.w.steps|
    case Finish(_) => s.phase.Working? && s.phase.at == |s.phase.run.w.steps|
    case Crash => true
  }

  /** `AddFinalizer` within the system: the object written, and the copy the reconcile goes on with. */
  function Tagging(s: System, fault: Fault): (System, JvbObject)
    requires s.history != [] && s.phase.Read?
  {
    var o := s.phase.seen;
    if FINALIZER in o.finalizers then (s, o)
    else
      var o' := o.(finalizers := o.finalizers + [FINALIZER]);
      var x := WriteObject(Some(s.Current()), o');
      var s' := if Lands(fault) then Write(s, x) else s;
      (s', if Told(fault, x.err) == Ok then s'.Current() else o')
  }

  function Edited(o: JvbObject, a: Action): JvbObject
    requires a.Edit?
  {
    o.(spec := a.spec, annotations := a.annotations, finalizers := a.finalizers)
  }

  function Next(s: System, a: Action): System
    requires s.history != [] && Enabled(s, a)
    ensures Next(s, a).history != []
  {
    match a
    case Edit(_, _, _) =>
      Write(s, WriteObject(Some(s.Current()), Edited(s.Current(), a))).(quiet := s.quiet && s.phase.Idle?)
    case Deliver =>
      s.(queued := s.queued || Passes(s.inbox[0]), inbox := s.inbox[1..])
    case Begin(v) =>
      s.(queued := false, phase := Read(s.history[v]), quiet := s.quiet && v == |s.history| - 1)
    case Tag(fault, faults, addresses) =>
      var (s', seen) := Tagging(s, fault);
      s'.(phase := Working(seen, Children(Fresh(s.store, faults), PlanFor(seen, addresses)), 0))
    case Serve =>
      s.(store := StoreAt(s.phase.run.w, s.phase.at + 1), phase := s.phase.(at := s.phase.at + 1))
    case Finish(fault) =>
      if !s.phase.run.ok then s.(queued := true, phase := Idle) else
      var x := WriteStatus(Some(s.Current()), s.phase.seen.(status := s.phase.seen.spec.replicas));
      var s' := if Lands(fault) then Write(s, x) else s;
      s'.(queued := s.queued || Told(fault, x.err) != Ok, phase := Idle)
    case Crash =>
      s.(queued := true, inbox := [], phase := Idle, quiet := s.quiet && s.phase.Idle?)
  }

  /** Actions that are not possible are skipped. */
  function Advance(s: System, a: Action): (t: System)
    requires s.history != []
    ensures t.history != []
  {
    if Enabled(s, a) then Next(s, a) else s
  }

  function RunAll(s: System, actions: seq<Action>): (t: System)
    requires s.history != []
    ensures t.history != []
  {
    if actions == [] then s
    else Advance(RunAll(s, actions[..|actions| - 1]), actions[|actions| - 1])
  }

  /** A new JVB object with no Deployment yet, its creation event just delivered. */
  ghost predicate Initial(s: System) {
    && |s.history| == 1 && s.Current().version == 0 && s.Current().status == 0 && !s.Current().deleting
    && Interval(s.store, 0)
    && s.queued && s.inbox == [] && s.phase == Idle && s.quiet
  }

  /** Reconciles fail by version conflicts only. */
  predicate OnlyConflicts(a: Action) {
    match a
    case Tag(fault, faults, _) => fault == Clean && forall f :: f in faults ==> f == Clean || f == Stale
    case Finish(fault) => fault == Clean
    case _ => true
  }

  predicate Quiescent(s: System) {
    !s.queued && s.inbox == [] && s.phase == Idle
  }

  // ---- Convergence ----

  ghost predicate AsAsked(s: System)
    requires s.history != []
  {
    var o := s.Current();
    o.status == o.spec.replicas && forall r :: 1 <= r <= o.spec.replicas ==> Has(s.store, r)
  }

  ghost predicate Pending(s: System) {
    s.queued || exists i :: 0 <= i < |s.inbox| && Passes(s.inbox[i])
  }

  /** The versions of the history count up from 0, and the object is never being deleted. */
  ghost predicate Versioned(s: System) {
    s.history != [] && forall i :: 0 <= i < |s.history| ==> s.history[i].version == i && !s.history[i].deleting
  }

  /** A copy of the object that carries the current version has the current spec. */
  ghost predicate Faithful(s: System, seen: JvbObject)
    requires s.history != []
  {
    seen.version < |s.history| && (seen.version == |s.history| - 1 ==> seen.spec == s.Current().spec)
  }

  ghost predicate Inv(s: System) {
    && Versioned(s)
    && (s.phase.Idle? ==> Pending(s) || AsAsked(s))
    && (s.phase.Read? ==> Faithful(s, s.phase.seen))
    && (s.phase.Working? ==>
          && Faithful(s, s.phase.seen)
          && s.phase.at <= |s.phase.run.w.steps| && s.store == StoreAt(s.phase.run.w, s.phase.at)
          && (s.phase.run.ok ==> forall r :: 1 <= r <= s.phase.seen.spec.replicas ==> Has(s.phase.run.w.store, r)))
  }

  /** A controller that is due to look at the object, in whatever state it finds the namespace. */
  ghost predicate Due(s: System) {
    Versioned(s) && s.queued && s.phase == Idle
  }

  lemma WriteKeepsVersions(s: System, x: ObjectWrite)
    requires Versioned(s)
    requires x.obj.Some?
    requires x.obj.value == s.Current() || (x.obj.value.version == |s.history| && !x.obj.value.deleting)
    ensures Versioned(Write(s, x))
  {
  }

  /**
   An edit of the spec does not escape the controller: the filter lets it through, as it does
   not put the first finalizers on the object at the same time, or the controller has not come
   to rest.
   */
  ghost predicate Heard(s: System, a: Action)
    requires s.history != []
  {
    a.Edit? ==>
      || a.spec == s.Current().spec || s.Current().finalizers != [] || a.finalizers == []
      || !s.phase.Idle? || Pending(s)
  }

  ghost predicate AllHeard(s: System, actions: seq<Action>)
    requires s.history != []
  {
    forall i :: 0 <= i < |actions| ==> Heard(RunAll(s, actions[..i]), actions[i])
  }

  /** What an edit leaves: a new version and its event, or nothing at all. */
  lemma EditEffect(s: System, a: Action)
    requires Versioned(s) && a.Edit?
    ensures var o, t := s.Current(), Next(s, a);
            && t == s.(history := t.history, inbox := t.inbox, quiet := t.quiet)
            && (Edited(o, a) == o ==> t.history == s.history && t.inbox == s.inbox)
            && (Edited(o, a) != o ==>
                  var o' := Edited(o, a).(version := |s.history|);
                  t.history == s.history + [o'] && t.inbox == s.inbox + [Updated(o, o')])
    ensures Versioned(Next(s, a))
  {
  }

  lemma EditKeepsInv(s: System, a: Action)
    requires Inv(s) && a.Edit? && Heard(s, a)
    ensures Inv(Next(s, a))
  {
    hide Next;
    var t := Next(s, a);
    EditEffect(s, a);
    if Pending(s) {
      assert t.inbox[..|s.inbox|] == s.inbox;
      assert forall i :: 0 <= i < |s.inbox| ==> t.inbox[i] == s.inbox[i];
    } else if a.spec != s.Current().spec && s.phase.Idle? {
      assert Passes(t.inbox[|s.inbox|]);
    }
  }

  lemma DeliverKeepsInv(s: System, a: Action)
    requires Inv(s) && a.Deliver? && Enabled(s, a)
    ensures Inv(Next(s, a))
  {
    var t := Next(s, a);
    if i :| 0 <= i < |s.inbox| && Passes(s.inbox[i]) {
      if i > 0 { assert t.inbox[i - 1] == s.inbox[i]; }
    }
  }

  lemma GentleRun(store: Store, p: Plan, faults: seq<Fault>)
    requires forall f :: f in faults ==> f == Clean || f == Stale
    ensures var run := Children(Fresh(store, faults), p);
            && run.ok && StoreAt(run.w, 0) == store
            && forall r :: Has(run.w.store, r) <==> Wanted(p, r) || (Has(store, r) && !Doomed(p, r))
  {
    GentleChildren(Fresh(store, faults), p);
    ChildrenFootprint(Fresh(store, faults), p, false);
  }

  lemma TaggingFaithful(s: System, fault: Fault)
    requires Versioned(s) && s.phase.Read? && Faithful(s, s.phase.seen)
    ensures var (t, seen) := Tagging(s, fault); Versioned(t) && Faithful(t, seen)
    ensures Tagging(s, fault).0.store == s.store
  {
    if FINALIZER !in s.phase.seen.finalizers {
      var x := WriteObject(Some(s.Current()), s.phase.seen.(finalizers := s.phase.seen.finalizers + [FINALIZER]));
      WriteKeepsVersions(s, x);
    }
  }

  /** Whatever has struck it, a run that reports success leaves every replica asked for in existence. */
  lemma SuccessfulRun(store: Store, p: Plan, faults: seq<Fault>)
    ensures var run := Children(Fresh(store, faults), p);
            StoreAt(run.w, 0) == store && (run.ok ==> forall r :: Wanted(p, r) ==> Has(run.w.store, r))
  {
    OkMeansThere(Fresh(store, faults), p);
    ChildrenFootprint(Fresh(store, faults), p, false);
  }

  lemma TagKeepsInv(s: System, a: Action)
    requires Inv(s) && a.Tag? && Enabled(s, a)
    ensures Inv(Next(s, a))
  {
    hide Children, Tagging;
    TaggingFaithful(s, a.fault);
    var (t, seen) := Tagging(s, a.fault);
    var p := PlanFor(seen, a.addresses);
    SuccessfulRun(s.store, p, a.faults);
    assert forall r :: 1 <= r <= seen.spec.replicas <==> Wanted(p, r);
  }

  /** After a status write that the controller believes in, the object has the spec of the run as its status. */
  lemma FinishEffect(s: System, a: Action)
    requires Inv(s) && a.Finish? && Enabled(s, a)
    ensures var t := Next(s, a);
            && Versioned(t) && t.store == s.phase.run.w.store && t.phase == Idle
            && (t.queued || (s.phase.run.ok && t.Current().spec == s.phase.seen.spec
                             && t.Current().status == s.phase.seen.spec.replicas))
            && (s.queued ==> t.queued)
  {
    hide Children;
    var x := WriteStatus(Some(s.Current()), s.phase.seen.(status := s.phase.seen.spec.replicas));
    WriteKeepsVersions(s, x);
  }

  lemma FinishKeepsInv(s: System, a: Action)
    requires Inv(s) && a.Finish? && Enabled(s, a)
    ensures Inv(Next(s, a))
  {
    hide Next;
    FinishEffect(s, a);
  }

  lemma NextKeepsInv(s: System, a: Action)
    requires Inv(s) && Enabled(s, a) && Heard(s, a)
    ensures Inv(Next(s, a))
  {
    match a
    case Edit(_, _, _) => EditKeepsInv(s, a);
    case Deliver => DeliverKeepsInv(s, a);
    case Begin(_) =>
    case Tag(_, _, _) => TagKeepsInv(s, a);
    case Serve =>
    case Finish(_) => FinishKeepsInv(s, a);
    case Crash =>
  }

  lemma HeardSoFar(s: System, actions: seq<Action>)
    requires s.history != [] && AllHeard(s, actions) && actions != []
    ensures AllHeard(s, actions[..|actions| - 1])
    ensures Heard(RunAll(s, actions[..|actions| - 1]), actions[|actions| - 1])
  {
    hide RunAll, Heard;
    var init := actions[..|actions| - 1];
    forall i | 0 <= i < |init| ensures Heard(RunAll(s, init[..i]), init[i]) {
      assert init[..i] == actions[..i] && init[i] == actions[i];
    }
  }

  lemma {:induction false} RunKeepsInv(s: System, actions: seq<Action>)
    requires Inv(s) && AllHeard(s, actions)
    ensures Inv(RunAll(s, actions))
  {
    if actions != [] {
      HeardSoFar(s, actions);
      RunKeepsInv(s, actions[..|actions| - 1]);
      var b, a := RunAll(s, actions[..|actions| - 1]), actions[|actions| - 1];
      if Enabled(b, a) { NextKeepsInv(b, a); }
    }
  }

  /**
   Whenever nothing is queued, delivered or running, the status equals the spec and every
   replica asked for exists: from whatever namespace the controller starts in, and whichever
   requests are refused, dropped, lost or swallowed on the way.
   */
  lemma QuiescentMeansConverged(s: System, actions: seq<Action>)
    requires Due(s) && AllHeard(s, actions)
    requires Quiescent(RunAll(s, actions))
    ensures var t := RunAll(s, actions); var o := t.Current();
            o.status == o.spec.replicas && forall r :: 1 <= r <= o.spec.replicas ==> Has(t.store, r)
  {
    RunKeepsInv(s, actions);
  }

  /**
   The proviso on edits is exact: an edit of the replica count in a quiescent state is lost on
   the controller, which stays quiescent, if and only if the filter does not let it through.
   */
  lemma EditIsLostIff(s: System, a: Action)
    requires Versioned(s) && Quiescent(s) && a.Edit? && AsAsked(s) && a.spec.replicas != s.Current().spec.replicas
    ensures var t := RunAll(s, [a, Deliver]);
            && (Quiescent(t) <==> !Heard(s, a))
            && t.Current().spec == a.spec && !AsAsked(t)
  {
    hide Next;
    assert [a, Deliver][..1] == [a] && [a][..0] == [] && RunAll(s, []) == s;
    var t := Next(s, a);
    EditEffect(s, a);
    assert RunAll(s, [a]) == t;
    DeliverEffect(t);
    assert t.inbox[1..] == [];
  }

  lemma DeliverEffect(s: System)
    requires s.history != [] && s.inbox != []
    ensures Next(s, Deliver) == s.(queued := s.queued || Passes(s.inbox[0]), inbox := s.inbox[1..])
  {
  }

  // ---- Exactness ----

  /** As long as the system is quiet, what a reconcile works on is what is stored. */
  ghost predicate QuietInv(s: System)
    requires s.history != []
  {
    match s.phase
    case Idle => Steady(s.store, s.Current().status)
    case Read(seen) => seen == s.Current() && Steady(s.store, s.Current().status)
    case Working(seen, run, _) => seen == s.Current() && run.ok && Steady(run.w.store, seen.spec.replicas)
  }

  lemma QuietTag(s: System, a: Action)
    requires Inv(s) && QuietInv(s) && a.Tag? && Enabled(s, a) && OnlyConflicts(a)
    ensures QuietInv(Next(s, a))
  {
    var (t, seen) := Tagging(s, a.fault);
    assert seen == t.Current() && seen.status == s.Current().status;
    var p := PlanFor(seen, a.addresses);
    GentleRun(s.store, p, a.faults);
    SteadyInStep(s.store, p);
    IndicesRest(s.store, p, Children(Fresh(s.store, a.faults), p).w.store);
  }

  lemma NextKeepsQuiet(s: System, a: Action)
    requires Inv(s) && Enabled(s, a) && OnlyConflicts(a)
    requires s.quiet ==> QuietInv(s)
    ensures Next(s, a).quiet ==> QuietInv(Next(s, a))
  {
    hide Children;
    if Next(s, a).quiet && a.Tag? { QuietTag(s, a); }
  }

  lemma {:induction false} RunKeepsQuiet(s: System, actions: seq<Action>)
    requires Due(s) && Steady(s.store, s.Current().status)
    requires AllHeard(s, actions) && forall a :: a in actions ==> OnlyConflicts(a)
    ensures RunAll(s, actions).quiet ==> QuietInv(RunAll(s, actions))
  {
    if actions != [] {
      HeardSoFar(s, actions);
      RunKeepsQuiet(s, actions[..|actions| - 1]);
      RunKeepsInv(s, actions[..|actions| - 1]);
      var b, a := RunAll(s, actions[..|actions| - 1]), actions[|actions| - 1];
      if Enabled(b, a) { NextKeepsQuiet(b, a); }
    }
  }

  /**
   If moreover conflicts are the only failures, and no edit, crash or outdated read has struck a
   reconcile, the replicas in existence are exactly those asked for, provided they were those of
   the status at first.
   */
  lemma QuietMeansExact(s: System, actions: seq<Action>, r: int)
    requires Due(s) && Steady(s.store, s.Current().status)
    requires AllHeard(s, actions) && forall a :: a in actions ==> OnlyConflicts(a)
    requires Quiescent(RunAll(s, actions)) && RunAll(s, actions).quiet
    requires RunAll(s, actions).Current().spec.replicas >= 1
    ensures Has(RunAll(s, actions).store, r) <==> 1 <= r <= RunAll(s, actions).Current().spec.replicas
  {
    RunKeepsQuiet(s, actions);
    RunKeepsInv(s, actions);
  }

  // ---- Ceiling ----

  ghost predicate Capped(s: Store, limit: int) {
    forall r :: Has(s, r) ==> 1 <= r <= limit
  }

  lemma LegitKeepsCap(p: Plan, s: Store, c: Call, limit: int)
    requires Legit(p, s, c) && Capped(s, limit) && p.spec.replicas <= limit
    ensures Capped(Exec(s, c), limit)
  {
    var t := Exec(s, c);
    assert forall r :: Has(t, r) && !Has(s, r) ==> c.CreateDeployment? && c.name == Replica(r);
  }

  lemma RunCapped(store: Store, p: Plan, faults: seq<Fault>, limit: int, k: nat)
    requires Capped(store, limit) && p.spec.replicas <= limit
    requires k <= |Children(Fresh(store, faults), p).w.steps|
    ensures Capped(StoreAt(Children(Fresh(store, faults), p).w, k), limit)
  {
    var w0 := Fresh(store, faults);
    var rule := StepRule(p, false);
    var inv := u => Capped(u, limit);
    ChildrenFootprint(w0, p, false);
    forall step: Step, t: Store | rule(step, t) && inv(step.found) ensures inv(t) {
      assert LegitStep(p, false, step, t);
      LegitKeepsCap(p, step.found, step.call, limit);
    }
    InvariantHolds(rule, inv, w0, Children(w0, p).w, k);
  }

  ghost predicate CapInv(s: System, limit: int) {
    && s.history != []
    && (forall i :: 0 <= i < |s.history| ==> s.history[i].spec.replicas <= limit)
    && Capped(s.store, limit)
    && (s.phase.Read? ==> s.phase.seen.spec.replicas <= limit)
    && (s.phase.Working? ==>
          forall k: nat :: k <= |s.phase.run.w.steps| ==> Capped(StoreAt(s.phase.run.w, k), limit))
  }

  predicate Modest(a: Action, limit: int) {
    a.Edit? ==> a.spec.replicas <= limit
  }

  lemma TaggingCapped(s: System, fault: Fault, limit: int)
    requires CapInv(s, limit) && s.phase.Read?
    ensures var (t, seen) := Tagging(s, fault);
            && seen.spec.replicas <= limit && t.store == s.store
            && forall i :: 0 <= i < |t.history| ==> t.history[i].spec.replicas <= limit
  {
  }

  lemma TagKeepsCap(s: System, a: Action, limit: int)
    requires CapInv(s, limit) && a.Tag? && Enabled(s, a)
    ensures CapInv(Next(s, a), limit)
  {
    TaggingCapped(s, a.fault, limit);
    var t := Next(s, a);
    var p := PlanFor(t.phase.seen, a.addresses);
    forall k: nat | k <= |t.phase.run.w.steps| ensures Capped(StoreAt(t.phase.run.w, k), limit) {
      RunCapped(s.store, p, a.faults, limit, k);
    }
  }

  lemma NextKeepsCap(s: System, a: Action, limit: int)
    requires CapInv(s, limit) && Enabled(s, a) && Modest(a, limit)
    ensures CapInv(Next(s, a), limit)
  {
    if a.Tag? { TagKeepsCap(s, a, limit); }
  }

  /**
   From a state within `limit`, as long as nobody asks for more, no interleaving of edits, crashes,
   conflicts, lost requests and swallowed errors ever creates a replica outside 1..limit.
   */
  lemma {:induction false} ReplicaCeiling(s: System, actions: seq<Action>, limit: int)
    requires CapInv(s, limit)
    requires forall a :: a in actions ==> Modest(a, limit)
    ensures CapInv(RunAll(s, actions), limit)
  {
    if actions != [] {
      ReplicaCeiling(s, actions[..|actions| - 1], limit);
      var b, a := RunAll(s, actions[..|actions| - 1]), actions[|actions| - 1];
      if Enabled(b, a) { NextKeepsCap(b, a, limit); }
    }
  }
}
