/** What each step of a reconcile and of a deletion does to the store under any faults, request by request. */
module UnderFaults {
  import opened Basics
  import opened Naming
  import opened Resources
  import opened Api
  import opened Program
  import opened FaultFree
  import opened Footprint

  /** The request arrives, and its effect is not refused. */
  predicate Arrives(f: Fault) { f != Dropped }

  predicate Takes(f: Fault) { f == Clean || f == Lost }

  /** The reply can be relied on. */
  predicate Answered(f: Fault) { f == Clean || f == Stale }

  lemma FaultCases(f: Fault)
    ensures f == Clean || f == Stale || f == Dropped || f == Lost
  {
  }

  lemma LookEffect(w: World, present: bool)
    ensures var t := Look(w, present);
            && t.w == Spent(w)
            && t.err == if Answered(NextFault(w)) then (if present then Ok else NotFound) else Failed
  {
    FaultCases(NextFault(w));
  }

  /** A request takes effect unless it is dropped or, for an update, refused. */
  lemma MutateEffect(w: World, c: Call)
    ensures var t := Mutate(w, c);
            && t.w.faults == Spent(w).faults
            && t.w.store == (if (if c.IsUpdate() then Takes(NextFault(w)) else Arrives(NextFault(w)))
                             then Exec(w.store, c) else w.store)
            && (!Answered(NextFault(w)) ==> t.err == Failed)
            && (Answered(NextFault(w)) ==>
                  t.err == Verdict(w.store, c) || (t.err == Conflict && Verdict(w.store, c) == Ok && c.IsUpdate()))
  {
    FaultCases(NextFault(w));
  }

  lemma SpentStore(w: World)
    ensures Spent(w).store == w.store
  {
  }

  // ---- ConfigMaps ----

  /** An update that finds nothing is followed by a creation; any other failure is not. */
  lemma PutEffect(w: World, n: Name, m: ConfigMap)
    ensures var t := PutConfigMap(w, n, m);
            && t.store.deployments == w.store.deployments && t.store.services == w.store.services
            && t.store.configMaps ==
               (if (if n in w.store.configMaps then Takes(NextFault(w))
                    else Answered(NextFault(w)) && Arrives(NextFault(Spent(w))))
                then w.store.configMaps[n := m] else w.store.configMaps)
            && t.faults ==
               (if n !in w.store.configMaps && Answered(NextFault(w)) then Spent(Spent(w)) else Spent(w)).faults
  {
    hide Mutate, Takes, Answered, Arrives;
    var u := Mutate(w, UpdateConfigMap(n, m));
    MutateEffect(w, UpdateConfigMap(n, m));
    MutateEffect(u.w, CreateConfigMap(n, m));
    SameFaults(u.w, Spent(w));
  }

  lemma SameFaults(a: World, b: World)
    requires a.faults == b.faults
    ensures NextFault(a) == NextFault(b) && Spent(a).faults == Spent(b).faults
  {
  }

  // ---- Services ----

  lemma WithExporterEffect(w: World, p: Plan, r: int)
    ensures var t, port := WithExporter(w, p, r), p.spec.exporter.port;
            && t.store.deployments == w.store.deployments && t.store.configMaps == w.store.configMaps
            && Find(t.store.services, Replica(r)) == Find(w.store.services, Replica(r))
            && Find(t.store.services, ExporterOf(r)) ==
               (if p.spec.exporter.kind == "" && ExporterOf(r) !in w.store.services && Arrives(NextFault(w))
                then Some(Service(map[], "ClusterIP", "exporter", "TCP", port, port, Replica(r)))
                else Find(w.store.services, ExporterOf(r)))
  {
    hide Mutate, Arrives;
    MutateEffect(w, CreateService(ExporterOf(r), ExporterService(p, r)));
  }

  /**
   The main Service: created where the read says it is missing, overwritten except for its selector
   where the read finds it, left alone where the read fails.
   */
  lemma EnsureServiceEffect(w: World, p: Plan, r: int)
    ensures var w1, t := WithExporter(Spent(w), p, r), EnsureService(w, p, r).w;
            var x := Find(w.store.services, Replica(r));
            var port := Wrap32((if p.spec.port != 0 then p.spec.port else 10000) + r);
            var selector := if x.Some? then x.value.selector else Replica(r);
            && t.store.deployments == w.store.deployments && t.store.configMaps == w.store.configMaps
            && Find(t.store.services, ExporterOf(r)) == Find(w1.store.services, ExporterOf(r))
            && Find(t.store.services, Replica(r)) ==
               (if Answered(NextFault(w)) && (if x.Some? then Takes(NextFault(w1)) else Arrives(NextFault(w1)))
                then Some(Service(p.spec.serviceAnnotations, p.spec.serviceType, "jvb", p.spec.protocol,
                                  port, port, selector))
                else x)
  {
    hide WithExporter, ExporterService, Mutate, Look, Takes, Arrives, Answered, Spent, InstanceService, Refreshed;
    var present := Replica(r) in w.store.services;
    LookEffect(w, present);
    SpentStore(w);
    var w1 := WithExporter(Spent(w), p, r);
    WithExporterEffect(Spent(w), p, r);
    ServicesSpelledOut(w.store, p, r);
    if present {
      MutateEffect(w1, UpdateService(Replica(r), Refreshed(w.store.services[Replica(r)], p, r)));
    } else {
      MutateEffect(w1, CreateService(Replica(r), InstanceService(p, r)));
    }
    RefusedEffect(w1);
  }

  lemma RefusedEffect(w: World)
    ensures Refused(w).w.store == w.store
  {
  }

  lemma ServicesSpelledOut(s: Store, p: Plan, r: int)
    ensures var port := Wrap32((if p.spec.port != 0 then p.spec.port else 10000) + r);
            && InstanceService(p, r) ==
               Service(p.spec.serviceAnnotations, p.spec.serviceType, "jvb", p.spec.protocol, port, port, Replica(r))
            && (Replica(r) in s.services ==>
                  var x := s.services[Replica(r)];
                  Refreshed(x, p, r) ==
                  Service(p.spec.serviceAnnotations, p.spec.serviceType, "jvb", p.spec.protocol,
                          port, port, x.selector))
  {
  }

  /** The world between the deletions of the two Services, when the first one is confirmed. */
  function BetweenDrops(w: World, r: int): World {
    Mutate(Spent(w), DeleteService(Replica(r))).w
  }

  /** The main Service is found and its deletion confirmed. */
  predicate MainConfirmed(w: World, r: int) {
    Replica(r) in w.store.services && Answered(NextFault(w)) && Answered(NextFault(Spent(w)))
  }

  /**
   The main Service goes if the read finds it and the deletion arrives; the exporter Service only
   after the first deletion has been confirmed, and if its own read and deletion get through.
   */
  lemma DropServiceEffect(w: World, r: int)
    ensures var b, t := BetweenDrops(w, r), DropService(w, r).w;
            && t.store.deployments == w.store.deployments && t.store.configMaps == w.store.configMaps
            && Find(t.store.services, Replica(r)) ==
               (if Answered(NextFault(w)) && Arrives(NextFault(Spent(w))) then None
                else Find(w.store.services, Replica(r)))
            && Find(t.store.services, ExporterOf(r)) ==
               (if MainConfirmed(w, r) && Answered(NextFault(b)) && Arrives(NextFault(Spent(b))) then None
                else Find(w.store.services, ExporterOf(r)))
  {
    hide Mutate, Look, Spent, Answered, Arrives, NextFault;
    var present, b := Replica(r) in w.store.services, BetweenDrops(w, r);
    LookEffect(w, present);
    SpentStore(w);
    DeleteEffect(Spent(w), Replica(r));
    var left := ExporterOf(r) in b.store.services;
    LookEffect(b, left);
    SpentStore(b);
    DeleteEffect(Spent(b), ExporterOf(r));
  }

  lemma DeleteEffect(w: World, n: Name)
    ensures var t := Mutate(w, DeleteService(n));
            && t.w.store.deployments == w.store.deployments && t.w.store.configMaps == w.store.configMaps
            && t.w.store.services == (if Arrives(NextFault(w)) then w.store.services - {n} else w.store.services)
            && (t.err == Ok <==> n in w.store.services && Answered(NextFault(w)))
            && (t.err == NotFound <==> n !in w.store.services && Answered(NextFault(w)))
  {
    hide Mutate, Answered, Arrives;
    MutateEffect(w, DeleteService(n));
    if n !in w.store.services { assert w.store.services - {n} == w.store.services; }
  }

  // ---- Replicas ----

  /** The Deployment goes if its own read and deletion get through, whatever has become of the Services. */
  lemma DropReplicaEffect(w: World, r: int)
    ensures var b, t := DropService(w, r).w, DropReplica(w, r);
            && t.store.services == b.store.services && t.store.configMaps == b.store.configMaps
            && t.store.deployments ==
               if Answered(NextFault(b)) && Arrives(NextFault(Spent(b))) then w.store.deployments - {Replica(r)}
               else w.store.deployments
  {
    hide DropService, Mutate, Look, Spent, Answered, Arrives, NextFault;
    DropServiceEffect(w, r);
    var b := DropService(w, r).w;
    LookEffect(b, Has(b.store, r));
    SpentStore(b);
    MutateEffect(Spent(b), DeleteDeployment(Replica(r)));
    if !Has(b.store, r) { assert b.store.deployments - {Replica(r)} == b.store.deployments; }
  }

  lemma EnsureKeeps(w: World, p: Plan, r: int)
    ensures EnsureService(w, p, r).w.store.deployments == w.store.deployments
  {
    EnsureServiceEffect(w, p, r);
  }

  /** The world in which `Update` comes to write the Deployment of a replica. */
  function BeforeWrite(w: World, p: Plan, r: int): World {
    EnsureService(Spent(PutConfigMap(w, SipOf(r), SipConfig(p))), p, r).w
  }

  /**
   The update of a replica succeeds if its read finds it; only the pod is then replaced, if the
   write is not refused, whatever has become of the SIP options and Services.
   */
  lemma UpdateReplicaEffect(w: World, p: Plan, envs: seq<EnvVar>, r: int)
    ensures var w1, b := PutConfigMap(w, SipOf(r), SipConfig(p)), BeforeWrite(w, p, r);
            var u := UpdateReplica(w, p, envs, r);
            && (u.ok <==> Has(w.store, r) && Answered(NextFault(w1)))
            && u.envs == (if u.ok then ExtendEnv(p, envs, r) else envs)
            && (!u.ok ==> u.w == Spent(w1))
            && (u.ok ==>
                  && u.w.faults == Spent(b).faults
                  && u.w.store.services == b.store.services && u.w.store.configMaps == b.store.configMaps
                  && u.w.store.deployments ==
                     if !Takes(NextFault(b)) then w.store.deployments
                     else w.store.deployments[
                            Replica(r) := w.store.deployments[Replica(r)].(pod := PodFor(p, r, u.envs))])
  {
    hide PutConfigMap, EnsureService, ExtendEnv, PodFor, SipConfig, Mutate, Look, Spent, Answered, Takes, NextFault;
    var w1, b := PutConfigMap(w, SipOf(r), SipConfig(p)), BeforeWrite(w, p, r);
    PutKeepsDeployments(w, SipOf(r), SipConfig(p));
    LookEffect(w1, Has(w1.store, r));
    SpentStore(w1);
    EnsureKeeps(Spent(w1), p, r);
    if Has(w.store, r) {
      var d := w.store.deployments[Replica(r)].(pod := PodFor(p, r, ExtendEnv(p, envs, r)));
      MutateEffect(b, UpdateDeployment(Replica(r), d));
    }
  }

  // ---- Deletion ----

  /** Deletion removes replicas 1, 2, ... in this order. */
  function Ascending(n: nat): (s: seq<int>)
    ensures |s| == n && forall i :: 0 <= i < n ==> s[i] == i + 1
  {
    seq(n, i => i + 1)
  }

  lemma {:induction false} DropAllAppend(w: World, s: seq<int>, r: int)
    ensures DropAll(w, s + [r]) == DropReplica(DropAll(w, s), r)
    decreases |s|
  {
    hide DropReplica;
    if s == [] {
      assert [] + [r] == [r] && [r][1..] == [];
    } else {
      assert (s + [r])[1..] == s[1..] + [r];
      DropAllAppend(DropReplica(w, s[0]), s[1..], r);
    }
  }

  lemma {:induction false} DropsInOrder(w: World, n: nat)
    ensures DropUpTo(w, n) == DropAll(w, Ascending(n))
  {
    hide DropReplica;
    if n >= 1 {
      DropsInOrder(w, n - 1);
      assert Ascending(n) == Ascending(n - 1) + [n];
      DropAllAppend(w, Ascending(n - 1), n);
    }
  }

  /** A ConfigMap of the listing stays exactly if its own deletion is dropped; no error stops the others. */
  lemma {:induction false} DropConfigMapsEffect(w: World, names: seq<Name>, m: Name)
    requires forall i, j :: 0 <= i < j < |names| ==> names[i] != names[j]
    ensures var t := DropConfigMaps(w, names);
            && t.store.deployments == w.store.deployments && t.store.services == w.store.services
            && (m !in names ==> Find(t.store.configMaps, m) == Find(w.store.configMaps, m))
            && forall i :: 0 <= i < |names| && names[i] == m ==>
                 Find(t.store.configMaps, m) ==
                 if Arrives(NextFault(DropConfigMaps(w, names[..i]))) then None else Find(w.store.configMaps, m)
  {
    hide Arrives, Mutate, NextFault, Exec;
    if names != [] {
      var init, last := names[..|names| - 1], names[|names| - 1];
      DropConfigMapsEffect(w, init, m);
      DeleteConfigMapEffect(DropConfigMaps(w, init), last);
      assert forall i :: 0 <= i < |init| ==> init[i] == names[i] && init[..i] == names[..i];
    }
  }

  lemma DeleteConfigMapEffect(w: World, n: Name)
    ensures var t := Mutate(w, DeleteConfigMap(n)).w;
            && t.store.deployments == w.store.deployments && t.store.services == w.store.services
            && t.store.configMaps == if Arrives(NextFault(w)) then w.store.configMaps - {n} else w.store.configMaps
  {
    hide Mutate, Arrives;
    MutateEffect(w, DeleteConfigMap(n));
    if n !in w.store.configMaps { assert w.store.configMaps - {n} == w.store.configMaps; }
  }

  /** Without a listing no ConfigMap is deleted. */
  lemma ListingDecides(w: World, names: seq<Name>)
    ensures DropListed(w, names) == if Answered(NextFault(w)) then DropConfigMaps(Spent(w), names) else Spent(w)
  {
    FaultCases(NextFault(w));
  }

  // ---- The object ----

  /**
   Tagging adds the operator's finalizer behind the others and changes nothing else; the
   controller's copy has it even if the write fails.
   */
  lemma AddFinalizerEffect(w: World, o: JvbObject)
    requires w.obj == Some(o) && !o.deleting
    ensures var t, ours := AddFinalizer(w, o), "onmetal.de/meeting-operator";
            var o' := o.(finalizers := o.finalizers + [ours], version := o.version + 1);
            if ours in o.finalizers then t == Tagged(Ok, w, o)
            else
              && t.w.store == w.store && t.w.steps == w.steps
              && (t.err == Ok <==> NextFault(w) == Clean)
              && t.obj == (if NextFault(w) == Clean then o' else o'.(version := o.version))
              && (if Takes(NextFault(w)) then t.w.obj == Some(o') && t.w.events == w.events + [Updated(o, o')]
                  else t.w.obj == w.obj && t.w.events == w.events)
  {
    FaultCases(NextFault(w));
  }

  /** Removing an entry commutes with concatenation, takes away the entry, and nothing but the entry. */
  lemma {:induction false} WithoutLaws(a: seq<string>, b: seq<string>, x: string, y: string)
    ensures Without([], x) == []
    ensures Without([y], x) == if y == x then [] else [y]
    ensures Without(a + b, x) == Without(a, x) + Without(b, x)
  {
    assert [y][1..] == [];
    if a == [] {
      assert a + b == b;
    } else {
      assert (a + b)[1..] == a[1..] + b && (a + b)[0] == a[0];
      WithoutLaws(a[1..], b, x, y);
    }
  }
}
