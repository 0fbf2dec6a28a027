/** Reconciles whose only failures are version conflicts: they still create and remove what they should. */
module Conflicts {
  import opened Naming
  import opened Resources
  import opened Api
  import opened Program
  import opened Environment
  import opened Footprint

  lemma StaysGone(p: Plan, s: Store, t: Store, r: int)
    requires Keeps(p, s, t) && Doomed(p, r) && !Has(s, r)
    ensures !Has(t, r)
  {
  }

  lemma {:induction false} GentleScaleDownFrom(w: World, p: Plan, current: int, r: int)
    requires Gentle(w) && p.spec.replicas <= current <= p.status
    requires p.status >= 1 ==> current >= 1
    requires Doomed(p, r) && r <= current
    ensures !Has(ScaleDownFrom(w, p.spec.replicas, current).store, r)
    decreases current - p.spec.replicas
  {
    hide DropReplica, Continues, Has, Gentle, Keeps;
    var w1 := DropReplica(w, current);
    DropReplicaFootprint(w, p, false, current);
    if r == current {
      GentleDropReplica(w, p, current);
      ScaleDownFromFootprint(w1, p, false, current - 1);
      ContinuesKeeps(p, false, w1, ScaleDownFrom(w1, p.spec.replicas, current - 1));
      StaysGone(p, w1.store, ScaleDownFrom(w1, p.spec.replicas, current - 1).store, r);
    } else {
      ContinuesGently(p, false, w, w1);
      GentleScaleDownFrom(w1, p, current - 1, r);
    }
  }

  lemma GentleUpdateReplica(w: World, p: Plan, envs: seq<EnvVar>, r: int)
    requires Gentle(w) && Wanted(p, r) && Has(w.store, r)
    ensures UpdateReplica(w, p, envs, r).ok
  {
    hide PutConfigMap, EnsureService, ExtendEnv, PodFor, SipConfig, Continues;
    var w1 := PutConfigMap(w, SipOf(r), SipConfig(p));
    PutConfigMapFootprint(w, p, true, SipOf(r), SipConfig(p));
    ContinuesGently(p, true, w, w1);
    ContinuesKeeps(p, true, w, w1);
    GentleReplies(w1, true, DeleteService(Replica(r)));
  }

  lemma {:induction false} GentleUpdateUpTo(w: World, p: Plan, envs: seq<EnvVar>, n: int)
    requires Gentle(w) && n <= p.spec.replicas && EnvState(p, envs)
    requires forall r :: Wanted(p, r) ==> Has(w.store, r)
    ensures var u := UpdateUpTo(w, p, envs, n);
            u.ok && Gentle(u.w) && forall r :: Wanted(p, r) ==> Has(u.w.store, r)
    decreases if n < 0 then 0 else n
  {
    hide UpdateReplica, Continues, EnvState, Gentle;
    if n >= 1 {
      GentleUpdateUpTo(w, p, envs, n - 1);
      var b := UpdateUpTo(w, p, envs, n - 1);
      UpdateUpToFootprint(w, p, false, envs, n - 1);
      UpdateReplicaFootprint(b.w, p, false, b.envs, n);
      var u := UpdateReplica(b.w, p, b.envs, n);
      ContinuesKeeps(p, false, b.w, u.w);
      ContinuesGently(p, false, b.w, u.w);
      GentleUpdateReplica(b.w, p, b.envs, n);
    }
  }

  /**
   A reconcile disturbed by version conflicts only runs to its end, with every wanted replica
   in existence and every doomed one gone.
   */
  lemma GentleChildren(w: World, p: Plan)
    requires Gentle(w)
    ensures var c := Children(w, p);
            c.ok && forall r :: Has(c.w.store, r) <==> Wanted(p, r) || (Has(w.store, r) && !Doomed(p, r))
  {
    hide CreateConfigMaps, CreateUpTo, ScaleDownFrom, PutConfigMaps, UpdateUpTo, Gentle;
    var w1 := CreateConfigMaps(w, p.spec.environments);
    CreateConfigMapsFootprint(w, p, false);
    ContinuesGently(p, false, w, w1);
    GentleCreateUpTo(w1, p, p.spec.replicas);
    var c := Create(w, p, p.spec.environments);
    CreateFootprint(w, p, false);
    var w2 := ScaleDown(c.w, p);
    if p.status > p.spec.replicas {
      ScaleDownFromFootprint(c.w, p, false, p.status);
      forall r | Doomed(p, r) ensures !Has(w2.store, r) { GentleScaleDownFrom(c.w, p, p.status, r); }
    }
    assert Continues(p, false, c.w, w2);
    ContinuesKeeps(p, false, c.w, w2);
    ContinuesGently(p, false, c.w, w2);
    var w3 := PutConfigMaps(w2, c.envs);
    PutConfigMapsFootprint(w2, p, false, c.envs);
    ContinuesKeeps(p, false, w2, w3);
    ContinuesGently(p, false, w2, w3);
    GentleUpdateUpTo(w3, p, c.envs, p.spec.replicas);
    UpdateUpToFootprint(w3, p, false, c.envs, p.spec.replicas);
    var u := UpdateUpTo(w3, p, c.envs, p.spec.replicas);
    ContinuesKeeps(p, false, w3, u.w);
    ChildrenFootprint(w, p, false);
    ContinuesKeeps(p, false, w, u.w);
  }
}
