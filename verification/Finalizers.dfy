/** Adding and removing the operator's finalizer: change the list, then write the object. */
module Finalizers {
  import opened Api
  import Program
  import opened Clusters

  method AddFinalizer(cluster: Cluster, obj: JvbObject) returns (err: Err, o: JvbObject)
    modifies cluster
    ensures Program.Tagged(err, cluster.State(), o) == Program.AddFinalizer(old(cluster.State()), obj)
  {
    if FINALIZER in obj.finalizers { return Ok, obj; }
    o := obj.(finalizers := obj.finalizers + [FINALIZER]);
    err, o := cluster.UpdateJvb(o);
  }

  method RemoveFinalizer(cluster: Cluster, obj: JvbObject) returns (err: Err, o: JvbObject)
    modifies cluster
    ensures Program.Tagged(err, cluster.State(), o) == Program.RemoveFinalizer(old(cluster.State()), obj)
  {
    if FINALIZER !in obj.finalizers { return Ok, obj; }
    var kept := Filter(obj.finalizers, FINALIZER);
    o := obj.(finalizers := kept);
    err, o := cluster.UpdateJvb(o);
  }

  lemma WithoutStep(s: seq<string>, x: string, i: nat)
    requires i < |s|
    ensures Program.Without(s[i..], x) == (if s[i] == x then [] else [s[i]]) + Program.Without(s[i + 1..], x)
  {
    assert s[i..][1..] == s[i + 1..] && s[i..][0] == s[i];
  }

  /** The entries of a list other than `x`, in order. */
  method Filter(s: seq<string>, x: string) returns (kept: seq<string>)
    ensures kept == Program.Without(s, x)
  {
    hide Program.Without;
    kept := [];
    assert s[0..] == s;
    for i := 0 to |s|
      invariant Program.Without(s, x) == kept + Program.Without(s[i..], x)
    {
      WithoutStep(s, x, i);
      if s[i] != x {
        assert kept + ([s[i]] + Program.Without(s[i + 1..], x)) == (kept + [s[i]]) + Program.Without(s[i + 1..], x);
        kept := kept + [s[i]];
      } else {
        assert [] + Program.Without(s[i + 1..], x) == Program.Without(s[i + 1..], x);
      }
    }
    WithoutNothing(s[|s|..], x);
    assert kept + [] == kept;
  }

  lemma WithoutNothing(s: seq<string>, x: string)
    requires s == []
    ensures Program.Without(s, x) == []
  {
  }
}
