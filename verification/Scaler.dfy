/** The autoscaler at work on the stored JVB object, and the bound it keeps on the whole system. */
module Scaler {
  import opened Basics
  import opened Resources
  import opened Api
  import opened Clusters
  import opened Autoscaler
  import EventLoop

  /** Reading the object and writing it back with another replica count. */
  function Rescale(w: World, up: bool, desired: int, min: int, max: int): Reply {
    var got := Look(w, w.obj.Some?);
    if got.err != Ok || w.obj.None? then got else
    var o := w.obj.value;
    var n := if up then ScaledUp(o.spec.replicas, desired, max) else ScaledDown(desired, min);
    PutObject(got.w, o.(spec := o.spec.(replicas := n)))
  }

  /**
   Without faults, on an object that is not being deleted, rescaling writes the object back with
   another replica count and nothing else.
   */
  lemma RescaleKeepsTheRest(w: World, up: bool, desired: int, min: int, max: int)
    requires w.faults == [] && w.obj.Some? && !w.obj.value.deleting
    ensures var t := Rescale(w, up, desired, min, max); var o := w.obj.value;
            && t.err == Ok && t.w.store == w.store && t.w.steps == w.steps && t.w.obj.Some?
            && var o' := t.w.obj.value;
               && o' == o.(spec := o.spec.(replicas := o'.spec.replicas), version := o'.version)
               && o'.spec.replicas == (if up then ScaledUp(o.spec.replicas, desired, max) else ScaledDown(desired, min))
               && t.w.events == w.events + (if o' == o then [] else [Api.Updated(o, o')])
  {
  }

  class AutoScaler {
    const cluster: Cluster
    const min: int
    const max: int
    const target: int

    constructor (cluster: Cluster, min: int, max: int, target: int)
      ensures this.cluster == cluster && this.min == min && this.max == max && this.target == target
    {
      this.cluster, this.min, this.max, this.target := cluster, min, max, target;
    }

    method ScaleUp(desired: int) returns (err: Err)
      modifies cluster
      ensures Reply(err, cluster.State()) == Rescale(old(cluster.State()), true, desired, min, max)
    {
      var getErr, got := cluster.GetJvb();
      if getErr != Ok { return getErr; }
      var jitsi := got.value;
      jitsi := jitsi.(spec := jitsi.spec.(replicas := Wrap32(jitsi.spec.replicas * desired)));
      if jitsi.spec.replicas > max {
        jitsi := jitsi.(spec := jitsi.spec.(replicas := max));
      }
      err, jitsi := cluster.UpdateJvb(jitsi);
    }

    method ScaleDown(desired: int) returns (err: Err)
      modifies cluster
      ensures Reply(err, cluster.State()) == Rescale(old(cluster.State()), false, desired, min, max)
    {
      var getErr, got := cluster.GetJvb();
      if getErr != Ok { return getErr; }
      var jitsi := got.value;
      jitsi := jitsi.(spec := jitsi.spec.(replicas := desired));
      if jitsi.spec.replicas < min {
        jitsi := jitsi.(spec := jitsi.spec.(replicas := min));
      }
      err, jitsi := cluster.UpdateJvb(jitsi);
    }

    /** `Scale`, given the aggregate of the samples; a failing write is only logged. */
    method Scale(avg: Float, wild: int)
      modifies cluster
      ensures cluster.State() ==
              Rescale(old(cluster.State()), !Below(avg, target), ToInt32(Quotient(avg, target), wild), min, max).w
      ensures old(cluster.faults) == [] && old(cluster.jvb).Some? && !old(cluster.jvb).value.deleting ==>
                var o := old(cluster.jvb).value;
                && cluster.jvb.Some?
                && cluster.jvb.value ==
                   o.(spec := o.spec.(replicas := NextCount(o.spec.replicas, avg, target, wild, min, max)),
                      version := cluster.jvb.value.version)
      ensures cluster.deployments == old(cluster.deployments) && cluster.services == old(cluster.services)
      ensures cluster.configMaps == old(cluster.configMaps)
    {
      if Below(avg, target) {
        var desired := ToInt32(Quotient(avg, target), wild);
        var err := ScaleDown(desired);
        return;
      }
      var desired := ToInt32(Quotient(avg, target), wild);
      var err := ScaleUp(desired);
    }

    /** `Scale` of the Influx variant; `answer` is what the query for the metric gives. */
    method ScaleByInflux(metric: Metric, answer: InfluxAnswer, wild: int)
      modifies cluster
      ensures var avg := InfluxAverage(metric, answer);
              cluster.State() ==
              Rescale(old(cluster.State()), !Below(avg, target), ToInt32(Quotient(avg, target), wild), min, max).w
    {
      var avg := Finite(0.0);
      if metric != UnknownMetric { avg := CountAvgInflux(answer); }
      Scale(avg, wild);
    }

    /** The Prometheus variant; when it panics, nothing has been requested. */
    method ScaleByProm(metric: Metric, answer: PromAnswer, wild: int) returns (panics: bool)
      modifies cluster
      ensures panics <==> PromAverage(metric, answer) == None
      ensures match PromAverage(metric, answer)
              case None => cluster.State() == old(cluster.State())
              case Some(avg) =>
                cluster.State() ==
                Rescale(old(cluster.State()), !Below(avg, target), ToInt32(Quotient(avg, target), wild), min, max).w
    {
      var avg := Some(Finite(0.0));
      if metric != UnknownMetric { avg := CountAvgProm(answer); }
      if avg == None { return true; }
      Scale(avg.value, wild);
      return false;
    }
  }

  /** A failing Prometheus query sends the count to the minimum, unless the target is 1. */
  lemma FailedQueryScalesToMinimum(replicas: int, metric: Metric, target: int, wild: int, min: int, max: int)
    requires metric != UnknownMetric && target >= 1 && 1 <= min <= replicas <= max <= MAX_INT32
    ensures PromAverage(metric, QueryFailed).Some?
    ensures NextCount(replicas, PromAverage(metric, QueryFailed).value, target, wild, min, max)
            == if target > 1 then min else replicas
  {
    RatioBranch(1.0, target as real);
    RoundToEvenMonotone(0.0, 1.0 / target as real);
    NextCountIsNextReplicas(replicas, 1.0, target, wild, min, max);
    if target > 1 {
      ScaleDownIsMinimum(replicas, 1.0, target as real, min, max);
    } else {
      assert RoundToEven(1.0 / 1.0) == 1;
    }
  }

  // ---- The system with the autoscaler as its only editor ----

  /**
   The edits an autoscaler makes in a state: it changes the replica count only, to what some
   answer with samples that are not negative gives, whatever the target and the platform.
   */
  ghost predicate Autoscales(s: EventLoop.System, a: EventLoop.Action, min: int, max: int)
    requires s.history != []
  {
    a.Edit? ==>
      var o := s.Current();
      && a.annotations == o.annotations && a.finalizers == o.finalizers
      && a.spec == o.spec.(replicas := a.spec.replicas)
      && exists avg: Float, target: int, wild: int ::
           Plausible(avg) && a.spec.replicas == NextCount(o.spec.replicas, avg, target, wild, min, max)
  }

  /**
   Whatever faults strike a scaling step, it leaves the object and the events alone, or has the
   effect of one edit of this kind.
   */
  lemma ScalingIsAnEdit(s: EventLoop.System, w: World, avg: Float, target: int, wild: int, min: int, max: int)
    requires EventLoop.Versioned(s) && w.obj == Some(s.Current()) && w.events == s.inbox && Plausible(avg)
    ensures var t := Rescale(w, !Below(avg, target), ToInt32(Quotient(avg, target), wild), min, max).w;
            var o := s.Current();
            var a := EventLoop.Edit(
                       o.spec.(replicas := NextCount(o.spec.replicas, avg, target, wild, min, max)),
                       o.annotations, o.finalizers);
            && t.store == w.store && Autoscales(s, a, min, max)
            && ((t.obj == w.obj && t.events == w.events)
                || (t.obj == Some(EventLoop.Next(s, a).Current()) && t.events == EventLoop.Next(s, a).inbox))
  {
    hide NextCount, Below, ToInt32, Quotient, ScaledUp, ScaledDown, EventLoop.Next, Plausible;
    var o, up := s.Current(), !Below(avg, target);
    var desired, n := ToInt32(Quotient(avg, target), wild), NextCount(o.spec.replicas, avg, target, wild, min, max);
    NextCountIsStep(o.spec.replicas, avg, target, wild, min, max);
    RescaleEffect(w, up, desired, min, max, n);
    EventLoop.EditEffect(s, EventLoop.Edit(o.spec.(replicas := n), o.annotations, o.finalizers));
  }

  lemma NextCountIsStep(replicas: int, avg: Float, target: int, wild: int, min: int, max: int)
    ensures var desired := ToInt32(Quotient(avg, target), wild);
            NextCount(replicas, avg, target, wild, min, max)
            == if Below(avg, target) then ScaledDown(desired, min) else ScaledUp(replicas, desired, max)
  {
  }

  /** What a rescaling step may do under faults: nothing, or one write of the new count. */
  lemma RescaleEffect(w: World, up: bool, desired: int, min: int, max: int, n: int)
    requires w.obj.Some? && !w.obj.value.deleting
    requires n == if up then ScaledUp(w.obj.value.spec.replicas, desired, max) else ScaledDown(desired, min)
    ensures var t, o := Rescale(w, up, desired, min, max).w, w.obj.value;
            var o' := o.(spec := o.spec.(replicas := n), version := o.version + 1);
            && t.store == w.store
            && ((t.obj == w.obj && t.events == w.events)
                || (n != o.spec.replicas && t.obj == Some(o') && t.events == w.events + [Api.Updated(o, o')]))
  {
    hide ScaledUp, ScaledDown;
  }

  ghost predicate OnlyAutoscaled(s: EventLoop.System, actions: seq<EventLoop.Action>, min: int, max: int)
    requires s.history != []
  {
    forall i :: 0 <= i < |actions| ==> Autoscales(EventLoop.RunAll(s, actions[..i]), actions[i], min, max)
  }

  lemma AutoscaledIsModest(s: EventLoop.System, a: EventLoop.Action, min: int, max: int)
    requires s.history != [] && 1 <= min <= max && Autoscales(s, a, min, max)
    ensures EventLoop.Modest(a, max)
  {
    if a.Edit? {
      var n := s.Current().spec.replicas;
      var avg: Float, target: int, wild: int :|
        Plausible(avg) && a.spec.replicas == NextCount(n, avg, target, wild, min, max);
      NeverAboveMaximumAtAll(n, avg, target, wild, min, max);
    }
  }

  /** The averages of both variants are plausible when no sample is negative. */
  lemma AveragesArePlausible(metric: Metric, influx: InfluxAnswer, prom: PromAnswer)
    requires influx.Rows? ==> NonNegative(influx.rows)
    requires prom.Matrix? ==>
               forall i, j :: 0 <= i < |prom.series| && 0 <= j < |prom.series[i]| ==> prom.series[i][j] >= 0.0
    ensures Plausible(InfluxAverage(metric, influx))
    ensures PromAverage(metric, prom).Some? ==> Plausible(PromAverage(metric, prom).value)
  {
    if influx.Rows? && influx.rows != [] { AggregateBelowMean(influx.rows); }
    if prom.Matrix? && LongEnough(prom.series) && prom.series != [] { AggregateBelowMean(Seconds(prom.series)); }
  }

  /**
   If only the autoscaler edits the spec, from whatever state within the maximum, then no
   interleaving with reconciles, crashes, conflicts and lost requests ever lets a replica exist
   outside 1..max.
   */
  lemma AutoscaledCeiling(s: EventLoop.System, actions: seq<EventLoop.Action>, min: int, max: int, r: int)
    requires EventLoop.CapInv(s, max) && 1 <= min <= max
    requires OnlyAutoscaled(s, actions, min, max)
    ensures Has(EventLoop.RunAll(s, actions).store, r) ==> 1 <= r <= max
  {
    forall a | a in actions ensures EventLoop.Modest(a, max) {
      var i :| 0 <= i < |actions| && actions[i] == a;
      AutoscaledIsModest(EventLoop.RunAll(s, actions[..i]), a, min, max);
    }
    EventLoop.ReplicaCeiling(s, actions, max);
  }
}
