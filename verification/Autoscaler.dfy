/** The autoscaler's arithmetic: sample aggregation, rounding, and the next replica count. */
module Autoscaler {
  import opened Basics

  // ---- Rounding half to even ----

  function RoundToEven(x: real): int {
    var f := x.Floor;
    var d := x - f as real;
    if d < 0.5 then f
    else if d > 0.5 then f + 1
    else if f % 2 == 0 then f
    else f + 1
  }

  /** The nearest integer, and the even one of two that are equally near. */
  ghost predicate NearestEven(x: real, k: int) {
    var d := if x < k as real then k as real - x else x - k as real;
    d < 0.5 || (d == 0.5 && k % 2 == 0)
  }

  lemma RoundToEvenIsNearest(x: real, k: int)
    ensures NearestEven(x, k) <==> k == RoundToEven(x)
  {
    var f := x.Floor;
    assert f as real <= x < (f + 1) as real;
    if NearestEven(x, k) {
      assert k <= f + 1;
      assert k >= f;
    }
  }

  lemma RoundToEvenMonotone(x: real, y: real)
    requires x <= y
    ensures RoundToEven(x) <= RoundToEven(y)
  {
    if x.Floor == y.Floor {
      assert x - x.Floor as real <= y - y.Floor as real;
    } else {
      assert x.Floor < y.Floor;
    }
  }

  // ---- Floating point ----

  /** A float64, up to rounding. */
  datatype Float = Finite(value: real) | PosInf | NegInf | NaN

  function Divide(x: real, y: real): Float {
    if y != 0.0 then Finite(x / y)
    else if x > 0.0 then PosInf
    else if x < 0.0 then NegInf
    else NaN
  }

  function Quotient(x: Float, target: int): Float {
    match x
    case Finite(v) => Divide(v, target as real)
    case PosInf => if target < 0 then NegInf else PosInf
    case NegInf => if target < 0 then PosInf else NegInf
    case NaN => NaN
  }

  /** Comparisons with NaN are false. */
  predicate Below(x: Float, target: int) {
    (x.Finite? && target as real > x.value) || x.NegInf?
  }

  predicate FitsInt32(x: Float) {
    x.Finite? && -0x8000_0000 <= RoundToEven(x.value) <= MAX_INT32
  }

  /** The rounded value as an int32; where none fits, the conversion gives a number `wild` of the platform's choice. */
  function ToInt32(x: Float, wild: int): int {
    if FitsInt32(x) then RoundToEven(x.value) else wild
  }

  // ---- Aggregation ----

  /** A row of an Influx answer: `_value` is a float or something else. */
  datatype Row = Number(value: real) | Other

  /** What the variable `sum` holds after a list of rows. */
  function LastNumber(rows: seq<Row>): real {
    if rows == [] then 0.0
    else if rows[|rows| - 1].Number? then rows[|rows| - 1].value
    else LastNumber(rows[..|rows| - 1])
  }

  predicate LastNumberAt(rows: seq<Row>, i: int) {
    0 <= i < |rows| && rows[i].Number? && forall j :: i < j < |rows| ==> rows[j].Other?
  }

  function Sum(rows: seq<Row>): real {
    if rows == [] then 0.0
    else Sum(rows[..|rows| - 1]) + (if rows[|rows| - 1].Number? then rows[|rows| - 1].value else 0.0)
  }

  function Numbers(rows: seq<Row>): nat {
    if rows == [] then 0
    else Numbers(rows[..|rows| - 1]) + (if rows[|rows| - 1].Number? then 1 else 0)
  }

  predicate NonNegative(rows: seq<Row>) {
    forall i :: 0 <= i < |rows| && rows[i].Number? ==> rows[i].value >= 0.0
  }

  /** What the aggregation loop returns for a non-empty answer. */
  function Aggregate(rows: seq<Row>): real
    requires rows != []
  {
    LastNumber(rows) / |rows| as real
  }

  /** An answer without rows has no average: the source divides zero by zero. */
  function Average(rows: seq<Row>): Float {
    if rows == [] then NaN else Finite(Aggregate(rows))
  }

  /** The metrics the source knows, and any other name. */
  datatype Metric = Cpu | Conferences | Participants | UnknownMetric

  /** An answer of Influx: an error, or the rows of the result. */
  datatype InfluxAnswer = InfluxFailed | Rows(rows: seq<Row>)

  /** A failed query and an unknown metric count as 0. */
  function InfluxAverage(metric: Metric, a: InfluxAnswer): Float {
    if metric.UnknownMetric? || a.InfluxFailed? then Finite(0.0) else Average(a.rows)
  }

  /** The loop of the Influx variant; `sum` is overwritten where a sum would be accumulated. */
  method CountAvgInflux(answer: InfluxAnswer) returns (avg: Float)
    ensures answer.InfluxFailed? ==> avg == Finite(0.0)
    ensures answer.Rows? ==> avg == Average(answer.rows)
    ensures answer.Rows? ==> (avg == NaN <==> answer.rows == [])
    ensures answer.Rows? ==> forall i :: LastNumberAt(answer.rows, i) ==>
              avg.Finite? && avg.value * |answer.rows| as real == answer.rows[i].value
  {
    if answer.InfluxFailed? { return Finite(0.0); }
    var rows := answer.rows;
    var sum, count, value := 0.0, 0.0, 0.0;
    var next := 0;
    while next < |rows|
      invariant 0 <= next <= |rows|
      invariant sum == LastNumber(rows[..next]) && count == next as real
      invariant forall i :: LastNumberAt(rows[..next], i) ==> sum == rows[i].value
    {
      assert rows[..next + 1][..next] == rows[..next];
      if rows[next].Other? {
        count := count + 1.0;
      } else {
        value := rows[next].value;
        sum := value;
        count := count + 1.0;
      }
      next := next + 1;
    }
    assert rows[..next] == rows;
    avg := Divide(sum, count);
  }

  /** An answer of Prometheus: an error, something that is no matrix, or a list of series. */
  datatype PromAnswer = QueryFailed | NotMatrix | Matrix(series: seq<seq<real>>)

  /** Every series has the second sample that the source reads. */
  predicate LongEnough(series: seq<seq<real>>) {
    forall i :: 0 <= i < |series| ==> |series[i]| >= 2
  }

  /** The rows a matrix stands for: the second sample of each series. */
  function Seconds(series: seq<seq<real>>): (rows: seq<Row>)
    requires LongEnough(series)
    ensures |rows| == |series| && forall i :: 0 <= i < |rows| ==> rows[i] == Number(series[i][1])
  {
    if series == [] then [] else Seconds(series[..|series| - 1]) + [Number(series[|series| - 1][1])]
  }

  /** A failed query counts as 1, an unknown metric as 0; without a second sample the source panics. */
  function PromAverage(metric: Metric, a: PromAnswer): Option<Float> {
    if metric.UnknownMetric? then Some(Finite(0.0)) else
    match a
    case QueryFailed => Some(Finite(1.0))
    case NotMatrix => Some(Finite(0.0))
    case Matrix(series) => if LongEnough(series) then Some(Average(Seconds(series))) else None
  }

  lemma DivideBack(x: real, y: real)
    requires y != 0.0
    ensures Divide(x, y).Finite? && Divide(x, y).value * y == x
  {
  }

  /** The Prometheus variant; `None` when it panics. */
  method CountAvgProm(answer: PromAnswer) returns (avg: Option<Float>)
    ensures avg == PromAverage(Cpu, answer)
    ensures answer.QueryFailed? ==> avg == Some(Finite(1.0))
    ensures answer.NotMatrix? ==> avg == Some(Finite(0.0))
    ensures answer == Matrix([]) ==> avg == Some(NaN)
    ensures answer.Matrix? && answer.series != [] && avg.Some? ==>
              var n := |answer.series|;
              |answer.series[n - 1]| >= 2 && avg.value.Finite? && avg.value.value * n as real == answer.series[n - 1][1]
    ensures avg == None <==> answer.Matrix? && exists i :: 0 <= i < |answer.series| && |answer.series[i]| < 2
  {
    if answer.QueryFailed? { return Some(Finite(1.0)); }
    if answer.NotMatrix? { return Some(Finite(0.0)); }
    var results := answer.series;
    var sum := 0.0;
    for res := 0 to |results|
      invariant LongEnough(results[..res])
      invariant sum == LastNumber(Seconds(results[..res]))
      invariant res > 0 ==> sum == results[res - 1][1]
    {
      if |results[res]| < 2 { return None; }
      assert results[..res + 1][..res] == results[..res];
      var rows := Seconds(results[..res + 1]);
      assert rows[..res] == Seconds(results[..res]);
      sum := results[res][1];
    }
    assert results[..|results|] == results;
    avg := Some(Divide(sum, |results| as real));
    if results != [] { DivideBack(sum, |results| as real); }
  }

  /** What both variants make of a metric they do not know, and of a failed query for one they do. */
  lemma AveragesWithoutSamples(metric: Metric, influx: InfluxAnswer, prom: PromAnswer)
    ensures InfluxAverage(UnknownMetric, influx) == Finite(0.0) && PromAverage(UnknownMetric, prom) == Some(Finite(0.0))
    ensures InfluxAverage(metric, InfluxFailed) == Finite(0.0)
    ensures metric != UnknownMetric ==>
              && PromAverage(metric, QueryFailed) == Some(Finite(1.0))
              && PromAverage(metric, prom) == PromAverage(Cpu, prom)
              && (influx.Rows? ==> InfluxAverage(metric, influx) == Average(influx.rows))
  {
  }

  // ---- The aggregate against the mean ----

  lemma {:induction false} SumBounds(rows: seq<Row>)
    requires NonNegative(rows)
    ensures 0.0 <= LastNumber(rows) <= Sum(rows)
    ensures Numbers(rows) <= |rows|
    ensures Numbers(rows) == 0 ==> Sum(rows) == 0.0
  {
    if rows != [] {
      var init := rows[..|rows| - 1];
      assert forall i :: 0 <= i < |init| ==> init[i] == rows[i];
      SumBounds(init);
      if rows[|rows| - 1].Number? { assert rows[|rows| - 1].value >= 0.0; }
    }
  }

  lemma DivideLarger(a: real, b: real, n: real)
    requires a <= b && n > 0.0
    ensures a / n <= b / n
  {
    var x, y := a / n, b / n;
    assert a == x * n && b == y * n;
    assert (y - x) * n >= 0.0;
  }

  lemma DivideByFewer(a: real, m: real, n: real)
    requires a >= 0.0 && 0.0 < m <= n
    ensures a / n <= a / m
  {
    var q := a / n;
    assert a == q * n && q >= 0.0;
    assert q * m <= q * n;
    DivideLarger(q * m, a, m);
    assert (q * m) / m == q;
  }

  /** The true mean, over the numeric rows. */
  function Mean(rows: seq<Row>): real
    requires Numbers(rows) > 0
  {
    Sum(rows) / Numbers(rows) as real
  }

  /** For non-negative samples the aggregate never exceeds the mean, however the rows are counted. */
  lemma AggregateBelowMean(rows: seq<Row>)
    requires rows != [] && NonNegative(rows)
    ensures 0.0 <= Aggregate(rows) <= Sum(rows) / |rows| as real
    ensures Numbers(rows) > 0 ==> Aggregate(rows) <= Mean(rows)
  {
    SumBounds(rows);
    DivideLarger(0.0, LastNumber(rows), |rows| as real);
    DivideLarger(LastNumber(rows), Sum(rows), |rows| as real);
    if Numbers(rows) > 0 { DivideByFewer(Sum(rows), Numbers(rows) as real, |rows| as real); }
  }

  /** Scaling up is sound: it happens only when the mean really reaches the target. */
  lemma ScaleUpIsSound(rows: seq<Row>, target: real)
    requires rows != [] && NonNegative(rows) && target > 0.0
    requires !(target > Aggregate(rows))
    ensures Numbers(rows) > 0 && Mean(rows) >= target
  {
    AggregateBelowMean(rows);
    SumBounds(rows);
  }

  /** Zero everywhere before the number that the loop keeps. */
  predicate OnlyLastCounts(rows: seq<Row>) {
    rows == [] ||
    (if rows[|rows| - 1].Number? then Sum(rows[..|rows| - 1]) == 0.0 else OnlyLastCounts(rows[..|rows| - 1]))
  }

  lemma {:induction false} LastIsSum(rows: seq<Row>)
    requires NonNegative(rows)
    ensures LastNumber(rows) == Sum(rows) <==> OnlyLastCounts(rows)
  {
    if rows != [] {
      var init := rows[..|rows| - 1];
      assert forall i :: 0 <= i < |init| ==> init[i] == rows[i];
      LastIsSum(init);
    }
  }

  lemma QuotientsEqual(a: real, s: real, n: real, m: real)
    requires 0.0 <= a <= s && s > 0.0 && 0.0 < m <= n
    ensures a / n == s / m <==> a == s && m == n
  {
    var q := s / m;
    assert s == q * m && q > 0.0;
    if a / n == q {
      assert a == q * n;
      assert q * (n - m) == a - s;
    }
  }

  /** The aggregate is the mean exactly when all rows are numbers and only the last is not zero. */
  lemma AggregateIsMeanIff(rows: seq<Row>)
    requires rows != [] && NonNegative(rows) && Numbers(rows) > 0 && Sum(rows) > 0.0
    ensures Aggregate(rows) == Mean(rows) <==> Numbers(rows) == |rows| && OnlyLastCounts(rows)
  {
    SumBounds(rows);
    LastIsSum(rows);
    QuotientsEqual(LastNumber(rows), Sum(rows), |rows| as real, Numbers(rows) as real);
  }

  /** If the scale-down branch is taken for a target, the mean is below the target, too. */
  predicate DownRightly(rows: seq<Row>, target: real)
    requires rows != [] && Numbers(rows) > 0
  {
    target > Aggregate(rows) ==> target > Mean(rows)
  }

  /** The same for a target of the source, which is an int32. */
  predicate DownRightlyAt(rows: seq<Row>, target: int)
    requires rows != [] && Numbers(rows) > 0
  {
    Below(Average(rows), target) ==> target as real > Mean(rows)
  }

  /**
   Scaling down is right for every int32 target if and only if no target lies above the aggregate
   and not above the mean: their integral parts are equal, or all targets are below.
   */
  lemma ScaleDownIsSoundIff(rows: seq<Row>)
    requires rows != [] && NonNegative(rows) && Numbers(rows) > 0
    ensures (forall target: int :: target <= MAX_INT32 ==> DownRightlyAt(rows, target)) <==>
            Aggregate(rows).Floor == Mean(rows).Floor || Aggregate(rows).Floor >= MAX_INT32
  {
    hide Sum, Aggregate, Mean;
    AggregateBelowMean(rows);
    var a, m := Aggregate(rows), Mean(rows);
    var least := a.Floor + 1;
    assert a < least as real && a.Floor <= m.Floor;
    if a.Floor == m.Floor || a.Floor >= MAX_INT32 {
      forall target: int | target <= MAX_INT32 ensures DownRightlyAt(rows, target) {
        if target as real > a { assert target >= least; }
      }
    } else {
      assert least as real <= m && !DownRightlyAt(rows, least);
    }
  }

  /**
   Were targets real numbers, scaling down would be right for all of them if and only if all
   samples are zero, or all rows are numbers and only the last is not zero.
   */
  lemma ScaleDownAtRealsIff(rows: seq<Row>)
    requires rows != [] && NonNegative(rows) && Numbers(rows) > 0
    ensures (forall target: real :: target > 0.0 ==> DownRightly(rows, target)) <==>
            Sum(rows) == 0.0 || (Numbers(rows) == |rows| && OnlyLastCounts(rows))
  {
    hide Sum, OnlyLastCounts, Aggregate;
    SumBounds(rows);
    AggregateBelowMean(rows);
    var mean, count := Mean(rows), Numbers(rows) as real;
    assert mean * count == Sum(rows);
    if Sum(rows) == 0.0 {
      assert mean == 0.0;
    } else {
      DivideLarger(0.0, Sum(rows), count);
      assert mean > 0.0;
      AggregateIsMeanIff(rows);
      if Aggregate(rows) != mean { assert !DownRightly(rows, mean); }
    }
  }

  /** A witness that it can be wrong: a mean of 55 against a target of 20 is read as 5. */
  lemma ScaleDownCanBeWrong()
    ensures var rows := [Number(100.0), Number(10.0)];
            NonNegative(rows) && Numbers(rows) == 2 && Mean(rows) == 55.0 && !DownRightlyAt(rows, 20)
  {
    var rows := [Number(100.0), Number(10.0)];
    assert rows[..1] == [Number(100.0)] && rows[..1][..0] == [];
    assert Sum(rows) == 110.0;
  }

  // ---- The next replica count ----

  /** `scaleUp`: multiply as int32, then clamp from above. */
  function ScaledUp(replicas: int, desired: int, max: int): int {
    var product := Wrap32(replicas * desired);
    if product > max then max else product
  }

  /** `scaleDown`: set, then clamp from below. */
  function ScaledDown(desired: int, min: int): int {
    if desired < min then min else desired
  }

  /** `Scale`: what is written to the replica count of the spec. */
  function NextReplicas(replicas: int, avg: real, target: real, min: int, max: int): int
    requires target > 0.0
  {
    var desired := RoundToEven(avg / target);
    if target > avg then ScaledDown(desired, min) else ScaledUp(replicas, desired, max)
  }

  /** `Scale` for whatever average, target and platform. */
  function NextCount(replicas: int, avg: Float, target: int, wild: int, min: int, max: int): int {
    var desired := ToInt32(Quotient(avg, target), wild);
    if Below(avg, target) then ScaledDown(desired, min) else ScaledUp(replicas, desired, max)
  }

  /** For finite averages, positive targets and factors that fit an int32 the platform has no say. */
  lemma NextCountIsNextReplicas(replicas: int, x: real, target: int, wild: int, min: int, max: int)
    requires target > 0 && -2147483648 <= RoundToEven(x / target as real) <= 2147483647
    ensures NextCount(replicas, Finite(x), target, wild, min, max)
            == NextReplicas(replicas, x, target as real, min, max)
  {
  }

  /** Where the platform decides: NaN, averages over a target of 0 and factors out of range scale up by its number. */
  lemma PlatformDecides(replicas: int, x: real, target: int, wild: int, min: int, max: int)
    ensures NextCount(replicas, NaN, target, wild, min, max) == Min(Wrap32(replicas * wild), max)
    ensures x >= 0.0 ==> NextCount(replicas, Finite(x), 0, wild, min, max) == Min(Wrap32(replicas * wild), max)
    ensures 0 < target && target as real <= x && RoundToEven(x / target as real) > 2147483647 ==>
              NextCount(replicas, Finite(x), target, wild, min, max) == Min(Wrap32(replicas * wild), max)
  {
  }

  /** What the aggregation loops give for samples that are not negative. */
  predicate Plausible(avg: Float) {
    avg == NaN || (avg.Finite? && avg.value >= 0.0)
  }

  /** No target, not even 0 or a negative one, and no conversion leads such an average above the maximum. */
  lemma NeverAboveMaximumAtAll(replicas: int, avg: Float, target: int, wild: int, min: int, max: int)
    requires Plausible(avg) && 1 <= min <= max
    ensures NextCount(replicas, avg, target, wild, min, max) <= max
  {
    if Below(avg, target) {
      var x, t := avg.value, target as real;
      RatioBranch(x, t);
      DivideLarger(0.0, x, t);
      RoundToEvenMonotone(0.0, x / t);
    }
  }

  lemma RatioBranch(avg: real, target: real)
    requires target > 0.0
    ensures target > avg <==> avg / target < 1.0
    ensures target > avg ==> RoundToEven(avg / target) <= 1
    ensures !(target > avg) ==> RoundToEven(avg / target) >= 1
  {
    var x := avg / target;
    assert avg == x * target;
    if x < 1.0 { assert x * target < 1.0 * target; } else { assert x * target >= 1.0 * target; }
    assert RoundToEven(1.0) == 1;
    if x < 1.0 { RoundToEvenMonotone(x, 1.0); } else { RoundToEvenMonotone(1.0, x); }
  }

  /** Whatever the samples say, scaling down goes straight to the minimum. */
  lemma ScaleDownIsMinimum(replicas: int, avg: real, target: real, min: int, max: int)
    requires target > avg && target > 0.0 && min >= 1
    ensures NextReplicas(replicas, avg, target, min, max) == min
  {
    RatioBranch(avg, target);
  }

  /** The maximum holds even when the multiplication overflows. */
  lemma NeverAboveMaximum(replicas: int, avg: real, target: real, min: int, max: int)
    requires target > 0.0 && 1 <= min <= max
    ensures NextReplicas(replicas, avg, target, min, max) <= max
  {
    RatioBranch(avg, target);
  }

  /** The minimum holds if and only if the wrapped product does not fall below it. */
  lemma InRangeIff(replicas: int, avg: real, target: real, min: int, max: int)
    requires target > 0.0 && 1 <= min <= replicas <= max <= MAX_INT32
    ensures min <= NextReplicas(replicas, avg, target, min, max) <= max <==>
            target > avg || Wrap32(replicas * RoundToEven(avg / target)) >= min
    ensures !(target > avg) && replicas * RoundToEven(avg / target) <= MAX_INT32 ==>
              Wrap32(replicas * RoundToEven(avg / target)) >= min
  {
    RatioBranch(avg, target);
    var q := RoundToEven(avg / target);
    if !(target > avg) {
      assert replicas * q >= replicas by { Scaling(replicas, 1, q); }
    }
  }

  lemma Scaling(a: int, b: int, c: int)
    requires a >= 0 && b <= c
    ensures a * b <= a * c
  {
  }

  /** With a large product the count leaves the range. */
  lemma OverflowLeavesRange()
    ensures NextReplicas(0x4000_0000, 2.0, 1.0, 1, 0x4000_0000) == -0x8000_0000
  {
    assert RoundToEven(2.0 / 1.0) == 2;
  }

  lemma WholeFactor(q: int, target: real)
    requires target > 0.0
    ensures RoundToEven(q as real * target / target) == q
  {
    assert q as real * target / target == q as real;
  }

  /** The least factor that makes the product overflow. */
  lemma OverflowingFactor(replicas: int, top: int) returns (q: int)
    requires 1 <= replicas <= MAX_INT32 && 1 <= top <= MAX_INT32 && replicas * top > MAX_INT32
    ensures 1 <= q <= top && Wrap32(replicas * q) < 0
  {
    q := (MAX_INT32 + replicas) / replicas;
    assert MAX_INT32 < replicas * q <= MAX_INT32 + replicas;
    if q > top {
      Scaling(replicas, top, q - 1);
    }
  }

  /** The range is kept whatever the samples say if and only if there is a single replica. */
  lemma RangeAlwaysKeptIff(replicas: int, target: real, min: int, max: int)
    requires target > 0.0 && 1 <= min <= replicas <= max <= MAX_INT32
    ensures (forall avg: real :: RoundToEven(avg / target) <= MAX_INT32 ==>
               min <= NextReplicas(replicas, avg, target, min, max) <= max)
            <==> replicas == 1
  {
    if replicas == 1 {
      forall avg: real | RoundToEven(avg / target) <= MAX_INT32
        ensures min <= NextReplicas(replicas, avg, target, min, max) <= max
      {
        InRangeIff(replicas, avg, target, min, max);
        if target > avg { ScaleDownIsMinimum(replicas, avg, target, min, max); }
      }
    } else {
      Scaling(MAX_INT32, 2, replicas);
      var q := OverflowingFactor(replicas, MAX_INT32);
      var avg := q as real * target;
      WholeFactor(q, target);
      RatioBranch(avg, target);
      InRangeIff(replicas, avg, target, min, max);
    }
  }

  lemma ScaledUpMonotone(replicas: int, q: int, q': int, max: int)
    requires 1 <= replicas <= max <= MAX_INT32 && 1 <= q <= q' && replicas * q' <= MAX_INT32
    ensures replicas <= ScaledUp(replicas, q, max) <= ScaledUp(replicas, q', max) <= max
  {
    Scaling(replicas, 1, q);
    Scaling(replicas, q, q');
  }

  /** More load never means fewer replicas. */
  lemma StepIsMonotone(replicas: int, avg: real, avg': real, target: real, min: int, max: int)
    requires target > 0.0 && 1 <= min <= replicas <= max <= MAX_INT32
    requires avg <= avg' && replicas * RoundToEven(avg' / target) <= MAX_INT32
    ensures min <= NextReplicas(replicas, avg, target, min, max)
            <= NextReplicas(replicas, avg', target, min, max) <= max
  {
    var q, q' := RoundToEven(avg / target), RoundToEven(avg' / target);
    RatioBranch(avg', target);
    if target > avg {
      ScaleDownIsMinimum(replicas, avg, target, min, max);
      if target > avg' {
        ScaleDownIsMinimum(replicas, avg', target, min, max);
      } else {
        ScaledUpMonotone(replicas, q', q', max);
      }
    } else {
      RatioBranch(avg, target);
      DivideLarger(avg, avg', target);
      RoundToEvenMonotone(avg / target, avg' / target);
      ScaledUpMonotone(replicas, q, q', max);
    }
  }

  /** Of two readings the larger leads to no smaller count. */
  predicate MonotoneAt(replicas: int, avg: real, avg': real, target: real, min: int, max: int)
    requires target > 0.0
  {
    avg <= avg' ==> NextReplicas(replicas, avg, target, min, max) <= NextReplicas(replicas, avg', target, min, max)
  }

  /** The step is monotone over all readings with a factor up to `top` if and only if no product overflows. */
  lemma StepIsMonotoneIff(replicas: int, target: real, min: int, max: int, top: int)
    requires target > 0.0 && 1 <= min <= replicas <= max <= MAX_INT32 && 1 <= top <= MAX_INT32
    ensures (forall a: real, b: real :: RoundToEven(b / target) <= top ==> MonotoneAt(replicas, a, b, target, min, max))
            <==> replicas * top <= MAX_INT32
  {
    hide NextReplicas, RoundToEven;
    if replicas * top <= MAX_INT32 {
      forall a: real, b: real | RoundToEven(b / target) <= top ensures MonotoneAt(replicas, a, b, target, min, max) {
        Scaling(replicas, RoundToEven(b / target), top);
        if a <= b { StepIsMonotone(replicas, a, b, target, min, max); }
      }
    } else {
      var q := OverflowingFactor(replicas, top);
      var a, b := 1 as real * target, q as real * target;
      assert a <= b by { assert (q - 1) as real * target >= 0.0; }
      ScaledByFactor(replicas, 1, target, min, max);
      ScaledByFactor(replicas, q, target, min, max);
      WholeFactor(q, target);
      Wrap32InRange(replicas);
      assert !MonotoneAt(replicas, a, b, target, min, max);
    }
  }

  /** A reading that is a whole multiple of the target. */
  lemma ScaledByFactor(replicas: int, q: int, target: real, min: int, max: int)
    requires target > 0.0 && q >= 1
    ensures NextReplicas(replicas, q as real * target, target, min, max) == ScaledUp(replicas, q, max)
  {
    WholeFactor(q, target);
    assert q as real * target >= target by { assert (q - 1) as real * target >= 0.0; }
  }

  // ---- Runs ----

  /** The count after a sequence of scalings. */
  function Scalings(replicas: int, avgs: seq<real>, target: real, min: int, max: int): int
    requires target > 0.0
  {
    if avgs == [] then replicas
    else NextReplicas(Scalings(replicas, avgs[..|avgs| - 1], target, min, max), avgs[|avgs| - 1], target, min, max)
  }

  function Product(avgs: seq<real>, target: real): int
    requires target > 0.0
  {
    if avgs == [] then 1
    else Product(avgs[..|avgs| - 1], target) * RoundToEven(avgs[|avgs| - 1] / target)
  }

  /** No multiplication of the run overflows. */
  predicate Fits(replicas: int, avgs: seq<real>, target: real, min: int, max: int)
    requires target > 0.0
  {
    avgs == [] ||
    (Fits(replicas, avgs[..|avgs| - 1], target, min, max)
     && Scalings(replicas, avgs[..|avgs| - 1], target, min, max) * RoundToEven(avgs[|avgs| - 1] / target) <= MAX_INT32)
  }

  lemma MultiplyOnce(replicas: int, p: int, q: int, max: int)
    requires 1 <= replicas <= max <= MAX_INT32 && p >= 1 && q >= 1
    requires Min(replicas * p, max) * q <= MAX_INT32
    ensures p * q >= 1
    ensures ScaledUp(Min(replicas * p, max), q, max) == Min(replicas * (p * q), max)
  {
    Scaling(p, 1, q);
    Scaling(replicas, 1, p);
    ClampedProduct(replicas * p, q, max);
    assert replicas * (p * q) == (replicas * p) * q;
  }

  /** Consecutive scale-ups multiply: the count is the clamped product of all factors. */
  lemma {:induction false} ScaleUpsMultiply(replicas: int, avgs: seq<real>, target: real, min: int, max: int)
    requires target > 0.0 && 1 <= replicas <= max <= MAX_INT32
    requires forall i :: 0 <= i < |avgs| ==> avgs[i] >= target
    requires Fits(replicas, avgs, target, min, max)
    ensures Product(avgs, target) >= 1
    ensures Scalings(replicas, avgs, target, min, max) == Min(replicas * Product(avgs, target), max)
  {
    if avgs != [] {
      var init, last := avgs[..|avgs| - 1], avgs[|avgs| - 1];
      assert forall i :: 0 <= i < |init| ==> init[i] == avgs[i];
      ScaleUpsMultiply(replicas, init, target, min, max);
      RatioBranch(last, target);
      MultiplyOnce(replicas, Product(init, target), RoundToEven(last / target), max);
    }
  }

  /** Clamping before multiplying is clamping after. */
  lemma ClampedProduct(a: int, q: int, max: int)
    requires a >= 1 && q >= 1 && 1 <= max <= MAX_INT32
    requires Min(a, max) * q <= MAX_INT32
    ensures ScaledUp(Min(a, max), q, max) == Min(a * q, max)
  {
    var b := Min(a, max);
    Scaling(b, 1, q);
    Scaling(a, 1, q);
    if a > max { Scaling(q, max, a); Scaling(max, 1, q); }
  }
}
