/**
  Running mean and second moment of benchmark results (`BenchSuite::Log` in ns3/utils/bench-scheduler.cc),
  over exact reals. The average starts at the first sample, which the loop then processes again.
*/
module Welford {
  /** Time, rate and period of one phase of a run. */
  datatype Phase = Phase(time: real, rate: real, period: real)

  datatype Result = Result(init: Phase, run: Phase)

  /** The six numbers of a result. */
  datatype Field = InitTime | InitRate | InitPeriod | RunTime | RunRate | RunPeriod

  function Get(r: Result, f: Field): real {
    match f
    case InitTime => r.init.time
    case InitRate => r.init.rate
    case InitPeriod => r.init.period
    case RunTime => r.run.time
    case RunRate => r.run.rate
    case RunPeriod => r.run.period
  }

  // ---------- the textbook definitions ----------

  function Total(results: seq<Result>, f: Field): real {
    if results == [] then 0.0 else Total(results[..|results| - 1], f) + Get(results[|results| - 1], f)
  }

  function Mean(results: seq<Result>, f: Field): real
    requires results != []
  {
    Total(results, f) / |results| as real
  }

  function Square(x: real): real {
    x * x
  }

  /** The sum of squared deviations from `center`. */
  function SquaredDeviations(results: seq<Result>, f: Field, center: real): real {
    if results == [] then 0.0
    else
      SquaredDeviations(results[..|results| - 1], f, center) + Square(Get(results[|results| - 1], f) - center)
  }

  // ---------- one accumulation ----------

  /** One sample's effect on the running average and second moment of a field. */
  function NewAverage(average: real, x: real, count: nat): real
    requires count > 0
  {
    average + (x - average) / count as real
  }

  /** The growth of the second moment: deviation from the old average times deviation from the new one. */
  function Gain(x: real, before: real, after: real): real {
    (x - before) * (x - after)
  }

  /** The average times the count is the total; so is the next one. */
  lemma AverageStep(front: seq<Result>, last: Result, f: Field, average: real)
    requires IsMean(front, f, average)
    ensures IsMean(front + [last], f, NewAverage(average, Get(last, f), |front| + 1))
  {
  }

  /** What moving the center from `a` to `b` adds for `n` samples with total `t`. */
  function Shift(n: real, t: real, a: real, b: real): real {
    2.0 * (a - b) * (t - n * a) + n * ((a - b) * (a - b))
  }

  lemma {:induction false} DeviationsShift(results: seq<Result>, f: Field, a: real, b: real)
    ensures SquaredDeviations(results, f, b)
         == SquaredDeviations(results, f, a) + Shift(|results| as real, Total(results, f), a, b)
    decreases |results|
  {
    if results != [] {
      hide Shift, Get, Square;
      var (front, x) := (results[..|results| - 1], Get(results[|results| - 1], f));
      DeviationsShift(front, f, a, b);
      ShiftStep(x, a, b, |front| as real, Total(front, f));
    }
  }

  lemma ShiftStep(x: real, a: real, b: real, n: real, t: real)
    ensures Shift(n, t, a, b) + Square(x - b) == Shift(n + 1.0, t + x, a, b) + Square(x - a)
  {
  }

  lemma NewAverageGap(a: real, x: real, count: nat)
    requires count > 0
    ensures count as real * (NewAverage(a, x, count) - a) == x - a
  {
  }

  /** With `a` the mean of `n` samples and `b` that of one more, moving the center costs what the gain misses. */
  lemma GainIsShift(n: real, t: real, a: real, b: real, x: real)
    requires n * a == t && (n + 1.0) * (b - a) == x - a
    ensures Shift(n, t, a, b) + Square(x - b) == Gain(x, a, b)
  {
  }

  /** The average, times the count, is the total. */
  ghost predicate IsMean(results: seq<Result>, f: Field, average: real) {
    |results| as real * average == Total(results, f)
  }

  lemma OneMoreDeviation(front: seq<Result>, last: Result, f: Field, center: real)
    ensures SquaredDeviations(front + [last], f, center) == SquaredDeviations(front, f, center) + Square(Get(last, f) - center)
  {
  }

  /** The second moment about the new mean, from the one about the old mean. */
  lemma MomentStep(front: seq<Result>, last: Result, f: Field, a: real, b: real)
    requires front != [] && IsMean(front, f, a)
    requires b == NewAverage(a, Get(last, f), |front| + 1)
    ensures SquaredDeviations(front + [last], f, b)
         == SquaredDeviations(front, f, a) + Gain(Get(last, f), a, b)
  {
    hide NewAverage, Gain, Shift, Square, Get, Total, SquaredDeviations;
    OneMoreDeviation(front, last, f, b);
    DeviationsShift(front, f, a, b);
    NewAverageGap(a, Get(last, f), |front| + 1);
    GainIsShift(|front| as real, Total(front, f), a, b, Get(last, f));
  }

  /** The state after `n` samples: any average before the first, afterwards the mean and the moment about it. */
  ghost predicate Accumulated(results: seq<Result>, n: nat, f: Field, average: real, moment2: real)
    requires n <= |results|
  {
    if n == 0 then results != [] && average == Get(results[0], f) && moment2 == 0.0
    else IsMean(results[..n], f, average) && moment2 == SquaredDeviations(results[..n], f, average)
  }

  /** The first sample is already the average: processing it again changes nothing. */
  lemma FirstSample(x: real)
    ensures NewAverage(x, x, 1) == x
  {
  }

  lemma AccumulateStep(results: seq<Result>, n: nat, f: Field, average: real, moment2: real, average': real, moment2': real)
    requires n < |results| && Accumulated(results, n, f, average, moment2)
    requires average' == NewAverage(average, Get(results[n], f), n + 1)
    requires moment2' == moment2 + Gain(Get(results[n], f), average, average')
    ensures Accumulated(results, n + 1, f, average', moment2')
  {
    hide NewAverage, SquaredDeviations, Get;
    var (front, last) := (results[..n], results[n]);
    assert results[..n + 1] == front + [last];
    if n == 0 {
      FirstSample(average);
      OneSample(last, f);
      assert front + [last] == [last];
    } else {
      LaterSample(front, last, f, average, moment2, average', moment2');
    }
  }

  lemma LaterSample(front: seq<Result>, last: Result, f: Field, average: real, moment2: real, average': real, moment2': real)
    requires front != [] && IsMean(front, f, average) && moment2 == SquaredDeviations(front, f, average)
    requires average' == NewAverage(average, Get(last, f), |front| + 1)
    requires moment2' == moment2 + Gain(Get(last, f), average, average')
    ensures IsMean(front + [last], f, average')
    ensures moment2' == SquaredDeviations(front + [last], f, average')
  {
    hide *;
    AverageStep(front, last, f, average);
    MomentStep(front, last, f, average, average');
  }

  lemma OneSample(r: Result, f: Field)
    ensures Total([r], f) == Get(r, f) && SquaredDeviations([r], f, Get(r, f)) == 0.0
  {
  }

  /** One more sample of a field: whichever samples average and moment summed up, they now sum up one more. */
  method Accumulate(average: real, moment2: real, x: real, count: nat) returns (average': real, moment2': real)
    requires count > 0
    ensures forall results: seq<Result>, f ::
      count <= |results| && Get(results[count - 1], f) == x && Accumulated(results, count - 1, f, average, moment2)
      ==> Accumulated(results, count, f, average', moment2')
  {
    var deltaPre := x - average;
    average' := average + deltaPre / count as real;
    var deltaPost := x - average';
    moment2' := moment2 + deltaPre * deltaPost;
    forall results: seq<Result>, f |
      count <= |results| && Get(results[count - 1], f) == x && Accumulated(results, count - 1, f, average, moment2)
      ensures Accumulated(results, count, f, average', moment2')
    {
      AccumulateStep(results, count - 1, f, average, moment2, average', moment2');
    }
  }

  /** All six fields of one sample. */
  method AccumulateAll(a: Result, m: Result, run: Result, count: nat) returns (average: Result, moment2: Result)
    requires count > 0
    ensures forall results: seq<Result>, f ::
      count <= |results| && results[count - 1] == run && Accumulated(results, count - 1, f, Get(a, f), Get(m, f))
      ==> Accumulated(results, count, f, Get(average, f), Get(moment2, f))
  {
    hide Accumulated;
    var a1, m1 := Accumulate(a.init.time, m.init.time, run.init.time, count);
    var a2, m2 := Accumulate(a.init.rate, m.init.rate, run.init.rate, count);
    var a3, m3 := Accumulate(a.init.period, m.init.period, run.init.period, count);
    var a4, m4 := Accumulate(a.run.time, m.run.time, run.run.time, count);
    var a5, m5 := Accumulate(a.run.rate, m.run.rate, run.run.rate, count);
    var a6, m6 := Accumulate(a.run.period, m.run.period, run.run.period, count);
    average := Result(Phase(a1, a2, a3), Phase(a4, a5, a6));
    moment2 := Result(Phase(m1, m2, m3), Phase(m4, m5, m6));
  }

  lemma AllAccumulated(results: seq<Result>, f: Field, average: real, moment2: real)
    requires results != [] && Accumulated(results, |results|, f, average, moment2)
    ensures average == Mean(results, f) && moment2 == SquaredDeviations(results, f, Mean(results, f))
  {
    assert results[..|results|] == results;
    var c := |results| as real;
    assert c * average == Total(results, f);
    assert c * average / c == average;
  }

  /** The statistics that are logged; none for fewer than two results. */
  method Log(results: seq<Result>) returns (logged: bool, average: Result, moment2: Result)
    ensures logged <==> |results| >= 2
    ensures logged ==> forall f :: Get(average, f) == Mean(results, f)
    ensures logged ==> forall f :: Get(moment2, f) == SquaredDeviations(results, f, Mean(results, f))
  {
    var none := Phase(0.0, 0.0, 0.0);
    average, moment2 := Result(none, none), Result(none, none);
    if |results| < 2 {
      return false, average, moment2;
    }
    logged := true;
    average := results[0];
    var n := 0;
    while n < |results|
      invariant 0 <= n <= |results|
      invariant forall f :: Accumulated(results, n, f, Get(average, f), Get(moment2, f))
    {
      hide Accumulated;
      average, moment2 := AccumulateAll(average, moment2, results[n], n + 1);
      n := n + 1;
    }
    assert results[..n] == results;
    forall f
      ensures Get(average, f) == Mean(results, f)
      ensures Get(moment2, f) == SquaredDeviations(results, f, Mean(results, f))
    {
      AllAccumulated(results, f, Get(average, f), Get(moment2, f));
    }
  }
}
