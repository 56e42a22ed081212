/** What a forecast is made of: the power predicted for a slot against the
    measurements of its time of day, and what does not enter it. */
module Predictions {
  import opened Base
  import opened Forecasting

  // ---- samples -------------------------------------------------------------

  /** The sample list holds exactly the channel's values at the time of day. */
  lemma {:induction false} SamplesExact(history: seq<Dated>, kind: Kind, slot: int)
    ensures forall x :: x in SamplesAt(history, kind, slot) ==>
      exists i :: 0 <= i < |history| && Sample(history[i], kind, slot) == Some(x)
    ensures |SamplesAt(history, kind, slot)| == 0 <==>
      forall i :: 0 <= i < |history| ==> Sample(history[i], kind, slot).None?
    ensures forall i :: 0 <= i < |history| && Sample(history[i], kind, slot).Some? ==>
      Sample(history[i], kind, slot).value in SamplesAt(history, kind, slot)
  {
    if |history| > 0 {
      var n := |history| - 1;
      var front, all := SamplesAt(history[..n], kind, slot), SamplesAt(history, kind, slot);
      SamplesExact(history[..n], kind, slot);
      forall x | x in all ensures exists i :: 0 <= i < |history| && Sample(history[i], kind, slot) == Some(x) {
        if x in front {
          var i :| 0 <= i < n && Sample(history[..n][i], kind, slot) == Some(x);
          assert history[i] == history[..n][i];
        } else {
          assert Sample(history[n], kind, slot) == Some(x);
        }
      }
      assert forall i :: 0 <= i < n ==> history[..n][i] == history[i];
    }
  }

  function Sample(d: Dated, kind: Kind, slot: int): Option<real> {
    if TimeOfDay(d.start) == slot then Channel(d.observed, kind) else None
  }

  // ---- the mean ------------------------------------------------------------

  lemma {:induction false} TotalBetween(xs: seq<real>, low: real, high: real)
    requires forall x :: x in xs ==> low <= x <= high
    ensures low * |xs| as real <= Total(xs) <= high * |xs| as real
  {
    if |xs| > 0 {
      var n := |xs| - 1;
      assert xs == xs[..n] + [xs[n]];
      assert forall x :: x in xs[..n] ==> x in xs;
      TotalBetween(xs[..n], low, high);
      assert xs[n] in xs;
      assert low * |xs| as real == low * n as real + low;
      assert high * |xs| as real == high * n as real + high;
    }
  }

  lemma MeanBetween(p: Provider, samples: seq<real>, low: real, high: real)
    requires |samples| > 0 && 0.0 <= low && forall x :: x in samples ==> low <= x <= high
    ensures p.capacity.None? ==> low <= Mean(p, samples) <= high
    ensures p.capacity.Some? ==> Mean(p, samples) <= p.capacity.value && Mean(p, samples) <= high
  {
    TotalBetween(samples, low, high);
    var n, total := |samples| as real, Total(samples);
    var mean := total / n;
    assert mean * n == total;
    Divided(low, mean, n);
    Divided(mean, high, n);
  }

  lemma Divided(a: real, b: real, n: real)
    requires n > 0.0 && a * n <= b * n
    ensures a <= b
  {
    assert (b - a) * n >= 0.0;
  }

  // ---- points --------------------------------------------------------------

  /** Some sample of the slot, all of them between two powers. */
  lemma PointBetween(p: Provider, start: int, end: int, samples: seq<real>, low: real, high: real)
    requires 0.0 <= low && forall x :: x in samples ==> low <= x <= high
    ensures var point := PointFor(p, start, end, samples);
      && (|samples| > 0 && p.capacity.None? ==> Quantize(low) <= point.kw <= Quantize(high))
      && (|samples| > 0 && p.capacity.Some? ==> point.kw <= Quantize(p.capacity.value) && point.kw <= Quantize(high))
      && (|samples| > 0 ==> -HOUR <= 2 * (point.kwh * HOUR - point.kw * (end - start)) <= HOUR)
      && (|samples| == 0 ==> point == Point(start, end, 0, 0, 0.0, 0, 0))
  {
    hide Quantize, Mean, Total, Confidence, RoundHalfEven;
    if |samples| > 0 {
      MeanBetween(p, samples, low, high);
      var mean := Mean(p, samples);
      QuantizeMonotone(mean, high);
      if p.capacity.None? {
        QuantizeMonotone(low, mean);
      } else {
        QuantizeMonotone(mean, p.capacity.value);
      }
      RoundedWithin(Quantize(mean) * (end - start));
    }
  }

  lemma RoundedWithin(n: int)
    ensures -HOUR <= 2 * (RoundHalfEven(n, HOUR) * HOUR - n) <= HOUR
  {
  }

  /** Every point of a forecast is the one made of its own start's samples. */
  lemma {:induction false} PointAt(p: Provider, r: Request, start: int, i: nat)
    requires r.interval > 0 && i < |Points(p, r, start)|
    ensures var point := Points(p, r, start)[i];
      point == PointFor(p, point.start, point.end, SamplesAt(r.history, r.kind, TimeOfDay(point.start)))
    decreases r.end - start
  {
    hide PointFor;
    var end := Min(start + r.interval, r.end);
    PointBasics(p, start, end, SamplesAt(r.history, r.kind, TimeOfDay(start)));
    if i > 0 {
      PointAt(p, r, end, i - 1);
    }
  }

  /** The same hour and minute of the day. */
  predicate SameTime(a: int, b: int) {
    a / 60_000_000 % 1440 == b / 60_000_000 % 1440
  }

  /** What a point says of the measurements it rests on: without any it is zero with
      no confidence; otherwise its power lies between the roundings of bounds on
      them, or under the capacity where there is one, and its energy is the power
      over its length, rounded. */
  ghost predicate Rests(p: Provider, point: Point, any: bool, low: real, high: real) {
    && (!any ==> point.kw == 0 && point.kwh == 0 && point.confidence == 0.0 && point.lower == 0 && point.upper == 0)
    && (any && p.capacity.None? ==> Quantize(low) <= point.kw <= Quantize(high))
    && (any && p.capacity.Some? ==> point.kw <= Quantize(high) && point.kw <= Quantize(p.capacity.value))
    && (any ==> -3_600_000_000 <= 2 * (point.kwh * 3_600_000_000 - point.kw * (point.end - point.start)) <= 3_600_000_000)
  }

  lemma PointRests(p: Provider, r: Request, i: nat, low: real, high: real)
    requires r.interval > 0 && i < |Points(p, r, r.start)| && 0.0 <= low
    requires forall j :: 0 <= j < |r.history| ==>
      var x := Sample(r.history[j], r.kind, TimeOfDay(Points(p, r, r.start)[i].start)); x.Some? ==> low <= x.value <= high
    ensures var point := Points(p, r, r.start)[i];
      Rests(p, point, exists j :: 0 <= j < |r.history| && Sample(r.history[j], r.kind, TimeOfDay(point.start)).Some?, low, high)
  {
    hide Points, PointFor, SamplesAt, Sample, Quantize;
    var point := Points(p, r, r.start)[i];
    var slot := TimeOfDay(point.start);
    PointAt(p, r, r.start, i);
    SamplesExact(r.history, r.kind, slot);
    var samples := SamplesAt(r.history, r.kind, slot);
    forall x | x in samples ensures low <= x <= high {
      var j :| 0 <= j < |r.history| && Sample(r.history[j], r.kind, slot) == Some(x);
    }
    PointBetween(p, point.start, point.end, samples, low, high);
  }

  /** A solar forecast rests on the generation measured at the time of day. */
  lemma SolarRestsOnGeneration(p: Provider, r: Request, i: nat, low: real, high: real)
    requires r.kind == Solar && r.interval > 0 && PredictSpec(p, r).Ok? && i < |PredictSpec(p, r).value| && 0.0 <= low
    requires var point := PredictSpec(p, r).value[i];
      forall j :: 0 <= j < |r.history| && SameTime(r.history[j].start, point.start) && r.history[j].observed.generation.Some? ==>
        low <= r.history[j].observed.generation.value <= high
    ensures var point := PredictSpec(p, r).value[i];
      Rests(p, point, exists j :: 0 <= j < |r.history| && SameTime(r.history[j].start, point.start)
                                  && r.history[j].observed.generation.Some?, low, high)
  {
    hide Points, Rests;
    var slot := TimeOfDay(PredictSpec(p, r).value[i].start);
    forall j | 0 <= j < |r.history|
      ensures Sample(r.history[j], r.kind, slot) ==
        if SameTime(r.history[j].start, PredictSpec(p, r).value[i].start) then r.history[j].observed.generation else None
    {
    }
    PointRests(p, r, i, low, high);
  }

  /** A load forecast rests on the load measured at the time of day. */
  lemma LoadRestsOnLoad(p: Provider, r: Request, i: nat, low: real, high: real)
    requires r.kind == Load && r.interval > 0 && PredictSpec(p, r).Ok? && i < |PredictSpec(p, r).value| && 0.0 <= low
    requires var point := PredictSpec(p, r).value[i];
      forall j :: 0 <= j < |r.history| && SameTime(r.history[j].start, point.start) && r.history[j].observed.load.Some? ==>
        low <= r.history[j].observed.load.value <= high
    ensures var point := PredictSpec(p, r).value[i];
      Rests(p, point, exists j :: 0 <= j < |r.history| && SameTime(r.history[j].start, point.start)
                                  && r.history[j].observed.load.Some?, low, high)
  {
    hide Points, Rests;
    var slot := TimeOfDay(PredictSpec(p, r).value[i].start);
    forall j | 0 <= j < |r.history|
      ensures Sample(r.history[j], r.kind, slot) ==
        if SameTime(r.history[j].start, PredictSpec(p, r).value[i].start) then r.history[j].observed.load else None
    {
    }
    PointRests(p, r, i, low, high);
  }

  /** Both channels were measured, and this is what generation leaves above load. */
  predicate Spare(o: Observation, x: real) {
    && o.generation.Some? && o.load.Some?
    && x == (if o.generation.value > o.load.value then o.generation.value - o.load.value else 0.0)
  }

  /** A surplus forecast rests on the floored difference where both were measured. */
  lemma SurplusRestsOnDifference(p: Provider, r: Request, i: nat, low: real, high: real)
    requires r.kind == Surplus && r.interval > 0 && PredictSpec(p, r).Ok? && i < |PredictSpec(p, r).value| && 0.0 <= low
    requires var point := PredictSpec(p, r).value[i];
      forall j, x :: 0 <= j < |r.history| && SameTime(r.history[j].start, point.start) && Spare(r.history[j].observed, x) ==>
        low <= x <= high
    ensures var point := PredictSpec(p, r).value[i];
      Rests(p, point, exists j :: 0 <= j < |r.history| && SameTime(r.history[j].start, point.start)
                                  && r.history[j].observed.generation.Some? && r.history[j].observed.load.Some?, low, high)
  {
    hide Points, Rests;
    var start := PredictSpec(p, r).value[i].start;
    var slot := TimeOfDay(start);
    forall j | 0 <= j < |r.history|
      ensures Sample(r.history[j], r.kind, slot).Some? <==>
        SameTime(r.history[j].start, start) && r.history[j].observed.generation.Some? && r.history[j].observed.load.Some?
      ensures Sample(r.history[j], r.kind, slot).Some? ==>
        SameTime(r.history[j].start, start) && Spare(r.history[j].observed, Sample(r.history[j], r.kind, slot).value)
    {
    }
    PointRests(p, r, i, low, high);
  }

  // ---- what does not enter -------------------------------------------------

  lemma {:induction false} SameSamples(a: seq<Dated>, b: seq<Dated>, kind: Kind, slot: int)
    requires |a| == |b|
    requires forall i :: 0 <= i < |a| ==> a[i].start == b[i].start && Channel(a[i].observed, kind) == Channel(b[i].observed, kind)
    ensures SamplesAt(a, kind, slot) == SamplesAt(b, kind, slot) && Usable(a, kind) == Usable(b, kind)
  {
    if |a| > 0 {
      SameSamples(a[..|a| - 1], b[..|b| - 1], kind, slot);
    }
  }

  lemma {:induction false} SameForecast(p: Provider, a: Request, b: Request, start: int)
    requires a.interval > 0 && b == a.(history := b.history)
    requires forall slot :: SamplesAt(a.history, a.kind, slot) == SamplesAt(b.history, a.kind, slot)
    ensures Points(p, a, start) == Points(p, b, start) && SomeDivides(p, a, start) == SomeDivides(p, b, start)
    decreases a.end - start
  {
    hide PointFor, Divides;
    if start < a.end {
      SameForecast(p, a, b, Min(start + a.interval, a.end));
    }
  }

  /** Whatever the loads, a solar forecast is the same. */
  lemma SolarIgnoresLoad(p: Provider, a: Request, b: Request)
    requires a.kind == Solar && a.interval > 0 && b == a.(history := b.history) && |a.history| == |b.history|
    requires forall i :: 0 <= i < |a.history| ==>
      a.history[i].start == b.history[i].start && a.history[i].observed.generation == b.history[i].observed.generation
    ensures PredictSpec(p, a) == PredictSpec(p, b)
  {
    hide Points, SomeDivides;
    forall slot ensures SamplesAt(a.history, a.kind, slot) == SamplesAt(b.history, a.kind, slot) {
      SameSamples(a.history, b.history, Solar, slot);
    }
    SameSamples(a.history, b.history, Solar, 0);
    SameForecast(p, a, b, a.start);
  }

  /** Whatever the generation, a load forecast is the same. */
  lemma LoadIgnoresGeneration(p: Provider, a: Request, b: Request)
    requires a.kind == Load && a.interval > 0 && b == a.(history := b.history) && |a.history| == |b.history|
    requires forall i :: 0 <= i < |a.history| ==>
      a.history[i].start == b.history[i].start && a.history[i].observed.load == b.history[i].observed.load
    ensures PredictSpec(p, a) == PredictSpec(p, b)
  {
    hide Points, SomeDivides;
    forall slot ensures SamplesAt(a.history, a.kind, slot) == SamplesAt(b.history, a.kind, slot) {
      SameSamples(a.history, b.history, Load, slot);
    }
    SameSamples(a.history, b.history, Load, 0);
    SameForecast(p, a, b, a.start);
  }

  /** Too few measurements are refused by their number: those of the channel asked
      for, over the whole history. */
  lemma {:induction false} UsableCounts(history: seq<Dated>, kind: Kind)
    ensures Usable(history, kind) == |set i | 0 <= i < |history| && Measures(history[i].observed, kind)|
  {
    hide Measures;
    var all := set i | 0 <= i < |history| && Measures(history[i].observed, kind);
    if |history| > 0 {
      var n := |history| - 1;
      var front := set i | 0 <= i < n && Measures(history[..n][i].observed, kind);
      UsableCounts(history[..n], kind);
      MeasuresChannel(history[n].observed, kind);
      assert n !in front;
      assert all == if Measures(history[n].observed, kind) then front + {n} else front;
    } else {
      assert all == {};
    }
  }

  lemma MeasuresChannel(o: Observation, kind: Kind)
    ensures Measures(o, kind) <==> Channel(o, kind).Some?
  {
  }

  predicate Measures(o: Observation, kind: Kind) {
    && (kind == Solar ==> o.generation.Some?) && (kind == Load ==> o.load.Some?)
    && (kind == Surplus ==> o.generation.Some? && o.load.Some?)
  }

  // ---- confidence ----------------------------------------------------------

  /** A point about a mean of the samples, one deviation wide on each side. */
  predicate Spans(point: Point, samples: seq<real>, mean: real, d: real) {
    && mean * |samples| as real == Total(samples) && d >= 0.0
    && Square(d) * (|samples| - 1) as real == Squares(samples, mean)
    && -0.5 <= point.kw as real - mean * 1000.0 <= 0.5
    && -0.5 <= point.upper as real - (mean + d) * 1000.0 <= 0.5
    && -0.5 <= point.lower as real - (if mean > d then mean - d else 0.0) * 1000.0 <= 0.5
  }

  /** The bounds lie one sample deviation below and above the mean, to the nearest
      0.001, the lower not below zero and the upper not above a capacity. */
  lemma BoundsAreOneDeviation(p: Provider, start: int, end: int, samples: seq<real>, low: real, high: real)
    requires SpreadIsSound(p) && |samples| > 1 && p.capacity.None?
    requires 0.0 <= low && forall x :: x in samples ==> low <= x <= high
    ensures exists mean, d :: Spans(PointFor(p, start, end, samples), samples, mean, d)
  {
    hide Total, Squares, Square, PointFor, Quantize, Mean, Spread, SpreadIsSound;
    var mean, d := Mean(p, samples), Spread(p, samples);
    MeanIsQuotient(p, samples, low, high);
    SpreadSquared(p, samples);
    PointParts(p, start, end, samples);
    Near(mean);
    Near(mean + d);
    Near(if mean > d then mean - d else 0.0);
    assert Spans(PointFor(p, start, end, samples), samples, mean, d);
  }

  lemma SpreadSquared(p: Provider, samples: seq<real>)
    requires SpreadIsSound(p) && |samples| > 1
    ensures Spread(p, samples) >= 0.0
    ensures Square(Spread(p, samples)) * (|samples| - 1) as real == Squares(samples, Mean(p, samples))
  {
    hide Square, Squares, Mean;
  }

  lemma PointParts(p: Provider, start: int, end: int, samples: seq<real>)
    requires |samples| > 0 && p.capacity.None?
    ensures var point, mean, d := PointFor(p, start, end, samples), Mean(p, samples), Spread(p, samples);
      && point.kw == Quantize(mean) && point.upper == Quantize(mean + d)
      && point.lower == Quantize(if mean > d then mean - d else 0.0)
  {
    hide Quantize, Mean, Spread, Confidence, RoundHalfEven;
  }

  lemma Near(x: real)
    ensures -0.5 <= Quantize(x) as real - x * 1000.0 <= 0.5
  {
  }

  lemma MeanIsQuotient(p: Provider, samples: seq<real>, low: real, high: real)
    requires |samples| > 0 && p.capacity.None? && 0.0 <= low && forall x :: x in samples ==> low <= x <= high
    ensures Mean(p, samples) * |samples| as real == Total(samples)
  {
    hide Total;
    TotalBetween(samples, low, high);
    var mean := Total(samples) / |samples| as real;
    assert mean * |samples| as real == Total(samples);
    Divided(low, mean, |samples| as real);
  }

  /** Where nothing divides by zero, the confidence rounds the share of the reference
      days that were sampled, lowered by the deviation in proportion to the mean and
      one, and keeps it between 0.05 and 1. */
  lemma ConfidenceShrinks(p: Provider, samples: seq<real>)
    requires |samples| > 0 && !Divides(p, samples) && Mean(p, samples) >= 0.0 && Spread(p, samples) >= 0.0
    ensures exists share, x ::
      (Trusts(p, |samples|, Mean(p, samples), Spread(p, samples), share, x)
       && Confidence(p, samples) == MaxReal(0.05, MinReal(1.0, p.round(x))))
  {
    hide Mean, Spread, Trusts, ShareOf, Weight;
    var m, d, share := Mean(p, samples), Spread(p, samples), ShareOf(p, |samples|);
    TrustsHolds(p, |samples|, m, d);
    assert Confidence(p, samples) == MaxReal(0.05, MinReal(1.0, p.round(Weight(share, d, m))));
  }

  lemma TrustsHolds(p: Provider, n: nat, m: real, d: real)
    requires n > 0 && m >= 0.0 && d >= 0.0
    ensures 1.0 + d / (m + 1.0) != 0.0 && Trusts(p, n, m, d, ShareOf(p, n), Weight(ShareOf(p, n), d, m))
  {
    ShareExact(p, n);
    hide ShareOf;
    Lowered(ShareOf(p, n), d, m + 1.0);
  }

  lemma ShareExact(p: Provider, n: nat)
    requires n > 0
    ensures if n >= p.days then ShareOf(p, n) == 1.0 else ShareOf(p, n) * p.days as real == n as real
  {
    ShareOfDays(n, Max(1, p.days));
    var q := n as real / Max(1, p.days) as real;
    assert q * Max(1, p.days) as real == n as real;
  }

  /** The share of the days sampled, and that share lowered by the deviation. */
  predicate Trusts(p: Provider, n: nat, mean: real, d: real, share: real, x: real) {
    && (if n >= p.days then share == 1.0 else share * p.days as real == n as real)
    && x * (mean + 1.0 + d) == share * (mean + 1.0)
  }

  lemma Lowered(share: real, d: real, n: real)
    requires d >= 0.0 && n > 0.0
    ensures d / n >= 0.0
    ensures share * (1.0 / (1.0 + d / n)) * (n + d) == share * n
  {
    var q := d / n;
    assert q * n == d;
    Divided(0.0, q, n);
    var s := 1.0 / (1.0 + q);
    assert s * (1.0 + q) == 1.0;
    assert (1.0 + q) * n == n + d;
    assert s * ((1.0 + q) * n) == (s * (1.0 + q)) * n;
    assert share * s * (n + d) == share * (s * (n + d));
  }

  /** Samples all alike scatter by nothing, so confidence is a matter of their
      number alone. */
  lemma SteadySamples(p: Provider, samples: seq<real>, x: real)
    requires SpreadIsSound(p) && p.capacity.None? && |samples| > 0 && x >= 0.0 && forall y :: y in samples ==> y == x
    ensures Confidence(p, samples) ==
      (var share := if |samples| >= p.days || |samples| >= 1 >= p.days then 1.0 else |samples| as real / p.days as real;
       MaxReal(0.05, MinReal(1.0, p.round(share))))
  {
    hide Mean, Total, Squares, Weight;
    MeanBetween(p, samples, x, x);
    forall i | 0 <= i < |samples| ensures samples[i] == x { assert samples[i] in samples; }
    NoSquares(samples, x);
    var d := Spread(p, samples);
    if |samples| > 1 {
      assert Square(d) * (|samples| - 1) as real == Squares(samples, Mean(p, samples));
      RootOfZero(d, (|samples| - 1) as real);
    }
    assert Mean(p, samples) == x && d == 0.0;
    NoScatter(x, ShareOf(p, |samples|));
    ShareOfDays(|samples|, Max(1, p.days));
  }

  lemma NoScatter(x: real, share: real)
    requires x >= 0.0
    ensures 1.0 + 0.0 / (x + 1.0) == 1.0 && Weight(share, 0.0, x) == share
  {
  }

  lemma {:induction false} NoSquares(xs: seq<real>, x: real)
    requires forall i :: 0 <= i < |xs| ==> xs[i] == x
    ensures Squares(xs, x) == 0.0
  {
    if |xs| > 0 {
      NoSquares(xs[..|xs| - 1], x);
    }
  }

  lemma RootOfZero(d: real, n: real)
    requires d >= 0.0 && n > 0.0 && Square(d) * n == 0.0
    ensures d == 0.0
  {
    assert Square(0.0) == 0.0;
    if d > 0.0 {
      SameSquare(0.0, d, n);
    }
  }

  lemma ShareOfDays(n: int, days: int)
    requires n > 0 && days > 0
    ensures MinReal(1.0, n as real / days as real) == if n >= days then 1.0 else n as real / days as real
  {
    var q := n as real / days as real;
    assert q * days as real == n as real;
    if n >= days {
      Divided(1.0, q, days as real);
    } else {
      Divided(q, 1.0, days as real);
    }
  }
}
