/** The baseline forecast and the boundary check its results must pass. Powers
    are real numbers until they are quantized to 0.001 kW; the square root and the
    rounding of the confidence come from outside, as floating point computes them. */
module Forecasting {
  import opened Base

  const MINUTE: int := 60_000_000
  const HOUR: int := 3_600_000_000

  datatype Kind = Solar | Load | Surplus

  datatype Observation = Observation(generation: Option<real>, load: Option<real>)

  datatype Dated = Dated(start: int, observed: Observation)

  datatype Request = Request(kind: Kind, start: int, end: int, interval: int, history: seq<Dated>)

  /** Powers and energies in 0.001 kW and 0.001 kWh. */
  datatype Point = Point(start: int, end: int, kw: int, kwh: int, confidence: real, lower: int, upper: int)

  datatype Provider = Provider(
    minimum: int, days: nat, capacity: Option<real>,
    deviation: (seq<real>, real) -> real,
    round: real -> real)

  datatype ForecastError =
    | TooFewSamples | WrongKind | NoPoints | EmptyInterval | DuplicateInterval | OutsideHorizon | BadConfidence | DivisionByZero

  function MaxReal(a: real, b: real): real {
    if a >= b then a else b
  }

  function MinReal(a: real, b: real): real {
    if a <= b then a else b
  }

  /** Round to 0.001, ties to the even neighbour. */
  function Quantize(x: real): (q: int)
    ensures -0.5 <= q as real - x * 1000.0 <= 0.5
    ensures q as real - x * 1000.0 == 0.5 || q as real - x * 1000.0 == -0.5 ==> q % 2 == 0
  {
    var scaled := x * 1000.0;
    var floor := scaled.Floor;
    var rest := scaled - floor as real;
    if rest < 0.5 then floor
    else if rest > 0.5 then floor + 1
    else if floor % 2 == 0 then floor
    else floor + 1
  }

  lemma QuantizeMonotone(x: real, y: real)
    requires x <= y
    ensures Quantize(x) <= Quantize(y)
  {
    if (x * 1000.0).Floor < (y * 1000.0).Floor {
      assert Quantize(x) <= (x * 1000.0).Floor + 1;
    }
  }

  // ---- history -------------------------------------------------------------

  /** The channel a forecast is about. */
  function Channel(o: Observation, kind: Kind): Option<real> {
    match kind
    case Solar => o.generation
    case Load => o.load
    case Surplus =>
      if o.generation.None? || o.load.None? then None
      else Some(MaxReal(0.0, o.generation.value - o.load.value))
  }

  function TimeOfDay(t: int): int {
    t / MINUTE % 1440
  }

  /** The usable measurements of one time of day, in order. */
  function SamplesAt(history: seq<Dated>, kind: Kind, slot: int): seq<real> {
    if |history| == 0 then []
    else
      var front, last := SamplesAt(history[..|history| - 1], kind, slot), history[|history| - 1];
      var value := Channel(last.observed, kind);
      if value.Some? && TimeOfDay(last.start) == slot then front + [value.value] else front
  }

  function Usable(history: seq<Dated>, kind: Kind): nat {
    if |history| == 0 then 0
    else Usable(history[..|history| - 1], kind)
         + if Channel(history[|history| - 1].observed, kind).Some? then 1 else 0
  }

  function Group(grouped: map<int, seq<real>>, slot: int): seq<real> {
    if slot in grouped then grouped[slot] else []
  }

  /** `_group_by_time_of_day`, with the number of measurements kept. */
  method GroupByTimeOfDay(history: seq<Dated>, kind: Kind) returns (grouped: map<int, seq<real>>, total: nat)
    ensures forall slot :: Group(grouped, slot) == SamplesAt(history, kind, slot)
    ensures total == Usable(history, kind)
  {
    grouped, total := map[], 0;
    var i := 0;
    while i < |history|
      invariant 0 <= i <= |history|
      invariant forall slot :: Group(grouped, slot) == SamplesAt(history[..i], kind, slot)
      invariant total == Usable(history[..i], kind)
    {
      assert history[..i + 1][..i] == history[..i];
      var value := Channel(history[i].observed, kind);
      if value.Some? {
        var slot := TimeOfDay(history[i].start);
        grouped := grouped[slot := Group(grouped, slot) + [value.value]];
        total := total + 1;
      }
      i := i + 1;
    }
    assert history[..i] == history;
  }

  // ---- one point -----------------------------------------------------------

  function Total(xs: seq<real>): real {
    if |xs| == 0 then 0.0 else Total(xs[..|xs| - 1]) + xs[|xs| - 1]
  }

  function Cap(p: Provider, value: real): real {
    if p.capacity.None? then value else MinReal(value, p.capacity.value)
  }

  function Mean(p: Provider, samples: seq<real>): real
    requires |samples| > 0
  {
    Cap(p, MaxReal(0.0, Total(samples) / |samples| as real))
  }

  function Spread(p: Provider, samples: seq<real>): real
    requires |samples| > 0
  {
    if |samples| > 1 then p.deviation(samples, Mean(p, samples)) else 0.0
  }

  /** The two denominators of the stability, inner and outer. */
  predicate Divides(p: Provider, samples: seq<real>) {
    |samples| > 0 &&
    (Mean(p, samples) + 1.0 == 0.0 || 1.0 + Spread(p, samples) / (Mean(p, samples) + 1.0) == 0.0)
  }

  /** How much of the reference days was sampled. */
  function ShareOf(p: Provider, n: nat): real {
    MinReal(1.0, n as real / Max(1, p.days) as real)
  }

  /** The share times the stability. */
  function Weight(share: real, spread: real, mean: real): real
    requires mean + 1.0 != 0.0 && 1.0 + spread / (mean + 1.0) != 0.0
  {
    share * (1.0 / (1.0 + spread / (mean + 1.0)))
  }

  /** More samples and steadier ones mean more confidence, within 0.05 and 1.
      Where a denominator is zero no point is made. */
  function Confidence(p: Provider, samples: seq<real>): (c: real)
    requires |samples| > 0
    ensures 0.0 <= c <= 1.0
  {
    if Divides(p, samples) then 0.0
    else
      MaxReal(0.05, MinReal(1.0, p.round(Weight(ShareOf(p, |samples|), Spread(p, samples), Mean(p, samples)))))
  }

  function PointFor(p: Provider, start: int, end: int, samples: seq<real>): Point {
    if |samples| == 0 then Point(start, end, 0, 0, 0.0, 0, 0)
    else
      var mean, spread := Mean(p, samples), Spread(p, samples);
      var kw := Quantize(mean);
      Point(start, end, kw, RoundHalfEven(kw * (end - start), HOUR),
            Confidence(p, samples),
            Quantize(MaxReal(0.0, mean - spread)), Quantize(Cap(p, mean + spread)))
  }

  function Square(x: real): real {
    x * x
  }

  /** The sum of squared distances from a centre. */
  function Squares(xs: seq<real>, centre: real): real {
    if |xs| == 0 then 0.0 else Squares(xs[..|xs| - 1], centre) + Square(xs[|xs| - 1] - centre)
  }

  /** The deviation is the root of the sample variance about the given mean. */
  ghost predicate SpreadIsSound(p: Provider) {
    forall samples: seq<real>, mean :: |samples| > 1 ==>
      (p.deviation(samples, mean) >= 0.0
       && Square(p.deviation(samples, mean)) * (|samples| - 1) as real == Squares(samples, mean))
  }

  /** What makes a point of a capped forecast fail: a capacity of -1, or one below
      it about which the samples scatter by exactly its distance from -1. */
  predicate Fatal(capacity: Option<real>, samples: seq<real>) {
    && |samples| > 0 && capacity.Some?
    && (capacity.value == -1.0
        || (capacity.value < -1.0 && |samples| > 1
            && Squares(samples, capacity.value) == Square(capacity.value + 1.0) * (|samples| - 1) as real))
  }

  /** A point divides by zero exactly then. */
  lemma DividesIff(p: Provider, samples: seq<real>)
    requires SpreadIsSound(p)
    ensures Divides(p, samples) <==> Fatal(p.capacity, samples)
  {
    hide Total, Squares, Square;
    if |samples| > 0 {
      var mean, spread := Mean(p, samples), Spread(p, samples);
      assert |samples| > 1 ==> Square(spread) * (|samples| - 1) as real == Squares(samples, mean);
      OuterZeroIff(mean, spread);
      if mean < -1.0 {
        SameSquare(spread, -(mean + 1.0), |samples| as real - 1.0);
        SquareOfNegative(mean + 1.0);
      }
    }
  }

  lemma OuterZeroIff(mean: real, spread: real)
    requires spread >= 0.0
    ensures mean != -1.0 ==> (1.0 + spread / (mean + 1.0) == 0.0 <==> mean < -1.0 && spread == -(mean + 1.0))
  {
    if mean != -1.0 {
      var d := mean + 1.0;
      assert spread / d * d == spread;
      if d > 0.0 {
        assert spread / d >= 0.0;
      } else {
        assert spread == -d ==> spread / d == -1.0;
      }
    }
  }

  lemma SquareOfNegative(x: real)
    ensures Square(-x) == Square(x)
  {
  }

  lemma SameSquare(a: real, b: real, n: real)
    requires a >= 0.0 && b > 0.0 && n >= 0.0
    ensures n > 0.0 ==> (Square(a) * n == Square(b) * n <==> a == b)
  {
    if n > 0.0 {
      assert Square(a) * n - Square(b) * n == (a - b) * ((a + b) * n) by {
        assert Square(a) - Square(b) == (a - b) * (a + b);
      }
      if a != b {
        var scale := (a + b) * n;
        assert scale > 0.0;
        assert if a > b then (a - b) * scale > 0.0 else (b - a) * scale > 0.0;
        assert (a - b) * scale == -((b - a) * scale);
      }
    }
  }

  /** Samples that are no less than zero scatter further than that: under them
      only a capacity of -1 fails. */
  lemma OrdinarySamplesFailIff(capacity: Option<real>, samples: seq<real>)
    requires forall i :: 0 <= i < |samples| ==> samples[i] >= 0.0
    ensures Fatal(capacity, samples) <==> |samples| > 0 && capacity == Some(-1.0)
  {
    hide Squares, Square;
    if |samples| > 0 && capacity.Some? && capacity.value < -1.0 {
      var c, n := capacity.value, |samples| as real;
      Scatter(samples, c);
      Smaller(c, n);
    }
  }

  lemma {:induction false} Scatter(samples: seq<real>, c: real)
    requires c < 0.0 && forall i :: 0 <= i < |samples| ==> samples[i] >= 0.0
    ensures Squares(samples, c) >= Square(c) * |samples| as real
  {
    if |samples| > 0 {
      var m := |samples| - 1;
      Scatter(samples[..m], c);
      Further(samples[m], c);
      assert Square(c) * |samples| as real == Square(c) * m as real + Square(c);
    }
  }

  lemma Further(x: real, c: real)
    requires x >= 0.0 && c < 0.0
    ensures Square(x - c) >= Square(c)
  {
    assert Square(x - c) == Square(c) + x * (x - 2.0 * c);
  }

  lemma Smaller(c: real, n: real)
    requires c < -1.0 && n >= 1.0
    ensures Square(c + 1.0) * (n - 1.0) < Square(c) * n
  {
    assert Square(c + 1.0) < Square(c);
    assert Square(c + 1.0) * (n - 1.0) <= Square(c) * (n - 1.0);
    assert Square(c) * n == Square(c) * (n - 1.0) + Square(c);
  }

  /** Two negative samples under a capacity of -2: the inner denominator is not
      zero, the outer one is. */
  lemma OuterDivisionFails(p: Provider)
    requires SpreadIsSound(p) && p.capacity == Some(-2.0)
    ensures Divides(p, [-1.0, -2.0]) && Mean(p, [-1.0, -2.0]) + 1.0 != 0.0
  {
    var xs := [-1.0, -2.0];
    assert xs[..1] == [-1.0] && xs[..1][..0] == [];
    assert Squares([-1.0], -2.0) == 1.0;
    assert Squares(xs, -2.0) == 1.0;
    assert Total([-1.0]) == -1.0;
    assert Total(xs) == -3.0;
    DividesIff(p, xs);
  }

  predicate Bounded(point: Point) {
    point.lower <= point.kw <= point.upper
  }

  /** The bounds enclose the prediction exactly when no samples exist or the
      capacity does not round to a negative power. */
  lemma BoundsEncloseIff(p: Provider, start: int, end: int, samples: seq<real>)
    requires SpreadIsSound(p)
    ensures Bounded(PointFor(p, start, end, samples)) <==>
      |samples| == 0 || p.capacity.None? || Quantize(p.capacity.value) >= 0
  {
    hide Quantize;
    if |samples| > 0 {
      var mean, spread := Mean(p, samples), Spread(p, samples);
      QuantizeMonotone(mean, Cap(p, mean + spread));
      if mean >= 0.0 {
        QuantizeMonotone(MaxReal(0.0, mean - spread), mean);
        QuantizeMonotone(0.0, mean);
        QuantizeZero();
        if p.capacity.Some? {
          QuantizeMonotone(mean, p.capacity.value);
        }
      } else {
        assert mean == p.capacity.value;
        QuantizeZero();
        QuantizeMonotone(mean, 0.0);
      }
    }
  }

  /** The table wants the bounds in order, which the service's check does not look
      at; a point fits it exactly under the same condition. */
  lemma BoundsOrderedIff(p: Provider, start: int, end: int, samples: seq<real>)
    requires SpreadIsSound(p)
    ensures var point := PointFor(p, start, end, samples);
      point.lower <= point.upper <==> |samples| == 0 || p.capacity.None? || Quantize(p.capacity.value) >= 0
  {
    hide Quantize, SpreadIsSound;
    BoundsEncloseIff(p, start, end, samples);
    if |samples| > 0 && p.capacity.Some? && Quantize(p.capacity.value) < 0 {
      var mean, spread := Mean(p, samples), Spread(p, samples);
      QuantizeZero();
      NegativeCapacity(p.capacity.value);
      SpreadNonNegative(p, samples);
      QuantizeMonotone(0.0, MaxReal(0.0, mean - spread));
      assert Cap(p, mean + spread) == p.capacity.value;
    }
  }

  lemma NegativeCapacity(c: real)
    requires Quantize(c) < 0
    ensures c < 0.0
  {
  }

  lemma SpreadNonNegative(p: Provider, samples: seq<real>)
    requires SpreadIsSound(p) && |samples| > 0
    ensures Spread(p, samples) >= 0.0
  {
  }

  lemma QuantizeZero()
    ensures Quantize(0.0) == 0
  {
  }

  // ---- the tiling ----------------------------------------------------------

  function Points(p: Provider, r: Request, start: int): seq<Point>
    requires r.interval > 0
    decreases r.end - start
  {
    if start >= r.end then []
    else
      var end := Min(start + r.interval, r.end);
      [PointFor(p, start, end, SamplesAt(r.history, r.kind, TimeOfDay(start)))] + Points(p, r, end)
  }

  /** Whether some point of the horizon divides by zero. */
  predicate SomeDivides(p: Provider, r: Request, start: int)
    requires r.interval > 0
    decreases r.end - start
  {
    start < r.end &&
    (Divides(p, SamplesAt(r.history, r.kind, TimeOfDay(start))) || SomeDivides(p, r, Min(start + r.interval, r.end)))
  }

  function PredictSpec(p: Provider, r: Request): Result<seq<Point>, ForecastError>
    requires r.interval > 0
  {
    if Usable(r.history, r.kind) < Max(0, p.minimum) then Err(TooFewSamples)
    else if SomeDivides(p, r, r.start) then Err(DivisionByZero)
    else Ok(Points(p, r, r.start))
  }

  /** `predict`: step through the horizon an interval at a time. */
  method Predict(p: Provider, r: Request) returns (result: Result<seq<Point>, ForecastError>)
    requires r.interval > 0
    ensures result == PredictSpec(p, r)
  {
    hide PointFor, Divides;
    var grouped, total := GroupByTimeOfDay(r.history, r.kind);
    if total < Max(0, p.minimum) {
      return Err(TooFewSamples);
    }
    var points: seq<Point> := [];
    var start := r.start;
    while start < r.end
      invariant points + Points(p, r, start) == Points(p, r, r.start)
      invariant SomeDivides(p, r, start) == SomeDivides(p, r, r.start)
      decreases r.end - start
    {
      var end := Min(start + r.interval, r.end);
      if Divides(p, Group(grouped, TimeOfDay(start))) {
        return Err(DivisionByZero);
      }
      var point := PointFor(p, start, end, Group(grouped, TimeOfDay(start)));
      assert points + ([point] + Points(p, r, end)) == points + [point] + Points(p, r, end);
      points := points + [point];
      start := end;
    }
    assert points + [] == points;
    result := Ok(points);
  }

  /** A forecast fails exactly when the samples of one of its points are fatal
      under the capacity. */
  lemma {:induction false} SomeDividesIff(p: Provider, r: Request, start: int)
    requires r.interval > 0 && SpreadIsSound(p)
    ensures SomeDivides(p, r, start) <==> AnyFatal(p, r, Points(p, r, start))
    decreases r.end - start
  {
    hide PointFor, SamplesAt, Divides, Fatal, SpreadIsSound;
    if start < r.end {
      var end := Min(start + r.interval, r.end);
      DividesIff(p, SamplesAt(r.history, r.kind, TimeOfDay(start)));
      PointBasics(p, start, end, SamplesAt(r.history, r.kind, TimeOfDay(start)));
      SomeDividesIff(p, r, end);
      var first := PointFor(p, start, end, SamplesAt(r.history, r.kind, TimeOfDay(start)));
      assert Points(p, r, start) == [first] + Points(p, r, end);
      FatalHead(p, r, first, Points(p, r, end));
    }
  }

  predicate FatalAt(p: Provider, r: Request, start: int) {
    Fatal(p.capacity, SamplesAt(r.history, r.kind, TimeOfDay(start)))
  }

  predicate AnyFatal(p: Provider, r: Request, points: seq<Point>) {
    exists i :: 0 <= i < |points| && FatalAt(p, r, points[i].start)
  }

  lemma FatalHead(p: Provider, r: Request, first: Point, rest: seq<Point>)
    ensures AnyFatal(p, r, [first] + rest) <==> FatalAt(p, r, first.start) || AnyFatal(p, r, rest)
  {
    hide FatalAt;
    var all := [first] + rest;
    assert all[0] == first;
    if AnyFatal(p, r, rest) {
      var i :| 0 <= i < |rest| && FatalAt(p, r, rest[i].start);
      assert all[i + 1] == rest[i];
    }
    if AnyFatal(p, r, all) {
      var i :| 0 <= i < |all| && FatalAt(p, r, all[i].start);
      assert i > 0 ==> rest[i - 1] == all[i];
    }
  }

  /** Some measurement shares the time of day. */
  predicate Sampled(r: Request, start: int) {
    |SamplesAt(r.history, r.kind, TimeOfDay(start))| > 0
  }

  /** No channel below zero, as the telemetry table requires of what it stores. */
  predicate Stored(history: seq<Dated>) {
    forall i :: 0 <= i < |history| ==>
      ((history[i].observed.generation.Some? ==> history[i].observed.generation.value >= 0.0)
       && (history[i].observed.load.Some? ==> history[i].observed.load.value >= 0.0))
  }

  lemma {:induction false} StoredSamples(history: seq<Dated>, kind: Kind, slot: int)
    requires Stored(history)
    ensures forall i :: 0 <= i < |SamplesAt(history, kind, slot)| ==> SamplesAt(history, kind, slot)[i] >= 0.0
  {
    if |history| > 0 {
      StoredSamples(history[..|history| - 1], kind, slot);
    }
  }

  /** On history the platform stored, a forecast fails exactly under a capacity of
      -1 with samples for one of its points. */
  lemma StoredHistoryFailsIff(p: Provider, r: Request)
    requires r.interval > 0 && SpreadIsSound(p) && Stored(r.history)
    requires Usable(r.history, r.kind) >= Max(0, p.minimum)
    ensures PredictSpec(p, r) == Err(DivisionByZero) <==>
      p.capacity == Some(-1.0)
      && exists i :: 0 <= i < |Points(p, r, r.start)| && Sampled(r, Points(p, r, r.start)[i].start)
  {
    hide Points, SamplesAt, Fatal, SpreadIsSound, SomeDivides;
    SomeDividesIff(p, r, r.start);
    forall start ensures FatalAt(p, r, start) <==> Sampled(r, start) && p.capacity == Some(-1.0) {
      StoredSamples(r.history, r.kind, TimeOfDay(start));
      OrdinarySamplesFailIff(p.capacity, SamplesAt(r.history, r.kind, TimeOfDay(start)));
    }
  }

  function CountFrom(r: Request, start: int): nat
    requires r.interval > 0
  {
    if start >= r.end then 0 else (r.end - start + r.interval - 1) / r.interval
  }

  /** The i-th point starts i intervals in and ends where the next one starts, the
      last at the end of the horizon; their number is the rounded-up quotient. */
  lemma {:induction false} PointsTile(p: Provider, r: Request, start: int, i: nat)
    requires r.interval > 0 && r.start <= start
    ensures |Points(p, r, start)| == CountFrom(r, start)
    ensures i < CountFrom(r, start) ==>
      (var point := Points(p, r, start)[i];
       point.start == start + i * r.interval && point.end == Min(start + (i + 1) * r.interval, r.end)
       && point.start < point.end)
    decreases r.end - start
  {
    hide PointFor, SamplesAt, CountFrom;
    CountZero(r, start);
    if start < r.end {
      var end := Min(start + r.interval, r.end);
      PointBasics(p, start, end, SamplesAt(r.history, r.kind, TimeOfDay(start)));
      CountStep(r, start);
      PointsTile(p, r, end, if i > 0 then i - 1 else 0);
      if 0 < i < CountFrom(r, start) {
        assert end == start + r.interval;
        OneMore(i - 1, r.interval);
        OneMore(i, r.interval);
      }
    }
  }

  lemma OneMore(i: int, n: int)
    ensures i * n + n == (i + 1) * n
  {
  }

  lemma CountZero(r: Request, start: int)
    requires r.interval > 0
    ensures start >= r.end ==> CountFrom(r, start) == 0
  {
  }

  lemma PointBasics(p: Provider, start: int, end: int, samples: seq<real>)
    ensures var point := PointFor(p, start, end, samples);
      point.start == start && point.end == end && 0.0 <= point.confidence <= 1.0
  {
  }

  lemma CountStep(r: Request, start: int)
    requires r.interval > 0 && start < r.end
    ensures CountFrom(r, start) == 1 + CountFrom(r, Min(start + r.interval, r.end))
  {
    var d, n := r.end - start, r.interval;
    if d > n {
      Euclid(d - 1, n);
      var q := (d - 1) / n;
      assert (q + 1) * n == q * n + n && (q + 2) * n == (q + 1) * n + n;
      Quotient(d + n - 1, q + 1, n);
    } else {
      Quotient(d + n - 1, 1, n);
    }
  }

  /** Every moment of the horizon lies in exactly one point. */
  lemma EveryMomentOnce(p: Provider, r: Request, t: int)
    requires r.interval > 0 && r.start <= t < r.end
    ensures var points := Points(p, r, r.start);
      var i := (t - r.start) / r.interval;
      && 0 <= i < |points| && points[i].start <= t < points[i].end
      && forall j :: 0 <= j < |points| && points[j].start <= t < points[j].end ==> j == i
  {
    hide Points, PointFor, CountFrom;
    var d := t - r.start;
    var i := d / r.interval;
    Euclid(d, r.interval);
    BelowCount(r, d);
    PointsTile(p, r, r.start, i);
    var points := Points(p, r, r.start);
    forall j | 0 <= j < |points| && points[j].start <= t < points[j].end ensures j == i {
      PointsTile(p, r, r.start, j);
      Quotient(d, j, r.interval);
    }
  }

  lemma Euclid(d: int, n: int)
    requires d >= 0 && n > 0
    ensures d / n * n <= d < (d / n + 1) * n && d / n >= 0
  {
    assert d == d / n * n + d % n;
    assert (d / n + 1) * n == d / n * n + n;
  }

  lemma Quotient(d: int, q: int, n: int)
    requires d >= 0 && n > 0 && q * n <= d < (q + 1) * n
    ensures d / n == q
  {
    Euclid(d, n);
    CancelFactor(q, d / n + 1, n);
    CancelFactor(d / n, q + 1, n);
  }

  lemma BelowCount(r: Request, d: int)
    requires r.interval > 0 && 0 <= d < r.end - r.start
    ensures d / r.interval < CountFrom(r, r.start)
  {
    var n := r.interval;
    var total := r.end - r.start + n - 1;
    Euclid(d, n);
    Euclid(total, n);
    assert (d / n + 1) * n == d / n * n + n;
    CancelFactor(d / n + 1, total / n + 1, n);
  }

  // ---- the boundary --------------------------------------------------------

  /** Why the service refuses one point, given the starts seen before it. */
  function PointError(r: Request, point: Point, seen: set<int>): Option<ForecastError> {
    if point.end <= point.start then Some(EmptyInterval)
    else if point.start in seen then Some(DuplicateInterval)
    else if !(r.start <= point.start < r.end) then Some(OutsideHorizon)
    else if !(0.0 <= point.confidence <= 1.0) then Some(BadConfidence)
    else None
  }

  function StartsBefore(points: seq<Point>, n: nat): set<int>
    requires n <= |points|
  {
    set k | 0 <= k < n :: points[k].start
  }

  /** What a trusted result is: non-empty, of the requested kind, every point a
      real interval starting inside the horizon, no start twice. */
  predicate Trusted(r: Request, kind: Kind, points: seq<Point>) {
    && kind == r.kind && |points| > 0
    && (forall i :: 0 <= i < |points| ==>
          points[i].start < points[i].end && r.start <= points[i].start < r.end && 0.0 <= points[i].confidence <= 1.0)
    && (forall i, j :: 0 <= i < j < |points| ==> points[i].start != points[j].start)
  }

  /** `_validate_result`, with the first reason to refuse. */
  method ValidateResult(r: Request, kind: Kind, points: seq<Point>) returns (error: Option<ForecastError>)
    ensures error.None? <==> Trusted(r, kind, points)
    ensures error == Some(WrongKind) <==> kind != r.kind
    ensures error == Some(NoPoints) <==> kind == r.kind && |points| == 0
    ensures error.Some? && kind == r.kind && |points| > 0 ==>
      exists i :: 0 <= i < |points| && error == PointError(r, points[i], StartsBefore(points, i))
        && (i == 0 || Trusted(r, kind, points[..i]))
  {
    if kind != r.kind {
      return Some(WrongKind);
    }
    if |points| == 0 {
      return Some(NoPoints);
    }
    var seen: set<int> := {};
    var i := 0;
    while i < |points|
      invariant 0 <= i <= |points|
      invariant seen == StartsBefore(points, i)
      invariant Trusted(r, kind, points[..i]) || i == 0
    {
      error := PointError(r, points[i], seen);
      if error.Some? {
        return;
      }
      seen := seen + {points[i].start};
      i := i + 1;
    }
    assert points[..i] == points;
    error := None;
  }

  /** Every forecast the baseline makes for a horizon and interval the service
      lets through passes the service's own check. */
  lemma BaselinePasses(p: Provider, r: Request)
    requires r.interval > 0 && r.start < r.end
    ensures PredictSpec(p, r).Ok? ==> Trusted(r, r.kind, PredictSpec(p, r).value)
  {
    hide Points, PointFor;
    var points := Points(p, r, r.start);
    PointsTile(p, r, r.start, 0);
    assert CountFrom(r, r.start) > 0 by { CountStep(r, r.start); }
    forall i | 0 <= i < |points|
      ensures points[i].start < points[i].end && r.start <= points[i].start < r.end && 0.0 <= points[i].confidence <= 1.0
    {
      PointsTile(p, r, r.start, i);
      Confident(p, r, r.start, i);
      Scale(0, i, r.interval);
    }
    forall i, j | 0 <= i < j < |points| ensures points[i].start != points[j].start {
      PointsTile(p, r, r.start, i);
      PointsTile(p, r, r.start, j);
      Scale(i, j, r.interval);
    }
  }

  lemma Scale(i: int, j: int, n: int)
    requires n > 0 && i <= j
    ensures i * n <= j * n && (i < j ==> i * n < j * n)
  {
    assert (j - i) * n >= 0 && (j > i ==> (j - i) * n > 0);
    assert (j - i) * n == j * n - i * n;
  }

  lemma {:induction false} Confident(p: Provider, r: Request, start: int, i: nat)
    requires r.interval > 0 && i < |Points(p, r, start)|
    ensures 0.0 <= Points(p, r, start)[i].confidence <= 1.0
    decreases r.end - start
  {
    hide PointFor;
    var end := Min(start + r.interval, r.end);
    PointBasics(p, start, end, SamplesAt(r.history, r.kind, TimeOfDay(start)));
    if i > 0 {
      Confident(p, r, end, i - 1);
    }
  }

  // ---- gathering history ---------------------------------------------------

  datatype Metered = Metered(start: int, end: int, generation: Option<real>, load: Option<real>, energy: Option<real>)

  datatype Measure = Generation | Consumption | Energy

  /** One interval's readings, summed across a site's meters. */
  datatype Bucket = Bucket(end: int, generation: Option<real>, load: Option<real>, energy: Option<real>)

  datatype History = History(start: int, bucket: Bucket)

  function Measured(row: Metered, m: Measure): Option<real> {
    match m
    case Generation => row.generation
    case Consumption => row.load
    case Energy => row.energy
  }

  function Held(b: Bucket, m: Measure): Option<real> {
    match m
    case Generation => b.generation
    case Consumption => b.load
    case Energy => b.energy
  }

  /** `_accumulate`: an unmeasured channel adds nothing and stays unmeasured. */
  function Accumulate(total: Option<real>, value: Option<real>): Option<real> {
    if value.None? then total else if total.None? then value else Some(total.value + value.value)
  }

  /** `_HistoryBucket.add`. */
  function Add(b: Bucket, row: Metered): Bucket {
    Bucket(b.end, Accumulate(b.generation, row.generation), Accumulate(b.load, row.load), Accumulate(b.energy, row.energy))
  }

  /** The measured values of one interval across a site's meters. */
  function MeasuredAt(rows: seq<Metered>, start: int, m: Measure): seq<real> {
    if |rows| == 0 then []
    else
      var front, last := MeasuredAt(rows[..|rows| - 1], start, m), rows[|rows| - 1];
      var value := Measured(last, m);
      if last.start == start && value.Some? then front + [value.value] else front
  }

  predicate SumsUp(total: Option<real>, values: seq<real>) {
    if |values| == 0 then total.None? else total == Some(Total(values))
  }

  predicate Present(rows: seq<Metered>, t: int) {
    exists i :: 0 <= i < |rows| && rows[i].start == t
  }

  predicate Covered(history: seq<History>, t: int) {
    exists i :: 0 <= i < |history| && history[i].start == t
  }

  /** The end of the first row of an interval. */
  predicate EndsAs(rows: seq<Metered>, start: int, end: int) {
    exists i :: 0 <= i < |rows| && rows[i].start == start && rows[i].end == end
      && forall k :: 0 <= k < i ==> rows[k].start != start
  }

  ghost predicate SumsOk(b: Bucket, rows: seq<Metered>, t: int) {
    forall m: Measure :: SumsUp(Held(b, m), MeasuredAt(rows, t, m))
  }

  /** One interval's bucket against the rows: present exactly when a row starts
      there, with the first row's end and every channel the sum of what was
      measured, absent where nothing was. */
  ghost predicate BucketOk(buckets: map<int, Bucket>, rows: seq<Metered>, t: int) {
    && (t in buckets <==> Present(rows, t))
    && (t in buckets ==> EndsAs(rows, t, buckets[t].end) && SumsOk(buckets[t], rows, t))
    && (t !in buckets ==> forall m: Measure :: MeasuredAt(rows, t, m) == [])
  }

  /** `gather_history`: one observation per interval, oldest first. */
  method GatherHistory(rows: seq<Metered>) returns (history: seq<History>)
    ensures forall i, j :: 0 <= i < j < |history| ==> history[i].start < history[j].start
    ensures forall t :: Covered(history, t) <==> Present(rows, t)
    ensures forall i :: 0 <= i < |history| ==>
      (EndsAs(rows, history[i].start, history[i].bucket.end) && SumsOk(history[i].bucket, rows, history[i].start))
  {
    var buckets := FillBuckets(rows);
    var starts := SortStarts(buckets.Keys);
    history := seq(|starts|, i requires 0 <= i < |starts| => (assert starts[i] in starts; History(starts[i], buckets[starts[i]])));
    forall i | 0 <= i < |history|
      ensures EndsAs(rows, history[i].start, history[i].bucket.end) && SumsOk(history[i].bucket, rows, history[i].start)
    {
      assert starts[i] in starts;
      assert BucketOk(buckets, rows, starts[i]);
    }
    forall t ensures Covered(history, t) <==> Present(rows, t) {
      assert BucketOk(buckets, rows, t);
      if t in starts {
        var i :| 0 <= i < |starts| && starts[i] == t;
        assert history[i].start == t;
      }
      if Covered(history, t) {
        var i :| 0 <= i < |history| && history[i].start == t;
        assert starts[i] in starts;
      }
    }
  }

  /** The keys of the buckets in time order. */
  method SortStarts(keys: set<int>) returns (starts: seq<int>)
    ensures Increasing(starts) && forall t :: t in starts <==> t in keys
  {
    starts := [];
    var todo := keys;
    while todo != {}
      invariant todo <= keys && Increasing(starts)
      invariant forall t :: t in starts <==> t in keys && t !in todo
      decreases |todo|
    {
      Inhabited(todo);
      var t :| t in todo;
      starts := AddStart(starts, t);
      todo := todo - {t};
    }
  }

  /** The bucket loop. */
  method FillBuckets(rows: seq<Metered>) returns (buckets: map<int, Bucket>)
    ensures forall t :: BucketOk(buckets, rows, t)
  {
    hide BucketOk;
    buckets := map[];
    forall t ensures BucketOk(map[], rows[..0], t) {
      NoBuckets(t);
    }
    var i := 0;
    while i < |rows|
      invariant 0 <= i <= |rows|
      invariant forall t :: BucketOk(buckets, rows[..i], t)
    {
      var row := rows[i];
      var bucket := if row.start in buckets then buckets[row.start] else Bucket(row.end, None, None, None);
      var updated := buckets[row.start := Add(bucket, row)];
      ghost var seen := rows[..i + 1];
      forall t ensures BucketOk(updated, seen, t) {
        BucketStep(buckets, rows, i, t);
      }
      buckets := updated;
      i := i + 1;
    }
    assert rows[..i] == rows;
  }

  lemma NoBuckets(t: int)
    ensures BucketOk(map[], [], t)
  {
  }

  lemma BucketStep(buckets: map<int, Bucket>, rows: seq<Metered>, i: nat, t: int)
    requires i < |rows| && BucketOk(buckets, rows[..i], t)
    ensures var row := rows[i];
      var bucket := if row.start in buckets then buckets[row.start] else Bucket(row.end, None, None, None);
      BucketOk(buckets[row.start := Add(bucket, row)], rows[..i + 1], t)
  {
    hide Accumulate, SumsUp, EndsAs;
    var row, before, after := rows[i], rows[..i], rows[..i + 1];
    assert after[..i] == before && after[i] == row;
    assert forall k :: 0 <= k < i ==> after[k] == before[k];
    EndStep(before, row, t, if t in buckets then buckets[t].end else row.end);
    assert after == before + [row];
    if t == row.start {
      var bucket := if t in buckets then buckets[t] else Bucket(row.end, None, None, None);
      forall m: Measure ensures SumsUp(Held(Add(bucket, row), m), MeasuredAt(after, t, m)) {
        NothingSums();
        assert SumsUp(Held(bucket, m), MeasuredAt(before, t, m));
        AddMeasured(Held(bucket, m), MeasuredAt(before, t, m), Measured(row, m));
      }
    } else {
      forall m: Measure ensures MeasuredAt(after, t, m) == MeasuredAt(before, t, m) {
      }
      if t in buckets {
        var k :| 0 <= k < |before| && before[k].start == t;
        assert after[k] == before[k];
      }
    }
  }

  /** The first row of an interval decides its end. */
  lemma EndStep(before: seq<Metered>, row: Metered, t: int, end: int)
    ensures EndsAs(before, t, end) ==> EndsAs(before + [row], t, end)
    ensures (forall k :: 0 <= k < |before| ==> before[k].start != t) && row.start == t ==>
      EndsAs(before + [row], t, row.end)
  {
    var after := before + [row];
    if EndsAs(before, t, end) {
      var i :| 0 <= i < |before| && before[i].start == t && before[i].end == end
        && forall k :: 0 <= k < i ==> before[k].start != t;
      assert after[i] == before[i];
    }
    if (forall k :: 0 <= k < |before| ==> before[k].start != t) && row.start == t {
      assert after[|before|] == row;
    }
  }

  lemma NothingSums()
    ensures SumsUp(None, [])
  {
  }

  lemma AddMeasured(total: Option<real>, values: seq<real>, value: Option<real>)
    requires SumsUp(total, values)
    ensures SumsUp(Accumulate(total, value), if value.Some? then values + [value.value] else values)
  {
    if value.Some? {
      assert (values + [value.value])[..|values|] == values;
    }
  }
}
