/** From solver output to a verdict: metrics, overloads element by element,
    aggregate breaches, and the merged violation list the status must agree with.
    Voltages in 0.000001 p.u., loadings in 0.0001 %. */
module GridVerdict {
  import opened Base

  const FULL_LOAD: int := 1_000_000

  datatype ViolationType = UnderVoltage | OverVoltage | LineOverload | TransformerOverload

  datatype Violation = Violation(kind: ViolationType, element: Option<int>, observed: int, limit: int)

  datatype Metrics = Metrics(minVoltage: Option<int>, maxVoltage: Option<int>, maxLine: Option<int>, maxTransformer: Option<int>)

  datatype Limits = Limits(minVoltage: int, maxVoltage: int, maxLine: int, maxTransformer: int)

  /** One solved edge: its solver id and its loading, unless not finite. */
  datatype Solved = Solved(id: int, loading: Option<int>)

  datatype Loading = Loading(element: int, value: int)

  datatype Status = Safe | Unsafe

  /** Loadings of rated elements the solver gave a finite number for. */
  function Loadings(solved: seq<Solved>, elementOf: map<int, int>, rated: set<int>): seq<Loading> {
    if |solved| == 0 then []
    else
      var front, last := Loadings(solved[..|solved| - 1], elementOf, rated), solved[|solved| - 1];
      if Counts(last, elementOf, rated) then front + [Loading(elementOf[last.id], last.loading.value)] else front
  }

  predicate Counts(s: Solved, elementOf: map<int, int>, rated: set<int>) {
    s.id in elementOf && elementOf[s.id] in rated && s.loading.Some?
  }

  lemma {:induction false} LoadingsExact(solved: seq<Solved>, elementOf: map<int, int>, rated: set<int>, limit: int)
    ensures (forall i :: 0 <= i < |solved| && Counts(solved[i], elementOf, rated) ==> solved[i].loading.value <= limit)
      <==> (forall i :: 0 <= i < |Loadings(solved, elementOf, rated)| ==> Loadings(solved, elementOf, rated)[i].value <= limit)
  {
    if |solved| > 0 {
      var n := |solved| - 1;
      LoadingsExact(solved[..n], elementOf, rated, limit);
      var front, all := Loadings(solved[..n], elementOf, rated), Loadings(solved, elementOf, rated);
      assert forall i :: 0 <= i < n ==> solved[..n][i] == solved[i];
      assert forall i :: 0 <= i < |front| ==> all[i] == front[i];
      if Counts(solved[n], elementOf, rated) {
        assert all[|front|].value == solved[n].loading.value;
      }
    }
  }

  function Extreme(best: Option<int>, value: int, highest: bool): Option<int> {
    if best.None? then Some(value)
    else Some(if highest then Max(best.value, value) else Min(best.value, value))
  }

  /** Lowest and highest finite voltage. */
  method VoltageRange(voltages: seq<Option<int>>) returns (low: Option<int>, high: Option<int>)
    ensures low.None? <==> forall i :: 0 <= i < |voltages| ==> voltages[i].None?
    ensures high.None? <==> low.None?
    ensures low.Some? ==> Some(low.value) in voltages && Some(high.value) in voltages
    ensures low.Some? ==> forall i :: 0 <= i < |voltages| && voltages[i].Some? ==> low.value <= voltages[i].value <= high.value
  {
    low, high := None, None;
    var i := 0;
    while i < |voltages|
      invariant 0 <= i <= |voltages|
      invariant low.None? <==> forall k :: 0 <= k < i ==> voltages[k].None?
      invariant high.None? <==> low.None?
      invariant low.Some? ==> Some(low.value) in voltages && Some(high.value) in voltages
      invariant low.Some? ==> forall k :: 0 <= k < i && voltages[k].Some? ==> low.value <= voltages[k].value <= high.value
    {
      if voltages[i].Some? {
        assert voltages[i] in voltages;
        low, high := Extreme(low, voltages[i].value, false), Extreme(high, voltages[i].value, true);
      }
      i := i + 1;
    }
  }

  predicate Highest(high: Option<int>, xs: seq<Loading>) {
    && (high.None? <==> |xs| == 0)
    && (high.Some? ==> (exists i :: 0 <= i < |xs| && xs[i].value == high.value)
                       && forall i :: 0 <= i < |xs| ==> xs[i].value <= high.value)
  }

  /** The rated loadings and the greatest of them. */
  method ExtractLoadings(solved: seq<Solved>, elementOf: map<int, int>, rated: set<int>) returns (xs: seq<Loading>, high: Option<int>)
    ensures xs == Loadings(solved, elementOf, rated)
    ensures Highest(high, xs)
  {
    xs, high := [], None;
    var i := 0;
    while i < |solved|
      invariant 0 <= i <= |solved|
      invariant xs == Loadings(solved[..i], elementOf, rated)
      invariant Highest(high, xs)
    {
      assert solved[..i + 1][..i] == solved[..i];
      var row := solved[i];
      if row.id in elementOf && elementOf[row.id] in rated && row.loading.Some? {
        ghost var before := xs;
        xs := xs + [Loading(elementOf[row.id], row.loading.value)];
        high := Extreme(high, row.loading.value, true);
        assert xs[|before|].value == row.loading.value;
        assert forall k :: 0 <= k < |before| ==> xs[k] == before[k];
      }
      i := i + 1;
    }
    assert solved[..i] == solved;
  }

  /** One violation for each loading above the full rating, in order. */
  function Overloads(xs: seq<Loading>, kind: ViolationType): (vs: seq<Violation>)
    ensures forall i :: 0 <= i < |vs| ==> vs[i].kind == kind
    ensures vs == [] <==> forall i :: 0 <= i < |xs| ==> xs[i].value <= FULL_LOAD
    ensures forall v :: v in vs ==>
      (v.limit == FULL_LOAD && v.observed > FULL_LOAD && v.element.Some? && Loading(v.element.value, v.observed) in xs)
    ensures forall x :: x in xs && x.value > FULL_LOAD ==> Violation(kind, Some(x.element), x.value, FULL_LOAD) in vs
  {
    if |xs| == 0 then []
    else
      var front, last := Overloads(xs[..|xs| - 1], kind), xs[|xs| - 1];
      assert xs == xs[..|xs| - 1] + [last];
      if last.value > FULL_LOAD then front + [Violation(kind, Some(last.element), last.value, FULL_LOAD)] else front
  }

  method CollectOverloads(xs: seq<Loading>, kind: ViolationType) returns (vs: seq<Violation>)
    ensures vs == Overloads(xs, kind)
  {
    vs := [];
    var i := 0;
    while i < |xs|
      invariant 0 <= i <= |xs|
      invariant vs == Overloads(xs[..i], kind)
    {
      assert xs[..i + 1][..i] == xs[..i];
      if xs[i].value > FULL_LOAD {
        vs := vs + [Violation(kind, Some(xs[i].element), xs[i].value, FULL_LOAD)];
      }
      i := i + 1;
    }
    assert xs[..i] == xs;
  }

  /** `evaluate_metrics`: the aggregate breaches. */
  function Evaluate(m: Metrics, l: Limits): seq<Violation> {
    (if m.minVoltage.Some? && m.minVoltage.value < l.minVoltage
     then [Violation(UnderVoltage, None, m.minVoltage.value, l.minVoltage)] else [])
    + (if m.maxVoltage.Some? && m.maxVoltage.value > l.maxVoltage
       then [Violation(OverVoltage, None, m.maxVoltage.value, l.maxVoltage)] else [])
    + (if m.maxLine.Some? && m.maxLine.value > l.maxLine
       then [Violation(LineOverload, None, m.maxLine.value, l.maxLine)] else [])
    + (if m.maxTransformer.Some? && m.maxTransformer.value > l.maxTransformer
       then [Violation(TransformerOverload, None, m.maxTransformer.value, l.maxTransformer)] else [])
  }

  /** The aggregate breaches are those of the four limits the metrics exceed, each
      with what was observed and the limit, and no element. */
  lemma EvaluateExactly(m: Metrics, l: Limits, v: Violation)
    ensures v in Evaluate(m, l) <==>
      || (m.minVoltage.Some? && m.minVoltage.value < l.minVoltage
          && v == Violation(UnderVoltage, None, m.minVoltage.value, l.minVoltage))
      || (m.maxVoltage.Some? && m.maxVoltage.value > l.maxVoltage
          && v == Violation(OverVoltage, None, m.maxVoltage.value, l.maxVoltage))
      || (m.maxLine.Some? && m.maxLine.value > l.maxLine
          && v == Violation(LineOverload, None, m.maxLine.value, l.maxLine))
      || (m.maxTransformer.Some? && m.maxTransformer.value > l.maxTransformer
          && v == Violation(TransformerOverload, None, m.maxTransformer.value, l.maxTransformer))
  {
  }

  predicate Mentions(vs: seq<Violation>, kind: ViolationType) {
    exists i :: 0 <= i < |vs| && vs[i].kind == kind
  }

  /** Aggregate breaches of a type no element was named for. */
  function Unnamed(aggregate: seq<Violation>, named: seq<Violation>): (r: seq<Violation>)
    ensures forall i :: 0 <= i < |aggregate| && !Mentions(named, aggregate[i].kind) ==> aggregate[i] in r
    ensures forall v :: v in r ==> v in aggregate && !Mentions(named, v.kind)
  {
    if |aggregate| == 0 then []
    else
      var front, last := Unnamed(aggregate[..|aggregate| - 1], named), aggregate[|aggregate| - 1];
      assert forall i :: 0 <= i < |aggregate| - 1 ==> aggregate[..|aggregate| - 1][i] == aggregate[i];
      if Mentions(named, last.kind) then front else front + [last]
  }

  function Merge(named: seq<Violation>, aggregate: seq<Violation>): seq<Violation> {
    named + Unnamed(aggregate, named)
  }

  function DetermineStatus(named: seq<Violation>, aggregate: seq<Violation>): Status {
    if |named| > 0 then Unsafe else if |aggregate| > 0 then Unsafe else Safe
  }

  /** Merging drops no type of breach, and the status is safe exactly when
      nothing at all is reported. */
  lemma MergeKeepsEveryType(named: seq<Violation>, aggregate: seq<Violation>, kind: ViolationType)
    ensures Mentions(Merge(named, aggregate), kind) <==> Mentions(named, kind) || Mentions(aggregate, kind)
    ensures DetermineStatus(named, aggregate) == Safe <==> Merge(named, aggregate) == []
  {
    var merged := Merge(named, aggregate);
    if Mentions(named, kind) {
      var i :| 0 <= i < |named| && named[i].kind == kind;
      assert merged[i].kind == kind;
    } else if Mentions(aggregate, kind) {
      var i :| 0 <= i < |aggregate| && aggregate[i].kind == kind;
      assert aggregate[i] in merged;
    }
    if Mentions(merged, kind) {
      var i :| 0 <= i < |merged| && merged[i].kind == kind;
      assert i < |named| ==> merged[i] == named[i];
      assert i >= |named| ==> merged[i] in Unnamed(aggregate, named);
    }
    if |named| == 0 && |aggregate| > 0 {
      assert aggregate[0] in merged;
    }
  }

  // ---- the verdict ---------------------------------------------------------

  datatype Output = Output(voltages: seq<Option<int>>, lines: seq<Solved>, transformers: seq<Solved>)

  datatype Topology = Topology(lineOf: map<int, int>, transformerOf: map<int, int>, ratedLines: set<int>, ratedTransformers: set<int>)

  datatype Verdict = Verdict(status: Status, metrics: Metrics, violations: seq<Violation>)

  predicate VoltagesWithin(voltages: seq<Option<int>>, low: int, high: int) {
    forall i :: 0 <= i < |voltages| && voltages[i].Some? ==> low <= voltages[i].value <= high
  }

  predicate LoadingsWithin(solved: seq<Solved>, elementOf: map<int, int>, rated: set<int>, limit: int) {
    forall i :: 0 <= i < |solved| && Counts(solved[i], elementOf, rated) ==> solved[i].loading.value <= limit
  }

  /** The combined solve judged: safe exactly when nothing is reported, and
      exactly when every finite voltage lies in the band and every rated, finite
      loading is within its limit and within the full rating. */
  method Judge(o: Output, t: Topology, l: Limits) returns (v: Verdict)
    ensures v.violations ==
      Merge(Overloads(Loadings(o.lines, t.lineOf, t.ratedLines), LineOverload)
            + Overloads(Loadings(o.transformers, t.transformerOf, t.ratedTransformers), TransformerOverload),
            Evaluate(v.metrics, l))
    ensures v.status == Safe <==> v.violations == []
    ensures v.status == Safe <==>
      VoltagesWithin(o.voltages, l.minVoltage, l.maxVoltage)
      && LoadingsWithin(o.lines, t.lineOf, t.ratedLines, Min(l.maxLine, FULL_LOAD))
      && LoadingsWithin(o.transformers, t.transformerOf, t.ratedTransformers, Min(l.maxTransformer, FULL_LOAD))
  {
    hide Unnamed, Loadings, Overloads;
    var low, high := VoltageRange(o.voltages);
    var lines, maxLine := ExtractLoadings(o.lines, t.lineOf, t.ratedLines);
    var transformers, maxTransformer := ExtractLoadings(o.transformers, t.transformerOf, t.ratedTransformers);
    var metrics := Metrics(low, high, maxLine, maxTransformer);
    var lineOverloads := CollectOverloads(lines, LineOverload);
    var transformerOverloads := CollectOverloads(transformers, TransformerOverload);
    var named := lineOverloads + transformerOverloads;
    var aggregate := Evaluate(metrics, l);
    var status := DetermineStatus(named, aggregate);
    v := Verdict(status, metrics, Merge(named, aggregate));
    MergeKeepsEveryType(named, aggregate, LineOverload);
    LoadingsExact(o.lines, t.lineOf, t.ratedLines, Min(l.maxLine, FULL_LOAD));
    LoadingsExact(o.transformers, t.transformerOf, t.ratedTransformers, Min(l.maxTransformer, FULL_LOAD));
    VoltageBand(o.voltages, low, high, l);
    LoadingBand(lines, maxLine, l.maxLine);
    LoadingBand(transformers, maxTransformer, l.maxTransformer);
    assert named == [] <==> lineOverloads == [] && transformerOverloads == [];
  }

  lemma VoltageBand(voltages: seq<Option<int>>, low: Option<int>, high: Option<int>, l: Limits)
    requires low.None? <==> forall i :: 0 <= i < |voltages| ==> voltages[i].None?
    requires high.None? <==> low.None?
    requires low.Some? ==> Some(low.value) in voltages && Some(high.value) in voltages
    requires low.Some? ==> forall i :: 0 <= i < |voltages| && voltages[i].Some? ==> low.value <= voltages[i].value <= high.value
    ensures VoltagesWithin(voltages, l.minVoltage, l.maxVoltage) <==>
      (low.Some? ==> l.minVoltage <= low.value && high.value <= l.maxVoltage)
  {
    if low.Some? {
      var i :| 0 <= i < |voltages| && voltages[i] == Some(low.value);
      var j :| 0 <= j < |voltages| && voltages[j] == Some(high.value);
    }
  }

  lemma LoadingBand(xs: seq<Loading>, high: Option<int>, limit: int)
    requires Highest(high, xs)
    ensures (forall i :: 0 <= i < |xs| ==> xs[i].value <= Min(limit, FULL_LOAD)) <==>
      (high.Some? ==> high.value <= limit) && (forall i :: 0 <= i < |xs| ==> xs[i].value <= FULL_LOAD)
  {
  }
}
