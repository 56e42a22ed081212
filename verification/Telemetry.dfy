/** Telemetry ingestion: one reading at a time, in batches, and in chunks of any
    size. The natural key is (meter, asset, interval start), and an absent asset
    is a key value like any other. */
module Telemetry {
  import opened Base

  datatype Series = Series(meter: int, asset: Option<int>)

  /** A normalized reading: power and energy channels, state of charge in
      hundredths of a percent, and whether the source answered at all. */
  datatype Reading = Reading(
    series: Series, start: int, end: int, channels: seq<Option<int>>, soc: Option<int>, unavailable: bool)

  datatype Status = SourceUnavailable | InvalidValue | Missing | Duplicate | OutOfOrder | Stale | Valid

  /** What is already known of the series. */
  datatype Context = Context(latest: Option<int>, duplicate: bool)

  /** Classification at a fixed moment and staleness threshold. */
  type Classifier = (Reading, Context) -> Status

  datatype Row = Row(reading: Reading, status: Status)

  datatype Outcome = Outcome(status: Status, stored: bool)

  datatype IngestError = UnknownMeter | UnknownAsset | ConstraintViolation | BadBatchSize

  datatype Known = Known(meters: set<int>, assets: set<int>)

  datatype Done = Done(rows: seq<Row>, outcomes: seq<Outcome>)

  predicate Storable(s: Status) {
    s != Duplicate && s != InvalidValue
  }

  function Later(a: Option<int>, b: Option<int>): Option<int> {
    if a.None? then b else if b.None? then a else Some(Max(a.value, b.value))
  }

  /** The newest interval start stored for a series. */
  function Latest(rows: seq<Row>, s: Series): Option<int> {
    if |rows| == 0 then None
    else
      var front, last := Latest(rows[..|rows| - 1], s), rows[|rows| - 1].reading;
      if last.series == s then Later(front, Some(last.start)) else front
  }

  /** Absent for an empty series, and otherwise the greatest of its starts. */
  lemma {:induction false} LatestExactly(rows: seq<Row>, s: Series)
    ensures var r := Latest(rows, s);
      && (r.None? <==> forall i :: 0 <= i < |rows| ==> rows[i].reading.series != s)
      && (r.Some? ==> Exists(rows, s, r.value))
      && (r.Some? ==> forall i :: 0 <= i < |rows| && rows[i].reading.series == s ==> rows[i].reading.start <= r.value)
  {
    if |rows| > 0 {
      var n := |rows| - 1;
      LatestExactly(rows[..n], s);
      assert forall i :: 0 <= i < n ==> rows[..n][i] == rows[i];
      var front := Latest(rows[..n], s);
      if front.Some? {
        var i :| 0 <= i < n && rows[..n][i].reading.series == s && rows[..n][i].reading.start == front.value;
        assert rows[i].reading.start == front.value;
      }
      if rows[n].reading.series == s {
        assert Exists(rows, s, rows[n].reading.start);
      }
    }
  }

  predicate Exists(rows: seq<Row>, s: Series, start: int) {
    exists i :: 0 <= i < |rows| && rows[i].reading.series == s && rows[i].reading.start == start
  }

  function ContextOf(rows: seq<Row>, r: Reading): Context {
    Context(Latest(rows, r.series), Exists(rows, r.series, r.start))
  }

  predicate PlausibleChannels(channels: seq<Option<int>>) {
    forall i :: 0 <= i < |channels| && channels[i].Some? ==> channels[i].value >= 0
  }

  /** No end before the start, no negative channel, charge within 0..100 %. */
  predicate Plausible(r: Reading) {
    r.start <= r.end && PlausibleChannels(r.channels) && (r.soc.Some? ==> 0 <= r.soc.value <= 10_000)
  }

  /** What the table accepts: plausible columns and a new natural key. */
  predicate Insertable(rows: seq<Row>, r: Reading) {
    Plausible(r) && !Exists(rows, r.series, r.start)
  }

  function Unknown(known: Known, r: Reading): Option<IngestError> {
    if r.series.meter !in known.meters then Some(UnknownMeter)
    else if r.series.asset.Some? && r.series.asset.value !in known.assets then Some(UnknownAsset)
    else None
  }

  // ---- one at a time -------------------------------------------------------

  function IngestOne(rows: seq<Row>, known: Known, classify: Classifier, r: Reading): Result<Done, IngestError> {
    var unknown := Unknown(known, r);
    if unknown.Some? then Err(unknown.value)
    else
      var status := classify(r, ContextOf(rows, r));
      if !Storable(status) then Ok(Done(rows, [Outcome(status, false)]))
      else if !Insertable(rows, r) then Err(ConstraintViolation)
      else Ok(Done(rows + [Row(r, status)], [Outcome(status, true)]))
  }

  /** `ingest_reading` over a list, until one raises. */
  function IngestEach(rows: seq<Row>, known: Known, classify: Classifier, rs: seq<Reading>): Result<Done, IngestError>
    decreases |rs|
  {
    if |rs| == 0 then Ok(Done(rows, []))
    else
      var first := IngestOne(rows, known, classify, rs[0]);
      if first.Err? then first
      else
        var rest := IngestEach(first.value.rows, known, classify, rs[1..]);
        if rest.Err? then rest else Ok(Done(rest.value.rows, first.value.outcomes + rest.value.outcomes))
  }

  lemma {:induction false} EachConcat(rows: seq<Row>, known: Known, classify: Classifier, a: seq<Reading>, b: seq<Reading>)
    ensures var first := IngestEach(rows, known, classify, a);
      var both := IngestEach(rows, known, classify, a + b);
      if first.Err? then both == first
      else
        var rest := IngestEach(first.value.rows, known, classify, b);
        if rest.Err? then both == rest
        else both == Ok(Done(rest.value.rows, first.value.outcomes + rest.value.outcomes))
    decreases |a|
  {
    hide IngestOne;
    if |a| == 0 {
      assert a + b == b;
      var rest := IngestEach(rows, known, classify, b);
      assert rest.Ok? ==> [] + rest.value.outcomes == rest.value.outcomes;
    } else {
      assert (a + b)[1..] == a[1..] + b && (a + b)[0] == a[0];
      var first := IngestOne(rows, known, classify, a[0]);
      if first.Ok? {
        var next := first.value.rows;
        EachConcat(next, known, classify, a[1..], b);
        var tail := IngestEach(next, known, classify, a[1..]);
        if tail.Ok? {
          var rest := IngestEach(tail.value.rows, known, classify, b);
          if rest.Ok? {
            assert first.value.outcomes + (tail.value.outcomes + rest.value.outcomes)
                == first.value.outcomes + tail.value.outcomes + rest.value.outcomes;
          }
        }
      }
    }
  }

  /** Keys stay unique, and stored rows stay as they are. */
  predicate UniqueKeys(rows: seq<Row>) {
    forall i, j :: 0 <= i < j < |rows| ==>
      rows[i].reading.series != rows[j].reading.series || rows[i].reading.start != rows[j].reading.start
  }

  lemma {:induction false} EachKeeps(rows: seq<Row>, known: Known, classify: Classifier, rs: seq<Reading>)
    requires UniqueKeys(rows) && IngestEach(rows, known, classify, rs).Ok?
    ensures var done := IngestEach(rows, known, classify, rs).value;
      && UniqueKeys(done.rows) && |done.outcomes| == |rs|
      && |rows| <= |done.rows| && done.rows[..|rows|] == rows
    decreases |rs|
  {
    if |rs| > 0 {
      EachKeeps(IngestOne(rows, known, classify, rs[0]).value.rows, known, classify, rs[1..]);
    }
  }

  // ---- a batch -------------------------------------------------------------

  /** The batch before its insert: every reading classified against the stored
      rows and the ones staged before it. */
  function Stage(rows: seq<Row>, known: Known, classify: Classifier, rs: seq<Reading>): Result<Done, IngestError>
    decreases |rs|
  {
    if |rs| == 0 then Ok(Done(rows, []))
    else
      var r := rs[0];
      var unknown := Unknown(known, r);
      if unknown.Some? then Err(unknown.value)
      else
        var status := classify(r, ContextOf(rows, r));
        var next := if Storable(status) then rows + [Row(r, status)] else rows;
        var rest := Stage(next, known, classify, rs[1..]);
        if rest.Err? then rest
        else Ok(Done(rest.value.rows, [Outcome(status, Storable(status))] + rest.value.outcomes))
  }

  /** One flush: every new row against the rows before it. */
  predicate Flushable(rows: seq<Row>, n: nat) {
    forall i :: n <= i < |rows| ==> Insertable(rows[..i], rows[i].reading)
  }

  function Batch(rows: seq<Row>, known: Known, classify: Classifier, rs: seq<Reading>): Result<Done, IngestError> {
    var staged := Stage(rows, known, classify, rs);
    if staged.Err? then staged
    else if !Flushable(staged.value.rows, |rows|) then Err(ConstraintViolation)
    else staged
  }

  lemma {:induction false} StageGrows(rows: seq<Row>, known: Known, classify: Classifier, rs: seq<Reading>)
    requires Stage(rows, known, classify, rs).Ok?
    ensures var done := Stage(rows, known, classify, rs).value.rows;
      |rows| <= |done| && done[..|rows|] == rows
    decreases |rs|
  {
    if |rs| > 0 {
      var status := classify(rs[0], ContextOf(rows, rs[0]));
      var next := if Storable(status) then rows + [Row(rs[0], status)] else rows;
      StageGrows(next, known, classify, rs[1..]);
      var done := Stage(next, known, classify, rs[1..]).value.rows;
      assert done[..|rows|] == done[..|next|][..|rows|];
    }
  }

  /** A batch succeeds exactly when the same readings one by one all succeed, and
      then with the same outcomes and rows; otherwise it stores nothing. */
  lemma {:induction false} BatchRefinesSequential(rows: seq<Row>, known: Known, classify: Classifier, rs: seq<Reading>)
    ensures Batch(rows, known, classify, rs).Ok? <==> IngestEach(rows, known, classify, rs).Ok?
    ensures Batch(rows, known, classify, rs).Ok? ==>
      Batch(rows, known, classify, rs) == IngestEach(rows, known, classify, rs)
    decreases |rs|
  {
    hide ContextOf, Insertable, Storable;
    if |rs| > 0 && Unknown(known, rs[0]).None? {
      var r := rs[0];
      var status := classify(r, ContextOf(rows, r));
      var next := if Storable(status) then rows + [Row(r, status)] else rows;
      BatchRefinesSequential(next, known, classify, rs[1..]);
      var rest := Stage(next, known, classify, rs[1..]);
      if rest.Ok? {
        StageGrows(next, known, classify, rs[1..]);
        if Storable(status) {
          var done := rest.value.rows;
          assert done[|rows|] == done[..|next|][|rows|] == Row(r, status);
          assert done[..|rows|] == done[..|next|][..|rows|] == rows;
          assert Flushable(done, |rows|) <==> Flushable(done, |next|) && Insertable(rows, r);
        }
      }
    }
  }

  // ---- chunks --------------------------------------------------------------

  /** `stream_batches`. */
  method StreamBatches(rs: seq<Reading>, size: int) returns (result: Result<seq<seq<Reading>>, IngestError>)
    ensures result == if size <= 0 then Err(BadBatchSize) else Ok(Chunks(rs, size))
  {
    if size <= 0 {
      return Err(BadBatchSize);
    }
    hide Chunks, ChunksFrom;
    ghost var all := Chunks(rs, size);
    ChunksStart(rs, size);
    var chunks: seq<seq<Reading>> := [];
    var i := 0;
    while i < |rs|
      invariant 0 <= i
      invariant all == chunks + ChunksFrom(rs, size, i)
      decreases |rs| - i
    {
      ChunkStep(rs, size, i);
      chunks := chunks + [rs[i..Min(i + size, |rs|)]];
      i := i + size;
    }
    ChunksEnd(rs, size, i);
    assert all == chunks;
    result := Ok(chunks);
  }

  /** The chunks from a position on. */
  function ChunksFrom(rs: seq<Reading>, size: nat, i: nat): seq<seq<Reading>>
    requires size > 0
  {
    if i < |rs| then Chunks(rs[i..], size) else []
  }

  lemma ChunksStart(rs: seq<Reading>, size: nat)
    requires size > 0
    ensures [] + ChunksFrom(rs, size, 0) == Chunks(rs, size)
  {
    assert rs[0..] == rs;
  }

  lemma ChunksEnd(rs: seq<Reading>, size: nat, i: nat)
    requires size > 0 && i >= |rs|
    ensures ChunksFrom(rs, size, i) == []
  {
  }

  lemma ChunkStep(rs: seq<Reading>, size: nat, i: nat)
    requires size > 0 && i < |rs|
    ensures ChunksFrom(rs, size, i) == [rs[i..Min(i + size, |rs|)]] + ChunksFrom(rs, size, i + size)
  {
    var n := Min(size, |rs| - i);
    assert rs[i..][..n] == rs[i..i + n];
    assert rs[i..][n..] == rs[i + n..];
    assert Chunks(rs[i..], size) == [rs[i..i + n]] + Chunks(rs[i + n..], size);
    assert i + size >= |rs| ==> rs[i + n..] == [];
  }

  function Chunks(rs: seq<Reading>, size: nat): seq<seq<Reading>>
    requires size > 0
    decreases |rs|
  {
    if |rs| == 0 then []
    else
      var n := Min(size, |rs|);
      [rs[..n]] + Chunks(rs[n..], size)
  }

  /** The chunks as consecutive batches, until one is refused. */
  function IngestChunks(rows: seq<Row>, known: Known, classify: Classifier, chunks: seq<seq<Reading>>): Result<Done, IngestError>
    decreases |chunks|
  {
    if |chunks| == 0 then Ok(Done(rows, []))
    else
      var first := Batch(rows, known, classify, chunks[0]);
      if first.Err? then first
      else
        var rest := IngestChunks(first.value.rows, known, classify, chunks[1..]);
        if rest.Err? then rest else Ok(Done(rest.value.rows, first.value.outcomes + rest.value.outcomes))
  }

  /** The chunk size does not matter: the chunks succeed exactly when the single
      readings do, with the same outcomes and rows. */
  lemma {:induction false} ChunkSizeIsIrrelevant(rows: seq<Row>, known: Known, classify: Classifier, rs: seq<Reading>, size: nat)
    requires size > 0
    ensures var chunked := IngestChunks(rows, known, classify, Chunks(rs, size));
      var each := IngestEach(rows, known, classify, rs);
      (chunked.Ok? <==> each.Ok?) && (each.Ok? ==> chunked == each)
    decreases |rs|
  {
    hide Batch;
    if |rs| > 0 {
      var n := Min(size, |rs|);
      var chunks := Chunks(rs, size);
      assert chunks[0] == rs[..n] && chunks[1..] == Chunks(rs[n..], size);
      BatchRefinesSequential(rows, known, classify, rs[..n]);
      EachConcat(rows, known, classify, rs[..n], rs[n..]);
      assert rs[..n] + rs[n..] == rs;
      var first := Batch(rows, known, classify, rs[..n]);
      if first.Ok? {
        ChunkSizeIsIrrelevant(first.value.rows, known, classify, rs[n..], size);
      }
    }
  }

  // ---- the classifier ------------------------------------------------------

  predicate HasMeasurement(r: Reading) {
    r.soc.Some? || exists i :: 0 <= i < |r.channels| && r.channels[i].Some?
  }

  /** `classify_reading`: the first rule that applies. */
  function Classify(r: Reading, c: Context, at: int, threshold: int): Status {
    if r.unavailable then SourceUnavailable
    else if !Plausible(r) then InvalidValue
    else if !HasMeasurement(r) then Missing
    else if c.duplicate then Duplicate
    else if c.latest.Some? && r.start < c.latest.value then OutOfOrder
    else if at - r.end > threshold then Stale
    else Valid
  }

  function ClassifierAt(at: int, threshold: int): Classifier {
    (r, c) => Classify(r, c, at, threshold)
  }

  /** No channel negative, no end before the start, charge between 0 and 100 %. */
  predicate Possible(r: Reading) {
    && r.start <= r.end && (r.soc == None || 0 <= r.soc.value <= 10_000)
    && forall i :: 0 <= i < |r.channels| ==> r.channels[i] == None || r.channels[i].value >= 0
  }

  /** Some channel or the charge was measured. */
  predicate Carries(r: Reading) {
    r.soc != None || exists i :: 0 <= i < |r.channels| && r.channels[i] != None
  }

  /** Each status, and exactly when a reading has it over the rows before it. */
  lemma StatusExactly(rows: seq<Row>, r: Reading, at: int, threshold: int)
    ensures var status := Classify(r, ContextOf(rows, r), at, threshold);
      var usual := !r.unavailable && Possible(r) && Carries(r);
      var taken := exists i :: 0 <= i < |rows| && rows[i].reading.series == r.series && rows[i].reading.start == r.start;
      var late := exists i :: 0 <= i < |rows| && rows[i].reading.series == r.series && rows[i].reading.start > r.start;
      && (status == SourceUnavailable <==> r.unavailable)
      && (status == InvalidValue <==> !r.unavailable && !Possible(r))
      && (status == Missing <==> !r.unavailable && Possible(r) && !Carries(r))
      && (status == Duplicate <==> usual && taken)
      && (status == OutOfOrder <==> usual && !taken && late)
      && (status == Stale <==> usual && !taken && !late && r.end + threshold < at)
      && (status == Valid <==> usual && !taken && !late && at <= r.end + threshold)
  {
    LatestExactly(rows, r.series);
    var latest := Latest(rows, r.series);
    if latest.Some? {
      var i :| 0 <= i < |rows| && rows[i].reading.series == r.series && rows[i].reading.start == latest.value;
      assert latest.value > r.start ==> rows[i].reading.start > r.start;
    }
  }

  /** A known reading is stored exactly unless it is impossible or a duplicate, and
      then as it is, with its status, after the others. */
  lemma StoredIff(rows: seq<Row>, known: Known, classify: Classifier, r: Reading)
    requires IngestOne(rows, known, classify, r).Ok?
    ensures var done := IngestOne(rows, known, classify, r).value;
      var status := classify(r, ContextOf(rows, r));
      && r.series.meter in known.meters && (r.series.asset.Some? ==> r.series.asset.value in known.assets)
      && done.outcomes == [Outcome(status, status != Duplicate && status != InvalidValue)]
      && done.rows == (if status != Duplicate && status != InvalidValue then rows + [Row(r, status)] else rows)
  {
  }

  /** A known reading makes the insert fail exactly when it carries no
      measurement to speak of, yet claims a taken key or impossible columns. */
  lemma ConstraintFailsIff(rows: seq<Row>, known: Known, at: int, threshold: int, r: Reading)
    requires Unknown(known, r).None?
    ensures IngestOne(rows, known, ClassifierAt(at, threshold), r) == Err(ConstraintViolation) <==>
      if r.unavailable then !Plausible(r) || Exists(rows, r.series, r.start)
      else Plausible(r) && !HasMeasurement(r) && Exists(rows, r.series, r.start)
  {
    hide Plausible, Exists, HasMeasurement;
  }

  /** So the same outage reported twice for one interval raises, and takes a
      whole batch with it. */
  lemma RepeatedOutageRaises(rows: seq<Row>, known: Known, at: int, threshold: int, r: Reading)
    requires Unknown(known, r).None? && r.unavailable && Insertable(rows, r)
    ensures IngestEach(rows, known, ClassifierAt(at, threshold), [r]).Ok?
    ensures IngestEach(rows, known, ClassifierAt(at, threshold), [r, r]) == Err(ConstraintViolation)
    ensures Batch(rows, known, ClassifierAt(at, threshold), [r, r]).Err?
  {
    var classify := ClassifierAt(at, threshold);
    assert [r, r] == [r] + [r] && [r][1..] == [] && [r, r][1..] == [r];
    var first := IngestOne(rows, known, classify, r);
    var longer := rows + [Row(r, SourceUnavailable)];
    assert first == Ok(Done(longer, [Outcome(SourceUnavailable, true)]));
    assert longer[|rows|].reading == r;
    assert IngestOne(longer, known, classify, r) == Err(ConstraintViolation);
    BatchRefinesSequential(rows, known, classify, [r, r]);
  }

  predicate Measured(known: Known, r: Reading) {
    Unknown(known, r).None? && !r.unavailable && (Plausible(r) ==> HasMeasurement(r))
  }

  /** Readings that do carry measurements never fail, and submitting them again
      stores nothing. */
  lemma {:induction false} ReplayStoresNothing(rows: seq<Row>, known: Known, at: int, threshold: int, later: int, rs: seq<Reading>)
    requires forall i :: 0 <= i < |rs| ==> Measured(known, rs[i])
    ensures IngestEach(rows, known, ClassifierAt(at, threshold), rs).Ok?
    ensures var done := IngestEach(rows, known, ClassifierAt(at, threshold), rs).value.rows;
      var again := IngestEach(done, known, ClassifierAt(later, threshold), rs);
      && |rows| <= |done| && done[..|rows|] == rows
      && again.Ok? && again.value.rows == done
      && (forall i :: 0 <= i < |again.value.outcomes| ==> !again.value.outcomes[i].stored)
    decreases |rs|
  {
    EachSucceeds(rows, known, at, threshold, rs);
    var done := IngestEach(rows, known, ClassifierAt(at, threshold), rs).value.rows;
    AllTaken(done, known, later, threshold, rs);
  }

  predicate Taken(rows: seq<Row>, r: Reading) {
    Plausible(r) ==> Exists(rows, r.series, r.start)
  }

  lemma {:induction false} EachSucceeds(rows: seq<Row>, known: Known, at: int, threshold: int, rs: seq<Reading>)
    requires forall i :: 0 <= i < |rs| ==> Measured(known, rs[i])
    ensures IngestEach(rows, known, ClassifierAt(at, threshold), rs).Ok?
    ensures var done := IngestEach(rows, known, ClassifierAt(at, threshold), rs).value.rows;
      && |rows| <= |done| && done[..|rows|] == rows
      && (forall i :: 0 <= i < |rs| ==> Taken(done, rs[i]))
    decreases |rs|
  {
    hide Plausible, Latest;
    if |rs| > 0 {
      var classify := ClassifierAt(at, threshold);
      var first := IngestOne(rows, known, classify, rs[0]);
      ConstraintFailsIff(rows, known, at, threshold, rs[0]);
      assert first.Ok?;
      var next := first.value.rows;
      EachSucceeds(next, known, at, threshold, rs[1..]);
      var done := IngestEach(next, known, classify, rs[1..]).value.rows;
      assert |rows| <= |next| && next[..|rows|] == rows;
      assert done[..|rows|] == done[..|next|][..|rows|] == rows;
      assert Taken(next, rs[0]) by {
        if |next| > |rows| {
          assert next[|rows|].reading == rs[0];
        }
      }
      forall i | 0 <= i < |rs| ensures Taken(done, rs[i]) {
        if i == 0 {
          TakenStays(next, done, rs[0]);
        } else {
          assert rs[i] == rs[1..][i - 1];
        }
      }
    }
  }

  lemma TakenStays(rows: seq<Row>, more: seq<Row>, r: Reading)
    requires |rows| <= |more| && more[..|rows|] == rows && Taken(rows, r)
    ensures Taken(more, r)
  {
    if Plausible(r) {
      var i :| 0 <= i < |rows| && rows[i].reading.series == r.series && rows[i].reading.start == r.start;
      assert more[..|rows|][i] == more[i];
    }
  }

  lemma {:induction false} AllTaken(rows: seq<Row>, known: Known, at: int, threshold: int, rs: seq<Reading>)
    requires forall i :: 0 <= i < |rs| ==> Measured(known, rs[i]) && Taken(rows, rs[i])
    ensures var again := IngestEach(rows, known, ClassifierAt(at, threshold), rs);
      && again.Ok? && again.value.rows == rows
      && (forall i :: 0 <= i < |again.value.outcomes| ==> !again.value.outcomes[i].stored)
    decreases |rs|
  {
    hide Plausible, Latest, Exists, HasMeasurement;
    if |rs| > 0 {
      AllTaken(rows, known, at, threshold, rs[1..]);
    }
  }

  // ---- the service ---------------------------------------------------------

  ghost predicate Mirrors(latest: map<Series, int>, intervals: set<(Series, int)>, staged: seq<Row>) {
    && (forall s: Series :: Latest(staged, s) == if s in latest then Some(latest[s]) else None)
    && (forall s: Series, start: int :: (s, start) in intervals <==> Exists(staged, s, start))
  }

  /** Stored and staged context together are the context of both. */
  lemma {:induction false} LatestOfBoth(rows: seq<Row>, staged: seq<Row>, s: Series)
    ensures Latest(rows + staged, s) == Later(Latest(rows, s), Latest(staged, s))
    decreases |staged|
  {
    if |staged| == 0 {
      assert rows + staged == rows;
    } else {
      var n := |staged| - 1;
      assert (rows + staged)[..|rows| + n] == rows + staged[..n];
      LatestOfBoth(rows, staged[..n], s);
    }
  }

  lemma ExistsInBoth(rows: seq<Row>, staged: seq<Row>, s: Series, start: int)
    ensures Exists(rows + staged, s, start) <==> Exists(rows, s, start) || Exists(staged, s, start)
  {
    var both := rows + staged;
    if Exists(rows, s, start) {
      var i :| 0 <= i < |rows| && rows[i].reading.series == s && rows[i].reading.start == start;
      assert both[i] == rows[i];
    }
    if Exists(staged, s, start) {
      var i :| 0 <= i < |staged| && staged[i].reading.series == s && staged[i].reading.start == start;
      assert both[|rows| + i] == staged[i];
    }
  }

  lemma MirrorsMore(latest: map<Series, int>, intervals: set<(Series, int)>, staged: seq<Row>, row: Row)
    requires Mirrors(latest, intervals, staged)
    ensures var r := row.reading;
      var newer := if r.series !in latest || r.start > latest[r.series] then latest[r.series := r.start] else latest;
      Mirrors(newer, intervals + {(r.series, r.start)}, staged + [row])
  {
    var more := staged + [row];
    assert more[..|staged|] == staged;
    forall s: Series, start: int
      ensures Exists(more, s, start) <==> Exists(staged, s, start) || (row.reading.series == s && row.reading.start == start)
    {
      ExistsInBoth(staged, [row], s, start);
      assert [row][0] == row;
    }
  }

  class TelemetryStore {
    var rows: seq<Row>
    var known: Known

    constructor (known: Known)
      ensures rows == [] && this.known == known
    {
      this.rows, this.known := [], known;
    }

    /** `_classify_and_build`: the status of a reading in the context of the
        table and of what its batch staged before it. */
    method ClassifyAndBuild(classify: Classifier, r: Reading, extraLatest: Option<int>, extraDuplicate: bool)
      returns (outcome: Outcome)
      ensures outcome.status == classify(r, Context(Later(Latest(rows, r.series), extraLatest),
                                                    extraDuplicate || Exists(rows, r.series, r.start)))
      ensures outcome.stored == Storable(outcome.status)
    {
      var latest := Later(Latest(rows, r.series), extraLatest);
      var duplicate := extraDuplicate || Exists(rows, r.series, r.start);
      var status := classify(r, Context(latest, duplicate));
      outcome := Outcome(status, Storable(status));
    }

    /** `ingest_reading`. */
    method IngestReading(classify: Classifier, r: Reading) returns (result: Result<Outcome, IngestError>)
      modifies this`rows
      ensures result.Ok? ==> IngestOne(old(rows), known, classify, r) == Ok(Done(rows, [result.value]))
      ensures result.Err? ==> IngestOne(old(rows), known, classify, r) == Err(result.error) && rows == old(rows)
    {
      var unknown := Unknown(known, r);
      if unknown.Some? {
        return Err(unknown.value);
      }
      var outcome := ClassifyAndBuild(classify, r, None, false);
      if outcome.stored {
        if !Insertable(rows, r) {
          return Err(ConstraintViolation);
        }
        rows := rows + [Row(r, outcome.status)];
      }
      result := Ok(outcome);
    }

    /** Look a meter and an asset up once per batch. */
    method Verify(r: Reading, verified: Known) returns (error: Option<IngestError>, v: Known)
      requires verified.meters <= known.meters && verified.assets <= known.assets
      ensures error == Unknown(known, r)
      ensures v.meters <= known.meters && v.assets <= known.assets
    {
      error, v := None, verified;
      if r.series.meter !in v.meters {
        if r.series.meter !in known.meters {
          return Some(UnknownMeter), v;
        }
        v := v.(meters := v.meters + {r.series.meter});
      }
      if r.series.asset.Some? && r.series.asset.value !in v.assets {
        if r.series.asset.value !in known.assets {
          return Some(UnknownAsset), v;
        }
        v := v.(assets := v.assets + {r.series.asset.value});
      }
    }

    /** `ingest_batch`: classify in submission order with what the batch staged
        so far kept beside the table, then insert everything at once. */
    method IngestBatch(classify: Classifier, rs: seq<Reading>) returns (result: Result<seq<Outcome>, IngestError>)
      modifies this`rows
      ensures result.Ok? ==> Batch(old(rows), known, classify, rs) == Ok(Done(rows, result.value))
      ensures result.Err? ==> Batch(old(rows), known, classify, rs) == Err(result.error) && rows == old(rows)
    {
      hide Latest, Exists, Insertable, Storable, Unknown, Stage, Ahead, Flushable, Mirrors;
      var outcomes: seq<Outcome> := [];
      var storable: seq<Row> := [];
      var stagedLatest: map<Series, int> := map[];
      var stagedIntervals: set<(Series, int)> := {};
      var verified := Known({}, {});
      NothingStaged();
      ghost var all := Stage(rows, known, classify, rs);
      assert rows + storable == rows && rs[0..] == rs;
      AheadStart(all);
      var i := 0;
      while i < |rs|
        invariant 0 <= i <= |rs| && rows == old(rows)
        invariant verified.meters <= known.meters && verified.assets <= known.assets
        invariant Mirrors(stagedLatest, stagedIntervals, storable)
        invariant Ahead(all, outcomes, Stage(rows + storable, known, classify, rs[i..]))
      {
        var r := rs[i];
        assert rs[i..][0] == r && rs[i..][1..] == rs[i + 1..];
        var error;
        error, verified := Verify(r, verified);
        StageStep(rows + storable, known, classify, rs[i..]);
        if error.Some? {
          AheadFails(all, outcomes, error.value);
          return Err(error.value);
        }
        MirrorsContext(rows, stagedLatest, stagedIntervals, storable, r);
        var extra := if r.series in stagedLatest then Some(stagedLatest[r.series]) else None;
        var outcome := ClassifyAndBuild(classify, r, extra, (r.series, r.start) in stagedIntervals);
        AheadStep(all, outcomes, outcome, Stage(rows + storable, known, classify, rs[i..]),
                  Stage(if outcome.stored then rows + storable + [Row(r, outcome.status)] else rows + storable,
                        known, classify, rs[i + 1..]));
        outcomes := outcomes + [outcome];
        if outcome.stored {
          var row := Row(r, outcome.status);
          MirrorsMore(stagedLatest, stagedIntervals, storable, row);
          assert rows + (storable + [row]) == (rows + storable) + [row];
          storable := storable + [row];
          stagedIntervals := stagedIntervals + {(r.series, r.start)};
          if r.series !in stagedLatest || r.start > stagedLatest[r.series] {
            stagedLatest := stagedLatest[r.series := r.start];
          }
        }
        i := i + 1;
      }
      AheadEnd(all, outcomes, rows + storable, known, classify, rs[i..]);
      if !Flushable(rows + storable, |rows|) {
        return Err(ConstraintViolation);
      }
      rows := rows + storable;
      result := Ok(outcomes);
    }
  }

  /** What is left of the batch, with the outcomes so far put in front. */
  predicate Ahead(all: Result<Done, IngestError>, outcomes: seq<Outcome>, rest: Result<Done, IngestError>) {
    if rest.Err? then all == rest else all == Ok(Done(rest.value.rows, outcomes + rest.value.outcomes))
  }

  lemma AheadStart(all: Result<Done, IngestError>)
    ensures Ahead(all, [], all)
  {
    assert all.Ok? ==> [] + all.value.outcomes == all.value.outcomes;
  }

  lemma AheadFails(all: Result<Done, IngestError>, outcomes: seq<Outcome>, error: IngestError)
    requires Ahead(all, outcomes, Err(error))
    ensures all == Err(error)
  {
  }

  lemma AheadStep(all: Result<Done, IngestError>, outcomes: seq<Outcome>, outcome: Outcome,
                  rest: Result<Done, IngestError>, next: Result<Done, IngestError>)
    requires Ahead(all, outcomes, rest)
    requires rest == if next.Err? then next else Ok(Done(next.value.rows, [outcome] + next.value.outcomes))
    ensures Ahead(all, outcomes + [outcome], next)
  {
    if next.Ok? {
      assert outcomes + ([outcome] + next.value.outcomes) == outcomes + [outcome] + next.value.outcomes;
    }
  }

  lemma AheadEnd(all: Result<Done, IngestError>, outcomes: seq<Outcome>, rows: seq<Row>,
                 known: Known, classify: Classifier, rest: seq<Reading>)
    requires rest == [] && Ahead(all, outcomes, Stage(rows, known, classify, rest))
    ensures all == Ok(Done(rows, outcomes))
  {
    assert outcomes + [] == outcomes;
  }

  /** One reading of the batch. */
  lemma StageStep(rows: seq<Row>, known: Known, classify: Classifier, rs: seq<Reading>)
    requires |rs| > 0
    ensures var r := rs[0];
      var status := classify(r, ContextOf(rows, r));
      var next := Stage(if Storable(status) then rows + [Row(r, status)] else rows, known, classify, rs[1..]);
      Stage(rows, known, classify, rs) ==
      if Unknown(known, r).Some? then Err(Unknown(known, r).value)
      else if next.Err? then next
      else Ok(Done(next.value.rows, [Outcome(status, Storable(status))] + next.value.outcomes))
  {
  }

  lemma MirrorsContext(rows: seq<Row>, latest: map<Series, int>, intervals: set<(Series, int)>, staged: seq<Row>, r: Reading)
    requires Mirrors(latest, intervals, staged)
    ensures ContextOf(rows + staged, r) ==
      Context(Later(Latest(rows, r.series), if r.series in latest then Some(latest[r.series]) else None),
              (r.series, r.start) in intervals || Exists(rows, r.series, r.start))
  {
    LatestOfBoth(rows, staged, r.series);
    ExistsInBoth(rows, staged, r.series, r.start);
  }

  lemma NothingStaged()
    ensures Mirrors(map[], {}, [])
  {
  }
}
