/** The audit log under concurrent appenders. A transaction links each event to
    the newest row it can see, by `(recorded_at, id)`, and the unique constraints
    decide at commit. Blocking inserts only delay that decision. */
module AuditLog {
  import opened Base
  import opened AuditChain

  type TxnId = int

  datatype Log = Log(committed: seq<Sealed>, open: map<TxnId, seq<Sealed>>)

  datatype Step = Record(txn: TxnId, event: Event) | Commit(txn: TxnId) | Abort(txn: TxnId)

  predicate Before(a: Event, b: Event) {
    a.recordedAt < b.recordedAt || (a.recordedAt == b.recordedAt && a.id < b.id)
  }

  /** `latest`: the greatest row by `(recorded_at, id)`. */
  function Latest(rows: seq<Sealed>): (r: Option<Sealed>)
    ensures r.None? <==> rows == []
    ensures r.Some? ==> r.value in rows && forall i :: 0 <= i < |rows| ==> !Before(r.value.event, rows[i].event)
  {
    if |rows| == 0 then None
    else
      var front, last := Latest(rows[..|rows| - 1]), rows[|rows| - 1];
      if front.None? || Before(front.value.event, last.event) then Some(last) else front
  }

  /** `list_chain`: the rows sorted by `(recorded_at, id)`. */
  function Insert(sorted: seq<Sealed>, row: Sealed): (r: seq<Sealed>)
    ensures multiset(r) == multiset(sorted) + multiset{row}
    decreases |sorted|
  {
    if |sorted| == 0 then [row]
    else
      var n := |sorted| - 1;
      assert sorted == sorted[..n] + [sorted[n]];
      if Before(row.event, sorted[n].event) then Insert(sorted[..n], row) + [sorted[n]] else sorted + [row]
  }

  function ListChain(rows: seq<Sealed>): (r: seq<Sealed>)
    ensures multiset(r) == multiset(rows)
  {
    if |rows| == 0 then []
    else
      assert rows == rows[..|rows| - 1] + [rows[|rows| - 1]];
      Insert(ListChain(rows[..|rows| - 1]), rows[|rows| - 1])
  }

  predicate Ascending(rows: seq<Sealed>) {
    forall i, j :: 0 <= i < j < |rows| ==> Before(rows[i].event, rows[j].event)
  }

  lemma {:induction false} InsertAscends(sorted: seq<Sealed>, row: Sealed)
    requires Ascending(sorted)
    requires forall i :: 0 <= i < |sorted| ==> sorted[i].event.id != row.event.id
    ensures Ascending(Insert(sorted, row))
    decreases |sorted|
  {
    if |sorted| > 0 {
      var n := |sorted| - 1;
      if Before(row.event, sorted[n].event) {
        InsertAscends(sorted[..n], row);
        var r := Insert(sorted[..n], row);
        forall i | 0 <= i < |r| ensures Before(r[i].event, sorted[n].event) {
          assert r[i] in multiset(sorted[..n]) + multiset{row};
        }
      }
    }
  }

  lemma {:induction false} ListChainAscends(rows: seq<Sealed>)
    requires DistinctIds(rows)
    ensures Ascending(ListChain(rows))
    ensures var r := ListChain(rows);
      && multiset(r) == multiset(rows)
      && forall i, j :: 0 <= i < j < |r| ==>
        (r[i].event.recordedAt < r[j].event.recordedAt
         || (r[i].event.recordedAt == r[j].event.recordedAt && r[i].event.id < r[j].event.id))
  {
    if |rows| > 0 {
      var front := rows[..|rows| - 1];
      ListChainAscends(front);
      var sorted := ListChain(front);
      forall i | 0 <= i < |sorted| ensures sorted[i].event.id != rows[|rows| - 1].event.id {
        assert sorted[i] in multiset(front);
      }
      InsertAscends(sorted, rows[|rows| - 1]);
    }
  }

  lemma {:induction false} AscendingListsAsIs(rows: seq<Sealed>)
    requires Ascending(rows)
    ensures ListChain(rows) == rows
  {
    hide Insert, Before;
    if |rows| > 0 {
      var n := |rows| - 1;
      AscendingListsAsIs(rows[..n]);
      if n > 0 {
        assert Before(rows[n - 1].event, rows[n].event);
      }
      InsertLast(rows[..n], rows[n]);
    }
  }

  lemma InsertLast(sorted: seq<Sealed>, row: Sealed)
    requires |sorted| > 0 ==> Before(sorted[|sorted| - 1].event, row.event)
    ensures Insert(sorted, row) == sorted + [row]
  {
  }

  predicate DistinctIds(rows: seq<Sealed>) {
    forall i, j :: 0 <= i < j < |rows| ==> rows[i].event.id != rows[j].event.id
  }

  // ---- transactions --------------------------------------------------------

  function Staged(log: Log, txn: TxnId): seq<Sealed> {
    if txn in log.open then log.open[txn] else []
  }

  /** `record`: seal against the newest row the transaction sees. */
  function Link(h: Digest, visible: seq<Sealed>, e: Event): Sealed {
    var head := Latest(visible);
    Seal(h, e, if head.None? then None else Some(head.value.hash))
  }

  /** One row against the rows before it: primary key, unique digest, unique
      predecessor (absent counts as a value), and no row after itself. */
  predicate Admissible(rows: seq<Sealed>, row: Sealed) {
    row.previous != Some(row.hash) &&
    forall i :: 0 <= i < |rows| ==>
      rows[i].event.id != row.event.id && rows[i].hash != row.hash && rows[i].previous != row.previous
  }

  predicate AllAdmissible(rows: seq<Sealed>, more: seq<Sealed>)
    decreases |more|
  {
    |more| == 0 || (Admissible(rows, more[0]) && AllAdmissible(rows + [more[0]], more[1..]))
  }

  function Close(log: Log, txn: TxnId): map<TxnId, seq<Sealed>> {
    map t | t in log.open && t != txn :: log.open[t]
  }

  function Next(h: Digest, log: Log, step: Step): Log {
    match step
    case Record(txn, e) =>
      var staged := Staged(log, txn);
      log.(open := log.open[txn := staged + [Link(h, log.committed + staged, e)]])
    case Commit(txn) =>
      if AllAdmissible(log.committed, Staged(log, txn))
      then Log(log.committed + Staged(log, txn), Close(log, txn))
      else log.(open := Close(log, txn))
    case Abort(txn) => log.(open := Close(log, txn))
  }

  function Run(h: Digest, log: Log, steps: seq<Step>): Log
    decreases |steps|
  {
    if |steps| == 0 then log else Run(h, Next(h, log, steps[0]), steps[1..])
  }

  // ---- one line ------------------------------------------------------------

  predicate DistinctHashes(rows: seq<Sealed>) {
    forall i, j :: 0 <= i < j < |rows| ==> rows[i].hash != rows[j].hash
  }

  /** The committed rows in commit order: one hash-linked path from one genesis,
      with every row but the last newer than all before it. */
  predicate LineOk(h: Digest, rows: seq<Sealed>) {
    && Intact(h, rows) && DistinctIds(rows) && DistinctHashes(rows)
    && (|rows| > 0 ==> Ascending(rows[..|rows| - 1]))
  }

  function HeadHash(rows: seq<Sealed>): Option<int> {
    var head := Latest(rows);
    if head.None? then None else Some(head.value.hash)
  }

  predicate Newest(rows: seq<Sealed>) {
    |rows| == 0 || Latest(rows) == Some(rows[|rows| - 1])
  }

  predicate Claimed(rows: seq<Sealed>, previous: Option<int>) {
    exists i :: 0 <= i < |rows| && rows[i].previous == previous
  }

  /** Staged rows that link to the newest row still, one after another. */
  predicate Fresh(h: Digest, committed: seq<Sealed>, staged: seq<Sealed>) {
    forall k :: 0 <= k < |staged| ==>
      (staged[k].previous == HeadHash(committed + staged[..k])
       && staged[k].hash == Fingerprint(h, staged[k].event, staged[k].previous))
  }

  predicate StagedOk(h: Digest, committed: seq<Sealed>, staged: seq<Sealed>) {
    Fresh(h, committed, staged) || (|staged| > 0 && Claimed(committed, staged[0].previous))
  }

  predicate Inv(h: Digest, log: Log) {
    LineOk(h, log.committed) && forall t :: t in log.open ==> StagedOk(h, log.committed, log.open[t])
  }

  lemma NewestIffAscending(h: Digest, rows: seq<Sealed>)
    requires LineOk(h, rows)
    ensures Newest(rows) <==> Ascending(rows)
  {
    if |rows| > 0 {
      var n := |rows| - 1;
      if Newest(rows) {
        forall i, j | 0 <= i < j < |rows| ensures Before(rows[i].event, rows[j].event) {
          if j == n {
            assert !Before(rows[n].event, rows[i].event);
          } else {
            assert rows[..n][i] == rows[i] && rows[..n][j] == rows[j];
          }
        }
      }
      if Ascending(rows) {
        assert forall row :: row in rows[..n] ==> Before(row.event, rows[n].event);
      }
    }
  }

  /** A row linked to the newest row is admitted only when the newest row is the
      tail, and then it extends the line. */
  lemma Extend(h: Digest, rows: seq<Sealed>, row: Sealed)
    requires LineOk(h, rows) && Admissible(rows, row)
    requires row.previous == HeadHash(rows) && row.hash == Fingerprint(h, row.event, row.previous)
    ensures Newest(rows) && LineOk(h, rows + [row])
  {
    var longer := rows + [row];
    var n := |rows|;
    if n > 0 {
      var i :| 0 <= i < n && rows[i] == Latest(rows).value;
      forall k | 0 <= k < n - 1 ensures Some(rows[k].hash) != row.previous {
        assert SoundAt(h, rows, k + 1);
      }
      assert i == n - 1;
    }
    NewestIffAscending(h, rows);
    assert longer[..n] == rows;
    forall k | 0 <= k < |longer| ensures SoundAt(h, longer, k) {
      if k < n {
        assert SoundAt(h, rows, k);
      }
    }
  }

  lemma {:induction false} ExtendAll(h: Digest, rows: seq<Sealed>, staged: seq<Sealed>)
    requires LineOk(h, rows) && Fresh(h, rows, staged) && AllAdmissible(rows, staged)
    ensures LineOk(h, rows + staged)
    ensures |staged| > 0 ==> Newest(rows)
    decreases |staged|
  {
    hide LineOk, HeadHash, Newest;
    if |staged| == 0 {
      assert rows + staged == rows;
    } else {
      assert staged[..0] == [] && rows + [] == rows;
      Extend(h, rows, staged[0]);
      var longer, rest := rows + [staged[0]], staged[1..];
      forall k | 0 <= k < |rest|
        ensures rest[k].previous == HeadHash(longer + rest[..k])
        ensures rest[k].hash == Fingerprint(h, rest[k].event, rest[k].previous)
      {
        assert rest[k] == staged[k + 1];
        assert longer + rest[..k] == rows + staged[..k + 1];
      }
      ExtendAll(h, longer, rest);
      assert longer + rest == rows + staged;
    }
  }

  lemma ClaimedIsRefused(rows: seq<Sealed>, staged: seq<Sealed>)
    requires |staged| > 0 && Claimed(rows, staged[0].previous)
    ensures !AllAdmissible(rows, staged)
  {
  }

  lemma OthersAreClaimed(h: Digest, rows: seq<Sealed>, more: seq<Sealed>, staged: seq<Sealed>)
    requires StagedOk(h, rows, staged) && Intact(h, rows + more) && |more| > 0 && |staged| > 0
    ensures Claimed(rows + more, staged[0].previous)
  {
    var longer := rows + more;
    if Claimed(rows, staged[0].previous) {
      var i :| 0 <= i < |rows| && rows[i].previous == staged[0].previous;
      assert longer[i].previous == staged[0].previous;
    } else {
      assert staged[..0] == [] && rows + [] == rows;
      if |rows| == 0 {
        assert SoundAt(h, longer, 0);
      } else {
        var i :| 0 <= i < |rows| && rows[i] == Latest(rows).value;
        assert longer[i] == rows[i];
        assert SoundAt(h, longer, i + 1);
      }
    }
  }

  /** Once others have committed, what a transaction staged before is claimed. */
  lemma OthersClaim(h: Digest, rows: seq<Sealed>, more: seq<Sealed>, staged: seq<Sealed>)
    requires StagedOk(h, rows, staged) && Intact(h, rows + more) && |more| > 0
    ensures StagedOk(h, rows + more, staged)
  {
    if |staged| > 0 {
      OthersAreClaimed(h, rows, more, staged);
    }
  }

  lemma RecordKeeps(h: Digest, committed: seq<Sealed>, staged: seq<Sealed>, e: Event)
    requires StagedOk(h, committed, staged)
    ensures StagedOk(h, committed, staged + [Link(h, committed + staged, e)])
  {
    var longer := staged + [Link(h, committed + staged, e)];
    if Fresh(h, committed, staged) {
      forall k | 0 <= k < |longer|
        ensures longer[k].previous == HeadHash(committed + longer[..k])
        ensures longer[k].hash == Fingerprint(h, longer[k].event, longer[k].previous)
      {
        if k < |staged| {
          assert longer[k] == staged[k] && longer[..k] == staged[..k];
        } else {
          assert longer[..k] == staged;
        }
      }
    }
  }

  lemma NextKeeps(h: Digest, log: Log, step: Step)
    requires Inv(h, log)
    ensures Inv(h, Next(h, log, step))
    ensures !Newest(log.committed) ==> Next(h, log, step).committed == log.committed
    ensures exists more :: Next(h, log, step).committed == log.committed + more
  {
    hide LineOk, StagedOk, Link, AllAdmissible;
    var next := Next(h, log, step);
    assert log.committed + [] == log.committed;
    match step {
      case Record(txn, e) =>
        assert StagedOk(h, log.committed, Staged(log, txn)) by { StagedNothing(h, log.committed); }
        RecordKeeps(h, log.committed, Staged(log, txn), e);
      case Commit(txn) =>
        var staged := Staged(log, txn);
        if AllAdmissible(log.committed, staged) {
          assert StagedOk(h, log.committed, staged) by { StagedNothing(h, log.committed); }
          CommitKeeps(h, log.committed, staged);
          if |staged| > 0 {
            forall t | t in next.open ensures StagedOk(h, next.committed, next.open[t]) {
              LineIsIntact(h, next.committed);
              OthersClaim(h, log.committed, staged, log.open[t]);
            }
          } else {
            assert log.committed + staged == log.committed;
          }
        }
      case Abort(_) =>
    }
  }

  lemma StagedNothing(h: Digest, committed: seq<Sealed>)
    ensures StagedOk(h, committed, [])
  {
  }

  lemma LineIsIntact(h: Digest, rows: seq<Sealed>)
    requires LineOk(h, rows)
    ensures Intact(h, rows)
  {
  }

  lemma CommitKeeps(h: Digest, committed: seq<Sealed>, staged: seq<Sealed>)
    requires LineOk(h, committed) && StagedOk(h, committed, staged) && AllAdmissible(committed, staged)
    ensures LineOk(h, committed + staged)
    ensures |staged| > 0 ==> Newest(committed)
  {
    hide LineOk;
    if |staged| > 0 && Claimed(committed, staged[0].previous) {
      ClaimedIsRefused(committed, staged);
    } else {
      ExtendAll(h, committed, staged);
    }
  }

  const EMPTY: Log := Log([], map[])

  lemma {:induction false} RunKeeps(h: Digest, log: Log, steps: seq<Step>)
    requires Inv(h, log)
    ensures Inv(h, Run(h, log, steps))
    ensures |log.committed| <= |Run(h, log, steps).committed|
      && Run(h, log, steps).committed[..|log.committed|] == log.committed
    decreases |steps|
  {
    hide Inv;
    if |steps| > 0 {
      NextKeeps(h, log, steps[0]);
      RunKeeps(h, Next(h, log, steps[0]), steps[1..]);
    }
  }

  /** Whatever the interleaving and the timestamps, the committed rows are one
      hash-linked line from a single genesis, in commit order, and never a fork. */
  lemma OneLineNeverAFork(h: Digest, steps: seq<Step>)
    ensures var rows := Run(h, EMPTY, steps).committed;
      && Intact(h, rows) && DistinctIds(rows)
      && (forall i, j :: 0 <= i < j < |rows| ==> rows[i].hash != rows[j].hash && rows[i].previous != rows[j].previous)
  {
    RunKeeps(h, EMPTY, steps);
    var rows := Run(h, EMPTY, steps).committed;
    forall i, j | 0 <= i < j < |rows| ensures rows[i].previous != rows[j].previous {
      assert SoundAt(h, rows, i) && SoundAt(h, rows, j);
      assert i > 0 ==> rows[i - 1].hash != rows[j - 1].hash;
    }
  }

  /** When the tail is not the newest row no run ever adds another row. */
  lemma {:induction false} WedgedForever(h: Digest, log: Log, steps: seq<Step>)
    requires Inv(h, log) && !Newest(log.committed)
    ensures Run(h, log, steps).committed == log.committed
    decreases |steps|
  {
    hide Inv, Newest;
    if |steps| > 0 {
      NextKeeps(h, log, steps[0]);
      WedgedForever(h, Next(h, log, steps[0]), steps[1..]);
    }
  }

  /** An event with a new id, recorded and committed at once, enters the log
      exactly when the tail is the newest row. */
  lemma AppendsIff(h: Digest, log: Log, txn: TxnId, e: Event)
    requires Injective(h) && Inv(h, log) && txn !in log.open
    requires forall i :: 0 <= i < |log.committed| ==> log.committed[i].event.id != e.id
    ensures var after := Next(h, Next(h, log, Record(txn, e)), Commit(txn));
      after.committed == if Newest(log.committed) then log.committed + [Link(h, log.committed, e)] else log.committed
  {
    var rows, row := log.committed, Link(h, log.committed, e);
    assert rows + [] == rows && [] + [row] == [row];
    var recorded := Next(h, log, Record(txn, e));
    assert recorded.open[txn] == [row];
    NextKeeps(h, log, Record(txn, e));
    NextKeeps(h, recorded, Commit(txn));
    if Newest(rows) {
      NewRowAdmissible(h, rows, e);
      assert AllAdmissible(rows + [row], []);
      assert [row][1..] == [];
      assert AllAdmissible(rows, [row]);
    }
  }

  lemma NewRowAdmissible(h: Digest, rows: seq<Sealed>, e: Event)
    requires Injective(h) && LineOk(h, rows) && Newest(rows)
    requires forall i :: 0 <= i < |rows| ==> rows[i].event.id != e.id
    ensures Admissible(rows, Link(h, rows, e))
  {
    var row := Link(h, rows, e);
    forall i | 0 <= i < |rows|
      ensures rows[i].event.id != row.event.id && rows[i].hash != row.hash && rows[i].previous != row.previous
    {
      assert SoundAt(h, rows, i);
    }
  }

  /** `verify` reads the rows sorted by `(recorded_at, id)`. In every reachable
      log it passes exactly when the log can still grow. */
  lemma VerifyPassesIff(h: Digest, log: Log)
    requires Injective(h) && Inv(h, log)
    ensures Intact(h, ListChain(log.committed)) <==> Newest(log.committed)
  {
    var rows := log.committed;
    var sorted := ListChain(rows);
    NewestIffAscending(h, rows);
    if Ascending(rows) {
      AscendingListsAsIs(rows);
    } else {
      ListChainAscends(rows);
      assert |sorted| == |multiset(sorted)| == |multiset(rows)| == |rows|;
      forall row | row in sorted ensures row in rows {
        assert row in multiset(sorted);
      }
      OnlyPrefixesVerify(h, rows, sorted);
      assert rows[..|rows|] == rows;
    }
  }

  /** One event older than the tail is accepted, and it is the last: verification
      fails from then on and no later run adds a row. */
  lemma LateEventWedges(h: Digest, log: Log, txn: TxnId, e: Event, steps: seq<Step>)
    requires Injective(h) && Inv(h, log) && txn !in log.open && |log.committed| > 0 && Newest(log.committed)
    requires forall i :: 0 <= i < |log.committed| ==> log.committed[i].event.id != e.id
    requires Before(e, log.committed[|log.committed| - 1].event)
    ensures var after := Next(h, Next(h, log, Record(txn, e)), Commit(txn));
      && |after.committed| == |log.committed| + 1
      && !Intact(h, ListChain(after.committed))
      && Run(h, after, steps).committed == after.committed
  {
    hide Link, Inv, LineOk;
    AppendsIff(h, log, txn, e);
    var recorded := Next(h, log, Record(txn, e));
    var after := Next(h, recorded, Commit(txn));
    NextKeeps(h, log, Record(txn, e));
    NextKeeps(h, recorded, Commit(txn));
    LinkKeepsTime(h, log.committed, e);
    assert after.committed[|log.committed| - 1] == log.committed[|log.committed| - 1];
    assert !Newest(after.committed);
    VerifyPassesIff(h, after);
    WedgedForever(h, after, steps);
  }

  // ---- clocks that agree ---------------------------------------------------

  /** The event is newer than everything its transaction can see. */
  predicate OnTime(log: Log, step: Step) {
    step.Record? ==>
      forall row :: row in log.committed + Staged(log, step.txn) ==> Before(row.event, step.event)
  }

  predicate AllOnTime(h: Digest, log: Log, steps: seq<Step>)
    decreases |steps|
  {
    |steps| == 0 || (OnTime(log, steps[0]) && AllOnTime(h, Next(h, log, steps[0]), steps[1..]))
  }

  predicate InOrder(log: Log) {
    && Ascending(log.committed)
    && forall t :: t in log.open ==>
      Ascending(log.committed + log.open[t]) || (|log.open[t]| > 0 && Claimed(log.committed, log.open[t][0].previous))
  }

  lemma OnTimeKeeps(h: Digest, log: Log, step: Step)
    requires Inv(h, log) && InOrder(log) && OnTime(log, step)
    ensures InOrder(Next(h, log, step))
  {
    hide LineOk, Fresh, Link, AllAdmissible;
    var rows := log.committed;
    assert rows + [] == rows;
    match step {
      case Record(txn, e) =>
        var staged := Staged(log, txn);
        var row := Link(h, rows + staged, e);
        assert row.event.id == e.id && row.event.recordedAt == e.recordedAt by { LinkKeepsTime(h, rows + staged, e); }
        if Ascending(rows + staged) {
          assert rows + (staged + [row]) == (rows + staged) + [row];
          assert Ascending((rows + staged) + [row]);
        }
      case Commit(txn) =>
        var staged := Staged(log, txn);
        if AllAdmissible(rows, staged) {
          if |staged| > 0 && Claimed(rows, staged[0].previous) {
            ClaimedIsRefused(rows, staged);
          } else if |staged| > 0 {
            NextKeeps(h, log, step);
            forall t | t in log.open && t != txn
              ensures |log.open[t]| > 0 ==> Claimed(rows + staged, log.open[t][0].previous)
            {
              LineIsIntact(h, rows + staged);
              if |log.open[t]| > 0 {
                OthersAreClaimed(h, rows, staged, log.open[t]);
              }
            }
            forall t | t in log.open && t != txn && |log.open[t]| == 0 ensures Ascending(rows + staged + log.open[t]) {
              assert rows + staged + log.open[t] == rows + staged;
            }
          }
        }
      case Abort(_) =>
    }
  }

  lemma LinkKeepsTime(h: Digest, visible: seq<Sealed>, e: Event)
    ensures Link(h, visible, e).event.id == e.id && Link(h, visible, e).event.recordedAt == e.recordedAt
  {
  }

  lemma {:induction false} OnTimeRun(h: Digest, log: Log, steps: seq<Step>)
    requires Inv(h, log) && InOrder(log) && AllOnTime(h, log, steps)
    ensures Inv(h, Run(h, log, steps)) && InOrder(Run(h, log, steps))
    decreases |steps|
  {
    hide Inv, InOrder, OnTime;
    if |steps| > 0 {
      OnTimeKeeps(h, log, steps[0]);
      NextKeeps(h, log, steps[0]);
      OnTimeRun(h, Next(h, log, steps[0]), steps[1..]);
    }
  }

  /** While every event is newer than what its transaction sees, `latest` is the
      tail, `list_chain` is commit order, and verification passes on the chain
      and on every prefix of it. */
  lemma OnTimeChainsVerify(h: Digest, steps: seq<Step>, limit: nat)
    requires AllOnTime(h, EMPTY, steps)
    ensures var rows := Run(h, EMPTY, steps).committed;
      && Newest(rows) && ListChain(rows) == rows
      && (limit <= |rows| ==> Intact(h, ListChain(rows)[..limit]))
  {
    OnTimeRun(h, EMPTY, steps);
    var rows := Run(h, EMPTY, steps).committed;
    NewestIffAscending(h, rows);
    AscendingListsAsIs(rows);
    if limit <= |rows| {
      PrefixSound(h, rows, limit);
    }
  }

  /** The predecessor is absent in an empty log, and otherwise the hash of a row
      that none was recorded after, by moment and then by id. */
  predicate Behind(rows: seq<Sealed>, previous: Option<int>) {
    if rows == [] then previous == None
    else exists i :: 0 <= i < |rows| && previous == Some(rows[i].hash) && Newer(rows, i)
  }

  predicate Newer(rows: seq<Sealed>, i: nat)
    requires i < |rows|
  {
    forall j :: 0 <= j < |rows| ==>
      (rows[j].event.recordedAt < rows[i].event.recordedAt
       || (rows[j].event.recordedAt == rows[i].event.recordedAt && rows[j].event.id <= rows[i].event.id))
  }

  /** What a transaction stages: the event as given, hashed as stored, behind the
      newest row it sees. */
  lemma LinkExact(h: Digest, visible: seq<Sealed>, e: Event)
    ensures var row := Link(h, visible, e);
      Keeps(row.event, e) && row.hash == h(row.event, row.previous) && Behind(visible, row.previous)
  {
    var row := Link(h, visible, e);
    SealKeeps(h, e, row.previous);
    if visible != [] {
      var head := Latest(visible).value;
      var i :| 0 <= i < |visible| && visible[i] == head;
      assert forall j :: 0 <= j < |visible| ==> !Before(head.event, visible[j].event);
      assert Newer(visible, i);
    }
  }

  // ---- the table, updated in place -----------------------------------------

  class AuditTable {
    var rows: seq<Row>

    constructor ()
      ensures rows == []
    {
      rows := [];
    }

    /** `record`, committed at once; a refused insert leaves the table alone. */
    method Record(h: Digest, e: Event) returns (ok: bool)
      modifies this
      ensures ok <==> Admissible(Rehydrate(old(rows)), Link(h, Rehydrate(old(rows)), e))
      ensures rows == if ok then old(rows) + [Row(Link(h, Rehydrate(old(rows)), e), None)] else old(rows)
      ensures ok ==> (
        var row := rows[|old(rows)|].sealed;
        Keeps(row.event, e) && row.hash == h(row.event, row.previous) && Behind(Rehydrate(old(rows)), row.previous))
    {
      LinkExact(h, Rehydrate(rows), e);
      var head := Latest(Rehydrate(rows));
      var sealed := Seal(h, e, if head.Some? then Some(head.value.hash) else None);
      ok := Admissible(Rehydrate(rows), sealed);
      if ok {
        rows := rows + [Row(sealed, None)];
      }
    }

    /** `anchor_event`: the one column an existing row may gain. */
    method AnchorEvent(id: int, reference: Option<int>) returns (error: Option<AuditError>)
      modifies this
      ensures error.None? ==> Anchor(old(rows), id, reference) == Ok(rows)
      ensures error.Some? ==> Anchor(old(rows), id, reference) == Err(error.value) && rows == old(rows)
      ensures error.None? ==> reference.Some? && exists i ::
        (0 <= i < |old(rows)| && old(rows)[i].sealed.event.id == id && old(rows)[i].anchor == None
         && rows == old(rows)[i := Row(old(rows)[i].sealed, reference)])
    {
      var i := 0;
      while i < |rows| && rows[i].sealed.event.id != id
        invariant 0 <= i <= |rows|
        invariant Find(rows, id) == i + Find(rows[i..], id)
      {
        assert rows[i..][1..] == rows[i + 1..];
        i := i + 1;
      }
      assert i == |rows| ==> rows[i..] == [];
      assert Find(rows, id) == i;
      if i == |rows| {
        return Some(NotFound);
      }
      if rows[i].anchor.Some? {
        return Some(AlreadyAnchored);
      }
      if reference.None? {
        return Some(Unpublished);
      }
      rows := rows[i := rows[i].(anchor := reference)];
      error := None;
    }

    /** `verify`: sort, cut to the limit, walk. */
    method Verify(h: Digest, limit: Option<nat>) returns (r: Report)
      ensures var listed := ListChain(Rehydrate(rows));
        var walked := if limit.Some? && limit.value < |listed| then listed[..limit.value] else listed;
        r.intact <==> Intact(h, walked)
    {
      var listed := ListChain(Rehydrate(rows));
      if limit.Some? && limit.value < |listed| {
        listed := listed[..limit.value];
      }
      r := VerifyChain(h, listed);
    }
  }
}
