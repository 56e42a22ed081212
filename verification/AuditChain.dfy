/** The hash-linked audit log: sealing, verification, and what an intact chain
    rules out. The digest is an arbitrary function of an event and its
    predecessor; where it must not collide, that is a hypothesis. */
module AuditChain {
  import opened Base

  /** A JSON object, reduced to identifiers of keys and canonical values. */
  type Payload = map<int, int>

  const VERSION_KEY: int := 0
  const VERSION: int := 100

  datatype Event = Event(
    id: int, kind: int, entityType: int, entity: int,
    eventTime: int, recordedAt: int, actor: Option<int>, payload: Payload)

  datatype Sealed = Sealed(event: Event, previous: Option<int>, hash: int)

  type Digest = (Event, Option<int>) -> int

  ghost predicate Injective(h: Digest) {
    forall e, p, e2, p2 :: h(e, p) == h(e2, p2) ==> e == e2 && p == p2
  }

  /** The payload with its contract version, unless it already names one. */
  function Versioned(e: Event): Event {
    if VERSION_KEY in e.payload then e else e.(payload := e.payload[VERSION_KEY := VERSION])
  }

  function Fingerprint(h: Digest, e: Event, previous: Option<int>): int {
    h(Versioned(e), previous)
  }

  /** Seal an event behind a predecessor; what is stored carries the version. */
  function Seal(h: Digest, e: Event, previous: Option<int>): (s: Sealed)
    ensures s.hash == Fingerprint(h, s.event, previous)
  {
    Sealed(Versioned(e), previous, Fingerprint(h, e, previous))
  }

  function Follows(rows: seq<Sealed>, i: nat): Option<int>
    requires i <= |rows|
  {
    if i == 0 then None else Some(rows[i - 1].hash)
  }

  predicate SoundAt(h: Digest, rows: seq<Sealed>, i: nat)
    requires i < |rows|
  {
    rows[i].hash == Fingerprint(h, rows[i].event, rows[i].previous) && rows[i].previous == Follows(rows, i)
  }

  predicate Intact(h: Digest, rows: seq<Sealed>) {
    forall i :: 0 <= i < |rows| ==> SoundAt(h, rows, i)
  }

  // ---- verification --------------------------------------------------------

  datatype Problem = Altered | Unlinked(claims: Option<int>, follows: Option<int>) | NotGenesis

  datatype Report = Report(intact: bool, checked: nat, brokenAt: Option<int>, problems: seq<Problem>)

  /** What is wrong with one row, given the row before it. */
  function Problems(h: Digest, rows: seq<Sealed>, i: nat): (ps: seq<Problem>)
    requires i < |rows|
    ensures ps == [] <==> SoundAt(h, rows, i)
    ensures Altered in ps <==> rows[i].hash != Fingerprint(h, rows[i].event, rows[i].previous)
    ensures forall claims, follows :: Unlinked(claims, follows) in ps <==>
      (claims == rows[i].previous && follows == Follows(rows, i) && claims != follows)
    ensures NotGenesis in ps <==> i == 0 && rows[0].previous.Some?
  {
    var row := rows[i];
    (if row.hash != Fingerprint(h, row.event, row.previous) then [Altered] else [])
    + (if row.previous != Follows(rows, i) then [Unlinked(row.previous, Follows(rows, i))] else [])
    + (if i == 0 && row.previous.Some? then [NotGenesis] else [])
  }

  /** `verify_chain`: walk the rows and stop at the first break. */
  method VerifyChain(h: Digest, rows: seq<Sealed>) returns (r: Report)
    ensures r.intact <==> Intact(h, rows)
    ensures r.intact ==> r.checked == |rows| && r.brokenAt.None? && r.problems == []
    ensures !r.intact ==>
      (r.checked < |rows| && Intact(h, rows[..r.checked]) && !SoundAt(h, rows, r.checked)
       && r.brokenAt == Some(rows[r.checked].event.id) && r.problems == Problems(h, rows, r.checked))
  {
    var expected: Option<int> := None;
    var index := 0;
    while index < |rows|
      invariant 0 <= index <= |rows|
      invariant expected == Follows(rows, index)
      invariant forall i :: 0 <= i < index ==> SoundAt(h, rows, i)
    {
      var row := rows[index];
      var problems: seq<Problem> := [];
      if row.hash != Fingerprint(h, row.event, row.previous) {
        problems := problems + [Altered];
      }
      if row.previous != expected {
        problems := problems + [Unlinked(row.previous, expected)];
      }
      if index == 0 && row.previous.Some? {
        problems := problems + [NotGenesis];
      }
      assert problems == Problems(h, rows, index);
      if problems != [] {
        PrefixSound(h, rows, index);
        return Report(false, index, Some(row.event.id), problems);
      }
      expected := Some(row.hash);
      index := index + 1;
    }
    r := Report(true, index, None, []);
  }

  lemma PrefixSound(h: Digest, rows: seq<Sealed>, n: nat)
    requires n <= |rows| && forall i :: 0 <= i < n ==> SoundAt(h, rows, i)
    ensures Intact(h, rows[..n])
  {
    forall i | 0 <= i < n ensures SoundAt(h, rows[..n], i) {
      assert SoundAt(h, rows, i);
    }
  }

  // ---- tamper evidence -----------------------------------------------------

  /** Every field outside the payload. */
  predicate SameFields(a: Event, b: Event) {
    && a.id == b.id && a.kind == b.kind && a.entityType == b.entityType && a.entity == b.entity
    && a.eventTime == b.eventTime && a.recordedAt == b.recordedAt && a.actor == b.actor
  }

  /** Entry for entry the same, but that the default version may be left out. */
  ghost predicate SameEntries(p: Payload, q: Payload) {
    && (forall k :: k != VERSION_KEY ==> (k in p <==> k in q))
    && (forall k :: k in p && k in q ==> p[k] == q[k])
    && (VERSION_KEY in p && VERSION_KEY !in q ==> p[VERSION_KEY] == VERSION)
    && (VERSION_KEY in q && VERSION_KEY !in p ==> q[VERSION_KEY] == VERSION)
  }

  lemma VersionedSameIff(a: Event, b: Event)
    ensures Versioned(a) == Versioned(b) <==> SameFields(a, b) && SameEntries(a.payload, b.payload)
  {
    var p, q := Versioned(a).payload, Versioned(b).payload;
    assert forall k :: k in p <==> k in a.payload || k == VERSION_KEY;
    assert forall k :: k in q <==> k in b.payload || k == VERSION_KEY;
    if SameFields(a, b) && SameEntries(a.payload, b.payload) {
      assert forall k :: k in p <==> k in q;
      forall k | k in p ensures p[k] == q[k] {
        assert k in a.payload ==> p[k] == a.payload[k];
        assert k in b.payload ==> q[k] == b.payload[k];
      }
      assert p == q;
    } else if p == q {
      assert forall k :: k in a.payload ==> p[k] == a.payload[k];
      assert forall k :: k in b.payload ==> q[k] == b.payload[k];
    }
  }

  /** The same row up to an explicit payload version. */
  ghost predicate Same(a: Sealed, b: Sealed) {
    && a.hash == b.hash && a.previous == b.previous
    && SameFields(a.event, b.event) && SameEntries(a.event.payload, b.event.payload)
  }

  /** Two intact chains that agree on one hash agree on everything before it. */
  lemma {:induction false} SameHashSamePast(h: Digest, a: seq<Sealed>, b: seq<Sealed>, i: nat, j: nat)
    requires Injective(h) && Intact(h, a) && Intact(h, b)
    requires i < |a| && j < |b| && a[i].hash == b[j].hash
    ensures i == j
    ensures forall k :: 0 <= k <= i ==> Same(a[k], b[k])
  {
    hide SameFields, SameEntries;
    assert SoundAt(h, a, i) && SoundAt(h, b, j);
    VersionedSameIff(a[i].event, b[j].event);
    if i > 0 && j > 0 {
      SameHashSamePast(h, a, b, i - 1, j - 1);
    }
  }

  lemma HashesDiffer(h: Digest, a: seq<Sealed>, i: nat, j: nat)
    requires Injective(h) && Intact(h, a) && i < j < |a|
    ensures a[i].hash != a[j].hash
  {
    if a[i].hash == a[j].hash {
      SameHashSamePast(h, a, a, i, j);
    }
  }

  lemma SelectedInPlace(h: Digest, a: seq<Sealed>, b: seq<Sealed>, k: nat)
    requires Injective(h) && Intact(h, a) && Intact(h, b) && k < |b| && b[k] in a
    ensures k < |a| && b[k] == a[k]
  {
    var i :| 0 <= i < |a| && a[i] == b[k];
    SameHashSamePast(h, a, b, i, k);
  }

  /** Any selection of a chain's rows, in any order and with any repeats,
      verifies exactly when it is a prefix: removal of a row that is not last,
      reordering and duplication are all detected, and truncation is not. */
  lemma OnlyPrefixesVerify(h: Digest, a: seq<Sealed>, b: seq<Sealed>)
    requires Injective(h) && Intact(h, a)
    requires forall row :: row in b ==> row in a
    ensures Intact(h, b) <==> |b| <= |a| && b == a[..|b|]
  {
    if Intact(h, b) && |b| > 0 {
      SelectedInPlace(h, a, b, |b| - 1);
      forall k | 0 <= k < |b| ensures b[k] == a[k] {
        SelectedInPlace(h, a, b, k);
      }
    }
    if |b| <= |a| && b == a[..|b|] {
      PrefixSound(h, a, |b|);
    }
  }

  lemma RemovalDetectedIff(h: Digest, a: seq<Sealed>, i: nat)
    requires Injective(h) && Intact(h, a) && i < |a|
    ensures Intact(h, a[..i] + a[i + 1..]) <==> i == |a| - 1
  {
    var b := a[..i] + a[i + 1..];
    OnlyPrefixesVerify(h, a, b);
    if i < |a| - 1 && b == a[..|b|] {
      assert b[i] == a[i + 1] && a[..|b|][i] == a[i];
      HashesDiffer(h, a, i, i + 1);
    }
  }

  lemma SwapDetected(h: Digest, a: seq<Sealed>, i: nat, j: nat)
    requires Injective(h) && Intact(h, a) && i < j < |a|
    ensures !Intact(h, a[i := a[j]][j := a[i]])
  {
    var b := a[i := a[j]][j := a[i]];
    OnlyPrefixesVerify(h, a, b);
    HashesDiffer(h, a, i, j);
    assert b[i] == a[j] && a[..|b|] == a;
  }

  /** Rewriting one row as a whole passes exactly when, before the end, the row
      stays the same but for an explicit version, and at the end, when the new
      row is sealed behind the same predecessor. */
  lemma RewriteDetectedIff(h: Digest, a: seq<Sealed>, i: nat, row: Sealed)
    requires Injective(h) && Intact(h, a) && i < |a|
    ensures Intact(h, a[i := row]) <==>
      if i < |a| - 1 then Same(a[i], row)
      else row.previous == a[i].previous && row.hash == Fingerprint(h, row.event, row.previous)
  {
    hide SameFields, SameEntries;
    var b := a[i := row];
    VersionedSameIff(a[i].event, row.event);
    assert forall k :: 0 <= k < |a| ==> SoundAt(h, a, k);
    if i < |a| - 1 {
      if Intact(h, b) {
        SameHashSamePast(h, a, b, |a| - 1, |a| - 1);
      } else if Same(a[i], row) {
        forall k | 0 <= k < |b| ensures SoundAt(h, b, k) {
          assert SoundAt(h, a, k);
        }
      }
    } else {
      forall k | 0 <= k < |a| - 1 ensures SoundAt(h, b, k) {
        assert SoundAt(h, a, k);
      }
      assert SoundAt(h, a, i);
      assert b[i] == row && Follows(b, i) == Follows(a, i);
      assert Intact(h, b) <==> SoundAt(h, b, i);
    }
  }

  /** What is stored for an event: every field and every payload entry as given,
      and beyond them at most the default version. */
  ghost predicate Keeps(stored: Event, e: Event) {
    && stored.id == e.id && stored.kind == e.kind && stored.entityType == e.entityType && stored.entity == e.entity
    && stored.eventTime == e.eventTime && stored.recordedAt == e.recordedAt && stored.actor == e.actor
    && (forall k :: k in e.payload ==> k in stored.payload && stored.payload[k] == e.payload[k])
    && (forall k :: k in stored.payload && k !in e.payload ==> k == VERSION_KEY && stored.payload[k] == VERSION)
    && VERSION_KEY in stored.payload
  }

  /** Sealing keeps the event and hashes exactly what is stored. */
  lemma SealKeeps(h: Digest, e: Event, previous: Option<int>)
    ensures var s := Seal(h, e, previous);
      Keeps(s.event, e) && s.previous == previous && s.hash == h(s.event, previous)
  {
  }

  /** An edit of an event under its stored hash is detected exactly when a field
      differs, or the payloads differ in more than the presence of the default
      version. */
  lemma EditDetectedIff(h: Digest, a: seq<Sealed>, i: nat, e: Event)
    requires Injective(h) && Intact(h, a) && i < |a|
    ensures !Intact(h, a[i := a[i].(event := e)]) <==>
      !(SameFields(e, a[i].event) && SameEntries(e.payload, a[i].event.payload))
  {
    assert SoundAt(h, a, i);
    RewriteDetectedIff(h, a, i, a[i].(event := e));
    VersionedSameIff(e, a[i].event);
  }

  /** An intact chain, without the versioning: each row follows the one before it,
      and its hash is that of its event as stored, or of the event with the default
      version put back. */
  lemma IntactRows(h: Digest, a: seq<Sealed>, i: nat)
    requires Intact(h, a) && i < |a|
    ensures a[i].previous == (if i == 0 then None else Some(a[i - 1].hash))
    ensures VERSION_KEY in a[i].event.payload ==> a[i].hash == h(a[i].event, a[i].previous)
    ensures VERSION_KEY !in a[i].event.payload ==>
      a[i].hash == h(a[i].event.(payload := a[i].event.payload[VERSION_KEY := VERSION]), a[i].previous)
  {
    assert SoundAt(h, a, i);
  }

  /** Dropping the version key from a stored payload is such an edit: it changes
      the row and verification still passes. */
  lemma DroppedVersionPasses(h: Digest, e: Event)
    requires VERSION_KEY !in e.payload
    ensures var stored := Seal(h, e, None);
      stored.event != e && Intact(h, [stored]) && Intact(h, [stored.(event := e)])
  {
    assert VERSION_KEY in Seal(h, e, None).event.payload;
  }

  // ---- rows and anchors ----------------------------------------------------

  datatype Row = Row(sealed: Sealed, anchor: Option<int>)

  datatype AuditError = NotFound | AlreadyAnchored | Unpublished

  function Rehydrate(rows: seq<Row>): (r: seq<Sealed>)
    ensures |r| == |rows| && forall i :: 0 <= i < |rows| ==> r[i] == rows[i].sealed
  {
    seq(|rows|, i requires 0 <= i < |rows| => rows[i].sealed)
  }

  function Find(rows: seq<Row>, id: int): (i: nat)
    ensures i <= |rows|
    ensures i < |rows| ==> rows[i].sealed.event.id == id
    ensures forall k :: 0 <= k < i ==> rows[k].sealed.event.id != id
  {
    if |rows| == 0 then 0
    else if rows[0].sealed.event.id == id then 0
    else 1 + Find(rows[1..], id)
  }

  /** `anchor_event`: the publisher answers with a reference, or fails. */
  function Anchor(rows: seq<Row>, id: int, reference: Option<int>): Result<seq<Row>, AuditError> {
    var i := Find(rows, id);
    if i == |rows| then Err(NotFound)
    else if rows[i].anchor.Some? then Err(AlreadyAnchored)
    else if reference.None? then Err(Unpublished)
    else Ok(rows[i := rows[i].(anchor := reference)])
  }

  datatype Request = Request(id: int, reference: Option<int>)

  function AnchorAll(rows: seq<Row>, requests: seq<Request>): seq<Row>
    decreases |requests|
  {
    if |requests| == 0 then rows
    else
      var r := Anchor(rows, requests[0].id, requests[0].reference);
      AnchorAll(if r.Ok? then r.value else rows, requests[1..])
  }

  /** However often events are anchored, the chain reads the same and a
      reference, once set, is never replaced. */
  lemma {:induction false} AnchoringIsHarmless(rows: seq<Row>, requests: seq<Request>)
    ensures var after := AnchorAll(rows, requests);
      && Rehydrate(after) == Rehydrate(rows)
      && (forall i :: 0 <= i < |rows| && rows[i].anchor.Some? ==> after[i] == rows[i])
    decreases |requests|
  {
    if |requests| > 0 {
      var r := Anchor(rows, requests[0].id, requests[0].reference);
      var next := if r.Ok? then r.value else rows;
      AnchoringIsHarmless(next, requests[1..]);
      assert Rehydrate(next) == Rehydrate(rows);
    }
  }
}
