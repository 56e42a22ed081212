/** The merit-order double auction (`BaselineMatchingEngine`).

    `Match` is the plain reading: visit every buyer with every seller, both in
    merit order. `Engine.Run` is the loop with its early exits, proved equal. */
module Matching {
  import opened Base
  import opened Orders

  // ---- merit order ---------------------------------------------------------

  function Rank(e: Entry): int {
    if e.side == Buy then -e.limit else e.limit
  }

  /** Best price first, then the earlier arrival, then the smaller id. */
  predicate Before(a: Entry, b: Entry) {
    || Rank(a) < Rank(b)
    || (Rank(a) == Rank(b) && (a.created < b.created || (a.created == b.created && a.id <= b.id)))
  }

  function Insert(e: Entry, es: seq<Entry>): (r: seq<Entry>)
    ensures multiset(r) == multiset(es) + multiset{e}
  {
    if |es| == 0 then [e]
    else if Before(es[|es| - 1], e) then es + [e]
    else
      assert es == es[..|es| - 1] + [es[|es| - 1]];
      Insert(e, es[..|es| - 1]) + [es[|es| - 1]]
  }

  function Sort(es: seq<Entry>): (r: seq<Entry>)
    ensures multiset(r) == multiset(es)
  {
    if |es| == 0 then []
    else
      assert es == es[..|es| - 1] + [es[|es| - 1]];
      Insert(es[|es| - 1], Sort(es[..|es| - 1]))
  }

  predicate Sorted(es: seq<Entry>) {
    forall i, j :: 0 <= i < j < |es| ==> Before(es[i], es[j])
  }

  lemma {:induction false} InsertSorted(e: Entry, es: seq<Entry>)
    requires Sorted(es)
    ensures Sorted(Insert(e, es))
  {
    if |es| > 0 && !Before(es[|es| - 1], e) {
      var front := es[..|es| - 1];
      InsertSorted(e, front);
      var r := Insert(e, front);
      forall i | 0 <= i < |r| ensures Before(r[i], es[|es| - 1]) {
        assert r[i] in multiset(r);
        assert r[i] in multiset(front) + multiset{e};
        if r[i] != e {
          assert r[i] in front;
        }
      }
    }
  }

  lemma {:induction false} SortSorted(es: seq<Entry>)
    ensures Sorted(Sort(es))
  {
    if |es| > 0 {
      SortSorted(es[..|es| - 1]);
      InsertSorted(es[|es| - 1], Sort(es[..|es| - 1]));
    }
  }

  /** Entries with something left. */
  function Live(es: seq<Entry>): (r: seq<Entry>)
    ensures forall k :: 0 <= k < |r| ==> r[k] in es && r[k].remaining > 0
    ensures forall k :: 0 <= k < |es| && es[k].remaining > 0 ==> es[k] in r
  {
    if |es| == 0 then []
    else
      var front := Live(es[..|es| - 1]);
      if es[|es| - 1].remaining > 0 then front + [es[|es| - 1]] else front
  }

  lemma {:induction false} LiveDistinct(es: seq<Entry>)
    requires Distinct(es)
    ensures Distinct(Live(es))
  {
    if |es| > 0 {
      LiveDistinct(es[..|es| - 1]);
    }
  }

  lemma {:induction false} InsertDistinct(e: Entry, es: seq<Entry>)
    requires Distinct(es)
    requires forall k :: 0 <= k < |es| ==> es[k].id != e.id
    ensures Distinct(Insert(e, es))
  {
    if |es| > 0 && !Before(es[|es| - 1], e) {
      var front := es[..|es| - 1];
      InsertDistinct(e, front);
      var r := Insert(e, front);
      forall k | 0 <= k < |r| ensures r[k].id != es[|es| - 1].id {
        assert r[k] in multiset(r);
        assert r[k] in multiset(front) + multiset{e};
        if r[k] != e { assert r[k] in front; }
      }
    }
  }

  lemma {:induction false} SortDistinct(es: seq<Entry>)
    requires Distinct(es)
    ensures Distinct(Sort(es))
  {
    if |es| > 0 {
      var front := es[..|es| - 1];
      SortDistinct(front);
      var r := Sort(front);
      forall k | 0 <= k < |r| ensures r[k].id != es[|es| - 1].id {
        assert r[k] in multiset(r);
        assert r[k] in front;
      }
      InsertDistinct(es[|es| - 1], r);
    }
  }

  /** Merit order of one side: what the engine actually walks. */
  function Merit(es: seq<Entry>): seq<Entry> {
    Sort(Live(es))
  }

  lemma MeritFacts(es: seq<Entry>)
    requires Distinct(es)
    ensures Distinct(Merit(es)) && Sorted(Merit(es))
    ensures forall e :: e in Merit(es) <==> e in es && e.remaining > 0
  {
    LiveDistinct(es);
    SortDistinct(Live(es));
    SortSorted(Live(es));
    forall e ensures e in Merit(es) <==> e in es && e.remaining > 0 {
      assert e in Merit(es) <==> e in multiset(Merit(es));
      assert e in Live(es) <==> e in multiset(Live(es));
    }
  }

  // ---- the auction ---------------------------------------------------------

  /** Remaining energy on both sides and the trades so far. */
  datatype Auction = Auction(buys: map<OrderId, int>, sells: map<OrderId, int>, trades: seq<Proposal>)

  predicate Compatible(b: Entry, s: Entry) {
    && s.user != b.user
    && s.limit <= b.limit
    && Max(b.start, s.start) < Min(b.end, s.end)
  }

  predicate Holds(a: Auction, b: Entry, s: Entry) {
    b.id in a.buys && s.id in a.sells
  }

  /** One inner iteration. */
  function Visit(a: Auction, b: Entry, s: Entry): Auction
    requires Holds(a, b, s)
  {
    var quantity := Min(a.buys[b.id], a.sells[s.id]);
    if !Compatible(b, s) || quantity <= 0 then a
    else Auction(
           a.buys[b.id := a.buys[b.id] - quantity],
           a.sells[s.id := a.sells[s.id] - quantity],
           a.trades + [Proposal(b.id, s.id, quantity, Midpoint(b.limit, s.limit),
                                Max(b.start, s.start), Min(b.end, s.end))])
  }

  predicate HoldsAll(a: Auction, b: Entry, ss: seq<Entry>) {
    b.id in a.buys && forall k :: 0 <= k < |ss| ==> ss[k].id in a.sells
  }

  function VisitSells(a: Auction, b: Entry, ss: seq<Entry>): (r: Auction)
    requires HoldsAll(a, b, ss)
    ensures r.buys.Keys == a.buys.Keys && r.sells.Keys == a.sells.Keys
  {
    if |ss| == 0 then a
    else Visit(VisitSells(a, b, ss[..|ss| - 1]), b, ss[|ss| - 1])
  }

  predicate HoldsBoth(a: Auction, bs: seq<Entry>, ss: seq<Entry>) {
    && (forall k :: 0 <= k < |bs| ==> bs[k].id in a.buys)
    && (forall k :: 0 <= k < |ss| ==> ss[k].id in a.sells)
  }

  function VisitBuys(a: Auction, bs: seq<Entry>, ss: seq<Entry>): (r: Auction)
    requires HoldsBoth(a, bs, ss)
    ensures r.buys.Keys == a.buys.Keys && r.sells.Keys == a.sells.Keys
  {
    if |bs| == 0 then a
    else VisitSells(VisitBuys(a, bs[..|bs| - 1], ss), bs[|bs| - 1], ss)
  }

  function Remainders(es: seq<Entry>): (m: map<OrderId, int>)
    ensures forall k :: 0 <= k < |es| ==> es[k].id in m
    ensures forall id :: id in m ==> exists k :: 0 <= k < |es| && es[k].id == id && m[id] == es[k].remaining
  {
    if |es| == 0 then map[]
    else
      var m := Remainders(es[..|es| - 1]);
      m[es[|es| - 1].id := es[|es| - 1].remaining]
  }

  function Opening(book: Book): Auction {
    Auction(Remainders(Merit(book.buys)), Remainders(Merit(book.sells)), [])
  }

  function Match(book: Book): seq<Proposal> {
    VisitBuys(Opening(book), Merit(book.buys), Merit(book.sells)).trades
  }

  // ---- what holds throughout the auction -----------------------------------

  /** A trade both of whose orders stand in the lists and agree to it. */
  predicate Sound(t: Proposal, bs: seq<Entry>, ss: seq<Entry>) {
    exists i, j :: 0 <= i < |bs| && 0 <= j < |ss| && Agreed(t, bs[i], ss[j])
  }

  predicate Agreed(t: Proposal, b: Entry, s: Entry) {
    && t.buy == b.id && t.sell == s.id && b.user != s.user
    && t.quantity > 0 && t.price == Midpoint(b.limit, s.limit) && s.limit <= t.price <= b.limit
    && t.start == Max(b.start, s.start) && t.end == Min(b.end, s.end) && t.start < t.end
  }

  /** Books balance: what an entry has lost is what its trades took. */
  predicate Balanced(a: Auction, bs: seq<Entry>, ss: seq<Entry>) {
    && HoldsBoth(a, bs, ss)
    && (forall k :: 0 <= k < |bs| ==>
          a.buys[bs[k].id] == bs[k].remaining - Touched(a.trades, bs[k].id) && a.buys[bs[k].id] >= 0)
    && (forall k :: 0 <= k < |ss| ==>
          a.sells[ss[k].id] == ss[k].remaining - Touched(a.trades, ss[k].id) && a.sells[ss[k].id] >= 0)
    && (forall k :: 0 <= k < |a.trades| ==> Sound(a.trades[k], bs, ss))
  }

  predicate Apart(bs: seq<Entry>, ss: seq<Entry>) {
    && Distinct(bs) && Distinct(ss)
    && forall i, j :: 0 <= i < |bs| && 0 <= j < |ss| ==> bs[i].id != ss[j].id
  }

  lemma VisitBalanced(a: Auction, bs: seq<Entry>, ss: seq<Entry>, i: nat, j: nat)
    requires Apart(bs, ss) && Balanced(a, bs, ss) && i < |bs| && j < |ss|
    ensures Balanced(Visit(a, bs[i], ss[j]), bs, ss)
  {
    var r := Visit(a, bs[i], ss[j]);
    if r != a {
      var t := r.trades[|a.trades|];
      assert r.trades == a.trades + [t];
      assert Agreed(t, bs[i], ss[j]);
      forall k | 0 <= k < |bs| ensures r.buys[bs[k].id] == bs[k].remaining - Touched(r.trades, bs[k].id) {
        TouchedAppend(a.trades, t, bs[k].id);
        if k != i { assert bs[k].id != bs[i].id; }
      }
      forall k | 0 <= k < |ss| ensures r.sells[ss[k].id] == ss[k].remaining - Touched(r.trades, ss[k].id) {
        TouchedAppend(a.trades, t, ss[k].id);
        if k != j { assert ss[k].id != ss[j].id; }
      }
    }
  }

  /** Remaining energy only falls, and never below zero. */
  predicate Shrunk(a: Auction, r: Auction) {
    && r.buys.Keys == a.buys.Keys && r.sells.Keys == a.sells.Keys
    && (forall id :: id in a.buys ==> r.buys[id] <= a.buys[id])
    && (forall id :: id in a.sells ==> r.sells[id] <= a.sells[id])
  }

  /** Nothing more can be traded between the two. */
  predicate Exhausted(a: Auction, b: Entry, s: Entry) {
    b.id in a.buys && s.id in a.sells && (Compatible(b, s) ==> a.buys[b.id] <= 0 || a.sells[s.id] <= 0)
  }

  lemma {:induction false} SellsFacts(a: Auction, bs: seq<Entry>, ss: seq<Entry>, i: nat, n: nat)
    requires Apart(bs, ss) && Balanced(a, bs, ss) && i < |bs| && n <= |ss|
    ensures var r := VisitSells(a, bs[i], ss[..n]);
      && Balanced(r, bs, ss) && Shrunk(a, r)
      && (forall j :: 0 <= j < n ==> Exhausted(r, bs[i], ss[j]))
      && |a.trades| <= |r.trades| && r.trades[..|a.trades|] == a.trades
      && (forall k :: |a.trades| <= k < |r.trades| ==>
            r.trades[k].buy == bs[i].id && r.trades[k].sell in a.sells && a.sells[r.trades[k].sell] > 0)
    decreases n
  {
    hide Touched, Sort, Live, Insert, Visit, Compatible, Sound, Exhausted;
    if n > 0 {
      SellsFacts(a, bs, ss, i, n - 1);
      assert ss[..n][..n - 1] == ss[..n - 1];
      var m := VisitSells(a, bs[i], ss[..n - 1]);
      VisitBalanced(m, bs, ss, i, n - 1);
      VisitFacts(m, bs[i], ss[n - 1]);
      var r := Visit(m, bs[i], ss[n - 1]);
      forall j | 0 <= j < n ensures Exhausted(r, bs[i], ss[j]) {
        if j < n - 1 {
          StaysExhausted(m, r, bs[i], ss[j]);
        }
      }
      assert r.trades[..|a.trades|] == m.trades[..|a.trades|];
    }
  }

  /** One visit exhausts the pair, takes energy from both at most, and adds at most
      a trade of a seller that had some. */
  lemma VisitFacts(a: Auction, b: Entry, s: Entry)
    requires Holds(a, b, s) && a.buys[b.id] >= 0 && a.sells[s.id] >= 0
    ensures var r := Visit(a, b, s);
      && Shrunk(a, r) && Exhausted(r, b, s)
      && |a.trades| <= |r.trades| && r.trades[..|a.trades|] == a.trades
      && (forall k :: |a.trades| <= k < |r.trades| ==>
            r.trades[k].buy == b.id && r.trades[k].sell in a.sells && a.sells[r.trades[k].sell] > 0)
  {
  }

  lemma StaysExhausted(a: Auction, r: Auction, b: Entry, s: Entry)
    requires Shrunk(a, r) && Exhausted(a, b, s)
    ensures Exhausted(r, b, s)
  {
  }

  lemma {:induction false} BuysFacts(a: Auction, bs: seq<Entry>, ss: seq<Entry>, n: nat)
    requires Apart(bs, ss) && Balanced(a, bs, ss) && n <= |bs|
    ensures var r := VisitBuys(a, bs[..n], ss);
      && Balanced(r, bs, ss) && Shrunk(a, r)
      && (forall i, j :: 0 <= i < n && 0 <= j < |ss| ==> Exhausted(r, bs[i], ss[j]))
    decreases n
  {
    hide Touched, Sort, Live, Insert, Compatible, Visit, Sound, Exhausted;
    if n > 0 {
      BuysFacts(a, bs, ss, n - 1);
      assert bs[..n][..n - 1] == bs[..n - 1];
      var m := VisitBuys(a, bs[..n - 1], ss);
      SellsFacts(m, bs, ss, n - 1, |ss|);
      assert ss[..|ss|] == ss;
      var r := VisitSells(m, bs[n - 1], ss);
      forall i, j | 0 <= i < n && 0 <= j < |ss| ensures Exhausted(r, bs[i], ss[j]) {
        if i < n - 1 {
          StaysExhausted(m, r, bs[i], ss[j]);
        }
      }
    }
  }

  lemma {:induction false} RemaindersExact(es: seq<Entry>)
    requires Distinct(es)
    ensures forall k :: 0 <= k < |es| ==> Remainders(es)[es[k].id] == es[k].remaining
  {
    if |es| > 0 {
      RemaindersExact(es[..|es| - 1]);
    }
  }

  lemma OpeningBalanced(book: Book)
    requires WellFormedBook(book)
    ensures Apart(Merit(book.buys), Merit(book.sells))
    ensures Balanced(Opening(book), Merit(book.buys), Merit(book.sells))
  {
    hide Touched, Merit, Remainders, Before;
    MeritFacts(book.buys);
    MeritFacts(book.sells);
    var bs, ss := Merit(book.buys), Merit(book.sells);
    RemaindersExact(bs);
    RemaindersExact(ss);
    forall k | 0 <= k < |bs|
      ensures bs[k].remaining > 0 && bs[k] in book.buys && Touched([], bs[k].id) == 0
    {
      assert bs[k] in Merit(book.buys);
      TouchedNothing(bs[k].id);
    }
    forall k | 0 <= k < |ss|
      ensures ss[k].remaining > 0 && ss[k] in book.sells && Touched([], ss[k].id) == 0
    {
      assert ss[k] in Merit(book.sells);
      TouchedNothing(ss[k].id);
    }
    OtherSide(book);
  }

  lemma OtherSide(book: Book)
    requires WellFormedBook(book)
    ensures forall b, s :: b in book.buys && s in book.sells ==> b.id != s.id
  {
  }

  /** Where the auction ends. */
  lemma Closing(book: Book)
    requires WellFormedBook(book)
    ensures var bs, ss := Merit(book.buys), Merit(book.sells);
      && Apart(bs, ss) && Balanced(Opening(book), bs, ss) && Opening(book).trades == []
      && var r := VisitBuys(Opening(book), bs, ss);
      && r.trades == Match(book) && Balanced(r, bs, ss)
      && (forall i, j :: 0 <= i < |bs| && 0 <= j < |ss| ==> Exhausted(r, bs[i], ss[j]))
  {
    hide Touched, Merit, Remainders;
    OpeningBalanced(book);
    var bs := Merit(book.buys);
    BuysFacts(Opening(book), bs, Merit(book.sells), |bs|);
    assert bs[..|bs|] == bs;
  }

  // ---- results -------------------------------------------------------------

  /** Every proposal is a bargain both of its orders accept. */
  lemma MatchIsSound(book: Book, k: nat)
    requires WellFormedBook(book) && k < |Match(book)|
    ensures exists b, s :: b in book.buys && s in book.sells && b.remaining > 0 && s.remaining > 0
                           && Agreed(Match(book)[k], b, s)
  {
    hide Touched, Merit, Match, VisitBuys, Opening, Agreed;
    Closing(book);
    MeritFacts(book.buys);
    MeritFacts(book.sells);
    var bs, ss := Merit(book.buys), Merit(book.sells);
    assert Sound(VisitBuys(Opening(book), bs, ss).trades[k], bs, ss);
    var i, j :| 0 <= i < |bs| && 0 <= j < |ss| && Agreed(Match(book)[k], bs[i], ss[j]);
    assert bs[i] in Merit(book.buys) && ss[j] in Merit(book.sells);
  }

  lemma DeadEntryUntouched(book: Book, e: Entry)
    requires WellFormedBook(book) && e in book.buys + book.sells && e.remaining <= 0
    ensures Touched(Match(book), e.id) == 0
  {
    hide Touched, Merit, Match;
    var ts := Match(book);
    if References(ts, e.id) {
      var k :| 0 <= k < |ts| && (ts[k].buy == e.id || ts[k].sell == e.id);
      MatchIsSound(book, k);
      var b, s :| b in book.buys && s in book.sells && b.remaining > 0 && s.remaining > 0 && Agreed(ts[k], b, s);
      OtherSide(book);
      if e in book.buys { SameIdSameEntry(book.buys, e, b); } else { SameIdSameEntry(book.sells, e, s); }
    }
    UntouchedIsZero(ts, e.id);
  }

  /** No order gives more than it has left. */
  lemma MatchWithinRemaining(book: Book, e: Entry)
    requires WellFormedBook(book) && e in book.buys + book.sells
    ensures 0 <= Max(0, e.remaining) - Touched(Match(book), e.id)
  {
    hide Touched, Merit, Match, VisitBuys, Opening, Sound;
    if e.remaining <= 0 {
      DeadEntryUntouched(book, e);
    } else {
      Closing(book);
      MeritFacts(book.buys);
      MeritFacts(book.sells);
      var bs, ss := Merit(book.buys), Merit(book.sells);
      if e in book.buys {
        var k :| 0 <= k < |bs| && bs[k] == e;
      } else {
        var k :| 0 <= k < |ss| && ss[k] == e;
      }
    }
  }

  /** No bargain is left on the table: of two orders that could still trade,
      one is full. */
  lemma MatchIsMaximal(book: Book, b: Entry, s: Entry)
    requires WellFormedBook(book) && b in book.buys && s in book.sells
    requires b.user != s.user && s.limit <= b.limit && Max(b.start, s.start) < Min(b.end, s.end)
    ensures Touched(Match(book), b.id) >= b.remaining || Touched(Match(book), s.id) >= s.remaining
  {
    hide Touched, Merit, Match, VisitBuys, Opening, Sound, Apart, Exhausted;
    if b.remaining <= 0 {
      DeadEntryUntouched(book, b);
    } else if s.remaining <= 0 {
      DeadEntryUntouched(book, s);
    } else {
      Closing(book);
      MeritFacts(book.buys);
      MeritFacts(book.sells);
      var bs, ss := Merit(book.buys), Merit(book.sells);
      assert b in bs && s in ss;
      var i :| 0 <= i < |bs| && bs[i] == b;
      var j :| 0 <= j < |ss| && ss[j] == s;
      var r := VisitBuys(Opening(book), bs, ss);
      assert Exhausted(r, bs[i], ss[j]);
      ExhaustedMeans(r, bs, ss, i, j);
    }
  }

  /** Of a compatible, exhausted pair one has given all it had. */
  lemma ExhaustedMeans(r: Auction, bs: seq<Entry>, ss: seq<Entry>, i: nat, j: nat)
    requires i < |bs| && j < |ss| && Balanced(r, bs, ss) && Exhausted(r, bs[i], ss[j])
    requires bs[i].user != ss[j].user && ss[j].limit <= bs[i].limit
    requires Max(bs[i].start, ss[j].start) < Min(bs[i].end, ss[j].end)
    ensures Touched(r.trades, bs[i].id) >= bs[i].remaining || Touched(r.trades, ss[j].id) >= ss[j].remaining
  {
    hide Touched, Sound;
  }

  /** What visiting one more buyer adds. */
  lemma LastRow(a: Auction, bs: seq<Entry>, ss: seq<Entry>, n: nat, i: nat, j: nat, k: nat)
    requires Apart(bs, ss) && Balanced(a, bs, ss) && i < n < |bs| && j < |ss|
    requires k < |VisitBuys(a, bs[..n + 1], ss).trades|
    ensures var m, r := VisitBuys(a, bs[..n], ss), VisitBuys(a, bs[..n + 1], ss);
      && (k < |m.trades| ==> r.trades[k] == m.trades[k])
      && (k >= |m.trades| ==> r.trades[k].buy == bs[n].id)
      && (k >= |m.trades| && Compatible(bs[i], ss[j]) && r.trades[k].sell == ss[j].id ==> m.buys[bs[i].id] <= 0)
      && 0 <= r.buys[bs[i].id] <= m.buys[bs[i].id]
  {
    hide Touched, Sound, Compatible, Visit, VisitSells;
    BuysFacts(a, bs, ss, n);
    assert bs[..n + 1][..n] == bs[..n];
    assert ss[..|ss|] == ss;
    var m := VisitBuys(a, bs[..n], ss);
    SellsFacts(m, bs, ss, n, |ss|);
    var r := VisitSells(m, bs[n], ss);
    assert r == VisitBuys(a, bs[..n + 1], ss);
    assert r.trades[..|m.trades|] == m.trades;
    assert Exhausted(m, bs[i], ss[j]);
  }

  /** No buyer is passed over: when a later buyer in merit order trades with a
      seller an earlier buyer could have taken, the earlier one is full. */
  lemma {:induction false} NoBuyerPassedOver(
    a: Auction, bs: seq<Entry>, ss: seq<Entry>, n: nat, i: nat, k: nat, l: nat, j: nat)
    requires Apart(bs, ss) && Balanced(a, bs, ss) && a.trades == [] && i < l < n <= |bs|
    requires j < |ss| && Compatible(bs[i], ss[j])
    requires k < |VisitBuys(a, bs[..n], ss).trades|
    requires VisitBuys(a, bs[..n], ss).trades[k].buy == bs[l].id
    requires VisitBuys(a, bs[..n], ss).trades[k].sell == ss[j].id
    ensures VisitBuys(a, bs[..n], ss).buys[bs[i].id] == 0
    decreases n
  {
    hide Touched, Sound, Compatible, VisitBuys;
    LastRow(a, bs, ss, n - 1, i, j, k);
    var m := VisitBuys(a, bs[..n - 1], ss);
    if k < |m.trades| {
      SomeoneEarlier(a, bs, ss, n - 1, k);
      var l' :| 0 <= l' < n - 1 && m.trades[k].buy == bs[l'].id;
      assert l == l';
      NoBuyerPassedOver(a, bs, ss, n - 1, i, k, l, j);
    }
  }

  /** Trades made while visiting the first n buyers belong to those buyers. */
  lemma {:induction false} SomeoneEarlier(a: Auction, bs: seq<Entry>, ss: seq<Entry>, n: nat, k: nat)
    requires Apart(bs, ss) && Balanced(a, bs, ss) && a.trades == [] && n <= |bs|
    requires k < |VisitBuys(a, bs[..n], ss).trades|
    ensures exists l :: 0 <= l < n && VisitBuys(a, bs[..n], ss).trades[k].buy == bs[l].id
    decreases n
  {
    hide Touched, Exhausted, Sound;
    if n > 0 {
      BuysFacts(a, bs, ss, n - 1);
      assert bs[..n][..n - 1] == bs[..n - 1];
      assert ss[..|ss|] == ss;
      var m := VisitBuys(a, bs[..n - 1], ss);
      SellsFacts(m, bs, ss, n - 1, |ss|);
      var r := VisitBuys(a, bs[..n], ss);
      if k < |m.trades| {
        assert r.trades[..|m.trades|][k] == r.trades[k];
        SomeoneEarlier(a, bs, ss, n - 1, k);
      }
    }
  }

  /** A visit that trades found the buyer with energy left, and empties no other
      seller. */
  lemma VisitAdds(a: Auction, b: Entry, s: Entry)
    requires Holds(a, b, s)
    ensures var r := Visit(a, b, s);
      && |a.trades| <= |r.trades| <= |a.trades| + 1
      && (forall k :: 0 <= k < |a.trades| ==> r.trades[k] == a.trades[k])
      && (|r.trades| > |a.trades| ==> r.trades[|a.trades|].sell == s.id && a.buys[b.id] > 0)
      && (forall id :: id in a.sells && id != s.id ==> id in r.sells && r.sells[id] == a.sells[id])
      && (s.id in r.sells && r.sells[s.id] <= a.sells[s.id])
  {
  }

  /** A later trade of the same row takes a later seller only when the earlier
      compatible sellers are empty. */
  lemma {:induction false} RowServesInOrder(a: Auction, bs: seq<Entry>, ss: seq<Entry>, i: nat, n: nat, j: nat, l: nat, k: nat)
    requires Apart(bs, ss) && Balanced(a, bs, ss) && i < |bs| && j < l < n <= |ss|
    requires Compatible(bs[i], ss[j])
    requires |a.trades| <= k < |VisitSells(a, bs[i], ss[..n]).trades|
    requires VisitSells(a, bs[i], ss[..n]).trades[k].sell == ss[l].id
    ensures VisitSells(a, bs[i], ss[..n]).sells[ss[j].id] == 0
    decreases n
  {
    hide Touched, Sound, Compatible, Visit;
    SellsFacts(a, bs, ss, i, n - 1);
    SellsFacts(a, bs, ss, i, n);
    assert ss[..n][..n - 1] == ss[..n - 1];
    var p := VisitSells(a, bs[i], ss[..n - 1]);
    VisitAdds(p, bs[i], ss[n - 1]);
    if k < |p.trades| {
      assert l != n - 1 by { RowSellers(a, bs, ss, i, n - 1, k); }
      RowServesInOrder(a, bs, ss, i, n - 1, j, l, k);
    } else {
      assert ss[n - 1].id == ss[l].id;
      assert Exhausted(p, bs[i], ss[j]);
    }
  }

  /** The trades of a row name its buyer and the sellers visited so far. */
  lemma {:induction false} RowSellers(a: Auction, bs: seq<Entry>, ss: seq<Entry>, i: nat, n: nat, k: nat)
    requires Apart(bs, ss) && Balanced(a, bs, ss) && i < |bs| && n <= |ss|
    requires |a.trades| <= k < |VisitSells(a, bs[i], ss[..n]).trades|
    ensures VisitSells(a, bs[i], ss[..n]).trades[k].buy == bs[i].id
    ensures exists l :: 0 <= l < n && VisitSells(a, bs[i], ss[..n]).trades[k].sell == ss[l].id
    decreases n
  {
    hide Touched, Sound, Compatible;
    if n > 0 {
      SellsFacts(a, bs, ss, i, n - 1);
      assert ss[..n][..n - 1] == ss[..n - 1];
      var p := VisitSells(a, bs[i], ss[..n - 1]);
      if k < |p.trades| {
        RowSellers(a, bs, ss, i, n - 1, k);
      }
    }
  }

  /** No seller is passed over: when a buyer takes a later seller in merit order
      although an earlier one would have served it, the earlier one is empty. */
  lemma {:induction false} NoSellerPassedOver(
    a: Auction, bs: seq<Entry>, ss: seq<Entry>, n: nat, i: nat, k: nat, l: nat, j: nat)
    requires Apart(bs, ss) && Balanced(a, bs, ss) && a.trades == [] && i < n <= |bs|
    requires j < l < |ss| && Compatible(bs[i], ss[j])
    requires k < |VisitBuys(a, bs[..n], ss).trades|
    requires VisitBuys(a, bs[..n], ss).trades[k].buy == bs[i].id
    requires VisitBuys(a, bs[..n], ss).trades[k].sell == ss[l].id
    ensures VisitBuys(a, bs[..n], ss).sells[ss[j].id] == 0
    decreases n
  {
    hide Touched, Sound, Compatible, VisitBuys, VisitSells;
    LastRowSellers(a, bs, ss, n - 1, j, k);
    var m := VisitBuys(a, bs[..n - 1], ss);
    if k < |m.trades| {
      SomeoneEarlier(a, bs, ss, n - 1, k);
      NoSellerPassedOver(a, bs, ss, n - 1, i, k, l, j);
    } else {
      assert ss[..|ss|] == ss;
      RowServesInOrder(m, bs, ss, n - 1, |ss|, j, l, k);
    }
  }

  /** What visiting one more buyer means for the sellers. */
  lemma LastRowSellers(a: Auction, bs: seq<Entry>, ss: seq<Entry>, n: nat, j: nat, k: nat)
    requires Apart(bs, ss) && Balanced(a, bs, ss) && n < |bs| && j < |ss|
    requires k < |VisitBuys(a, bs[..n + 1], ss).trades|
    ensures var m, r := VisitBuys(a, bs[..n], ss), VisitBuys(a, bs[..n + 1], ss);
      && Balanced(m, bs, ss) && r == VisitSells(m, bs[n], ss)
      && (k < |m.trades| ==> r.trades[k] == m.trades[k])
      && (k >= |m.trades| ==> r.trades[k].buy == bs[n].id)
      && 0 <= r.sells[ss[j].id] <= m.sells[ss[j].id]
  {
    hide Touched, Sound, Compatible, Visit, VisitSells, Exhausted;
    BuysFacts(a, bs, ss, n);
    assert bs[..n + 1][..n] == bs[..n];
    assert ss[..|ss|] == ss;
    var m := VisitBuys(a, bs[..n], ss);
    SellsFacts(m, bs, ss, n, |ss|);
    var r := VisitSells(m, bs[n], ss);
    assert r == VisitBuys(a, bs[..n + 1], ss);
    assert r.trades[..|m.trades|] == m.trades;
  }

  /** No buyer meets the same seller twice. */
  predicate PairsOnce(ts: seq<Proposal>) {
    forall i, j :: 0 <= i < j < |ts| ==> ts[i].buy != ts[j].buy || ts[i].sell != ts[j].sell
  }

  lemma {:induction false} RowPairsOnce(a: Auction, bs: seq<Entry>, ss: seq<Entry>, i: nat, n: nat)
    requires Apart(bs, ss) && Balanced(a, bs, ss) && i < |bs| && n <= |ss|
    requires PairsOnce(a.trades) && forall k :: 0 <= k < |a.trades| ==> a.trades[k].buy != bs[i].id
    ensures PairsOnce(VisitSells(a, bs[i], ss[..n]).trades)
    decreases n
  {
    hide Touched, Sound, Compatible;
    if n > 0 {
      RowPairsOnce(a, bs, ss, i, n - 1);
      SellsFacts(a, bs, ss, i, n - 1);
      assert ss[..n][..n - 1] == ss[..n - 1];
      var p := VisitSells(a, bs[i], ss[..n - 1]);
      forall k | 0 <= k < |p.trades| ensures p.trades[k].buy != bs[i].id || p.trades[k].sell != ss[n - 1].id {
        if k < |a.trades| {
          assert p.trades[..|a.trades|][k] == a.trades[k];
        } else {
          RowSellers(a, bs, ss, i, n - 1, k);
        }
      }
    }
  }

  lemma NothingPaired()
    ensures PairsOnce([])
  {
  }

  lemma {:induction false} BuysPairOnce(a: Auction, bs: seq<Entry>, ss: seq<Entry>, n: nat)
    requires Apart(bs, ss) && Balanced(a, bs, ss) && a.trades == [] && n <= |bs|
    ensures PairsOnce(VisitBuys(a, bs[..n], ss).trades)
    decreases n
  {
    hide Touched, Sound, Exhausted, Compatible, Visit, VisitSells, PairsOnce;
    NothingPaired();
    if n > 0 {
      BuysPairOnce(a, bs, ss, n - 1);
      BuysFacts(a, bs, ss, n - 1);
      assert bs[..n][..n - 1] == bs[..n - 1];
      assert ss[..|ss|] == ss;
      var m := VisitBuys(a, bs[..n - 1], ss);
      forall k | 0 <= k < |m.trades| ensures m.trades[k].buy != bs[n - 1].id {
        SomeoneEarlier(a, bs, ss, n - 1, k);
      }
      RowPairsOnce(m, bs, ss, n - 1, |ss|);
    }
  }

  /** The auction proposes each pairing at most once. */
  lemma MatchPairsOnce(book: Book)
    requires WellFormedBook(book)
    ensures PairsOnce(Match(book))
  {
    hide Touched, Merit, VisitBuys, Sound, PairsOnce;
    Closing(book);
    var bs, ss := Merit(book.buys), Merit(book.sells);
    assert bs[..|bs|] == bs;
    BuysPairOnce(Opening(book), bs, ss, |bs|);
  }

  /** Merit order puts the better entry first. */
  lemma MeritPositions(es: seq<Entry>, first: Entry, later: Entry) returns (i: nat, l: nat)
    requires Distinct(es) && first in es && later in es && first != later
    requires first.remaining > 0 && later.remaining > 0 && Before(first, later)
    ensures i < l < |Merit(es)| && Merit(es)[i] == first && Merit(es)[l] == later
  {
    hide Merit, Live;
    MeritFacts(es);
    assert first in Merit(es) && later in Merit(es);
    i :| 0 <= i < |Merit(es)| && Merit(es)[i] == first;
    l :| 0 <= l < |Merit(es)| && Merit(es)[l] == later;
    if first.id == later.id {
      SameIdSameEntry(es, first, later);
    }
  }

  lemma BetterBuyer(book: Book, first: Entry, later: Entry, s: Entry)
    requires WellFormedBook(book) && first in book.buys && later in book.buys && s in book.sells
    requires first.limit > later.limit
      || (first.limit == later.limit
          && (first.created < later.created || (first.created == later.created && first.id < later.id)))
    requires first.user != s.user && s.limit <= first.limit && Max(first.start, s.start) < Min(first.end, s.end)
    ensures Before(first, later) && Compatible(first, s)
  {
  }

  lemma BetterSeller(book: Book, first: Entry, later: Entry, b: Entry)
    requires WellFormedBook(book) && first in book.sells && later in book.sells && b in book.buys
    requires first.limit < later.limit
      || (first.limit == later.limit
          && (first.created < later.created || (first.created == later.created && first.id < later.id)))
    requires first.user != b.user && first.limit <= b.limit && Max(b.start, first.start) < Min(b.end, first.end)
    ensures Before(first, later) && Compatible(b, first)
  {
  }

  /** The same statement about the book: price-time priority among buyers. */
  lemma PriorityAmongBuyers(book: Book, first: Entry, later: Entry, s: Entry, k: nat)
    requires WellFormedBook(book) && first in book.buys && later in book.buys && s in book.sells
    requires first != later && first.remaining > 0
    requires first.limit > later.limit
      || (first.limit == later.limit
          && (first.created < later.created || (first.created == later.created && first.id < later.id)))
    requires first.user != s.user && s.limit <= first.limit && Max(first.start, s.start) < Min(first.end, s.end)
    requires k < |Match(book)| && Match(book)[k].buy == later.id && Match(book)[k].sell == s.id
    ensures Touched(Match(book), first.id) == first.remaining
  {
    hide Touched, Merit, Compatible, Before, WellFormedBook, Distinct, Match, Agreed;
    BetterBuyer(book, first, later, s);
    TradedEntries(book, k, later, s);
    var i, l := MeritPositions(book.buys, first, later);
    var j := MeritPosition(book.sells, s);
    PassedBuyerIsFull(book, i, l, j, k);
  }

  lemma PassedBuyerIsFull(book: Book, i: nat, l: nat, j: nat, k: nat)
    requires WellFormedBook(book)
    requires i < l < |Merit(book.buys)| && j < |Merit(book.sells)| && Compatible(Merit(book.buys)[i], Merit(book.sells)[j])
    requires k < |Match(book)| && Match(book)[k].buy == Merit(book.buys)[l].id && Match(book)[k].sell == Merit(book.sells)[j].id
    ensures Touched(Match(book), Merit(book.buys)[i].id) == Merit(book.buys)[i].remaining
  {
    hide Touched, Merit, VisitBuys, Sound, Exhausted, Compatible, Opening, Apart;
    Closing(book);
    var bs := Merit(book.buys);
    assert bs[..|bs|] == bs;
    NoBuyerPassedOver(Opening(book), bs, Merit(book.sells), |bs|, i, k, l, j);
  }

  /** Price-time priority among sellers. */
  lemma PriorityAmongSellers(book: Book, first: Entry, later: Entry, b: Entry, k: nat)
    requires WellFormedBook(book) && first in book.sells && later in book.sells && b in book.buys
    requires first != later && first.remaining > 0
    requires first.limit < later.limit
      || (first.limit == later.limit
          && (first.created < later.created || (first.created == later.created && first.id < later.id)))
    requires first.user != b.user && first.limit <= b.limit && Max(b.start, first.start) < Min(b.end, first.end)
    requires k < |Match(book)| && Match(book)[k].sell == later.id && Match(book)[k].buy == b.id
    ensures Touched(Match(book), first.id) == first.remaining
  {
    hide Touched, Merit, Compatible, Before, WellFormedBook, Distinct, Match, Agreed;
    BetterSeller(book, first, later, b);
    TradedEntries(book, k, b, later);
    var j, l := MeritPositions(book.sells, first, later);
    var i := MeritPosition(book.buys, b);
    PassedSellerIsEmpty(book, i, j, l, k);
  }

  lemma PassedSellerIsEmpty(book: Book, i: nat, j: nat, l: nat, k: nat)
    requires WellFormedBook(book)
    requires i < |Merit(book.buys)| && j < l < |Merit(book.sells)| && Compatible(Merit(book.buys)[i], Merit(book.sells)[j])
    requires k < |Match(book)| && Match(book)[k].buy == Merit(book.buys)[i].id && Match(book)[k].sell == Merit(book.sells)[l].id
    ensures Touched(Match(book), Merit(book.sells)[j].id) == Merit(book.sells)[j].remaining
  {
    hide Touched, Merit, VisitBuys, Sound, Exhausted, Compatible, Opening, Apart;
    Closing(book);
    var bs := Merit(book.buys);
    assert bs[..|bs|] == bs;
    NoSellerPassedOver(Opening(book), bs, Merit(book.sells), |bs|, i, k, l, j);
  }

  lemma MeritPosition(es: seq<Entry>, e: Entry) returns (i: nat)
    requires Distinct(es) && e in es && e.remaining > 0
    ensures i < |Merit(es)| && Merit(es)[i] == e
  {
    hide Merit;
    MeritFacts(es);
    assert e in Merit(es);
    i :| 0 <= i < |Merit(es)| && Merit(es)[i] == e;
  }

  lemma TradedEntries(book: Book, k: nat, b: Entry, s: Entry)
    requires WellFormedBook(book) && k < |Match(book)| && b in book.buys && s in book.sells
    requires Match(book)[k].buy == b.id && Match(book)[k].sell == s.id
    ensures Distinct(book.buys) && Distinct(book.sells) && b.remaining > 0 && s.remaining > 0
    ensures Agreed(Match(book)[k], b, s)
  {
    hide Match;
    MatchIsSound(book, k);
    var b', s' :| b' in book.buys && s' in book.sells && b'.remaining > 0 && s'.remaining > 0 && Agreed(Match(book)[k], b', s');
    SameIdSameEntry(book.buys, b', b);
    SameIdSameEntry(book.sells, s', s);
  }

  lemma SameIdSameEntry(es: seq<Entry>, a: Entry, b: Entry)
    requires Distinct(es) && a in es && b in es && a.id == b.id
    ensures a == b
  {
    var i :| 0 <= i < |es| && es[i] == a;
    var j :| 0 <= j < |es| && es[j] == b;
  }

  // ---- the loop ------------------------------------------------------------

  lemma {:induction false} SpentBuyerIsSkipped(a: Auction, b: Entry, ss: seq<Entry>)
    requires HoldsAll(a, b, ss) && a.buys[b.id] <= 0
    ensures VisitSells(a, b, ss) == a
  {
    if |ss| > 0 {
      SpentBuyerIsSkipped(a, b, ss[..|ss| - 1]);
    }
  }

  lemma {:induction false} VisitSellsConcat(a: Auction, b: Entry, xs: seq<Entry>, ys: seq<Entry>)
    requires HoldsAll(a, b, xs + ys)
    requires HoldsAll(a, b, xs) && HoldsAll(VisitSells(a, b, xs), b, ys)
    ensures VisitSells(a, b, xs + ys) == VisitSells(VisitSells(a, b, xs), b, ys)
    decreases |ys|
  {
    if |ys| == 0 {
      assert xs + ys == xs;
    } else {
      var n := |ys| - 1;
      assert (xs + ys)[..|xs + ys| - 1] == xs + ys[..n];
      assert forall k :: 0 <= k < |xs + ys[..n]| ==> (xs + ys[..n])[k] == (xs + ys)[k];
      VisitSellsConcat(a, b, xs, ys[..n]);
    }
  }

  /** The engine's loop over buyers, with its `continue`. */
  method Run(book: Book) returns (trades: seq<Proposal>)
    ensures trades == Match(book)
  {
    hide Touched, Merit, Visit, VisitSells, VisitBuys, Remainders;
    var bs, ss := Merit(book.buys), Merit(book.sells);
    var remBuys, remSells := Remainders(bs), Remainders(ss);
    trades := [];
    var i := 0;
    ghost var opening := Auction(remBuys, remSells, trades);
    NobodyVisited(opening, ss);
    while i < |bs|
      invariant 0 <= i <= |bs|
      invariant HoldsBoth(opening, bs, ss)
      invariant Auction(remBuys, remSells, trades) == VisitBuys(opening, bs[..i], ss)
    {
      var b := bs[i];
      VisitBuysStep(opening, bs, ss, i);
      if remBuys[b.id] <= 0 {
        SpentBuyerIsSkipped(Auction(remBuys, remSells, trades), b, ss);
      } else {
        remBuys, remSells, trades := RunRow(b, ss, remBuys, remSells, trades);
      }
      i := i + 1;
    }
    assert bs[..i] == bs;
  }

  lemma NobodyVisited(a: Auction, ss: seq<Entry>)
    requires HoldsBoth(a, [], ss)
    ensures VisitBuys(a, [], ss) == a
  {
  }

  lemma VisitBuysStep(a: Auction, bs: seq<Entry>, ss: seq<Entry>, i: nat)
    requires i < |bs| && HoldsBoth(a, bs, ss)
    ensures HoldsBoth(a, bs[..i], ss) && HoldsBoth(a, bs[..i + 1], ss)
    ensures HoldsAll(VisitBuys(a, bs[..i], ss), bs[i], ss)
    ensures VisitBuys(a, bs[..i + 1], ss) == VisitSells(VisitBuys(a, bs[..i], ss), bs[i], ss)
  {
    assert bs[..i + 1][..i] == bs[..i];
  }

  lemma EmptyVisit(a: Auction, b: Entry)
    requires HoldsAll(a, b, [])
    ensures VisitSells(a, b, []) == a
  {
  }

  lemma VisitSellsStep(a: Auction, b: Entry, ss: seq<Entry>, j: nat)
    requires j < |ss| && HoldsAll(a, b, ss)
    ensures VisitSells(a, b, ss[..j + 1]) == Visit(VisitSells(a, b, ss[..j]), b, ss[j])
  {
    assert ss[..j + 1][..j] == ss[..j];
  }

  /** The inner loop over sellers, which stops once the buyer is full. */
  method RunRow(b: Entry, ss: seq<Entry>, buys: map<OrderId, int>, sells: map<OrderId, int>, sofar: seq<Proposal>)
    returns (remBuys: map<OrderId, int>, remSells: map<OrderId, int>, trades: seq<Proposal>)
    requires HoldsAll(Auction(buys, sells, sofar), b, ss)
    ensures Auction(remBuys, remSells, trades) == VisitSells(Auction(buys, sells, sofar), b, ss)
  {
    hide VisitSells;
    EmptyVisit(Auction(buys, sells, sofar), b);
    remBuys, remSells, trades := buys, sells, sofar;
    ghost var before := Auction(buys, sells, sofar);
    var j := 0;
    while j < |ss|
      invariant 0 <= j <= |ss|
      invariant remBuys.Keys == buys.Keys && remSells.Keys == sells.Keys
      invariant Auction(remBuys, remSells, trades) == VisitSells(before, b, ss[..j])
    {
      var s := ss[j];
      VisitSellsStep(before, b, ss, j);
      var start, end := Max(b.start, s.start), Min(b.end, s.end);
      if s.user != b.user && remSells[s.id] > 0 && s.limit <= b.limit && start < end {
        var quantity := Min(remBuys[b.id], remSells[s.id]);
        if quantity > 0 {
          trades := trades + [Proposal(b.id, s.id, quantity, Midpoint(b.limit, s.limit), start, end)];
          remBuys := remBuys[b.id := remBuys[b.id] - quantity];
          remSells := remSells[s.id := remSells[s.id] - quantity];
        }
      }
      j := j + 1;
      if remBuys[b.id] <= 0 {
        break;
      }
    }
    assert ss == ss[..j] + ss[j..];
    if j < |ss| {
      VisitSellsConcat(before, b, ss[..j], ss[j..]);
      SpentBuyerIsSkipped(VisitSells(before, b, ss[..j]), b, ss[j..]);
    } else {
      assert ss[..j] == ss;
    }
  }
}
