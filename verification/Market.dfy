/** Boundary-checked clearing (`market_service`): whatever an engine answers goes
    through `_validate_result` before the fills touch an order. */
module Market {
  import opened Base
  import opened Orders
  import Matching

  datatype SessionStatus = Accepting | Closed | Cleared

  datatype ClearError =
    | NotClearable | EngineFailed
    | OutsideBook | WrongSide | NonPositiveQuantity | NegativePrice | EmptyWindow | OverFilled | DuplicateFill | EarlyMoment

  // ---- what the check accepts ----------------------------------------------

  predicate Listed(es: seq<Entry>, id: OrderId) {
    exists k :: 0 <= k < |es| && es[k].id == id
  }

  predicate Shapely(t: Proposal, book: Book) {
    && Listed(book.buys, t.buy) && Listed(book.sells, t.sell)
    && t.quantity > 0 && t.price >= 0 && t.start < t.end
  }

  predicate WithinRemaining(ts: seq<Proposal>, es: seq<Entry>) {
    forall k :: 0 <= k < |es| && References(ts, es[k].id) ==> Touched(ts, es[k].id) <= es[k].remaining
  }

  /** The outputs an engine may give. */
  predicate ValidOutput(ts: seq<Proposal>, book: Book) {
    && (forall i :: 0 <= i < |ts| ==> Shapely(ts[i], book))
    && WithinRemaining(ts, book.buys + book.sells)
  }

  /** The unique key of the trades table: clearing numbers every fill one, so a
      pairing can be stored once for a delivery start. */
  predicate NoPairTwice(ts: seq<Proposal>) {
    forall i, j :: 0 <= i < j < |ts| ==>
      ts[i].buy != ts[j].buy || ts[i].sell != ts[j].sell || ts[i].start != ts[j].start
  }

  // ---- what the check reports ----------------------------------------------

  function Known(es: seq<Entry>): (m: map<OrderId, Entry>)
    ensures forall id :: id in m <==> Listed(es, id)
    ensures forall id :: id in m ==> m[id] in es && m[id].id == id
  {
    if |es| == 0 then map[]
    else
      var front := Known(es[..|es| - 1]);
      var e := es[|es| - 1];
      assert forall id :: Listed(es, id) <==> Listed(es[..|es| - 1], id) || id == e.id by {
        forall id ensures Listed(es, id) <==> Listed(es[..|es| - 1], id) || id == e.id {
          if id == e.id { assert es[|es| - 1].id == id; }
          if Listed(es[..|es| - 1], id) {
            var k :| 0 <= k < |es| - 1 && es[..|es| - 1][k].id == id;
            assert es[k].id == id;
          }
          if Listed(es, id) && id != e.id {
            var k :| 0 <= k < |es| && es[k].id == id;
            assert es[..|es| - 1][k].id == id;
          }
        }
      }
      front[e.id := e]
  }

  function OrderError(known: map<OrderId, Entry>, id: OrderId, side: Side): Option<ClearError> {
    if id !in known then Some(OutsideBook)
    else if known[id].side != side then Some(WrongSide)
    else None
  }

  function TradeError(known: map<OrderId, Entry>, t: Proposal): Option<ClearError> {
    if OrderError(known, t.buy, Buy).Some? then OrderError(known, t.buy, Buy)
    else if OrderError(known, t.sell, Sell).Some? then OrderError(known, t.sell, Sell)
    else if t.quantity <= 0 then Some(NonPositiveQuantity)
    else if t.price < 0 then Some(NegativePrice)
    else if t.end <= t.start then Some(EmptyWindow)
    else None
  }

  predicate Overfills(known: map<OrderId, Entry>, ts: seq<Proposal>) {
    exists id :: id in known && References(ts, id) && Touched(ts, id) > known[id].remaining
  }

  /** The first complaint in the order the code raises them. */
  function FirstError(known: map<OrderId, Entry>, ts: seq<Proposal>, i: nat): Option<ClearError>
    requires i <= |ts|
    decreases |ts| - i
  {
    if i < |ts| then
      if TradeError(known, ts[i]).Some? then TradeError(known, ts[i])
      else FirstError(known, ts, i + 1)
    else if Overfills(known, ts) then Some(OverFilled)
    else None
  }

  lemma KnownEntry(book: Book, e: Entry)
    requires WellFormedBook(book) && e in book.buys + book.sells
    ensures e.id in Known(book.buys + book.sells) && Known(book.buys + book.sells)[e.id] == e
  {
    var all := book.buys + book.sells;
    var k :| 0 <= k < |all| && all[k] == e;
    assert Listed(all, all[k].id);
    var f := Known(all)[e.id];
    if e in book.buys {
      if f in book.buys { Matching.SameIdSameEntry(book.buys, e, f); } else { Matching.OtherSide(book); }
    } else {
      if f in book.sells { Matching.SameIdSameEntry(book.sells, e, f); } else { Matching.OtherSide(book); }
    }
  }

  lemma ListedIffKnown(book: Book, id: OrderId)
    requires WellFormedBook(book)
    ensures var known := Known(book.buys + book.sells);
      && (Listed(book.buys, id) <==> id in known && known[id].side == Buy)
      && (Listed(book.sells, id) <==> id in known && known[id].side == Sell)
  {
    var known := Known(book.buys + book.sells);
    if Listed(book.buys, id) {
      var k :| 0 <= k < |book.buys| && book.buys[k].id == id;
      KnownEntry(book, book.buys[k]);
    }
    if Listed(book.sells, id) {
      var k :| 0 <= k < |book.sells| && book.sells[k].id == id;
      KnownEntry(book, book.sells[k]);
    }
    if id in known {
      var e := known[id];
      if e in book.buys { var k :| 0 <= k < |book.buys| && book.buys[k] == e; }
      else { var k :| 0 <= k < |book.sells| && book.sells[k] == e; }
    }
  }

  lemma {:induction false} NoTradeError(known: map<OrderId, Entry>, ts: seq<Proposal>, i: nat)
    requires i <= |ts|
    ensures FirstError(known, ts, i).None? <==>
      (forall j :: i <= j < |ts| ==> TradeError(known, ts[j]).None?) && !Overfills(known, ts)
    decreases |ts| - i
  {
    hide TradeError, Overfills;
    if i < |ts| {
      NoTradeError(known, ts, i + 1);
    }
  }

  /** The check passes exactly the valid outputs. */
  lemma CheckIsExact(book: Book, ts: seq<Proposal>)
    requires WellFormedBook(book)
    ensures FirstError(Known(book.buys + book.sells), ts, 0).None? <==> ValidOutput(ts, book)
  {
    hide Touched, References, Known;
    var all := book.buys + book.sells;
    var known := Known(all);
    NoTradeError(known, ts, 0);
    forall j | 0 <= j < |ts| ensures TradeError(known, ts[j]).None? <==> Shapely(ts[j], book) {
      ListedIffKnown(book, ts[j].buy);
      ListedIffKnown(book, ts[j].sell);
    }
    if !Overfills(known, ts) {
      forall k | 0 <= k < |all| && References(ts, all[k].id)
        ensures Touched(ts, all[k].id) <= all[k].remaining
      {
        KnownEntry(book, all[k]);
      }
    }
  }

  /** Prices are the engine's own: the check passes any non-negative price,
      inside the orders' limits or not. */
  lemma PricesAreFree(book: Book, ts: seq<Proposal>, i: nat, price: int)
    requires ValidOutput(ts, book) && i < |ts| && price >= 0
    ensures ValidOutput(ts[i := ts[i].(price := price)], book)
  {
    hide Touched, References;
    var other := ts[i := ts[i].(price := price)];
    forall k | 0 <= k < |other| ensures Shapely(other[k], book) {
      assert Shapely(ts[k], book);
    }
    forall id {
      SameTouch(ts, other, id);
    }
  }

  lemma SameTouch(a: seq<Proposal>, b: seq<Proposal>, id: OrderId)
    requires |a| == |b|
    requires forall i :: 0 <= i < |a| ==> b[i] == a[i].(price := b[i].price)
    ensures Touched(a, id) == Touched(b, id) && (References(a, id) <==> References(b, id))
  {
    assert Shares(a, id) == Shares(b, id);
  }

  /** The baseline engine never trips the check. */
  lemma BaselinePasses(book: Book)
    requires WellFormedBook(book)
    requires forall e :: e in book.buys + book.sells ==> e.limit >= 0
    ensures ValidOutput(Matching.Match(book), book)
  {
    hide Touched, Matching.Match;
    var ts := Matching.Match(book);
    forall i | 0 <= i < |ts| ensures Shapely(ts[i], book) {
      Matching.MatchIsSound(book, i);
      var b, s :| b in book.buys && s in book.sells && b.remaining > 0 && s.remaining > 0 && Matching.Agreed(ts[i], b, s);
      var x :| 0 <= x < |book.buys| && book.buys[x] == b;
      var y :| 0 <= y < |book.sells| && book.sells[y] == s;
      assert Listed(book.buys, b.id) && Listed(book.sells, s.id);
    }
    var all := book.buys + book.sells;
    forall k | 0 <= k < |all| && References(ts, all[k].id) ensures Touched(ts, all[k].id) <= all[k].remaining {
      assert all[k] in all;
      Matching.MatchWithinRemaining(book, all[k]);
      if all[k].remaining < 0 {
        ReferencedIsLive(book, all[k]);
      }
    }
  }

  lemma ReferencedIsLive(book: Book, e: Entry)
    requires WellFormedBook(book) && e in book.buys + book.sells && References(Matching.Match(book), e.id)
    ensures e.remaining > 0
  {
    hide Touched, Matching.Match;
    var ts := Matching.Match(book);
    var k :| 0 <= k < |ts| && (ts[k].buy == e.id || ts[k].sell == e.id);
    Matching.MatchIsSound(book, k);
    var b, s :| b in book.buys && s in book.sells && b.remaining > 0 && s.remaining > 0 && Matching.Agreed(ts[k], b, s);
    Matching.OtherSide(book);
    if e in book.buys { Matching.SameIdSameEntry(book.buys, e, b); } else { Matching.SameIdSameEntry(book.sells, e, s); }
  }

  // ---- fills ---------------------------------------------------------------

  function Fill(o: Order, quantity: int): Order {
    o.(matched := o.matched + quantity,
       status := if o.matched + quantity >= o.energy then Filled else PartiallyFilled)
  }

  predicate InRange(orders: seq<Order>, ts: seq<Proposal>) {
    forall i :: 0 <= i < |ts| ==> 0 <= ts[i].buy < |orders| && 0 <= ts[i].sell < |orders| && ts[i].buy != ts[i].sell
  }

  function FillBoth(orders: seq<Order>, t: Proposal): seq<Order>
    requires InRange(orders, [t])
  {
    assert InRange(orders, [t]) ==> t == [t][0];
    var first := orders[t.buy := Fill(orders[t.buy], t.quantity)];
    first[t.sell := Fill(first[t.sell], t.quantity)]
  }

  function ApplyFills(orders: seq<Order>, ts: seq<Proposal>): (r: seq<Order>)
    requires InRange(orders, ts)
    ensures |r| == |orders|
  {
    if |ts| == 0 then orders
    else
      var t := ts[|ts| - 1];
      FillBoth(ApplyFills(orders, ts[..|ts| - 1]), t)
  }

  /** After the fills: every order carries exactly what its trades took, the
      untouched ones are as they were. */
  lemma {:induction false} FillEffect(orders: seq<Order>, ts: seq<Proposal>, id: OrderId)
    requires InRange(orders, ts) && 0 <= id < |orders|
    ensures var o, r := orders[id], ApplyFills(orders, ts)[id];
      && r.matched == o.matched + Touched(ts, id)
      && r == (if References(ts, id)
               then o.(matched := r.matched, status := if r.matched >= o.energy then Filled else PartiallyFilled)
               else o)
  {
    hide Touched;
    if |ts| == 0 {
      TouchedNothing(id);
      assert ts == [];
    } else {
      var n := |ts| - 1;
      assert ts == ts[..n] + [ts[n]];
      FillEffect(orders, ts[..n], id);
      TouchedAppend(ts[..n], ts[n], id);
      ReferencesAppend(ts[..n], ts[n], id);
    }
  }

  lemma ReferencesAppend(ts: seq<Proposal>, t: Proposal, id: OrderId)
    ensures References(ts + [t], id) <==> References(ts, id) || t.buy == id || t.sell == id
  {
    var all := ts + [t];
    if References(ts, id) {
      var k :| 0 <= k < |ts| && (ts[k].buy == id || ts[k].sell == id);
      assert all[k] == ts[k];
    }
    if t.buy == id || t.sell == id {
      assert all[|ts|] == t;
    }
    if References(all, id) && !(t.buy == id || t.sell == id) {
      var k :| 0 <= k < |all| && (all[k].buy == id || all[k].sell == id);
      assert k < |ts| && ts[k] == all[k];
    }
  }

  /** Energy committed on one side. */
  function SideMatched(orders: seq<Order>, side: Side): int {
    Sum(SideAmounts(orders, side))
  }

  function SideAmounts(orders: seq<Order>, side: Side): seq<int> {
    seq(|orders|, i requires 0 <= i < |orders| => if orders[i].side == side then orders[i].matched else 0)
  }

  function Quantities(ts: seq<Proposal>): seq<int> {
    seq(|ts|, i requires 0 <= i < |ts| => ts[i].quantity)
  }

  lemma FillSide(orders: seq<Order>, id: OrderId, quantity: int, side: Side)
    requires 0 <= id < |orders|
    ensures SideMatched(orders[id := Fill(orders[id], quantity)], side)
         == SideMatched(orders, side) + if orders[id].side == side then quantity else 0
  {
    var o := Fill(orders[id], quantity);
    var v := if o.side == side then o.matched else 0;
    assert SideAmounts(orders[id := o], side) == SideAmounts(orders, side)[id := v];
    SumUpdate(SideAmounts(orders, side), id, v);
  }

  /** Buyers and sellers are committed the same energy. */
  lemma {:induction false} SidesMoveTogether(orders: seq<Order>, ts: seq<Proposal>, side: Side)
    requires InRange(orders, ts)
    requires forall i :: 0 <= i < |ts| ==> orders[ts[i].buy].side == Buy && orders[ts[i].sell].side == Sell
    ensures SideMatched(ApplyFills(orders, ts), side) == SideMatched(orders, side) + Sum(Quantities(ts))
  {
    hide SideMatched;
    if |ts| > 0 {
      var n := |ts| - 1;
      var t, mid := ts[n], ApplyFills(orders, ts[..n]);
      SidesMoveTogether(orders, ts[..n], side);
      FillEffect(orders, ts[..n], t.buy);
      FillEffect(orders, ts[..n], t.sell);
      FillSide(mid, t.buy, t.quantity, side);
      FillSide(mid[t.buy := Fill(mid[t.buy], t.quantity)], t.sell, t.quantity, side);
      assert Quantities(ts) == Quantities(ts[..n]) + [t.quantity];
      SumAppend(Quantities(ts[..n]), t.quantity);
    }
  }

  // ---- column units --------------------------------------------------------

  /** What a column keeps of a quantity given in 1/d of its unit: the nearest
      whole unit, ties away from zero. */
  function Columns(qs: seq<int>, d: int): seq<int>
    requires d > 0
  {
    seq(|qs|, i requires 0 <= i < |qs| => RoundHalfUp(qs[i], d))
  }

  /** A quantity is stored as it is exactly when it is a whole number of units. */
  lemma StoredExactlyIff(q: int, d: int)
    requires d > 0
    ensures RoundHalfUp(q, d) * d == q <==> q % d == 0
  {
    var r := RoundHalfUp(q, d);
    assert q == q / d * d + q % d;
    if q % d == 0 {
      NearestUnit(r, q / d, d);
    }
    MultipleOf(r, d);
  }

  /** Trades in whole units are stored as what they add up to on their order. */
  lemma {:induction false} WholeUnitsAddUp(qs: seq<int>, d: int)
    requires d > 0 && forall i :: 0 <= i < |qs| ==> qs[i] % d == 0
    ensures Sum(Columns(qs, d)) * d == Sum(qs) && Sum(Columns(qs, d)) == RoundHalfUp(Sum(qs), d)
  {
    hide RoundHalfUp;
    if |qs| > 0 {
      var n := |qs| - 1;
      WholeUnitsAddUp(qs[..n], d);
      StoredExactlyIff(qs[n], d);
      assert Columns(qs, d)[..n] == Columns(qs[..n], d);
      SumTimes(Sum(Columns(qs[..n], d)), RoundHalfUp(qs[n], d), d);
    }
    NearestUnit(RoundHalfUp(Sum(qs), d), Sum(Columns(qs, d)), d);
  }

  /** Two trades of 0.00006 kWh on one order are stored as 0.0001 each and leave
      0.0001 on the order; one of 0.00004 is stored as nothing. */
  lemma FinerQuantitiesDisagree()
    ensures Sum(Columns([60, 60], 100)) == 2 && RoundHalfUp(Sum([60, 60]), 100) == 1
    ensures RoundHalfUp(40, 100) == 0
  {
    assert Columns([60, 60], 100) == [1] + [1] && [1] == [] + [1];
    assert [60, 60] == [60] + [60] && [60] == [] + [60];
    SumAppend([], 1);
    SumAppend([1], 1);
    SumAppend([], 60);
    SumAppend([60], 60);
  }

  // ---- the session's book --------------------------------------------------

  function ActiveIds(orders: seq<Order>): (ids: seq<OrderId>)
    ensures forall i :: 0 <= i < |ids| ==> 0 <= ids[i] < |orders| && orders[ids[i]].Active()
    ensures forall k :: 0 <= k < |orders| && orders[k].Active() ==> k in ids
    ensures DistinctIds(ids)
  {
    if |orders| == 0 then []
    else
      var front := ActiveIds(orders[..|orders| - 1]);
      if orders[|orders| - 1].Active() then front + [|orders| - 1] else front
  }

  function SessionBook(orders: seq<Order>): (book: Book)
  {
    BookOf(orders, ActiveIds(orders), None)
  }

  lemma SessionBookFacts(orders: seq<Order>, id: OrderId)
    ensures WellFormedBook(SessionBook(orders))
    ensures Listed(SessionBook(orders).buys, id) <==> 0 <= id < |orders| && orders[id].Active() && orders[id].side == Buy
    ensures Listed(SessionBook(orders).sells, id) <==> 0 <= id < |orders| && orders[id].Active() && orders[id].side == Sell
  {
    BookOfWellFormed(orders, ActiveIds(orders), None);
    SideListed(orders, id, Buy);
    SideListed(orders, id, Sell);
  }

  lemma SideListed(orders: seq<Order>, id: OrderId, side: Side)
    ensures var es := Entries(orders, ActiveIds(orders), None, side);
      Listed(es, id) <==> 0 <= id < |orders| && orders[id].Active() && orders[id].side == side
  {
    hide Entries, ActiveIds;
    var ids := ActiveIds(orders);
    var es := Entries(orders, ids, None, side);
    if Listed(es, id) {
      var k :| 0 <= k < |es| && es[k].id == id;
      assert es[k].id in ids;
      var i :| 0 <= i < |ids| && ids[i] == id;
    }
    if 0 <= id < |orders| && orders[id].Active() && orders[id].side == side {
      var i :| 0 <= i < |ids| && ids[i] == id;
      assert ToEntry(ids[i], orders[ids[i]], None) in es;
      var k :| 0 <= k < |es| && es[k] == ToEntry(id, orders[id], None);
    }
  }

  predicate Sane(orders: seq<Order>) {
    forall i :: 0 <= i < |orders| ==> 0 <= orders[i].matched <= orders[i].energy
  }

  lemma ValidIsInRange(orders: seq<Order>, ts: seq<Proposal>)
    requires forall i :: 0 <= i < |ts| ==> Shapely(ts[i], SessionBook(orders))
    ensures InRange(orders, ts)
    ensures forall i :: 0 <= i < |ts| ==> orders[ts[i].buy].side == Buy && orders[ts[i].sell].side == Sell
  {
    hide SessionBook;
    forall i | 0 <= i < |ts|
      ensures 0 <= ts[i].buy < |orders| && orders[ts[i].buy].side == Buy
      ensures 0 <= ts[i].sell < |orders| && orders[ts[i].sell].side == Sell
    {
      assert Shapely(ts[i], SessionBook(orders));
      SessionBookFacts(orders, ts[i].buy);
      SessionBookFacts(orders, ts[i].sell);
    }
  }

  /** The check is exactly as strong as the fills need: for proposals of the
      right shape, no order is overfilled afterwards if and only if the totals
      pass. */
  lemma CheckIsExactlyStrongEnough(orders: seq<Order>, ts: seq<Proposal>)
    requires Sane(orders)
    requires forall i :: 0 <= i < |ts| ==> Shapely(ts[i], SessionBook(orders))
    ensures InRange(orders, ts)
    ensures Sane(ApplyFills(orders, ts)) <==> ValidOutput(ts, SessionBook(orders))
  {
    hide Touched, ApplyFills, SessionBook, References;
    ValidIsInRange(orders, ts);
    var book := SessionBook(orders);
    var all := book.buys + book.sells;
    var r := ApplyFills(orders, ts);
    forall id | 0 <= id < |orders| ensures r[id].matched >= 0 && r[id].energy == orders[id].energy {
      FillEffect(orders, ts, id);
      TouchedNonNegative(ts, id);
    }
    forall k | 0 <= k < |all|
      ensures 0 <= all[k].id < |orders| && all[k].remaining == orders[all[k].id].Remaining()
      ensures r[all[k].id].matched <= orders[all[k].id].energy <==> Touched(ts, all[k].id) <= all[k].remaining
    {
      EntryIsOrder(orders, all[k]);
      FillEffect(orders, ts, all[k].id);
    }
    if WithinRemaining(ts, all) {
      forall id | 0 <= id < |orders| ensures r[id].matched <= r[id].energy {
        FillEffect(orders, ts, id);
        if References(ts, id) {
          ReferencedIsListed(orders, ts, id);
          var k :| 0 <= k < |all| && all[k].id == id;
        } else {
          UntouchedIsZero(ts, id);
        }
      }
    }
  }

  lemma TouchedNonNegative(ts: seq<Proposal>, id: OrderId)
    requires forall i :: 0 <= i < |ts| ==> ts[i].quantity > 0
    ensures Touched(ts, id) >= 0
  {
    SumNonNegative(Shares(ts, id));
  }

  lemma EntryIsOrder(orders: seq<Order>, e: Entry)
    requires e in SessionBook(orders).buys + SessionBook(orders).sells
    ensures 0 <= e.id < |orders| && e == ToEntry(e.id, orders[e.id], None)
  {
    hide Entries;
  }

  lemma ReferencedIsListed(orders: seq<Order>, ts: seq<Proposal>, id: OrderId)
    requires forall i :: 0 <= i < |ts| ==> Shapely(ts[i], SessionBook(orders))
    requires References(ts, id)
    ensures Listed(SessionBook(orders).buys + SessionBook(orders).sells, id)
  {
    hide SessionBook;
    var book := SessionBook(orders);
    var i :| 0 <= i < |ts| && (ts[i].buy == id || ts[i].sell == id);
    assert Shapely(ts[i], book);
    var all := book.buys + book.sells;
    if Listed(book.buys, id) {
      var k :| 0 <= k < |book.buys| && book.buys[k].id == id;
      assert all[k].id == id;
    } else {
      var k :| 0 <= k < |book.sells| && book.sells[k].id == id;
      assert all[|book.buys| + k].id == id;
    }
  }

  // ---- the service ---------------------------------------------------------

  /** `_validate_result`: one pass with a running total per order, then the totals. */
  method ValidateResult(ts: seq<Proposal>, book: Book) returns (error: Option<ClearError>)
    requires WellFormedBook(book)
    ensures error == FirstError(Known(book.buys + book.sells), ts, 0)
    ensures error.None? <==> ValidOutput(ts, book)
  {
    hide Known, ValidOutput, Tallied, Overfills, Commit;
    CheckIsExact(book, ts);
    var known := Known(book.buys + book.sells);
    var committed: map<OrderId, int> := map[];
    var i := 0;
    assert ts[..0] == [];
    NothingTallied();
    while i < |ts|
      invariant 0 <= i <= |ts|
      invariant FirstError(known, ts, 0) == FirstError(known, ts, i)
      invariant Tallied(committed, ts[..i]) && committed.Keys <= known.Keys
    {
      var t := ts[i];
      error := TradeError(known, t);
      if error.Some? {
        return;
      }
      TallyStep(committed, ts[..i], t);
      CommitKeys(committed, t);
      committed := Commit(Commit(committed, t.buy, t.quantity), t.sell, t.quantity);
      assert ts[..i + 1] == ts[..i] + [t];
      i := i + 1;
    }
    assert ts[..i] == ts;
    TotalsDecide(known, committed, ts);
    error := CheckTotals(known, committed);
  }

  method CheckTotals(known: map<OrderId, Entry>, committed: map<OrderId, int>) returns (error: Option<ClearError>)
    requires committed.Keys <= known.Keys
    ensures error == if exists id :: id in committed && committed[id] > known[id].remaining then Some(OverFilled) else None
  {
    var todo := committed.Keys;
    while todo != {}
      invariant todo <= committed.Keys
      invariant forall id :: id in committed && id !in todo ==> committed[id] <= known[id].remaining
      decreases |todo|
    {
      Inhabited(todo);
      var id: OrderId :| id in todo;
      if committed[id] > known[id].remaining {
        return Some(OverFilled);
      }
      todo := todo - {id};
    }
    error := None;
  }

  /** The running totals after some trades. */
  ghost predicate Tallied(committed: map<OrderId, int>, ts: seq<Proposal>) {
    && (forall id :: id in committed <==> References(ts, id))
    && (forall id :: id in committed ==> committed[id] == Touched(ts, id))
  }

  lemma NothingTallied()
    ensures Tallied(map[], [])
  {
    forall id ensures !References([], id) { NoneReferenced(id); }
  }

  lemma CommitKeys(committed: map<OrderId, int>, t: Proposal)
    ensures Commit(Commit(committed, t.buy, t.quantity), t.sell, t.quantity).Keys == committed.Keys + {t.buy, t.sell}
  {
  }

  lemma TotalsDecide(known: map<OrderId, Entry>, committed: map<OrderId, int>, ts: seq<Proposal>)
    requires Tallied(committed, ts) && committed.Keys <= known.Keys
    ensures Overfills(known, ts) <==> exists id :: id in committed && committed[id] > known[id].remaining
  {
    hide Touched, References;
  }

  lemma TallyStep(committed: map<OrderId, int>, ts: seq<Proposal>, t: Proposal)
    requires Tallied(committed, ts) && t.buy != t.sell
    ensures Tallied(Commit(Commit(committed, t.buy, t.quantity), t.sell, t.quantity), ts + [t])
  {
    hide Touched, References;
    forall id
      ensures References(ts + [t], id) <==> References(ts, id) || t.buy == id || t.sell == id
      ensures Touched(ts + [t], id) == Touched(ts, id) + Share(t, id)
      ensures !References(ts, id) ==> Touched(ts, id) == 0
    {
      ReferencesAppend(ts, t, id);
      TouchedAppend(ts, t, id);
      if !References(ts, id) { UntouchedIsZero(ts, id); }
    }
  }

  lemma NoneReferenced(id: OrderId)
    ensures !References([], id) && Touched([], id) == 0
  {
    TouchedNothing(id);
  }

  function Commit(m: map<OrderId, int>, id: OrderId, quantity: int): map<OrderId, int> {
    m[id := (if id in m then m[id] else 0) + quantity]
  }

  lemma ShapesOfValid(ts: seq<Proposal>, book: Book)
    requires ValidOutput(ts, book)
    ensures forall i :: 0 <= i < |ts| ==> Shapely(ts[i], book)
  {
  }
}
