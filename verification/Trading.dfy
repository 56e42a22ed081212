/** What placing, cancelling, clearing and direct matches keep. */
module Trading {
  import opened Base
  import opened Orders
  import opened Ledger
  import Matching
  import Market

  // ---- the invariant -------------------------------------------------------

  /** An order's status says how full it is. */
  predicate OrderOk(o: Order) {
    && o.energy > 0 && o.limit >= 0 && o.end == o.start + INTERVAL
    && 0 <= o.matched <= o.energy
    && (o.status.Open? || o.status.Cancelled? ==> o.matched == 0)
    && (o.status.PartiallyFilled? ==> 0 < o.matched < o.energy)
    && (o.status.Filled? ==> o.matched == o.energy)
    && (o.status.Rejected? ==> o.matched < o.energy)
  }

  predicate TradeOk(orders: seq<Order>, t: Trade) {
    && 0 <= t.buy < |orders| && 0 <= t.sell < |orders|
    && orders[t.buy].side == Buy && orders[t.sell].side == Sell
    && orders[t.buy].user != orders[t.sell].user
    && orders[t.buy].start == t.start && orders[t.sell].start == t.start && t.end == t.start + INTERVAL
    && t.quantity > 0 && t.clearing >= 0 && t.price >= 0
    && (t.status != Refused ==> orders[t.sell].limit <= t.price <= orders[t.buy].limit)
  }

  /** What a trade books on an order; a refused trade books nothing. */
  function TradeShare(t: Trade, id: OrderId): int {
    if t.status != Refused && (t.buy == id || t.sell == id) then t.quantity else 0
  }

  function TradeShares(trades: seq<Trade>, id: OrderId): seq<int> {
    seq(|trades|, i requires 0 <= i < |trades| => TradeShare(trades[i], id))
  }

  function Booked(trades: seq<Trade>, id: OrderId): int {
    Sum(TradeShares(trades, id))
  }

  predicate OrdersOk(orders: seq<Order>) {
    forall i :: 0 <= i < |orders| ==> OrderOk(orders[i])
  }

  predicate TradesOk(orders: seq<Order>, trades: seq<Trade>) {
    forall i :: 0 <= i < |trades| ==> TradeOk(orders, trades[i])
  }

  predicate MatchedOk(orders: seq<Order>, trades: seq<Trade>) {
    forall i :: 0 <= i < |orders| ==> orders[i].matched == Booked(trades, i)
  }

  /** Two fills of one pairing never share a number. */
  predicate FillsNumbered(trades: seq<Trade>) {
    forall i, j :: 0 <= i < j < |trades| ==>
      !(trades[i].buy == trades[j].buy && trades[i].sell == trades[j].sell
        && trades[i].start == trades[j].start && trades[i].fill == trades[j].fill)
  }

  predicate BooksOk(b: Books) {
    OrdersOk(b.orders) && TradesOk(b.orders, b.trades) && MatchedOk(b.orders, b.trades) && FillsNumbered(b.trades)
  }

  /** No slot of any site is promised beyond its forecast surplus. */
  ghost predicate SurplusOk(orders: seq<Order>, forecasts: map<Key, Forecast>) {
    forall k :: Reserved(orders, k) <= SurplusOf(forecasts, k)
  }

  predicate ActionsOk(s: State) {
    forall a :: a in s.actions ==> 0 <= s.actions[a].trade < |s.trades|
  }

  ghost predicate TradingOk(s: State) {
    BooksOk(Books(s.orders, s.trades)) && SurplusOk(s.orders, s.forecasts) && ActionsOk(s)
  }

  /** Orders only move in what is matched and in their status. */
  predicate SameTerms(a: seq<Order>, b: seq<Order>) {
    |a| <= |b| && forall i :: 0 <= i < |a| ==> b[i].(matched := a[i].matched, status := a[i].status) == a[i]
  }

  ghost predicate NoMoreReserved(a: seq<Order>, b: seq<Order>) {
    forall k :: Reserved(b, k) <= Reserved(a, k)
  }

  // ---- sums over the tables ------------------------------------------------

  lemma ReservedUpdate(orders: seq<Order>, i: nat, o: Order, k: Key)
    requires i < |orders|
    ensures Reserved(orders[i := o], k) == Reserved(orders, k) - Reservation(orders[i], k) + Reservation(o, k)
  {
    assert Reservations(orders[i := o], k) == Reservations(orders, k)[i := Reservation(o, k)];
    SumUpdate(Reservations(orders, k), i, Reservation(o, k));
  }

  lemma ReservedAppend(orders: seq<Order>, o: Order, k: Key)
    ensures Reserved(orders + [o], k) == Reserved(orders, k) + Reservation(o, k)
  {
    assert Reservations(orders + [o], k) == Reservations(orders, k) + [Reservation(o, k)];
    SumAppend(Reservations(orders, k), Reservation(o, k));
  }

  lemma BookedAppend(trades: seq<Trade>, t: Trade, id: OrderId)
    ensures Booked(trades + [t], id) == Booked(trades, id) + TradeShare(t, id)
  {
    assert TradeShares(trades + [t], id) == TradeShares(trades, id) + [TradeShare(t, id)];
    SumAppend(TradeShares(trades, id), TradeShare(t, id));
  }

  lemma BookedNothing(orders: seq<Order>, trades: seq<Trade>, id: OrderId)
    requires TradesOk(orders, trades) && id >= |orders|
    ensures Booked(trades, id) == 0
  {
    forall i | 0 <= i < |trades| ensures TradeShare(trades[i], id) == 0 {
      assert TradeOk(orders, trades[i]);
    }
    SumOfZeros(TradeShares(trades, id));
  }

  // ---- one proposal --------------------------------------------------------

  /** The proposals still to be processed fit what the orders have left. */
  predicate Fitting(orders: seq<Order>, p: Proposal, start: int) {
    && 0 <= p.buy < |orders| && 0 <= p.sell < |orders|
    && orders[p.buy].side == Buy && orders[p.sell].side == Sell
    && orders[p.buy].user != orders[p.sell].user
    && orders[p.buy].start == start && orders[p.sell].start == start
    && !orders[p.buy].status.Cancelled? && !orders[p.sell].status.Cancelled?
    && p.quantity > 0 && p.price >= 0
  }

  predicate Pending(orders: seq<Order>, ps: seq<Proposal>, start: int) {
    && (forall k :: 0 <= k < |ps| ==> Fitting(orders, ps[k], start))
    && (forall id :: 0 <= id < |orders| ==> Touched(ps, id) <= orders[id].Remaining())
  }

  lemma HeadFits(orders: seq<Order>, ps: seq<Proposal>, start: int, id: OrderId)
    requires Pending(orders, ps, start) && |ps| > 0 && 0 <= id < |orders|
    ensures Touched(ps[1..], id) >= 0
    ensures Share(ps[0], id) + Touched(ps[1..], id) <= orders[id].Remaining()
  {
    hide Touched;
    TouchedHead(ps, id);
    assert forall k :: 0 <= k < |ps[1..]| ==> ps[1..][k] == ps[k + 1];
    Market.TouchedNonNegative(ps[1..], id);
  }

  lemma JudgeKeeps(o: Order, quantity: int, accepted: bool, k: Key)
    requires OrderOk(o) && !o.status.Cancelled? && !o.status.Rejected? && 0 < quantity <= o.Remaining()
    ensures OrderOk(Judge(o, quantity, accepted)) && !Judge(o, quantity, accepted).status.Cancelled?
    ensures Reservation(Judge(o, quantity, accepted), k) <= Reservation(o, k)
  {
  }

  predicate Judged(b: Books, p: Proposal, start: int, safe: bool, env: Env) {
    && 0 <= p.buy < |b.orders| && 0 <= p.sell < |b.orders| && p.buy != p.sell
    && !Skipped(b, p)
    && env.quote(p, b.orders[p.sell].site).Some? && env.quote(p, b.orders[p.sell].site).value >= 0
  }

  function Verdict(b: Books, p: Proposal, safe: bool, env: Env): bool
    requires 0 <= p.buy < |b.orders| && 0 <= p.sell < |b.orders| && env.quote(p, b.orders[p.sell].site).Some?
  {
    Accepted(b.orders[p.buy], b.orders[p.sell], safe, env.quote(p, b.orders[p.sell].site).value)
  }

  lemma JudgedFill(b: Books, p: Proposal, start: int, safe: bool, env: Env)
    requires FillOne(b, p, start, safe, env).Ok?
    ensures 0 <= p.buy < |b.orders| && 0 <= p.sell < |b.orders|
    ensures Skipped(b, p) ==> FillOne(b, p, start, safe, env).value == b
    ensures !Skipped(b, p) ==> Judged(b, p, start, safe, env)
    ensures !Skipped(b, p) ==> (
      var price := env.quote(p, b.orders[p.sell].site).value;
      var ok := Verdict(b, p, safe, env);
      FillOne(b, p, start, safe, env).value == Books(
        b.orders[p.buy := Judge(b.orders[p.buy], p.quantity, ok)][p.sell := Judge(b.orders[p.sell], p.quantity, ok)],
        b.trades + [NewTrade(b, p, start, price, ok)]))
  {
  }

  lemma FillOrders(orders: seq<Order>, ps: seq<Proposal>, start: int, ok: bool)
    requires OrdersOk(orders) && Pending(orders, ps, start) && |ps| > 0
    requires !orders[ps[0].buy].status.Rejected? && !orders[ps[0].sell].status.Rejected?
    ensures var p := ps[0];
      var after := orders[p.buy := Judge(orders[p.buy], p.quantity, ok)][p.sell := Judge(orders[p.sell], p.quantity, ok)];
      OrdersOk(after) && SameTerms(orders, after) && NoMoreReserved(orders, after) && Pending(after, ps[1..], start)
  {
    hide Touched, Reserved, Reservation;
    var p := ps[0];
    assert Fitting(orders, p, start);
    HeadFits(orders, ps, start, p.buy);
    HeadFits(orders, ps, start, p.sell);
    var buy, sell := Judge(orders[p.buy], p.quantity, ok), Judge(orders[p.sell], p.quantity, ok);
    JudgeKeeps(orders[p.buy], p.quantity, ok, Key(0, 0));
    JudgeKeeps(orders[p.sell], p.quantity, ok, Key(0, 0));
    var mid := orders[p.buy := buy];
    var after := mid[p.sell := sell];
    forall k ensures Reserved(after, k) <= Reserved(orders, k) {
      JudgeKeeps(orders[p.buy], p.quantity, ok, k);
      JudgeKeeps(orders[p.sell], p.quantity, ok, k);
      ReservedUpdate(orders, p.buy, buy, k);
      ReservedUpdate(mid, p.sell, sell, k);
    }
    forall id | 0 <= id < |after| ensures Touched(ps[1..], id) <= after[id].Remaining() {
      HeadFits(orders, ps, start, id);
    }
    forall i | 0 <= i < |ps[1..]| ensures Fitting(after, ps[1..][i], start) {
      assert Fitting(orders, ps[i + 1], start);
    }
  }

  lemma FillTrades(b: Books, p: Proposal, start: int, price: int, ok: bool)
    requires BooksOk(b) && Fitting(b.orders, p, start) && price >= 0
    requires ok ==> b.orders[p.sell].limit <= price <= b.orders[p.buy].limit
    ensures var after := b.orders[p.buy := Judge(b.orders[p.buy], p.quantity, ok)][p.sell := Judge(b.orders[p.sell], p.quantity, ok)];
      var trades := b.trades + [NewTrade(b, p, start, price, ok)];
      TradesOk(after, trades) && MatchedOk(after, trades) && FillsNumbered(trades)
  {
    hide Booked;
    var t := NewTrade(b, p, start, price, ok);
    var after := b.orders[p.buy := Judge(b.orders[p.buy], p.quantity, ok)][p.sell := Judge(b.orders[p.sell], p.quantity, ok)];
    forall i | 0 <= i < |b.trades| ensures TradeOk(after, b.trades[i]) {
      assert TradeOk(b.orders, b.trades[i]);
    }
    forall i | 0 <= i < |after| ensures after[i].matched == Booked(b.trades + [t], i) {
      BookedAppend(b.trades, t, i);
    }
  }

  lemma FillOneKeeps(b: Books, ps: seq<Proposal>, start: int, safe: bool, env: Env)
    requires BooksOk(b) && |ps| > 0 && Pending(b.orders, ps, start)
    requires FillOne(b, ps[0], start, safe, env).Ok?
    ensures var r := FillOne(b, ps[0], start, safe, env).value;
      && BooksOk(r) && Pending(r.orders, ps[1..], start)
      && SameTerms(b.orders, r.orders) && NoMoreReserved(b.orders, r.orders) && b.trades <= r.trades
  {
    hide Touched, Reserved, Booked, FillOne, MatchedOk, FillsNumbered, Judge;
    JudgedFill(b, ps[0], start, safe, env);
    assert Fitting(b.orders, ps[0], start);
    if Skipped(b, ps[0]) {
      forall id | 0 <= id < |b.orders| ensures Touched(ps[1..], id) <= b.orders[id].Remaining() {
        HeadFits(b.orders, ps, start, id);
        ShareNonNegative(ps[0], id);
      }
    } else {
      var ok := Verdict(b, ps[0], safe, env);
      FillOrders(b.orders, ps, start, ok);
      FillTrades(b, ps[0], start, env.quote(ps[0], b.orders[ps[0].sell].site).value, ok);
    }
  }

  lemma ShareNonNegative(p: Proposal, id: OrderId)
    requires p.quantity > 0
    ensures Share(p, id) >= 0
  {
  }

  /** What every step of a clearing keeps. */
  ghost predicate Progress(b: Books, r: Books) {
    && BooksOk(r) && SameTerms(b.orders, r.orders) && |r.orders| == |b.orders|
    && NoMoreReserved(b.orders, r.orders) && b.trades <= r.trades && Unsettled(r.trades, |b.trades|)
  }

  /** Clearing creates committed and refused trades only. */
  predicate Unsettled(trades: seq<Trade>, from: nat) {
    forall i :: from <= i < |trades| ==> trades[i].status != Settled
  }

  lemma {:induction false} FillAllKeeps(b: Books, ps: seq<Proposal>, start: int, safe: bool, env: Env)
    requires BooksOk(b) && Pending(b.orders, ps, start) && FillAll(b, ps, start, safe, env).Ok?
    ensures Progress(b, FillAll(b, ps, start, safe, env).value)
    ensures NeverCancels(b.orders, FillAll(b, ps, start, safe, env).value.orders)
    decreases |ps|
  {
    hide Touched, Reserved, BooksOk, Pending, FillOne;
    if |ps| > 0 {
      FillOneKeeps(b, ps, start, safe, env);
      var r := FillOne(b, ps[0], start, safe, env).value;
      FillOneShape(b, ps[0], start, safe, env);
      FillAllKeeps(r, ps[1..], start, safe, env);
    }
  }

  predicate NeverCancels(a: seq<Order>, b: seq<Order>) {
    |a| == |b| && forall i :: 0 <= i < |a| && b[i].status.Cancelled? ==> a[i].status.Cancelled?
  }

  lemma FillOneShape(b: Books, p: Proposal, start: int, safe: bool, env: Env)
    requires FillOne(b, p, start, safe, env).Ok?
    ensures |FillOne(b, p, start, safe, env).value.orders| == |b.orders|
    ensures NeverCancels(b.orders, FillOne(b, p, start, safe, env).value.orders)
    ensures Unsettled(FillOne(b, p, start, safe, env).value.trades, |b.trades|)
  {
    hide LastFill;
  }

  // ---- a slot --------------------------------------------------------------

  predicate Clearable(orders: seq<Order>, ids: seq<OrderId>) {
    DistinctIds(ids) && forall i :: 0 <= i < |ids| ==> 0 <= ids[i] < |orders| && !orders[ids[i]].status.Cancelled?
  }

  /** Whatever the engine proposes for a slot fits the orders of the slot. */
  lemma SlotFits(orders: seq<Order>, ids: seq<OrderId>, start: int, cap: Option<int>)
    requires OrdersOk(orders) && Clearable(orders, ids)
    ensures Pending(orders, Matching.Match(BookOf(orders, Group(orders, ids, start), cap)), start)
  {
    hide Touched, Matching.Match, Group, Entries;
    var group := Group(orders, ids, start);
    GroupDistinct(orders, ids, start);
    BookOfWellFormed(orders, group, cap);
    var book := BookOf(orders, group, cap);
    var ps := Matching.Match(book);
    forall k | 0 <= k < |ps| ensures Fitting(orders, ps[k], start) {
      Matching.MatchIsSound(book, k);
      var b, s :| b in book.buys && s in book.sells && b.remaining > 0 && s.remaining > 0 && Matching.Agreed(ps[k], b, s);
      EntryInGroup(orders, ids, start, cap, b);
      EntryInGroup(orders, ids, start, cap, s);
    }
    forall id | 0 <= id < |orders| ensures Touched(ps, id) <= orders[id].Remaining() {
      if References(ps, id) {
        TouchedInGroup(orders, ids, start, cap, id);
      } else {
        UntouchedIsZero(ps, id);
      }
    }
  }

  lemma EntryInGroup(orders: seq<Order>, ids: seq<OrderId>, start: int, cap: Option<int>, e: Entry)
    requires OrdersOk(orders) && Clearable(orders, ids)
    requires var book := BookOf(orders, Group(orders, ids, start), cap); e in book.buys + book.sells
    ensures 0 <= e.id < |orders| && e == ToEntry(e.id, orders[e.id], cap)
    ensures orders[e.id].start == start && !orders[e.id].status.Cancelled? && OrderOk(orders[e.id])
    ensures e.side == orders[e.id].side && e.remaining <= orders[e.id].Remaining()
    ensures cap.Some? ==> e.remaining <= cap.value
  {
    hide Group, Entries;
    var group := Group(orders, ids, start);
    var book := BookOf(orders, group, cap);
    assert e.id in group;
    var i :| 0 <= i < |group| && group[i] == e.id;
    assert group[i] in ids;
  }

  lemma TouchedInGroup(orders: seq<Order>, ids: seq<OrderId>, start: int, cap: Option<int>, id: OrderId)
    requires OrdersOk(orders) && Clearable(orders, ids) && 0 <= id < |orders|
    requires References(Matching.Match(BookOf(orders, Group(orders, ids, start), cap)), id)
    ensures Touched(Matching.Match(BookOf(orders, Group(orders, ids, start), cap)), id) <= orders[id].Remaining()
    ensures cap.Some? ==> Touched(Matching.Match(BookOf(orders, Group(orders, ids, start), cap)), id) <= Max(0, cap.value)
  {
    hide Touched, Matching.Match, Group, Entries;
    var group := Group(orders, ids, start);
    GroupDistinct(orders, ids, start);
    BookOfWellFormed(orders, group, cap);
    var book := BookOf(orders, group, cap);
    var ps := Matching.Match(book);
    var k :| 0 <= k < |ps| && (ps[k].buy == id || ps[k].sell == id);
    Matching.MatchIsSound(book, k);
    var b, s :| b in book.buys && s in book.sells && b.remaining > 0 && s.remaining > 0 && Matching.Agreed(ps[k], b, s);
    var e := if ps[k].buy == id then b else s;
    EntryInGroup(orders, ids, start, cap, e);
    Matching.MatchWithinRemaining(book, e);
  }

  lemma ClearSlotKeeps(b: Books, ids: seq<OrderId>, start: int, cap: Option<int>, env: Env)
    requires BooksOk(b) && Clearable(b.orders, ids) && ClearSlot(b, ids, start, cap, env).Ok?
    ensures Progress(b, ClearSlot(b, ids, start, cap, env).value)
    ensures Clearable(ClearSlot(b, ids, start, cap, env).value.orders, ids)
  {
    hide Matching.Match, Group, BookOf, Reserved, MatchedOk, FillsNumbered, TradesOk, FillAll;
    SlotFits(b.orders, ids, start, cap);
    var ps := Matching.Match(BookOf(b.orders, Group(b.orders, ids, start), cap));
    if |ps| > 0 {
      FillAllKeeps(b, ps, start, env.grid(start).value, env);
    }
  }

  lemma ProgressTransitive(a: Books, b: Books, c: Books)
    requires Progress(a, b) && Progress(b, c)
    ensures Progress(a, c)
  {
    hide Reserved, BooksOk;
    forall k ensures Reserved(c.orders, k) <= Reserved(a.orders, k) {
      assert Reserved(b.orders, k) <= Reserved(a.orders, k);
    }
  }

  lemma {:induction false} ClearSlotsKeeps(b: Books, ids: seq<OrderId>, starts: seq<int>, cap: Option<int>, env: Env)
    requires BooksOk(b) && Clearable(b.orders, ids) && ClearSlots(b, ids, starts, cap, env).Ok?
    ensures Progress(b, ClearSlots(b, ids, starts, cap, env).value)
    decreases |starts|
  {
    hide ClearSlot, Reserved, OrdersOk, TradesOk, MatchedOk, FillsNumbered;
    if |starts| > 0 {
      ClearSlotKeeps(b, ids, starts[0], cap, env);
      var r := ClearSlot(b, ids, starts[0], cap, env).value;
      ClearSlotsKeeps(r, ids, starts[1..], cap, env);
      ProgressTransitive(b, r, ClearSlots(b, ids, starts, cap, env).value);
    }
  }

  // ---- operations ----------------------------------------------------------

  /** A clearing keeps the books in agreement and promises no more energy. */
  lemma ClearKeeps(s: State, only: Option<set<OrderId>>, cap: Option<int>, env: Env)
    requires TradingOk(s) && Clear(s, only, cap, env).Ok?
    ensures TradingOk(Clear(s, only, cap, env).value)
    ensures SameTerms(s.orders, Clear(s, only, cap, env).value.orders)
    ensures |Clear(s, only, cap, env).value.orders| == |s.orders|
    ensures s.trades <= Clear(s, only, cap, env).value.trades
    ensures Unsettled(Clear(s, only, cap, env).value.trades, |s.trades|)
  {
    hide ClearSlots, Reserved, OpenIds, Starts, OrdersOk, TradesOk, MatchedOk, FillsNumbered;
    var ids := OpenIds(s.orders, s.clock, only);
    var b := Books(s.orders, s.trades);
    ClearSlotsKeeps(b, ids, Starts(s.orders, ids), cap, env);
    var r := Clear(s, only, cap, env).value;
    forall k ensures Reserved(r.orders, k) <= SurplusOf(r.forecasts, k) {
      assert Reserved(s.orders, k) <= SurplusOf(s.forecasts, k);
    }
  }

  lemma AppendOrder(s: State, o: Order)
    requires TradingOk(s) && OrderOk(o) && o.matched == 0 && o.status == Open
    requires forall k :: Reservation(o, k) > 0 ==> Reserved(s.orders, k) + Reservation(o, k) <= SurplusOf(s.forecasts, k)
    ensures TradingOk(s.(orders := s.orders + [o]))
  {
    hide Reserved, Reservation, Booked, SurplusOf;
    var orders := s.orders + [o];
    BookedNothing(s.orders, s.trades, |s.orders|);
    forall i | 0 <= i < |s.trades| ensures TradeOk(orders, s.trades[i]) {
      assert TradeOk(s.orders, s.trades[i]);
    }
    forall k ensures Reserved(orders, k) <= SurplusOf(s.forecasts, k) {
      ReservedAppend(s.orders, o, k);
      assert Reserved(s.orders, k) <= SurplusOf(s.forecasts, k);
    }
  }

  /** A placed order is backed by unreserved surplus. */
  lemma PlaceKeeps(s: State, user: UserId, start: int, side: Side, quantity: int, price: int, created: int)
    requires TradingOk(s) && PlaceError(s, user, start, side, quantity, price).None?
    ensures TradingOk(s.(orders := s.orders + [NewOrder(user, s.siteOf[user], start, side, quantity, price, created)]))
  {
    hide TradingOk, Reserved;
    AppendOrder(s, NewOrder(user, s.siteOf[user], start, side, quantity, price, created));
  }

  lemma CancelKeeps(s: State, user: UserId, id: OrderId)
    requires TradingOk(s) && Cancel(s, user, id).Ok?
    ensures TradingOk(Cancel(s, user, id).value)
  {
    hide Reserved, Booked, SurplusOf;
    var o := s.orders[id].(status := Cancelled);
    var orders := s.orders[id := o];
    assert OrderOk(s.orders[id]);
    forall i | 0 <= i < |s.trades| ensures TradeOk(orders, s.trades[i]) {
      assert TradeOk(s.orders, s.trades[i]);
    }
    forall k ensures Reserved(orders, k) <= SurplusOf(s.forecasts, k) {
      ReservedUpdate(s.orders, id, o, k);
      assert Reserved(s.orders, k) <= SurplusOf(s.forecasts, k);
    }
  }

  lemma PrepareKeeps(s: State, q: Acceptance)
    requires TradingOk(s) && AcceptError(s, q).None?
    ensures TradingOk(Prepare(s, q)) && SameTerms(s.orders, Prepare(s, q).orders) && Prepare(s, q).trades == s.trades
  {
    hide TradingOk, PlaceError;
    if q.own.None? {
      var offer := s.orders[q.offer];
      PlaceKeeps(s, q.user, offer.start, Opposite(offer.side), q.quantity, q.price, q.created);
    }
  }

  lemma AcceptKeeps(s: State, q: Acceptance, env: Env)
    requires TradingOk(s) && Accept(s, q, env).Ok?
    ensures TradingOk(Accept(s, q, env).value)
    ensures SameTerms(s.orders, Accept(s, q, env).value.orders) && s.trades <= Accept(s, q, env).value.trades
    ensures Unsettled(Accept(s, q, env).value.trades, |s.trades|)
  {
    hide Clear, BooksOk, SurplusOk, AcceptError, Prepare;
    if (q.user, q.request) !in s.actions {
      PrepareKeeps(s, q);
      ClearKeeps(Prepare(s, q), Some({OwnId(s, q), q.offer}), Some(q.quantity), env);
      SameTermsTransitive(s.orders, Prepare(s, q).orders, Accept(s, q, env).value.orders);
    }
  }

  lemma SameTermsTransitive(a: seq<Order>, b: seq<Order>, c: seq<Order>)
    requires SameTerms(a, b) && SameTerms(b, c)
    ensures SameTerms(a, c)
  {
  }
}
