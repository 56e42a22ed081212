/** What reconciliation keeps: the allocator never uses a reading twice, leaves
    nothing deliverable undelivered, and writes each settlement once. */
module Delivery {
  import opened Base
  import opened Orders
  import opened Ledger
  import opened Trading

  // ---- the invariant -------------------------------------------------------

  function ExportCap(readings: map<Key, Reading>, k: Key): int {
    if k in readings && readings[k].exportKwh.Some? then Max(0, readings[k].exportKwh.value) else 0
  }

  function ImportCap(readings: map<Key, Reading>, k: Key): int {
    if k in readings && readings[k].importKwh.Some? then Max(0, readings[k].importKwh.value) else 0
  }

  predicate SameLength(s: State) {
    && |s.reconciliations| == |s.allocations| && |s.settlements| == |s.allocations|
    && |s.receipts| == |s.allocations| && |s.journal| == 2 * |s.allocations|
  }

  /** The rows written together for one settled trade agree with it. */
  predicate RowOk(s: State, i: nat)
    requires i < |s.allocations| && SameLength(s)
  {
    var a := s.allocations[i];
    && 0 <= a.trade < |s.trades| && s.trades[a.trade].status == Settled
    && HasOrders(s, s.trades[a.trade])
    && var t := s.trades[a.trade];
    var gross := RoundHalfEven(a.energy * t.price, PAISA);
    && a.seller == SellerKey(s, t) && a.buyer == BuyerKey(s, t) && Measured(s, t)
    && 0 <= a.energy <= t.quantity
    && s.reconciliations[i] == Reconciliation(a.trade, t.quantity, a.energy, a.energy - t.quantity,
                                              20 * (t.quantity - a.energy) <= t.quantity, t.quantity - a.energy)
    && s.settlements[i].(at := 0) == Settlement(a.trade, s.orders[t.buy].user, s.orders[t.sell].user, a.energy, gross, 0)
    && s.journal[2 * i] == Posting(i, s.orders[t.buy].user, -gross)
    && s.journal[2 * i + 1] == Posting(i, s.orders[t.sell].user, gross)
    && s.receipts[i] == Receipt(a.trade, i, t.quantity, a.energy, t.price, gross, t.start)
  }

  predicate RowsOk(s: State) {
    SameLength(s) && forall i :: 0 <= i < |s.allocations| ==> RowOk(s, i)
  }

  predicate OneRowEach(s: State) {
    && (forall i, j :: 0 <= i < j < |s.allocations| ==> s.allocations[i].trade != s.allocations[j].trade)
    && (forall t :: 0 <= t < |s.trades| && s.trades[t].status == Settled ==> HasRow(s.allocations, t))
  }

  predicate HasRow(rows: seq<Allocation>, t: int) {
    exists i :: 0 <= i < |rows| && rows[i].trade == t
  }

  ghost predicate WithinMeters(rows: seq<Allocation>, readings: map<Key, Reading>) {
    forall k :: SellerUsed(rows, k) <= ExportCap(readings, k) && BuyerUsed(rows, k) <= ImportCap(readings, k)
  }

  /** A trade settled short has used up its seller's export or its buyer's import. */
  predicate Blocked(rows: seq<Allocation>, readings: map<Key, Reading>, a: Allocation) {
    || SellerUsed(rows, a.seller) == ExportCap(readings, a.seller)
    || BuyerUsed(rows, a.buyer) == ImportCap(readings, a.buyer)
  }

  predicate NothingWasted(s: State) {
    forall i :: 0 <= i < |s.allocations| && Shorted(s, s.allocations[i]) ==>
      Blocked(s.allocations, s.readings, s.allocations[i])
  }

  predicate Shorted(s: State, a: Allocation) {
    0 <= a.trade < |s.trades| && a.energy < s.trades[a.trade].quantity
  }

  ghost predicate DeliveryOk(s: State) {
    RowsOk(s) && OneRowEach(s) && WithinMeters(s.allocations, s.readings) && NothingWasted(s)
  }

  // ---- sums ----------------------------------------------------------------

  lemma UsedAppend(rows: seq<Allocation>, a: Allocation, k: Key)
    ensures SellerUsed(rows + [a], k) == SellerUsed(rows, k) + SellerShare(a, k)
    ensures BuyerUsed(rows + [a], k) == BuyerUsed(rows, k) + BuyerShare(a, k)
  {
    var all := rows + [a];
    var sells := seq(|rows|, i requires 0 <= i < |rows| => SellerShare(rows[i], k));
    var buys := seq(|rows|, i requires 0 <= i < |rows| => BuyerShare(rows[i], k));
    assert seq(|all|, i requires 0 <= i < |all| => SellerShare(all[i], k)) == sells + [SellerShare(a, k)];
    assert seq(|all|, i requires 0 <= i < |all| => BuyerShare(all[i], k)) == buys + [BuyerShare(a, k)];
    SumAppend(sells, SellerShare(a, k));
    SumAppend(buys, BuyerShare(a, k));
  }

  // ---- tables that only grow -----------------------------------------------

  ghost predicate Extends<K, V>(a: map<K, V>, b: map<K, V>) {
    forall k :: k in a ==> k in b && b[k] == a[k]
  }

  lemma AddReadingsExtends(readings: map<Key, Reading>, keys: set<Key>, scenario: Scenario, env: Env)
    ensures Extends(readings, AddReadings(readings, keys, scenario, env))
  {
  }

  /** Delivery rows stay right when orders keep their terms, settled trades stay
      as they are and readings are only added. */
  ghost predicate Undisturbed(s: State, r: State) {
    && SameTerms(s.orders, r.orders)
    && s.trades <= r.trades && Unsettled(r.trades, |s.trades|)
    && Extends(s.readings, r.readings)
    && r.allocations == s.allocations && r.reconciliations == s.reconciliations
    && r.settlements == s.settlements && r.journal == s.journal && r.receipts == s.receipts
  }

  lemma RowUndisturbed(s: State, r: State, i: nat)
    requires SameLength(s) && i < |s.allocations| && RowOk(s, i) && Undisturbed(s, r)
    ensures SameLength(r) && RowOk(r, i)
  {
    hide RoundHalfEven, Unsettled;
    var a := s.allocations[i];
    var t := s.trades[a.trade];
    assert r.trades[a.trade] == t;
    assert r.orders[t.buy].site == s.orders[t.buy].site && r.orders[t.buy].user == s.orders[t.buy].user;
    assert r.orders[t.sell].site == s.orders[t.sell].site && r.orders[t.sell].user == s.orders[t.sell].user;
  }

  lemma DeliveryUndisturbed(s: State, r: State)
    requires DeliveryOk(s) && Undisturbed(s, r)
    ensures DeliveryOk(r)
  {
    hide SellerUsed, BuyerUsed, RowOk, SameTerms;
    forall i | 0 <= i < |r.allocations| ensures RowOk(r, i) {
      RowUndisturbed(s, r, i);
    }
    forall k ensures SellerUsed(r.allocations, k) <= ExportCap(r.readings, k)
      ensures BuyerUsed(r.allocations, k) <= ImportCap(r.readings, k)
    {
      assert SellerUsed(s.allocations, k) <= ExportCap(s.readings, k);
    }
    forall i | 0 <= i < |r.allocations| && Shorted(r, r.allocations[i])
      ensures Blocked(r.allocations, r.readings, r.allocations[i])
    {
      RowPlace(s, i);
      assert Shorted(s, s.allocations[i]);
    }
  }

  /** Where a row points. */
  lemma RowPlace(s: State, i: nat)
    requires SameLength(s) && i < |s.allocations| && RowOk(s, i)
    ensures var a := s.allocations[i];
      && 0 <= a.trade < |s.trades| && a.seller in s.readings && a.buyer in s.readings
      && s.trades[a.trade].status == Settled && 0 <= a.energy <= s.trades[a.trade].quantity
  {
    hide RoundHalfEven;
  }

  // ---- one settlement ------------------------------------------------------

  /** Settling a committed trade books the same energy. */
  lemma BookedSettled(trades: seq<Trade>, id: int, k: OrderId)
    requires 0 <= id < |trades| && trades[id].status == Committed
    ensures Booked(trades[id := trades[id].(status := Settled)], k) == Booked(trades, k)
  {
    assert TradeShares(trades[id := trades[id].(status := Settled)], k) == TradeShares(trades, k);
  }

  lemma SettleTrading(s: State, id: int)
    requires TradingOk(s) && 0 <= id < |s.trades| && s.trades[id].status == Committed
    ensures TradingOk(s.(trades := s.trades[id := s.trades[id].(status := Settled)]))
  {
    hide Reserved, SurplusOf, Booked;
    var trades := s.trades[id := s.trades[id].(status := Settled)];
    forall i | 0 <= i < |trades| ensures TradeOk(s.orders, trades[i]) {
      assert TradeOk(s.orders, s.trades[i]);
    }
    forall i | 0 <= i < |s.orders| ensures s.orders[i].matched == Booked(trades, i) {
      BookedSettled(s.trades, id, i);
    }
  }

  lemma UsedNonNegative(s: State, k: Key)
    requires RowsOk(s)
    ensures SellerUsed(s.allocations, k) >= 0 && BuyerUsed(s.allocations, k) >= 0
  {
    hide RowOk;
    var rows := s.allocations;
    forall i | 0 <= i < |rows| ensures rows[i].energy >= 0 { RowPlace(s, i); }
    SumNonNegative(seq(|rows|, i requires 0 <= i < |rows| => SellerShare(rows[i], k)));
    SumNonNegative(seq(|rows|, i requires 0 <= i < |rows| => BuyerShare(rows[i], k)));
  }

  lemma DeliveredBounds(s: State, id: int)
    requires 0 <= id < |s.trades| && HasOrders(s, s.trades[id]) && Measured(s, s.trades[id])
    requires s.trades[id].quantity > 0 && RowsOk(s) && WithinMeters(s.allocations, s.readings)
    ensures var t := s.trades[id];
      var seller, buyer, kwh := SellerKey(s, t), BuyerKey(s, t), Delivered(s, t);
      && 0 <= kwh <= t.quantity
      && SellerUsed(s.allocations, seller) + kwh <= ExportCap(s.readings, seller)
      && BuyerUsed(s.allocations, buyer) + kwh <= ImportCap(s.readings, buyer)
      && (kwh < t.quantity ==>
            || SellerUsed(s.allocations, seller) + kwh == ExportCap(s.readings, seller)
            || BuyerUsed(s.allocations, buyer) + kwh == ImportCap(s.readings, buyer))
  {
    hide SellerUsed, BuyerUsed, RowsOk;
    var t := s.trades[id];
    UsedNonNegative(s, SellerKey(s, t));
    UsedNonNegative(s, BuyerKey(s, t));
    assert SellerUsed(s.allocations, SellerKey(s, t)) <= ExportCap(s.readings, SellerKey(s, t));
    assert BuyerUsed(s.allocations, BuyerKey(s, t)) <= ImportCap(s.readings, BuyerKey(s, t));
  }

  lemma SettleMeters(s: State, id: int)
    requires DeliveryOk(s) && 0 <= id < |s.trades| && HasOrders(s, s.trades[id]) && Measured(s, s.trades[id])
    requires s.trades[id].quantity > 0
    ensures var r := SettleRows(s, id); WithinMeters(r.allocations, r.readings) && NothingWasted(r)
  {
    hide SellerUsed, BuyerUsed, RowOk, Delivered, RoundHalfEven, Measured;
    var t := s.trades[id];
    var r := SettleRows(s, id);
    var a := Allocation(id, SellerKey(s, t), BuyerKey(s, t), Delivered(s, t));
    assert r.allocations == s.allocations + [a];
    DeliveredBounds(s, id);
    forall k
      ensures SellerUsed(s.allocations, k) <= SellerUsed(r.allocations, k) <= ExportCap(r.readings, k)
      ensures BuyerUsed(s.allocations, k) <= BuyerUsed(r.allocations, k) <= ImportCap(r.readings, k)
    {
      UsedAppend(s.allocations, a, k);
      assert SellerUsed(s.allocations, k) <= ExportCap(s.readings, k);
    }
    forall i | 0 <= i < |r.allocations| && Shorted(r, r.allocations[i])
      ensures Blocked(r.allocations, r.readings, r.allocations[i])
    {
      if i < |s.allocations| {
        assert Shorted(s, s.allocations[i]);
        assert Blocked(s.allocations, s.readings, s.allocations[i]);
      } else {
        UsedAppend(s.allocations, a, a.seller);
        UsedAppend(s.allocations, a, a.buyer);
      }
    }
  }

  lemma SettleNewRow(s: State, id: int)
    requires RowsOk(s) && 0 <= id < |s.trades| && HasOrders(s, s.trades[id]) && Measured(s, s.trades[id])
    requires s.trades[id].quantity > 0 && WithinMeters(s.allocations, s.readings)
    ensures SameLength(SettleRows(s, id)) && RowOk(SettleRows(s, id), |s.allocations|)
  {
    hide SellerUsed, BuyerUsed, Delivered, RoundHalfEven;
    DeliveredBounds(s, id);
  }

  lemma SettleOldRow(s: State, id: int, i: nat)
    requires RowsOk(s) && 0 <= id < |s.trades| && HasOrders(s, s.trades[id]) && Measured(s, s.trades[id])
    requires s.trades[id].status == Committed && i < |s.allocations|
    ensures SameLength(SettleRows(s, id)) && RowOk(SettleRows(s, id), i)
  {
    hide SellerUsed, BuyerUsed, Delivered, RoundHalfEven;
    assert RowOk(s, i);
  }

  lemma TradingSame(s: State, r: State)
    requires TradingOk(s) && r.orders == s.orders && r.trades == s.trades
    requires r.forecasts == s.forecasts && r.actions == s.actions
    ensures TradingOk(r)
  {
    hide Reserved, SurplusOf, BooksOk;
    forall k ensures Reserved(r.orders, k) <= SurplusOf(r.forecasts, k) {
      assert Reserved(s.orders, k) <= SurplusOf(s.forecasts, k);
    }
  }

  /** Settling one committed trade writes one row of every kind for it. */
  lemma SettleOneKeeps(s: State, id: int)
    requires TradingOk(s) && DeliveryOk(s) && 0 <= id < |s.trades| && s.trades[id].status == Committed
    ensures TradingOk(SettleOne(s, id)) && DeliveryOk(SettleOne(s, id))
  {
    hide SellerUsed, BuyerUsed, Delivered, RoundHalfEven, RowOk, SurplusOk, MatchedOk, OrdersOk, FillsNumbered;
    SettleTrading(s, id);
    assert TradeOk(s.orders, s.trades[id]);
    if Measured(s, s.trades[id]) {
      var r := SettleRows(s, id);
      TradingSame(s.(trades := r.trades), r);
      SettleMeters(s, id);
      SettleNewRow(s, id);
      forall i | 0 <= i < |r.allocations| ensures RowOk(r, i) {
        if i < |s.allocations| { SettleOldRow(s, id, i); }
      }
      forall i | 0 <= i < |s.allocations| ensures s.allocations[i].trade != id {
        RowPlace(s, i);
      }
      forall t | 0 <= t < |r.trades| && r.trades[t].status == Settled ensures HasRow(r.allocations, t) {
        if t == id {
          assert r.allocations[|s.allocations|].trade == t;
        } else {
          var i :| 0 <= i < |s.allocations| && s.allocations[i].trade == t;
          assert r.allocations[i].trade == t;
        }
      }
    }
  }

  // ---- the due list --------------------------------------------------------

  predicate NoRepeatedIds(ids: seq<int>) {
    forall i, j :: 0 <= i < j < |ids| ==> ids[i] != ids[j]
  }

  /** By delivery start, then by creation. */
  predicate Chronological(trades: seq<Trade>, ids: seq<int>)
    requires forall i :: 0 <= i < |ids| ==> 0 <= ids[i] < |trades|
  {
    forall i, j :: 0 <= i < j < |ids| ==> Earlier(trades, ids[i], ids[j])
  }

  predicate Earlier(trades: seq<Trade>, a: int, b: int)
    requires 0 <= a < |trades| && 0 <= b < |trades|
  {
    trades[a].start < trades[b].start || (trades[a].start == trades[b].start && a < b)
  }

  lemma AddDueMembers(trades: seq<Trade>, ids: seq<int>, id: int)
    requires 0 <= id < |trades| && forall i :: 0 <= i < |ids| ==> 0 <= ids[i] < |trades|
    ensures forall x :: x in AddDue(trades, ids, id) <==> x in ids || x == id
  {
    var r := AddDue(trades, ids, id);
    forall x ensures x in r <==> x in ids || x == id {
      assert x in r <==> x in multiset(r);
      assert x in ids <==> x in multiset(ids);
    }
  }

  lemma {:induction false} AddDueSorted(trades: seq<Trade>, ids: seq<int>, id: int)
    requires 0 <= id < |trades| && forall i :: 0 <= i < |ids| ==> 0 <= ids[i] < id
    requires Chronological(trades, ids)
    ensures Chronological(trades, AddDue(trades, ids, id))
    ensures forall x :: x in AddDue(trades, ids, id) <==> x in ids || x == id
  {
    AddDueMembers(trades, ids, id);
    if |ids| > 0 && trades[ids[|ids| - 1]].start > trades[id].start {
      var front := ids[..|ids| - 1];
      AddDueSorted(trades, front, id);
      var m := AddDue(trades, front, id);
      AddDueMembers(trades, front, id);
      assert forall i :: 0 <= i < |front| ==> Earlier(trades, front[i], ids[|ids| - 1]);
      forall i | 0 <= i < |m| ensures Earlier(trades, m[i], ids[|ids| - 1]) {
        assert m[i] in m;
      }
    } else if |ids| > 0 {
      forall i | 0 <= i < |ids| ensures Earlier(trades, ids[i], id) {
        if i < |ids| - 1 { assert Earlier(trades, ids[i], ids[|ids| - 1]); }
      }
    }
  }

  /** The due list holds exactly the due trades, each once, in order. */
  lemma {:induction false} DueExact(trades: seq<Trade>, n: nat, clock: int)
    requires n <= |trades|
    ensures forall x :: x in Due(trades, n, clock) <==> 0 <= x < n && IsDue(trades[x], clock)
    ensures Chronological(trades, Due(trades, n, clock))
    ensures NoRepeatedIds(Due(trades, n, clock))
  {
    hide AddDue, Chronological, NoRepeatedIds, IsDue;
    if n > 0 {
      DueExact(trades, n - 1, clock);
      var front := Due(trades, n - 1, clock);
      if IsDue(trades[n - 1], clock) {
        forall i | 0 <= i < |front| ensures front[i] < n - 1 { assert front[i] in front; }
        AddDueSorted(trades, front, n - 1);
      }
    } else {
      assert Chronological(trades, []) by { NothingIsChronological(trades); }
    }
    ChronologicalIsDistinct(trades, Due(trades, n, clock));
  }

  lemma NothingIsChronological(trades: seq<Trade>)
    ensures Chronological(trades, [])
  {
  }

  lemma ChronologicalIsDistinct(trades: seq<Trade>, ids: seq<int>)
    requires forall i :: 0 <= i < |ids| ==> 0 <= ids[i] < |trades|
    requires Chronological(trades, ids)
    ensures NoRepeatedIds(ids)
  {
    forall i, j | 0 <= i < j < |ids| ensures ids[i] != ids[j] {
      assert Earlier(trades, ids[i], ids[j]);
    }
  }

  // ---- the whole reconciliation --------------------------------------------

  /** Everything a settlement run leaves alone. */
  predicate OnlySettles(s: State, r: State) {
    && r.clock == s.clock && r.scenario == s.scenario && r.siteOf == s.siteOf && r.prosumers == s.prosumers
    && r.forecastDays == s.forecastDays && r.forecasts == s.forecasts && r.readings == s.readings
    && r.orders == s.orders && r.actions == s.actions && |r.trades| == |s.trades|
    && s.allocations <= r.allocations && s.settlements <= r.settlements && s.journal <= r.journal
    && s.reconciliations <= r.reconciliations && s.receipts <= r.receipts
  }

  lemma OnlySettlesTransitive(a: State, b: State, c: State)
    requires OnlySettles(a, b) && OnlySettles(b, c)
    ensures OnlySettles(a, c)
  {
  }

  predicate Settles(s: State, t: Trade) {
    HasOrders(s, t) && Measured(s, t)
  }

  lemma SettleOneEffect(s: State, id: int)
    requires 0 <= id < |s.trades|
    ensures var r := SettleOne(s, id);
      && OnlySettles(s, r)
      && r.trades == if Settles(s, s.trades[id]) then s.trades[id := s.trades[id].(status := Settled)] else s.trades
  {
    hide Delivered, RoundHalfEven, Measured;
  }

  lemma {:induction false} SettleAllKeeps(s: State, ids: seq<int>)
    requires TradingOk(s) && DeliveryOk(s) && NoRepeatedIds(ids)
    requires forall i :: 0 <= i < |ids| ==> 0 <= ids[i] < |s.trades| && s.trades[ids[i]].status == Committed
    ensures var r := SettleAll(s, ids);
      && TradingOk(r) && DeliveryOk(r) && OnlySettles(s, r)
      && (forall x :: 0 <= x < |s.trades| ==>
            r.trades[x] == if x in ids && Settles(s, s.trades[x]) then s.trades[x].(status := Settled) else s.trades[x])
    decreases |ids|
  {
    hide TradingOk, DeliveryOk, SettleOne, Settles;
    if |ids| > 0 {
      SettleOneKeeps(s, ids[0]);
      SettleOneEffect(s, ids[0]);
      var m := SettleOne(s, ids[0]);
      assert forall i :: 0 <= i < |ids[1..]| ==> ids[1..][i] == ids[i + 1];
      SettleAllKeeps(m, ids[1..]);
      forall t: Trade ensures Settles(m, t) == Settles(s, t) { MeasuredSame(s, m, t); }
      forall x | 0 <= x < |s.trades| ensures x in ids <==> x == ids[0] || x in ids[1..] {
        assert ids == [ids[0]] + ids[1..];
      }
      OnlySettlesTransitive(s, m, SettleAll(s, ids));
    }
  }

  lemma MeasuredSame(s: State, r: State, t: Trade)
    requires r.orders == s.orders && r.readings == s.readings
    ensures Settles(r, t) == Settles(s, t)
  {
  }

  /** Reconciliation settles exactly the due trades both of whose meters were
      read, and changes no other trade. */
  lemma ReconcileEffect(s: State)
    requires TradingOk(s) && DeliveryOk(s)
    ensures var r := Reconcile(s);
      && TradingOk(r) && DeliveryOk(r) && OnlySettles(s, r)
      && (forall x :: 0 <= x < |s.trades| ==>
            r.trades[x] == if IsDue(s.trades[x], s.clock) && Settles(s, s.trades[x])
                           then s.trades[x].(status := Settled) else s.trades[x])
  {
    hide TradingOk, DeliveryOk, SettleAll, Due, Settles, Chronological;
    var ids := Due(s.trades, |s.trades|, s.clock);
    DueExact(s.trades, |s.trades|, s.clock);
    forall i | 0 <= i < |ids| ensures s.trades[ids[i]].status == Committed { assert ids[i] in ids; }
    SettleAllKeeps(s, ids);
  }

  lemma {:induction false} NothingToSettle(s: State, ids: seq<int>)
    requires forall i :: 0 <= i < |ids| ==> 0 <= ids[i] < |s.trades| && !Settles(s, s.trades[ids[i]])
    ensures SettleAll(s, ids) == s
    decreases |ids|
  {
    hide SettleRows;
    if |ids| > 0 {
      NothingToSettle(s, ids[1..]);
    }
  }

  /** Running it again at the same clock and readings changes nothing. */
  lemma ReconcileIdempotent(s: State)
    requires TradingOk(s) && DeliveryOk(s)
    ensures Reconcile(Reconcile(s)) == Reconcile(s)
  {
    hide TradingOk, DeliveryOk, SettleAll, Due, Settles, Chronological;
    var r := Reconcile(s);
    ReconcileEffect(s);
    var ids := Due(r.trades, |r.trades|, r.clock);
    DueExact(r.trades, |r.trades|, r.clock);
    forall i | 0 <= i < |ids| ensures !Settles(r, r.trades[ids[i]]) {
      assert ids[i] in ids;
      MeasuredSame(s, r, s.trades[ids[i]]);
    }
    NothingToSettle(r, ids);
  }

  // ---- forecasts -----------------------------------------------------------

  function DayStart(t: int): int {
    Day(t) * DAY - IST
  }

  /** A slot has a forecast only through its day's one forecast run. */
  predicate ForecastOk(s: State) {
    forall k :: k in s.forecasts ==> Key(k.site, DayStart(k.start)) in s.forecastDays
  }

  lemma SlotOfTomorrow(clock: int, i: nat)
    requires i < 96
    ensures DayStart(Tomorrow(clock) + i * INTERVAL) == Tomorrow(clock)
    ensures Day(Tomorrow(clock) + i * INTERVAL) == Day(clock) + 1
  {
    var d := Day(clock) + 1;
    assert Tomorrow(clock) + i * INTERVAL + IST == d * DAY + i * INTERVAL;
    assert 0 <= i * INTERVAL < DAY;
    assert (d * DAY + i * INTERVAL) / DAY == d;
  }

  /** Forecasts are written once. */
  lemma ForecastAllKeeps(s: State, sites: set<SiteId>, env: Env)
    requires ForecastOk(s)
    ensures var r := ForecastAll(s, sites, env);
      && ForecastOk(r) && Extends(s.forecasts, r.forecasts)
      && r == s.(forecastDays := r.forecastDays, forecasts := r.forecasts)
  {
    hide Keys, Moments, Tomorrow, DayStart;
    var day := Tomorrow(s.clock);
    var todo := set site | site in sites && Key(site, day) !in s.forecastDays;
    var added := Keys(todo, Moments(day, 96));
    var r := ForecastAll(s, sites, env);
    TomorrowsKeys(s.clock, todo);
    forall k | k in added ensures k !in s.forecasts {
      assert Key(k.site, day) !in s.forecastDays;
    }
    forall k | k in r.forecasts ensures Key(k.site, DayStart(k.start)) in r.forecastDays {
      assert k in added || k in s.forecasts;
    }
  }

  /** The slots forecast for tomorrow belong to tomorrow. */
  lemma TomorrowsKeys(clock: int, todo: set<SiteId>)
    ensures var day := Tomorrow(clock);
      forall k :: k in Keys(todo, Moments(day, 96)) ==>
        (k.site in todo && DayStart(k.start) == day && Key(k.site, day) in Keys(todo, {day}))
  {
    hide Tomorrow, DayStart;
    var day := Tomorrow(clock);
    forall k | k in Keys(todo, Moments(day, 96))
      ensures k.site in todo && DayStart(k.start) == day && Key(k.site, day) in Keys(todo, {day})
    {
      var i :| 0 <= i < 96 && k.start == day + i * INTERVAL;
      SlotOfTomorrow(clock, i);
    }
  }

  lemma SurplusGrows(s: State, r: State)
    requires SurplusOk(s.orders, s.forecasts) && Extends(s.forecasts, r.forecasts) && r.orders == s.orders
    ensures SurplusOk(r.orders, r.forecasts)
  {
    hide Reserved;
    forall k ensures Reserved(r.orders, k) <= SurplusOf(r.forecasts, k) {
      assert Reserved(s.orders, k) <= SurplusOf(s.forecasts, k);
    }
  }
}
