/** What holds in every state any run can reach. */
module Theorems {
  import opened Base
  import opened Orders
  import opened Ledger
  import opened Trading
  import opened Delivery
  import opened Runs
  import opened Admission
  import Greedy

  // ---- no overselling ------------------------------------------------------

  /** Energy of committed and settled trades sold from one site in one slot. */
  function SoldShare(orders: seq<Order>, t: Trade, k: Key): int {
    if t.status != Refused && 0 <= t.sell < |orders| && SellsAt(orders[t.sell], k) then t.quantity else 0
  }

  predicate SellsAt(o: Order, k: Key) {
    o.side == Sell && o.site == k.site && o.start == k.start
  }

  function SoldShares(orders: seq<Order>, trades: seq<Trade>, k: Key): seq<int> {
    seq(|trades|, i requires 0 <= i < |trades| => SoldShare(orders, trades[i], k))
  }

  function Sold(orders: seq<Order>, trades: seq<Trade>, k: Key): int {
    Sum(SoldShares(orders, trades, k))
  }

  function BookedAt(orders: seq<Order>, trades: seq<Trade>, k: Key): seq<int> {
    seq(|orders|, i requires 0 <= i < |orders| => if SellsAt(orders[i], k) then Booked(trades, i) else 0)
  }

  /** Counted by trade or by sell order, the energy sold is the same. */
  lemma {:induction false} SoldByOrder(orders: seq<Order>, trades: seq<Trade>, k: Key)
    requires TradesOk(orders, trades)
    ensures Sum(BookedAt(orders, trades, k)) == Sold(orders, trades, k)
  {
    hide Booked, Sum;
    var n := |trades| - 1;
    if |trades| == 0 {
      forall i | 0 <= i < |orders| ensures Booked(trades, i) == 0 { EmptyBooked(i); assert trades == []; }
      SumOfZeros(BookedAt(orders, trades, k));
      SumOfZeros(SoldShares(orders, trades, k));
    } else {
      var t, front := trades[n], trades[..n];
      assert trades == front + [t];
      SoldByOrder(orders, front, k);
      assert SoldShares(orders, trades, k) == SoldShares(orders, front, k) + [SoldShare(orders, t, k)];
      SumAppend(SoldShares(orders, front, k), SoldShare(orders, t, k));
      forall i | 0 <= i < |orders| ensures Booked(trades, i) == Booked(front, i) + TradeShare(t, i) {
        BookedAppend(front, t, i);
      }
      assert TradeOk(orders, t);
      var was := BookedAt(orders, front, k);
      assert BookedAt(orders, trades, k) == was[t.sell := was[t.sell] + SoldShare(orders, t, k)];
      SumUpdate(was, t.sell, was[t.sell] + SoldShare(orders, t, k));
    }
  }

  lemma EmptyBooked(i: int)
    ensures Booked([], i) == 0
  {
    assert TradeShares([], i) == [];
  }

  /** In every reachable state, for every site and slot: what sell orders hold
      reserved, and what has been sold, is within the forecast surplus. */
  lemma NoOverselling(clock: int, steps: seq<Step>, k: Key)
    ensures var s := Run(Initial(clock), steps);
      && Sold(s.orders, s.trades, k) <= Sum(Held(s.orders, k.site, k.start))
      && Sum(Held(s.orders, k.site, k.start)) <=
        (if k in s.forecasts && s.forecasts[k].solar.Some? && s.forecasts[k].load.Some?
         then Max(0, s.forecasts[k].solar.value - s.forecasts[k].load.value) else 0)
  {
    HeldIsReserved(Run(Initial(clock), steps).orders, k);
    hide Run, DeliveryOk, Booked, Sold, Sum, FillsNumbered;
    Reachable(clock, steps);
    var s := Run(Initial(clock), steps);
    SoldByOrder(s.orders, s.trades, k);
    forall i | 0 <= i < |s.orders| ensures BookedAt(s.orders, s.trades, k)[i] <= Reservations(s.orders, k)[i] {
      assert OrderOk(s.orders[i]);
    }
    SumMonotone(BookedAt(s.orders, s.trades, k), Reservations(s.orders, k));
  }

  // ---- the book and the trades ---------------------------------------------

  /** In every reachable state an order is matched by exactly the energy of its
      committed and settled trades, and its status says how full that makes it. */
  lemma BookAgreesWithTrades(clock: int, steps: seq<Step>, id: OrderId)
    requires 0 <= id < |Run(Initial(clock), steps).orders|
    ensures var s := Run(Initial(clock), steps);
      var o := s.orders[id];
      && o.matched == Booked(s.trades, id) && 0 <= o.matched <= o.energy
      && (o.status == Open || o.status == Cancelled ==> o.matched == 0)
      && (o.status == PartiallyFilled ==> 0 < o.matched < o.energy)
      && (o.status == Filled <==> o.matched == o.energy)
      && (o.status == Rejected ==> o.matched < o.energy)
  {
    hide Run, DeliveryOk, Booked, Reserved;
    Reachable(clock, steps);
    assert OrderOk(Run(Initial(clock), steps).orders[id]);
  }

  /** Every committed or settled trade is priced inside both orders' limits. */
  lemma PricesWithinLimits(clock: int, steps: seq<Step>, i: nat)
    requires i < |Run(Initial(clock), steps).trades|
    ensures var s := Run(Initial(clock), steps);
      var t := s.trades[i];
      && 0 <= t.buy < |s.orders| && 0 <= t.sell < |s.orders|
      && s.orders[t.buy].user != s.orders[t.sell].user
      && (t.status != Refused ==> s.orders[t.sell].limit <= t.price <= s.orders[t.buy].limit)
  {
    hide Run, DeliveryOk, MatchedOk, Reserved, FillsNumbered;
    Reachable(clock, steps);
    var s := Run(Initial(clock), steps);
    assert TradeOk(s.orders, s.trades[i]);
  }

  // ---- the allocator -------------------------------------------------------

  /** No reading is ever allocated beyond its export or its import, and every
      settled trade's delivery and balancing make up its commitment. */
  lemma MetersNeverOverdrawn(clock: int, steps: seq<Step>, k: Key, i: nat)
    ensures var s := Run(Initial(clock), steps);
      && SellerUsed(s.allocations, k) <= ExportCap(s.readings, k)
      && BuyerUsed(s.allocations, k) <= ImportCap(s.readings, k)
      && |s.reconciliations| == |s.allocations|
      && (i < |s.allocations| ==> Accounted(s.trades, s.allocations[i], s.reconciliations[i]))
  {
    hide Run, TradingOk, SellerUsed, BuyerUsed, RoundHalfEven, Measured;
    Reachable(clock, steps);
    var s := Run(Initial(clock), steps);
    assert SellerUsed(s.allocations, k) <= ExportCap(s.readings, k);
    if i < |s.allocations| {
      assert RowOk(s, i);
    }
  }

  /** Delivery and balancing make up the commitment. */
  predicate Accounted(trades: seq<Trade>, a: Allocation, r: Reconciliation) {
    && 0 <= a.trade < |trades| && r.trade == a.trade && r.committed == trades[a.trade].quantity
    && r.actual == a.energy >= 0 && r.balancing >= 0 && r.actual + r.balancing == r.committed
  }

  function Energies(rows: seq<Allocation>): seq<int> {
    seq(|rows|, i requires 0 <= i < |rows| => rows[i].energy)
  }

  function Sellers(rows: seq<Allocation>): seq<Key> {
    seq(|rows|, i requires 0 <= i < |rows| => rows[i].seller)
  }

  function Buyers(rows: seq<Allocation>): seq<Key> {
    seq(|rows|, i requires 0 <= i < |rows| => rows[i].buyer)
  }

  /** An allocation anyone could have made for the settled trades: each within
      its quantity, each meter within its export or import. */
  ghost predicate Feasible(s: State, x: seq<int>) {
    && |x| == |s.allocations|
    && (forall i :: 0 <= i < |x| ==>
          0 <= s.allocations[i].trade < |s.trades| && 0 <= x[i] <= s.trades[s.allocations[i].trade].quantity)
    && (forall k :: Greedy.At(x, Sellers(s.allocations), k) <= ExportCap(s.readings, k))
    && (forall k :: Greedy.At(x, Buyers(s.allocations), k) <= ImportCap(s.readings, k))
  }

  lemma UsedIsAt(rows: seq<Allocation>, k: Key)
    ensures Greedy.At(Energies(rows), Sellers(rows), k) == SellerUsed(rows, k)
    ensures Greedy.At(Energies(rows), Buyers(rows), k) == BuyerUsed(rows, k)
  {
    assert Greedy.AtParts(Energies(rows), Sellers(rows), k) == seq(|rows|, i requires 0 <= i < |rows| => SellerShare(rows[i], k));
    assert Greedy.AtParts(Energies(rows), Buyers(rows), k) == seq(|rows|, i requires 0 <= i < |rows| => BuyerShare(rows[i], k));
  }

  function Quantities(s: State): seq<int>
    requires forall i :: 0 <= i < |s.allocations| ==> 0 <= s.allocations[i].trade < |s.trades|
  {
    seq(|s.allocations|, i requires 0 <= i < |s.allocations| => s.trades[s.allocations[i].trade].quantity)
  }

  /** The chronological allocator delivers at least half of what any feasible
      allocation of the same trades could. */
  lemma HalfOptimalDelivery(clock: int, steps: seq<Step>, x: seq<int>)
    requires Feasible(Run(Initial(clock), steps), x)
    ensures Sum(x) <= 2 * Sum(Energies(Run(Initial(clock), steps).allocations))
  {
    hide Run, TradingOk, Sum, RowOk;
    Reachable(clock, steps);
    HalfOptimalState(Run(Initial(clock), steps), x);
  }

  lemma HalfOptimalState(s: State, x: seq<int>)
    requires DeliveryOk(s) && Feasible(s, x)
    ensures Sum(x) <= 2 * Sum(Energies(s.allocations))
  {
    hide SellerUsed, BuyerUsed, Sum, RowOk, ExportCap, ImportCap, Greedy.At;
    var rows := s.allocations;
    var d, sellers, buyers := Energies(rows), Sellers(rows), Buyers(rows);
    var q := Quantities(s);
    var dry := set i | 0 <= i < |rows| && SellerUsed(rows, sellers[i]) == ExportCap(s.readings, sellers[i]) :: sellers[i];
    var full := set i | 0 <= i < |rows| && BuyerUsed(rows, buyers[i]) == ImportCap(s.readings, buyers[i]) :: buyers[i];
    forall k | k in dry ensures Greedy.At(x, sellers, k) <= Greedy.At(d, sellers, k) { UsedIsAt(rows, k); }
    forall k | k in full ensures Greedy.At(x, buyers, k) <= Greedy.At(d, buyers, k) { UsedIsAt(rows, k); }
    forall i | 0 <= i < |rows| ensures d[i] >= 0 && (d[i] < q[i] ==> sellers[i] in dry || buyers[i] in full) {
      RowPlace(s, i);
      if d[i] < q[i] {
        assert Shorted(s, rows[i]);
        assert Blocked(rows, s.readings, rows[i]);
      }
    }
    Greedy.HalfOfAny(d, x, q, sellers, buyers, dry, full);
  }

  // ---- exactly once --------------------------------------------------------

  /** A trade is settled if and only if there is one row of each kind for it,
      all at the same place, and no second one anywhere. */
  lemma SettledExactlyOnce(clock: int, steps: seq<Step>, t: int)
    requires 0 <= t < |Run(Initial(clock), steps).trades|
    ensures var s := Run(Initial(clock), steps);
      && |s.allocations| == |s.reconciliations| == |s.settlements| == |s.receipts|
      && (s.trades[t].status == Settled <==>
          exists i :: 0 <= i < |s.allocations|
            && s.allocations[i].trade == t && s.reconciliations[i].trade == t
            && s.settlements[i].trade == t && s.receipts[i].trade == t)
      && (forall i, j :: 0 <= i < |s.allocations| && 0 <= j < |s.allocations| ==>
            i == j || s.allocations[i].trade != t || s.allocations[j].trade != t)
      && (forall i, j :: 0 <= i < |s.settlements| && 0 <= j < |s.settlements| ==>
            i == j || s.settlements[i].trade != t || s.settlements[j].trade != t)
      && (forall i, j :: 0 <= i < |s.receipts| && 0 <= j < |s.receipts| ==>
            i == j || s.receipts[i].trade != t || s.receipts[j].trade != t)
      && (forall i, j :: 0 <= i < |s.reconciliations| && 0 <= j < |s.reconciliations| ==>
            i == j || s.reconciliations[i].trade != t || s.reconciliations[j].trade != t)
  {
    hide Run, TradingOk, WithinMeters, NothingWasted, RowOk;
    Reachable(clock, steps);
    var s := Run(Initial(clock), steps);
    forall i | 0 <= i < |s.allocations|
      ensures s.settlements[i].trade == s.allocations[i].trade && s.receipts[i].trade == s.allocations[i].trade
      ensures s.reconciliations[i].trade == s.allocations[i].trade
      ensures 0 <= s.allocations[i].trade < |s.trades| && s.trades[s.allocations[i].trade].status == Settled
    {
      RowTrades(s, i);
    }
    if s.trades[t].status == Settled {
      assert HasRow(s.allocations, t);
    }
  }

  /** In every reachable state the rows of one settlement tell one story: who
      bought from whom, what was agreed and delivered, at the trade's own price to
      the nearest paisa with ties to the even, and in the order it was allocated. */
  lemma RowsTellTheTrade(clock: int, steps: seq<Step>, i: nat)
    requires i < |Run(Initial(clock), steps).settlements|
    ensures var s := Run(Initial(clock), steps);
      && |s.allocations| == |s.reconciliations| == |s.settlements| == |s.receipts| && |s.journal| == 2 * |s.settlements|
      && 0 <= s.settlements[i].trade < |s.trades|
      && var x, t := s.settlements[i], s.trades[s.settlements[i].trade];
      && 0 <= t.buy < |s.orders| && 0 <= t.sell < |s.orders|
      && x.buyer == s.orders[t.buy].user && x.seller == s.orders[t.sell].user
      && s.allocations[i] == Allocation(x.trade, Key(s.orders[t.sell].site, t.start), Key(s.orders[t.buy].site, t.start), x.kwh)
      && 0 <= x.kwh <= t.quantity
      && s.reconciliations[i] == Reconciliation(x.trade, t.quantity, x.kwh, x.kwh - t.quantity,
                                                20 * (t.quantity - x.kwh) <= t.quantity, t.quantity - x.kwh)
      && -1_000_000 <= 2 * (x.gross * 1_000_000 - x.kwh * t.price) <= 1_000_000
      && (2 * (x.gross * 1_000_000 - x.kwh * t.price) == 1_000_000 || 2 * (x.gross * 1_000_000 - x.kwh * t.price) == -1_000_000 ==>
            x.gross % 2 == 0)
      && s.journal[2 * i] == Posting(i, x.buyer, -x.gross) && s.journal[2 * i + 1] == Posting(i, x.seller, x.gross)
      && s.receipts[i] == Receipt(x.trade, i, t.quantity, x.kwh, t.price, x.gross, t.start)
  {
    hide Run, TradingOk, WithinMeters, NothingWasted, RoundHalfEven;
    Reachable(clock, steps);
    var s := Run(Initial(clock), steps);
    InvRows(s);
    assert RowOk(s, i);
  }

  lemma RowTrades(s: State, i: nat)
    requires SameLength(s) && i < |s.allocations| && RowOk(s, i)
    ensures s.settlements[i].trade == s.allocations[i].trade == s.receipts[i].trade == s.reconciliations[i].trade
    ensures 0 <= s.allocations[i].trade < |s.trades| && s.trades[s.allocations[i].trade].status == Settled
  {
    hide RoundHalfEven, Measured;
    var a, b := s.settlements[i], s.settlements[i].(at := 0);
    assert a.trade == b.trade;
  }

  // ---- money ---------------------------------------------------------------

  function Amounts(journal: seq<Posting>): seq<int> {
    seq(|journal|, i requires 0 <= i < |journal| => journal[i].amount)
  }

  function OnAccount(journal: seq<Posting>, user: UserId): seq<int> {
    seq(|journal|, i requires 0 <= i < |journal| => if journal[i].account == user then journal[i].amount else 0)
  }

  /** The portfolio figures of a snapshot. */
  function EarnedParts(settlements: seq<Settlement>, user: UserId): seq<int> {
    seq(|settlements|, i requires 0 <= i < |settlements| => if settlements[i].seller == user then settlements[i].gross else 0)
  }

  function SpentParts(settlements: seq<Settlement>, user: UserId): seq<int> {
    seq(|settlements|, i requires 0 <= i < |settlements| => if settlements[i].buyer == user then settlements[i].gross else 0)
  }

  function Earned(settlements: seq<Settlement>, user: UserId): int {
    Sum(EarnedParts(settlements, user))
  }

  function Spent(settlements: seq<Settlement>, user: UserId): int {
    Sum(SpentParts(settlements, user))
  }

  /** Two postings for every settlement. */
  predicate Posted(settlements: seq<Settlement>, journal: seq<Posting>) {
    && |journal| == 2 * |settlements|
    && forall i :: 0 <= i < |settlements| ==>
         journal[2 * i] == Posting(i, settlements[i].buyer, -settlements[i].gross)
         && journal[2 * i + 1] == Posting(i, settlements[i].seller, settlements[i].gross)
  }

  lemma {:induction false} JournalSums(settlements: seq<Settlement>, journal: seq<Posting>, user: UserId)
    requires Posted(settlements, journal)
    ensures Sum(Amounts(journal)) == 0
    ensures Sum(OnAccount(journal, user)) == Earned(settlements, user) - Spent(settlements, user)
  {
    hide Sum;
    if |settlements| == 0 {
      SumOfZeros(Amounts(journal));
      SumOfZeros(OnAccount(journal, user));
      SumOfZeros(EarnedParts(settlements, user));
      SumOfZeros(SpentParts(settlements, user));
    } else {
      var n := |settlements| - 1;
      var x, front, rest := settlements[n], settlements[..n], journal[..2 * n];
      JournalSums(front, rest, user);
      LastTwo(Amounts(journal), Amounts(rest));
      LastTwo(OnAccount(journal, user), OnAccount(rest, user));
      assert EarnedParts(settlements, user) == EarnedParts(front, user) + [if x.seller == user then x.gross else 0];
      SumAppend(EarnedParts(front, user), if x.seller == user then x.gross else 0);
      assert SpentParts(settlements, user) == SpentParts(front, user) + [if x.buyer == user then x.gross else 0];
      SumAppend(SpentParts(front, user), if x.buyer == user then x.gross else 0);
    }
  }

  lemma LastTwo(all: seq<int>, front: seq<int>)
    requires |all| == |front| + 2 && all[..|front|] == front
    ensures Sum(all) == Sum(front) + all[|front|] + all[|front| + 1]
  {
    var n := |front|;
    assert all == front + [all[n]] + [all[n + 1]];
    SumAppend(front, all[n]);
    SumAppend(front + [all[n]], all[n + 1]);
  }

  /** In every reachable state the books sum to zero, each settlement posts on
      two different accounts, and an account's balance is the portfolio's
      earnings less its spending. */
  lemma MoneyIsConserved(clock: int, steps: seq<Step>, user: UserId)
    ensures var s := Run(Initial(clock), steps);
      && Sum(Amounts(s.journal)) == 0
      && Sum(OnAccount(s.journal, user)) == Earned(s.settlements, user) - Spent(s.settlements, user)
      && Posted(s.settlements, s.journal)
      && forall i :: 0 <= i < |s.settlements| ==> s.settlements[i].buyer != s.settlements[i].seller
  {
    hide Run, TradingOk, WithinMeters, NothingWasted, RowOk, Sum, Earned, Spent, Inv;
    Reachable(clock, steps);
    var s := Run(Initial(clock), steps);
    InvRows(s);
    forall i | 0 <= i < |s.settlements|
      ensures s.journal[2 * i] == Posting(i, s.settlements[i].buyer, -s.settlements[i].gross)
      ensures s.journal[2 * i + 1] == Posting(i, s.settlements[i].seller, s.settlements[i].gross)
      ensures s.settlements[i].buyer != s.settlements[i].seller
    {
      RowMoney(s, i);
    }
    JournalSums(s.settlements, s.journal, user);
  }

  lemma InvRows(s: State)
    requires Inv(s)
    ensures RowsOk(s) && TradesOk(s.orders, s.trades)
  {
    hide RowOk, Reserved, SellerUsed, BuyerUsed, MatchedOk, FillsNumbered;
  }

  /** What one settlement moved and between whom. */
  lemma RowMoney(s: State, i: nat)
    requires SameLength(s) && i < |s.allocations| && RowOk(s, i) && TradesOk(s.orders, s.trades)
    ensures var x, a := s.settlements[i], s.allocations[i];
      && 0 <= a.trade < |s.trades| && HasOrders(s, s.trades[a.trade])
      && s.journal[2 * i] == Posting(i, x.buyer, -x.gross) && s.journal[2 * i + 1] == Posting(i, x.seller, x.gross)
      && x.buyer != x.seller && x.trade == a.trade && x.kwh == a.energy >= 0
      && x.buyer == s.orders[s.trades[a.trade].buy].user && x.seller == s.orders[s.trades[a.trade].sell].user
      && x.gross == RoundHalfEven(a.energy * s.trades[a.trade].price, PAISA)
      && s.orders[s.trades[a.trade].sell].limit <= s.trades[a.trade].price <= s.orders[s.trades[a.trade].buy].limit
  {
    hide RoundHalfEven, Measured;
    var x := s.settlements[i].(at := 0);
    assert x.gross == s.settlements[i].gross;
    assert TradeOk(s.orders, s.trades[s.allocations[i].trade]);
  }

  // ---- limits over a whole run ---------------------------------------------

  /** What a user's limits allow for the energy actually delivered. */
  function LimitParts(s: State, user: UserId, side: Side): seq<int> {
    seq(|s.settlements|, i requires 0 <= i < |s.settlements| => LimitPart(s, s.settlements[i], user, side))
  }

  predicate Concerns(x: Settlement, user: UserId, side: Side) {
    if side == Buy then x.buyer == user else x.seller == user
  }

  function LimitPart(s: State, x: Settlement, user: UserId, side: Side): int {
    if 0 <= x.trade < |s.trades| && HasOrders(s, s.trades[x.trade]) && Concerns(x, user, side)
    then x.kwh * s.orders[if side == Buy then s.trades[x.trade].buy else s.trades[x.trade].sell].limit
    else 0
  }

  function CountParts(s: State, user: UserId, side: Side): seq<int> {
    seq(|s.settlements|, i requires 0 <= i < |s.settlements| => if Concerns(s.settlements[i], user, side) then 1 else 0)
  }

  lemma {:induction false} Weighted(gross: seq<int>, limits: seq<int>, counts: seq<int>, sign: int)
    requires |gross| == |limits| == |counts|
    requires forall i :: 0 <= i < |gross| ==> sign * (2 * PAISA * gross[i] - 2 * limits[i]) <= PAISA * counts[i]
    ensures sign * (2 * PAISA * Sum(gross) - 2 * Sum(limits)) <= PAISA * Sum(counts)
  {
    if |gross| > 0 {
      var n := |gross| - 1;
      Weighted(gross[..n], limits[..n], counts[..n], sign);
      assert sign * (2 * PAISA * gross[n] - 2 * limits[n]) <= PAISA * counts[n];
      var g, l, c := Sum(gross[..n]), Sum(limits[..n]), Sum(counts[..n]);
      Distribute(sign, 2 * PAISA * g - 2 * l, 2 * PAISA * gross[n] - 2 * limits[n]);
    }
  }

  lemma Distribute(k: int, a: int, b: int)
    ensures k * (a + b) == k * a + k * b
  {
  }

  lemma MulMonotone(k: int, a: int, b: int)
    requires k >= 0 && a <= b
    ensures k * a <= k * b
  {
  }

  /** Over any run a buyer pays at most the delivered energy at its limits, and
      a seller receives at least that, up to half a paisa a settlement. */
  lemma LimitsHoldRunWide(clock: int, steps: seq<Step>, user: UserId)
    ensures var s := Run(Initial(clock), steps);
      && 2 * PAISA * Spent(s.settlements, user) <= 2 * Sum(LimitParts(s, user, Buy)) + PAISA * Sum(CountParts(s, user, Buy))
      && 2 * PAISA * Earned(s.settlements, user) >= 2 * Sum(LimitParts(s, user, Sell)) - PAISA * Sum(CountParts(s, user, Sell))
  {
    hide Run, Inv, RowOk, Sum, LimitPart;
    Reachable(clock, steps);
    var s := Run(Initial(clock), steps);
    InvRows(s);
    forall i | 0 <= i < |s.settlements|
      ensures 1 * (2 * PAISA * SpentParts(s.settlements, user)[i] - 2 * LimitParts(s, user, Buy)[i]) <= PAISA * CountParts(s, user, Buy)[i]
      ensures -1 * (2 * PAISA * EarnedParts(s.settlements, user)[i] - 2 * LimitParts(s, user, Sell)[i]) <= PAISA * CountParts(s, user, Sell)[i]
    {
      RowLimits(s, i, user);
    }
    Weighted(SpentParts(s.settlements, user), LimitParts(s, user, Buy), CountParts(s, user, Buy), 1);
    Weighted(EarnedParts(s.settlements, user), LimitParts(s, user, Sell), CountParts(s, user, Sell), -1);
  }

  lemma RowLimits(s: State, i: nat, user: UserId)
    requires SameLength(s) && i < |s.allocations| && RowOk(s, i) && TradesOk(s.orders, s.trades)
    ensures var x := s.settlements[i];
      && 2 * PAISA * (if x.buyer == user then x.gross else 0) - 2 * LimitPart(s, x, user, Buy)
         <= PAISA * (if x.buyer == user then 1 else 0)
      && 2 * LimitPart(s, x, user, Sell) - 2 * PAISA * (if x.seller == user then x.gross else 0)
         <= PAISA * (if x.seller == user then 1 else 0)
  {
    hide RowOk, TradesOk;
    RowMoney(s, i);
    var x := s.settlements[i];
    var t := s.trades[x.trade];
    MulMonotone(x.kwh, t.price, s.orders[t.buy].limit);
    MulMonotone(x.kwh, s.orders[t.sell].limit, t.price);
  }

  // ---- history -------------------------------------------------------------

  /** Forecasts, readings, actions and settlement rows, once written, are never
      changed by anything that happens later; a settled trade stays settled. */
  lemma HistoryIsKept(clock: int, steps: seq<Step>, later: seq<Step>)
    ensures var s := Run(Initial(clock), steps);
      var r := Run(s, later);
      && Extends(s.forecasts, r.forecasts) && Extends(s.readings, r.readings) && Extends(s.actions, r.actions)
      && s.allocations <= r.allocations && s.settlements <= r.settlements && s.journal <= r.journal
      && s.reconciliations <= r.reconciliations && s.receipts <= r.receipts && |s.trades| <= |r.trades|
      && forall i :: 0 <= i < |s.trades| && s.trades[i].status != Committed ==> r.trades[i] == s.trades[i]
  {
    hide Run, Inv;
    Reachable(clock, steps);
    var s := Run(Initial(clock), steps);
    RunKeeps(s, later);
    var r := Run(s, later);
    forall i | 0 <= i < |s.trades| && s.trades[i].status != Committed ensures r.trades[i] == s.trades[i] {
      assert TradeKept(s.trades[i], r.trades[i]);
    }
  }

  /** Reconciling twice at the same clock is the same as once. */
  lemma ReconcilingTwice(clock: int, steps: seq<Step>)
    ensures var s := Run(Initial(clock), steps); Reconcile(Reconcile(s)) == Reconcile(s)
  {
    hide Run, TradingOk, DeliveryOk, Reconcile;
    Reachable(clock, steps);
    ReconcileIdempotent(Run(Initial(clock), steps));
  }
}
