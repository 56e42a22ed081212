/** The service itself: tables updated in place by loops, each method proved to
    do what `Ledger` says. Methods that refuse put the tables back, as the
    rolled-back transaction does. */
module Workspace {
  import opened Base
  import opened Orders
  import opened Ledger
  import Matching

  class Workspace {
    var clock: int
    var scenario: Scenario
    var siteOf: map<UserId, SiteId>
    var prosumers: set<UserId>
    var forecastDays: set<Key>
    var forecasts: map<Key, Forecast>
    var readings: map<Key, Reading>
    var orders: seq<Order>
    var trades: seq<Trade>
    var actions: map<(UserId, RequestId), Action>
    var allocations: seq<Allocation>
    var reconciliations: seq<Reconciliation>
    var settlements: seq<Settlement>
    var journal: seq<Posting>
    var receipts: seq<Receipt>

    function View(): State
      reads this
    {
      State(clock, scenario, siteOf, prosumers, forecastDays, forecasts, readings, orders, trades, actions,
            allocations, reconciliations, settlements, journal, receipts)
    }

    constructor (start: int)
      ensures clock == start && scenario == Normal && siteOf == map[] && prosumers == {}
      ensures forecastDays == {} && forecasts == map[] && readings == map[] && orders == [] && trades == []
      ensures actions == map[] && allocations == [] && reconciliations == [] && settlements == []
      ensures journal == [] && receipts == []
    {
      clock, scenario, siteOf, prosumers := start, Normal, map[], {};
      forecastDays, forecasts, readings, orders, trades := {}, map[], map[], [], [];
      actions, allocations, reconciliations, settlements := map[], [], [], [];
      journal, receipts := [], [];
    }

    /** `place_order`: the reservation total is summed over the site's sells. */
    method PlaceOrder(user: UserId, start: int, side: Side, quantity: int, price: int, created: int)
      returns (r: Result<OrderId, LedgerError>)
      modifies this`orders
      ensures r.Ok? ==> Place(old(View()), user, start, side, quantity, price, created) == Ok(View()) && r.value == |old(orders)|
      ensures r.Err? ==> Place(old(View()), user, start, side, quantity, price, created) == Err(r.error) && View() == old(View())
    {
      hide Reserved, Reservation, Day;
      if start % INTERVAL != 0 {
        return Err(BadBoundary);
      }
      if Day(start) != Day(clock) + 1 {
        return Err(NotTomorrow);
      }
      if user !in siteOf || (side == Sell && user !in prosumers) {
        return Err(Forbidden);
      }
      var k := Key(siteOf[user], start);
      if k !in forecasts {
        return Err(NoForecast);
      }
      if forecasts[k].solar.None? || forecasts[k].load.None? {
        return Err(MissingEnergy);
      }
      if side == Sell {
        var available := Max(0, forecasts[k].solar.value - forecasts[k].load.value);
        var reserved := SumReserved(k);
        if quantity > available - reserved {
          return Err(OverSurplus);
        }
      }
      if quantity <= 0 || price < 0 {
        return Err(ConstraintViolation);
      }
      orders := orders + [Order(user, k.site, side, quantity, price, start, start + INTERVAL, created, 0, Open)];
      r := Ok(|orders| - 1);
    }

    method SumReserved(k: Key) returns (total: int)
      ensures total == Reserved(orders, k)
    {
      total := 0;
      var i := 0;
      while i < |orders|
        invariant 0 <= i <= |orders|
        invariant total == Sum(Reservations(orders, k)[..i])
      {
        var o := orders[i];
        if o.site == k.site && o.start == k.start && o.side == Sell {
          total := total + o.matched + (if o.Active() then o.Remaining() else 0);
        }
        assert Reservations(orders, k)[..i + 1] == Reservations(orders, k)[..i] + [Reservation(orders[i], k)];
        SumAppend(Reservations(orders, k)[..i], Reservation(orders[i], k));
        i := i + 1;
      }
      assert Reservations(orders, k)[..i] == Reservations(orders, k);
    }

    method CancelOrder(user: UserId, id: OrderId) returns (error: Option<LedgerError>)
      modifies this`orders
      ensures error.None? ==> Cancel(old(View()), user, id) == Ok(View())
      ensures error.Some? ==> Cancel(old(View()), user, id) == Err(error.value) && View() == old(View())
    {
      if !(0 <= id < |orders|) || orders[id].user != user {
        return Some(OrderNotFound);
      }
      if orders[id].status != Open || orders[id].matched != 0 {
        return Some(NotCancellable);
      }
      orders := orders[id := orders[id].(status := Cancelled)];
      error := None;
    }

    // ---- clear_market ------------------------------------------------------

    /** One proposal: price it, decide, and update both orders in turn. */
    method Process(p: Proposal, start: int, safe: bool, env: Env) returns (error: Option<LedgerError>)
      modifies this`orders, this`trades
      ensures error.None? ==> FillOne(Books(old(orders), old(trades)), p, start, safe, env) == Ok(Books(orders, trades))
      ensures error.Some? ==> FillOne(Books(old(orders), old(trades)), p, start, safe, env) == Err(error.value)
    {
      hide LastFill;
      error := None;
      if !(0 <= p.buy < |orders| && 0 <= p.sell < |orders|) {
        return Some(UnknownOrder);
      }
      var buy, sell := orders[p.buy], orders[p.sell];
      if buy.status == Rejected || sell.status == Rejected || buy.user == sell.user {
        return;
      }
      var quote := env.quote(p, sell.site);
      if quote.None? {
        return Some(NoForecast);
      }
      var price := quote.value;
      if price < 0 || p.quantity <= 0 || p.price < 0 || p.buy == p.sell {
        return Some(ConstraintViolation);
      }
      var accepted := safe && sell.limit <= price <= buy.limit;
      var number := 1 + LastFill(trades, p.buy, p.sell, start);
      trades := trades + [Trade(p.buy, p.sell, p.quantity, p.price, price, start, start + INTERVAL, number,
                                if accepted then Committed else Refused)];
      if accepted {
        orders := orders[p.buy := buy.(matched := buy.matched + p.quantity)];
        orders := orders[p.buy := orders[p.buy].(status := if orders[p.buy].Remaining() == 0 then Filled else PartiallyFilled)];
        orders := orders[p.sell := sell.(matched := sell.matched + p.quantity)];
        orders := orders[p.sell := orders[p.sell].(status := if orders[p.sell].Remaining() == 0 then Filled else PartiallyFilled)];
      } else {
        orders := orders[p.buy := buy.(status := Rejected)];
        orders := orders[p.sell := sell.(status := Rejected)];
      }
      assert orders[p.buy] == Judge(buy, p.quantity, accepted) && orders[p.sell] == Judge(sell, p.quantity, accepted);
      assert orders == old(orders)[p.buy := Judge(buy, p.quantity, accepted)][p.sell := Judge(sell, p.quantity, accepted)];
      assert trades == old(trades) + [NewTrade(Books(old(orders), old(trades)), p, start, price, accepted)];
    }

    /** The proposals of one slot. */
    method ProcessAll(ps: seq<Proposal>, start: int, safe: bool, env: Env) returns (error: Option<LedgerError>)
      modifies this`orders, this`trades
      ensures error.None? ==> FillAll(Books(old(orders), old(trades)), ps, start, safe, env) == Ok(Books(orders, trades))
      ensures error.Some? ==> FillAll(Books(old(orders), old(trades)), ps, start, safe, env) == Err(error.value)
    {
      hide FillOne;
      ghost var all := FillAll(Books(orders, trades), ps, start, safe, env);
      var i := 0;
      assert ps[0..] == ps;
      while i < |ps|
        invariant 0 <= i <= |ps|
        invariant FillAll(Books(orders, trades), ps[i..], start, safe, env) == all
      {
        assert ps[i..][1..] == ps[i + 1..];
        error := Process(ps[i], start, safe, env);
        if error.Some? {
          return;
        }
        i := i + 1;
      }
      error := None;
    }

    method ProcessSlot(ids: seq<OrderId>, start: int, cap: Option<int>, env: Env) returns (error: Option<LedgerError>)
      modifies this`orders, this`trades
      ensures error.None? ==> ClearSlot(Books(old(orders), old(trades)), ids, start, cap, env) == Ok(Books(orders, trades))
      ensures error.Some? ==> ClearSlot(Books(old(orders), old(trades)), ids, start, cap, env) == Err(error.value)
    {
      hide FillAll, Matching.Match, Group, BookOf;
      error := None;
      if exists i :: 0 <= i < |ids| && !(0 <= ids[i] < |orders|) {
        return Some(UnknownOrder);
      }
      var ps := Matching.Run(BookOf(orders, Group(orders, ids, start), cap));
      if |ps| == 0 {
        return;
      }
      var safe := env.grid(start);
      if safe.None? {
        return Some(GridIncomplete);
      }
      error := ProcessAll(ps, start, safe.value, env);
    }

    /** `clear_market`, slot by slot in time order. The result is the position
        of the first trade it made. */
    method ClearMarket(only: Option<set<OrderId>>, cap: Option<int>, env: Env) returns (r: Result<int, LedgerError>)
      modifies this`orders, this`trades
      ensures r.Ok? ==> Clear(old(View()), only, cap, env) == Ok(View()) && r.value == |old(trades)|
      ensures r.Err? ==> Clear(old(View()), only, cap, env) == Err(r.error) && View() == old(View())
    {
      hide ClearSlot, OpenIds, Starts;
      var savedOrders, savedTrades := orders, trades;
      var ids := OpenIds(orders, clock, only);
      var starts := Starts(orders, ids);
      ghost var all := ClearSlots(Books(orders, trades), ids, starts, cap, env);
      assert starts[0..] == starts;
      var i := 0;
      while i < |starts|
        invariant 0 <= i <= |starts|
        invariant ClearSlots(Books(orders, trades), ids, starts[i..], cap, env) == all
      {
        assert starts[i..][1..] == starts[i + 1..];
        var error := ProcessSlot(ids, starts[i], cap, env);
        if error.Some? {
          orders, trades := savedOrders, savedTrades;
          return Err(error.value);
        }
        i := i + 1;
      }
      r := Ok(|savedTrades|);
    }

    // ---- accept_offer ------------------------------------------------------

    method AcceptOffer(q: Acceptance, env: Env) returns (r: Result<int, LedgerError>)
      modifies this`orders, this`trades, this`actions
      ensures r.Ok? ==> Accept(old(View()), q, env) == Ok(View())
      ensures r.Ok? ==> (q.user, q.request) in actions && r.value == actions[(q.user, q.request)].trade
      ensures r.Err? ==> Accept(old(View()), q, env) == Err(r.error) && View() == old(View())
    {
      hide Clear, PlaceError, NewOrder, Orders.Order.Active, Orders.Order.Remaining;
      if (q.user, q.request) in actions {
        var previous := actions[(q.user, q.request)];
        return if SameBody(previous, q) then Ok(previous.trade) else Err(RequestReused);
      }
      if !(0 <= q.offer < |orders|) || !orders[q.offer].Active() || orders[q.offer].start <= clock {
        return Err(OfferGone);
      }
      var offer := orders[q.offer];
      if offer.user == q.user {
        return Err(OwnOffer);
      }
      if q.quantity > offer.Remaining() {
        return Err(TooMuch);
      }
      var side := if offer.side == Sell then Buy else Sell;
      var savedOrders, savedTrades := orders, trades;
      var ownId: OrderId;
      if q.own.Some? {
        ownId := q.own.value;
        if !(0 <= ownId < |orders|) || orders[ownId].user != q.user {
          return Err(OrderNotFound);
        }
        var own := orders[ownId];
        if !own.Active() || own.side != side || own.start != offer.start || own.Remaining() < q.quantity {
          return Err(OwnOrderUnfit);
        }
      } else {
        var placed := PlaceOrder(q.user, offer.start, side, q.quantity, q.price, q.created);
        if placed.Err? {
          return Err(placed.error);
        }
        ownId := placed.value;
      }
      assert AcceptError(old(View()), q).None? && View() == Prepare(old(View()), q);
      var cleared := ClearMarket(Some({ownId, q.offer}), Some(q.quantity), env);
      if cleared.Err? {
        orders, trades := savedOrders, savedTrades;
        return Err(cleared.error);
      }
      if |trades| <= cleared.value || trades[cleared.value].status != Committed {
        orders, trades := savedOrders, savedTrades;
        return Err(NoMatch);
      }
      actions := actions[(q.user, q.request) := Action(q.offer, q.quantity, q.price, q.own, cleared.value)];
      r := Ok(cleared.value);
    }

    // ---- delivery ----------------------------------------------------------

    /** What both meters leave for a trade, or nothing while one of them lacks
        a usable reading. */
    method MeasureDelivery(t: Trade) returns (delivered: Option<int>)
      requires 0 <= t.buy < |orders| && 0 <= t.sell < |orders|
      ensures delivered == if Measured(View(), t) then Some(Delivered(View(), t)) else None
    {
      hide SellerUsed, BuyerUsed;
      var seller, buyer := Key(orders[t.sell].site, t.start), Key(orders[t.buy].site, t.start);
      if !Usable(readings, seller, t.end) || readings[seller].exportKwh.None? {
        return None;
      }
      var exported := Max(0, readings[seller].exportKwh.value - SellerUsed(allocations, seller));
      if !Usable(readings, buyer, t.end) || readings[buyer].importKwh.None? {
        return None;
      }
      var imported := Max(0, readings[buyer].importKwh.value - BuyerUsed(allocations, buyer));
      delivered := Some(Min(t.quantity, Min(exported, imported)));
    }

    /** The money side of one settlement: the settlement row, its two postings
        and the receipt. */
    method Pay(id: int, t: Trade, buyer: UserId, seller: UserId, delivered: int)
      modifies this`settlements, this`journal, this`receipts
      ensures var gross := RoundHalfEven(delivered * t.price, PAISA);
        var n := |old(settlements)|;
        && settlements == old(settlements) + [Settlement(id, buyer, seller, delivered, gross, clock)]
        && journal == old(journal) + [Posting(n, buyer, -gross), Posting(n, seller, gross)]
        && receipts == old(receipts) + [Receipt(id, n, t.quantity, delivered, t.price, gross, t.start)]
    {
      hide RoundHalfEven;
      var gross := RoundHalfEven(delivered * t.price, PAISA);
      var n := |settlements|;
      settlements := settlements + [Settlement(id, buyer, seller, delivered, gross, clock)];
      journal := journal + [Posting(n, buyer, -gross)];
      journal := journal + [Posting(n, seller, gross)];
      receipts := receipts + [Receipt(id, n, t.quantity, delivered, t.price, gross, t.start)];
    }

    /** One trade of `reconcile_due`. */
    method SettleTrade(id: int)
      requires 0 <= id < |trades|
      modifies this`trades, this`allocations, this`reconciliations, this`settlements, this`journal, this`receipts
      ensures View() == SettleOne(old(View()), id)
    {
      hide RoundHalfEven, Abs, Measured, Delivered;
      var t := trades[id];
      if !(0 <= t.buy < |orders| && 0 <= t.sell < |orders|) {
        return;
      }
      var buy, sell := orders[t.buy], orders[t.sell];
      var measured := MeasureDelivery(t);
      if measured.None? {
        return;
      }
      var delivered := measured.value;
      var deviation := delivered - t.quantity;
      allocations := allocations + [Allocation(id, Key(sell.site, t.start), Key(buy.site, t.start), delivered)];
      reconciliations := reconciliations + [Reconciliation(
        id, t.quantity, delivered, deviation, 20 * Abs(deviation) <= t.quantity, -deviation)];
      Pay(id, t, buy.user, sell.user, delivered);
      trades := trades[id := t.(status := Settled)];
    }

    /** `reconcile_due`. */
    method ReconcileDue()
      modifies this`trades, this`allocations, this`reconciliations, this`settlements, this`journal, this`receipts
      ensures View() == Reconcile(old(View()))
    {
      hide SettleOne, Due;
      var ids := Due(trades, |trades|, clock);
      ghost var all := SettleAll(View(), ids);
      assert ids[0..] == ids;
      var i := 0;
      while i < |ids|
        invariant 0 <= i <= |ids|
        invariant |trades| == |old(trades)|
        invariant SettleAll(View(), ids[i..]) == all
      {
        assert ids[i..][1..] == ids[i + 1..];
        SettleOneLength(View(), ids[i]);
        SettleTrade(ids[i]);
        i := i + 1;
      }
    }

    /** `add_readings` for one site, moment by moment. */
    method MeterSite(site: SiteId, moments: set<int>, kind: Scenario, env: Env)
      modifies this`readings
      ensures readings == AddReadings(old(readings), Keys({site}, moments), kind, env)
    {
      hide AddReadings, Keys;
      if kind == Missing {
        NothingMissing(readings, Keys({site}, moments), env);
        return;
      }
      ghost var before := readings;
      ghost var done: set<int> := {};
      var todo := moments;
      KeysOfOne(site, {}, 0);
      NothingAdded(before, kind, env);
      while todo != {}
        invariant done <= moments && todo == moments - done
        invariant readings == AddReadings(before, Keys({site}, done), kind, env)
        decreases |todo|
      {
        Inhabited(todo);
        var moment: int :| moment in todo;
        var k := Key(site, moment);
        ghost var now := readings;
        if k !in readings {
          var f := env.meter(k, kind);
          readings := readings[k := Reading(moment + INTERVAL, true, Some(f.exportKwh), Some(f.importKwh))];
        }
        AddOneReading(now, k, kind, env);
        AddReadingsTwice(before, Keys({site}, done), {k}, kind, env);
        KeysOfOne(site, done, moment);
        done := done + {moment};
        todo := todo - {moment};
      }
      assert done == moments;
    }

    /** Every site in turn. */
    method MeterAll(sites: set<SiteId>, moments: set<int>, kind: Scenario, env: Env)
      modifies this`readings
      ensures readings == AddReadings(old(readings), Keys(sites, moments), kind, env)
    {
      ghost var before := readings;
      ghost var done: set<SiteId> := {};
      var todo := sites;
      assert readings == AddReadings(before, Keys(done, moments), kind, env);
      while todo != {}
        invariant done <= sites && todo == sites - done
        invariant readings == AddReadings(before, Keys(done, moments), kind, env)
        decreases |todo|
      {
        Inhabited(todo);
        var site: SiteId :| site in todo;
        MeterSite(site, moments, kind, env);
        AddReadingsTwice(before, Keys(done, moments), Keys({site}, moments), kind, env);
        assert Keys(done + {site}, moments) == Keys(done, moments) + Keys({site}, moments);
        done := done + {site};
        todo := todo - {site};
      }
      assert done == sites;
    }

    /** The points of a site's solar run for one day. */
    method WriteSolar(site: SiteId, day: int, env: Env)
      modifies this`forecasts
      ensures forecasts == SolarOnly(old(forecasts), Keys({site}, Moments(day, 96)), env)
    {
      hide Keys, Moments, SolarOnly;
      var i := 0;
      NoSlots(site, day, forecasts, env);
      while i < 96
        invariant 0 <= i <= 96
        invariant forecasts == SolarOnly(old(forecasts), Keys({site}, Moments(day, i)), env)
      {
        var k := Key(site, day + i * INTERVAL);
        SolarStep(old(forecasts), site, day, i, env);
        forecasts := forecasts[k := Forecast(env.predict(k).solar, None)];
        i := i + 1;
      }
    }

    /** The points of its load run, beside the solar ones. */
    method WriteLoad(site: SiteId, day: int, env: Env)
      requires forall k :: k in Keys({site}, Moments(day, 96)) ==> k in forecasts && forecasts[k].solar == env.predict(k).solar
      modifies this`forecasts
      ensures forecasts == Predicted(old(forecasts), Keys({site}, Moments(day, 96)), env)
    {
      hide Keys, Moments, Predicted;
      var i := 0;
      NoSlots(site, day, forecasts, env);
      while i < 96
        invariant 0 <= i <= 96
        invariant forecasts == Predicted(old(forecasts), Keys({site}, Moments(day, i)), env)
      {
        var k := Key(site, day + i * INTERVAL);
        SlotListed(site, day, i);
        LoadStep(old(forecasts), site, day, i, env);
        forecasts := forecasts[k := forecasts[k].(load := env.predict(k).load)];
        i := i + 1;
      }
    }

    /** `forecast`: both runs of the day after the clock, unless it has them. */
    method ForecastSite(site: SiteId, day: int, env: Env)
      modifies this`forecastDays, this`forecasts
      ensures Tables(forecastDays, forecasts) == ForecastFor(Tables(old(forecastDays), old(forecasts)), {site}, day, env)
    {
      hide Keys, Moments, Predicted, SolarOnly;
      OneSite(site, forecastDays, day);
      if Key(site, day) in forecastDays {
        NoSites(day, forecasts, env);
        return;
      }
      ghost var before := forecasts;
      forecastDays := forecastDays + {Key(site, day)};
      KeysOfOne(site, {}, day);
      assert {} + {day} == {day};
      WriteSolar(site, day, env);
      BothRuns(before, Keys({site}, Moments(day, 96)), env);
      WriteLoad(site, day, env);
    }

    /** Every site in turn. */
    method ForecastSites(sites: set<SiteId>, env: Env)
      modifies this`forecastDays, this`forecasts
      ensures View() == ForecastAll(old(View()), sites, env)
    {
      hide ForecastFor, Tomorrow, ForecastAll;
      var day := Tomorrow(clock);
      ghost var before := Tables(forecastDays, forecasts);
      ghost var done: set<SiteId> := {};
      var todo := sites;
      NothingForecast(before, day, env);
      while todo != {}
        invariant done <= sites && todo == sites - done
        invariant Tables(forecastDays, forecasts) == ForecastFor(before, done, day, env)
        decreases |todo|
      {
        Inhabited(todo);
        var site: SiteId :| site in todo;
        ForecastOneMore(before, done, site, day, env);
        ForecastSite(site, day, env);
        done := done + {site};
        todo := todo - {site};
      }
      assert done == sites;
      AllForecast(old(View()), sites, env);
    }

    /** `advance`: step the clock a quarter hour at a time, then meter, settle
        and forecast. */
    method AdvanceClock(intervals: int, deliver: bool, env: Env) returns (error: Option<LedgerError>)
      modifies this
      ensures error.None? ==> Advance(old(View()), intervals, deliver, env) == Ok(View())
      ensures error.Some? ==> Advance(old(View()), intervals, deliver, env) == Err(error.value) && View() == old(View())
    {
      hide Reconcile, ForecastAll, LatestEnd, Keys, AddReadings, AllSites;
      error := None;
      var target := clock + INTERVAL * intervals;
      if deliver {
        var last := LatestEnd(trades);
        if last.None? {
          return Some(NothingDue);
        }
        target := last.value;
      }
      if target > clock + 2 * DAY {
        return Some(TooFar);
      }
      var sites := AllSites(View());
      var moments: set<int> := {};
      ghost var n := 0;
      ghost var from := clock;
      assert moments == Moments(from, 0);
      while clock < target
        invariant clock == from + n * INTERVAL && n <= Steps(target - from)
        invariant n < Steps(target - from) <==> clock < target
        invariant moments == Moments(from, n)
        invariant View() == old(View()).(clock := clock)
        decreases target - clock
      {
        MomentsStep(from, n);
        moments := moments + {clock};
        clock := clock + INTERVAL;
        n := n + 1;
        StepsReached(target - from, n);
      }
      MeterAll(sites, moments, scenario, env);
      assert View() == Elapse(old(View()), n, env);
      ReconcileDue();
      ForecastSites(sites, env);
    }

    /** `tick`. */
    method TickClock(now: int, env: Env)
      modifies this
      ensures View() == Tick(old(View()), now, env)
    {
      hide Reconcile, ForecastAll, Keys, Moments, AddReadings, AllSites;
      var end := FloorTime(now);
      var start := Min(end, Max(clock, end - 30 * DAY));
      var n := (end - start) / INTERVAL;
      var sites := AllSites(View());
      MeterAll(sites, Moments(start, n), Normal, env);
      clock := end;
      ReconcileDue();
      if n > 0 {
        ForecastSites(sites, env);
      }
    }

    /** `enable_live`: adopt the wall clock and meter the thirty days before it. */
    method GoLive(now: int, env: Env)
      modifies this
      ensures View() == EnableLive(old(View()), now, env)
    {
      hide ForecastAll, Keys, Moments, AddReadings, AllSites;
      var sites := AllSites(View());
      clock := FloorTime(now);
      scenario := Normal;
      MeterAll(sites, Moments(clock - 2880 * INTERVAL, 2880), Normal, env);
      ForecastSites(sites, env);
    }

    /** `register`: an account, its site, the readings of the days before, and
        tomorrow's forecast. */
    method OpenAccount(user: UserId, site: SiteId, prosumer: bool, days: nat, env: Env) returns (error: Option<LedgerError>)
      modifies this
      ensures error.None? ==> Register(old(View()), user, site, prosumer, days, env) == Ok(View())
      ensures error.Some? ==> Register(old(View()), user, site, prosumer, days, env) == Err(error.value) && View() == old(View())
    {
      hide ForecastAll, Keys, Moments, AddReadings, AllSites;
      if user in siteOf || site in AllSites(View()) {
        return Some(AccountExists);
      }
      siteOf := siteOf[user := site];
      if prosumer {
        prosumers := prosumers + {user};
      }
      MeterAll({site}, Moments(clock - days * 96 * INTERVAL, days * 96), Normal, env);
      ForecastSites({site}, env);
      error := None;
    }

    /** `recover_missing`: stage the lacking readings trade by trade, flush, settle. */
    method RecoverMissing(env: Env) returns (error: Option<LedgerError>)
      modifies this
      ensures error.None? ==> Recover(old(View()), env) == Ok(View())
      ensures error.Some? ==> Recover(old(View()), env) == Err(error.value) && View() == old(View())
    {
      hide Reconcile;
      var staged: seq<Key> := [];
      var i := 0;
      while i < |trades|
        invariant 0 <= i <= |trades|
        invariant staged == Staged(View(), i)
      {
        var t := trades[i];
        if t.status == Committed && t.end <= clock && 0 <= t.buy < |orders| && 0 <= t.sell < |orders| {
          var buyer, seller := Key(orders[t.buy].site, t.start), Key(orders[t.sell].site, t.start);
          staged := staged + (if buyer in readings then [] else [buyer]) + (if seller in readings then [] else [seller]);
        }
        i := i + 1;
      }
      if !NoRepeats(staged) {
        return Some(DuplicateReading);
      }
      readings := AddReadings(readings, (set k | k in staged), Normal, env);
      ReconcileDue();
      error := None;
    }
  }

  lemma SettleOneLength(s: State, id: int)
    ensures |SettleOne(s, id).trades| == |s.trades|
  {
  }

  /** Forecast points of both kinds for the listed slots. */
  function Predicted(forecasts: map<Key, Forecast>, keys: set<Key>, env: Env): map<Key, Forecast> {
    forecasts + (map k | k in keys :: env.predict(k))
  }

  function SolarOnly(forecasts: map<Key, Forecast>, keys: set<Key>, env: Env): map<Key, Forecast> {
    forecasts + (map k | k in keys :: Forecast(env.predict(k).solar, None))
  }

  /** The sites that have no forecast run for the day. */
  function Unforecast(sites: set<SiteId>, days: set<Key>, day: int): set<SiteId> {
    set site | site in sites && Key(site, day) !in days
  }

  lemma SlotKeys(site: SiteId, day: int, i: nat)
    ensures Keys({site}, Moments(day, i + 1)) == Keys({site}, Moments(day, i)) + {Key(site, day + i * INTERVAL)}
  {
    hide Keys, Moments;
    MomentsStep(day, i);
    KeysOfOne(site, Moments(day, i), day + i * INTERVAL);
  }

  lemma SlotListed(site: SiteId, day: int, i: nat)
    requires i < 96
    ensures Key(site, day + i * INTERVAL) in Keys({site}, Moments(day, 96))
    ensures Key(site, day + i * INTERVAL) !in Keys({site}, Moments(day, i))
  {
    assert day + i * INTERVAL in Moments(day, 96);
  }

  lemma NoSlots(site: SiteId, day: int, forecasts: map<Key, Forecast>, env: Env)
    ensures SolarOnly(forecasts, Keys({site}, Moments(day, 0)), env) == forecasts
    ensures Predicted(forecasts, Keys({site}, Moments(day, 0)), env) == forecasts
  {
    assert Moments(day, 0) == {};
    KeysOfOne(site, {}, 0);
  }

  lemma SolarStep(before: map<Key, Forecast>, site: SiteId, day: int, i: nat, env: Env)
    ensures var k := Key(site, day + i * INTERVAL);
      SolarOnly(before, Keys({site}, Moments(day, i + 1)), env)
      == SolarOnly(before, Keys({site}, Moments(day, i)), env)[k := Forecast(env.predict(k).solar, None)]
  {
    hide Keys, Moments;
    SlotKeys(site, day, i);
  }

  lemma LoadStep(before: map<Key, Forecast>, site: SiteId, day: int, i: nat, env: Env)
    requires var k := Key(site, day + i * INTERVAL); k in before && before[k].solar == env.predict(k).solar
    requires Key(site, day + i * INTERVAL) !in Keys({site}, Moments(day, i))
    ensures var k := Key(site, day + i * INTERVAL);
      var sofar := Predicted(before, Keys({site}, Moments(day, i)), env);
      k in sofar && Predicted(before, Keys({site}, Moments(day, i + 1)), env)
      == sofar[k := sofar[k].(load := env.predict(k).load)]
  {
    hide Keys, Moments;
    SlotKeys(site, day, i);
  }

  lemma NoSites(day: int, forecasts: map<Key, Forecast>, env: Env)
    ensures Keys({}, {day}) == {} && Predicted(forecasts, Keys({}, Moments(day, 96)), env) == forecasts
  {
    hide Moments;
    assert Keys({}, Moments(day, 96)) == {};
  }

  lemma BothRuns(before: map<Key, Forecast>, keys: set<Key>, env: Env)
    ensures var solar := SolarOnly(before, keys, env);
      && (forall k :: k in keys ==> k in solar && solar[k].solar == env.predict(k).solar)
      && Predicted(solar, keys, env) == Predicted(before, keys, env)
  {
  }

  /** The two forecast tables, and what forecasting some sites makes of them. */
  datatype Tables = Tables(days: set<Key>, forecasts: map<Key, Forecast>)

  function ForecastFor(t: Tables, sites: set<SiteId>, day: int, env: Env): Tables {
    var todo := Unforecast(sites, t.days, day);
    Tables(t.days + Keys(todo, {day}), Predicted(t.forecasts, Keys(todo, Moments(day, 96)), env))
  }

  lemma OneSite(site: SiteId, days: set<Key>, day: int)
    ensures Unforecast({site}, days, day) == if Key(site, day) in days then {} else {site}
  {
  }

  lemma NothingForecast(t: Tables, day: int, env: Env)
    ensures ForecastFor(t, {}, day, env) == t
  {
    assert Unforecast({}, t.days, day) == {};
    NoSites(day, t.forecasts, env);
  }

  /** One more site, unless it is done: its run and its points join the rest. */
  lemma ForecastOneMore(t: Tables, done: set<SiteId>, site: SiteId, day: int, env: Env)
    requires site !in done
    ensures ForecastFor(t, done + {site}, day, env) == ForecastFor(ForecastFor(t, done, day, env), {site}, day, env)
  {
    hide Moments;
    var sofar := Unforecast(done, t.days, day);
    assert Key(site, day) !in Keys(sofar, {day});
    var added := if Key(site, day) in t.days then {} else {site};
    OneSite(site, t.days + Keys(sofar, {day}), day);
    assert Unforecast(done + {site}, t.days, day) == sofar + added;
    KeysOfBoth(sofar, added, {day});
    KeysOfBoth(sofar, added, Moments(day, 96));
    PredictedTwice(t.forecasts, Keys(sofar, Moments(day, 96)), Keys(added, Moments(day, 96)), env);
  }

  lemma KeysOfBoth(a: set<SiteId>, b: set<SiteId>, moments: set<int>)
    ensures Keys(a + b, moments) == Keys(a, moments) + Keys(b, moments)
  {
  }

  lemma PredictedTwice(before: map<Key, Forecast>, a: set<Key>, b: set<Key>, env: Env)
    ensures Predicted(Predicted(before, a, env), b, env) == Predicted(before, a + b, env)
  {
  }

  lemma AllForecast(s: State, sites: set<SiteId>, env: Env)
    ensures var t := ForecastFor(Tables(s.forecastDays, s.forecasts), sites, Tomorrow(s.clock), env);
      ForecastAll(s, sites, env) == s.(forecastDays := t.days, forecasts := t.forecasts)
  {
  }

  lemma NothingMissing(readings: map<Key, Reading>, keys: set<Key>, env: Env)
    ensures AddReadings(readings, keys, Missing, env) == readings
  {
  }

  lemma NothingAdded(readings: map<Key, Reading>, kind: Scenario, env: Env)
    ensures AddReadings(readings, {}, kind, env) == readings
  {
  }

  lemma AddOneReading(readings: map<Key, Reading>, k: Key, kind: Scenario, env: Env)
    requires kind != Missing
    ensures AddReadings(readings, {k}, kind, env) ==
      if k in readings then readings else readings[k := Measure(k, kind, env)]
  {
  }

  lemma KeysOfOne(site: SiteId, done: set<int>, moment: int)
    ensures Keys({site}, {}) == {}
    ensures Keys({site}, done + {moment}) == Keys({site}, done) + {Key(site, moment)}
  {
  }

  lemma AddReadingsTwice(readings: map<Key, Reading>, a: set<Key>, b: set<Key>, kind: Scenario, env: Env)
    ensures AddReadings(AddReadings(readings, a, kind, env), b, kind, env) == AddReadings(readings, a + b, kind, env)
  {
  }

  lemma MomentsStep(from: int, n: nat)
    ensures Moments(from, n + 1) == Moments(from, n) + {from + n * INTERVAL}
  {
    forall t ensures t in Moments(from, n + 1) <==> t in Moments(from, n) || t == from + n * INTERVAL {
      if t in Moments(from, n + 1) {
        var i :| 0 <= i < n + 1 && t == from + i * INTERVAL;
        assert i == n || t in Moments(from, n);
      }
    }
  }

  /** The clock reaches the target after exactly the counted steps. */
  lemma StepsReached(distance: int, n: nat)
    requires 0 < n <= Steps(distance)
    ensures n < Steps(distance) <==> n * INTERVAL < distance
  {
  }
}
