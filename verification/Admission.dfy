/** Who may do what: exactly when an order is placed, withdrawn or accepted,
    stated over the tables, and whose order an accept commits. */
module Admission {
  import opened Base
  import opened Orders
  import opened Ledger
  import opened Trading
  import opened Delivery
  import opened Runs
  import opened DirectMatch

  // ---- Indian days ---------------------------------------------------------

  /** Tomorrow is the first moment of the Indian day after the clock's: 18:30 UTC,
      not more than a day ahead, and one day later the next one begins. */
  lemma TomorrowIsMidnight(clock: int)
    ensures clock < Tomorrow(clock) <= clock + 24 * 3_600_000_000
    ensures (Tomorrow(clock) + 19_800_000_000) % 86_400_000_000 == 0
    ensures forall t :: Day(t) == Day(clock) + 1 <==> Tomorrow(clock) <= t < Tomorrow(clock) + 86_400_000_000
  {
    var d := Day(clock) + 1;
    assert Tomorrow(clock) + IST == d * DAY;
    assert d * DAY % DAY == 0;
    forall t ensures Day(t) == d <==> Tomorrow(clock) <= t < Tomorrow(clock) + DAY {
      assert Day(t) == d <==> d * DAY <= t + IST < (d + 1) * DAY;
    }
  }

  // ---- placing -------------------------------------------------------------

  /** What a sell order holds of a site's surplus in a slot. */
  function Held(orders: seq<Order>, site: SiteId, start: int): seq<int> {
    seq(|orders|, i requires 0 <= i < |orders| =>
      if orders[i].site == site && orders[i].start == start && orders[i].side == Sell then
        (if orders[i].status == Open || orders[i].status == PartiallyFilled then orders[i].energy else orders[i].matched)
      else 0)
  }

  lemma HeldIsReserved(orders: seq<Order>, k: Key)
    ensures Sum(Held(orders, k.site, k.start)) == Reserved(orders, k)
  {
    assert Held(orders, k.site, k.start) == Reservations(orders, k);
  }

  /** The user may place this order: a quarter hour of tomorrow in India, a site of
      its own, a solar asset for a sell, a complete forecast, and for a sell no more
      than the forecast surplus less what the site's sells hold already. */
  predicate MayPlace(s: State, user: UserId, start: int, side: Side, quantity: int, price: int) {
    && start % 900_000_000 == 0
    && Tomorrow(s.clock) <= start < Tomorrow(s.clock) + 86_400_000_000
    && user in s.siteOf && (side == Sell ==> user in s.prosumers)
    && Key(s.siteOf[user], start) in s.forecasts
    && s.forecasts[Key(s.siteOf[user], start)].solar.Some? && s.forecasts[Key(s.siteOf[user], start)].load.Some?
    && quantity > 0 && price >= 0
    && (side == Sell ==>
          quantity + Sum(Held(s.orders, s.siteOf[user], start))
          <= Max(0, s.forecasts[Key(s.siteOf[user], start)].solar.value - s.forecasts[Key(s.siteOf[user], start)].load.value))
  }

  /** An order is placed exactly then, and it is the request, open and unmatched,
      for one quarter hour. */
  lemma PlacedIff(s: State, user: UserId, start: int, side: Side, quantity: int, price: int, created: int)
    ensures Place(s, user, start, side, quantity, price, created).Ok? <==> MayPlace(s, user, start, side, quantity, price)
    ensures MayPlace(s, user, start, side, quantity, price) ==>
      Place(s, user, start, side, quantity, price, created) == Ok(s.(orders := s.orders
        + [Order(user, s.siteOf[user], side, quantity, price, start, start + 900_000_000, created, 0, Open)]))
  {
    hide Reserved, Day, Tomorrow;
    TomorrowIsMidnight(s.clock);
    if user in s.siteOf {
      HeldIsReserved(s.orders, Key(s.siteOf[user], start));
    }
  }

  /** An order is withdrawn exactly by its owner while nothing of it is matched. */
  lemma WithdrawnIff(s: State, user: UserId, id: OrderId)
    ensures Cancel(s, user, id).Ok? <==>
      0 <= id < |s.orders| && s.orders[id].user == user && s.orders[id].status == Open && s.orders[id].matched == 0
    ensures Cancel(s, user, id).Ok? ==>
      Cancel(s, user, id) == Ok(s.(orders := s.orders[id := s.orders[id].(status := Cancelled)]))
    ensures !(0 <= id < |s.orders| && s.orders[id].user == user) ==> Cancel(s, user, id) == Err(OrderNotFound)
  {
  }

  // ---- accepting -----------------------------------------------------------

  /** The offer can still be taken, by somebody else than its owner. */
  predicate Offered(s: State, q: Acceptance) {
    && 0 <= q.offer < |s.orders|
    && (s.orders[q.offer].status == Open || s.orders[q.offer].status == PartiallyFilled)
    && s.orders[q.offer].start > s.clock && s.orders[q.offer].user != q.user
    && q.quantity <= s.orders[q.offer].energy - s.orders[q.offer].matched
  }

  /** The order named as the caller's own: it is the caller's, active, on the other
      side, for the same slot, with enough left. */
  predicate OwnFits(s: State, q: Acceptance)
    requires Offered(s, q) && q.own.Some?
  {
    var id := q.own.value;
    && 0 <= id < |s.orders| && s.orders[id].user == q.user
    && (s.orders[id].status == Open || s.orders[id].status == PartiallyFilled)
    && s.orders[id].side != s.orders[q.offer].side && s.orders[id].start == s.orders[q.offer].start
    && s.orders[id].energy - s.orders[id].matched >= q.quantity
  }

  /** The checks of an accept pass exactly for an offer still there and either an
      order of the caller's own that fits, or leave to place one. */
  lemma AcceptChecksIff(s: State, q: Acceptance)
    ensures AcceptError(s, q).None? <==>
      Offered(s, q) && (
        if q.own.Some? then OwnFits(s, q)
        else MayPlace(s, q.user, s.orders[q.offer].start, if s.orders[q.offer].side == Sell then Buy else Sell, q.quantity, q.price))
  {
    hide PlaceError, MayPlace;
    if Offered(s, q) && q.own.None? {
      var side := if s.orders[q.offer].side == Sell then Buy else Sell;
      PlaceErrorIff(s, q.user, s.orders[q.offer].start, side, q.quantity, q.price);
    }
  }

  lemma PlaceErrorIff(s: State, user: UserId, start: int, side: Side, quantity: int, price: int)
    ensures PlaceError(s, user, start, side, quantity, price).None? <==> MayPlace(s, user, start, side, quantity, price)
  {
    PlacedIff(s, user, start, side, quantity, price, 0);
    hide PlaceError, MayPlace;
  }

  /** Another household's order, or none, named as one's own is not found, once the
      offer itself can be taken. */
  lemma OthersOrderIsNotFound(s: State, q: Acceptance, env: Env)
    requires (q.user, q.request) !in s.actions && Offered(s, q) && q.own.Some?
    requires !(0 <= q.own.value < |s.orders| && s.orders[q.own.value].user == q.user)
    ensures Accept(s, q, env) == Err(OrderNotFound)
  {
  }

  /** A successful fresh accept commits the caller's own order against another
      household's: the one named, or a new one for exactly this purchase. */
  lemma AcceptIsTheCallers(s: State, q: Acceptance, env: Env)
    requires Inv(s) && (q.user, q.request) !in s.actions && Accept(s, q, env).Ok?
    ensures var r := Accept(s, q, env).value;
      var t := r.trades[|s.trades|];
      && |r.trades| == |s.trades| + 1 && t.status == Committed && t.quantity == q.quantity
      && 0 <= q.offer < |s.orders| && 0 <= t.buy < |r.orders| && 0 <= t.sell < |r.orders|
      && var (own, other) := if s.orders[q.offer].side == Sell then (t.buy, t.sell) else (t.sell, t.buy);
      && other == q.offer && own == (if q.own.Some? then q.own.value else |s.orders|)
      && r.orders[own].user == q.user && r.orders[other].user == s.orders[q.offer].user != q.user
      && (q.own.None? ==> r.orders[own].energy == q.quantity == r.orders[own].matched && r.orders[own].limit == q.price)
  {
    hide Inv, TradingOk, DeliveryOk, Accept, PlaceError, Commit;
    AcceptCommitsExactly(s, q, env);
    AcceptChecksIff(s, q);
    PreparedOwner(s, q);
    var p := Prepare(s, q);
    CommitKeeps(p.orders[BuyId(s, q)], q.quantity);
    CommitKeeps(p.orders[SellId(s, q)], q.quantity);
  }

  lemma CommitKeeps(o: Order, quantity: int)
    ensures Commit(o, quantity).user == o.user && Commit(o, quantity).energy == o.energy
    ensures Commit(o, quantity).limit == o.limit && Commit(o, quantity).matched == o.matched + quantity
  {
  }

  lemma PreparedOwner(s: State, q: Acceptance)
    requires AcceptError(s, q).None? && 0 <= q.offer < |s.orders|
    ensures var p, id := Prepare(s, q), OwnId(s, q);
      && 0 <= id < |p.orders| && id != q.offer && p.orders[id].user == q.user && p.orders[q.offer] == s.orders[q.offer]
      && id == (if q.own.Some? then q.own.value else |s.orders|)
      && (q.own.None? ==> p.orders[id].energy == q.quantity && p.orders[id].matched == 0 && p.orders[id].limit == q.price)
  {
    hide PlaceError;
  }
}
