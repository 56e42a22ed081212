/** The connected marketplace as values: the tables, and what each operation of
    `workspace_service` and `experience_service.tick` does to them. An operation
    that raises leaves the tables alone, because its transaction rolls back. */
module Ledger {
  import opened Base
  import opened Orders
  import Matching

  /** Fifteen minutes, a day, and the offset of Indian Standard Time. */
  const INTERVAL: int := 900_000_000
  const DAY: int := 86_400_000_000
  const IST: int := 19_800_000_000
  /** 0.0001 kWh times 0.0001 INR/kWh, counted in paise. */
  const PAISA: int := 1_000_000

  type RequestId = int

  function Day(t: int): int {
    (t + IST) / DAY
  }

  /** Indian midnight after the clock. */
  function Tomorrow(clock: int): int {
    (Day(clock) + 1) * DAY - IST
  }

  // ---- tables --------------------------------------------------------------

  datatype Scenario = Normal | Cloudy | Congestion | Missing

  /** A site and an interval start: the natural key of readings and forecasts. */
  datatype Key = Key(site: SiteId, start: int)

  datatype Reading = Reading(end: int, valid: bool, exportKwh: Option<int>, importKwh: Option<int>)

  datatype Forecast = Forecast(solar: Option<int>, load: Option<int>)

  datatype TradeStatus = Committed | Refused | Settled

  datatype Trade = Trade(
    buy: OrderId, sell: OrderId, quantity: int, clearing: int, price: int,
    start: int, end: int, fill: int, status: TradeStatus)

  datatype Action = Action(offer: OrderId, quantity: int, price: int, own: Option<OrderId>, trade: int)

  datatype Allocation = Allocation(trade: int, seller: Key, buyer: Key, energy: int)

  datatype Reconciliation = Reconciliation(
    trade: int, committed: int, actual: int, deviation: int, within: bool, balancing: int)

  datatype Settlement = Settlement(
    trade: int, buyer: UserId, seller: UserId, kwh: int, gross: int, at: int)

  datatype Posting = Posting(settlement: int, account: UserId, amount: int)

  datatype Receipt = Receipt(
    trade: int, settlement: int, agreed: int, delivered: int, price: int, gross: int, start: int)

  datatype State = State(
    clock: int, scenario: Scenario,
    siteOf: map<UserId, SiteId>, prosumers: set<UserId>,
    forecastDays: set<Key>, forecasts: map<Key, Forecast>,
    readings: map<Key, Reading>,
    orders: seq<Order>, trades: seq<Trade>,
    actions: map<(UserId, RequestId), Action>,
    allocations: seq<Allocation>, reconciliations: seq<Reconciliation>,
    settlements: seq<Settlement>, journal: seq<Posting>, receipts: seq<Receipt>)

  datatype LedgerError =
    | BadBoundary | NotTomorrow | Forbidden | NoForecast | MissingEnergy | OverSurplus
    | ConstraintViolation | OrderNotFound | NotCancellable | UnknownOrder | GridIncomplete
    | RequestReused | OfferGone | OwnOffer | TooMuch | OwnOrderUnfit | NoMatch
    | NothingDue | TooFar | DuplicateReading | AccountExists

  type Outcome = Result<State, LedgerError>

  /** What the operations ask of code outside the model: whether the forecast
      schedule is safe for a slot (None when it cannot be assembled), the dynamic
      price of a proposal, the synthetic meter and the forecast provider. */
  datatype Flow = Flow(exportKwh: int, importKwh: int)

  datatype Env = Env(
    grid: int -> Option<bool>,
    quote: (Proposal, SiteId) -> Option<int>,
    meter: (Key, Scenario) -> Flow,
    predict: Key -> Forecast)

  // ---- orders --------------------------------------------------------------

  function SurplusOf(forecasts: map<Key, Forecast>, k: Key): int {
    if k in forecasts && forecasts[k].solar.Some? && forecasts[k].load.Some?
    then Max(0, forecasts[k].solar.value - forecasts[k].load.value)
    else 0
  }

  /** What a sell order keeps of its site's surplus for a slot. */
  function Reservation(o: Order, k: Key): int {
    if o.site == k.site && o.start == k.start && o.side == Sell
    then o.matched + (if o.Active() then o.Remaining() else 0)
    else 0
  }

  function Reservations(orders: seq<Order>, k: Key): seq<int> {
    seq(|orders|, i requires 0 <= i < |orders| => Reservation(orders[i], k))
  }

  function Reserved(orders: seq<Order>, k: Key): int {
    Sum(Reservations(orders, k))
  }

  /** Why an order cannot be placed, in the order the checks are made. */
  function PlaceError(s: State, user: UserId, start: int, side: Side, quantity: int, price: int): Option<LedgerError> {
    if start % INTERVAL != 0 then Some(BadBoundary)
    else if Day(start) != Day(s.clock) + 1 then Some(NotTomorrow)
    else if user !in s.siteOf || (side == Sell && user !in s.prosumers) then Some(Forbidden)
    else
      var k := Key(s.siteOf[user], start);
      if k !in s.forecasts then Some(NoForecast)
      else if s.forecasts[k].solar.None? || s.forecasts[k].load.None? then Some(MissingEnergy)
      else if side == Sell && quantity > SurplusOf(s.forecasts, k) - Reserved(s.orders, k) then Some(OverSurplus)
      else if quantity <= 0 || price < 0 then Some(ConstraintViolation)
      else None
  }

  function NewOrder(user: UserId, site: SiteId, start: int, side: Side, quantity: int, price: int, created: int): Order {
    Order(user, site, side, quantity, price, start, start + INTERVAL, created, 0, Open)
  }

  function Place(s: State, user: UserId, start: int, side: Side, quantity: int, price: int, created: int): Outcome {
    var error := PlaceError(s, user, start, side, quantity, price);
    if error.Some? then Err(error.value)
    else Ok(s.(orders := s.orders + [NewOrder(user, s.siteOf[user], start, side, quantity, price, created)]))
  }

  function Cancel(s: State, user: UserId, id: OrderId): Outcome {
    if !(0 <= id < |s.orders|) || s.orders[id].user != user then Err(OrderNotFound)
    else if s.orders[id].status != Open || s.orders[id].matched != 0 then Err(NotCancellable)
    else Ok(s.(orders := s.orders[id := s.orders[id].(status := Cancelled)]))
  }

  // ---- clearing ------------------------------------------------------------

  datatype Books = Books(orders: seq<Order>, trades: seq<Trade>)

  type Clearing = Result<Books, LedgerError>

  function Commit(o: Order, quantity: int): Order {
    o.(matched := o.matched + quantity,
       status := if o.Remaining() - quantity == 0 then Filled else PartiallyFilled)
  }

  function LastFill(trades: seq<Trade>, buy: OrderId, sell: OrderId, start: int): (n: int)
    ensures n >= 0
    ensures forall i :: 0 <= i < |trades| && trades[i].buy == buy && trades[i].sell == sell && trades[i].start == start ==>
      trades[i].fill <= n
  {
    if |trades| == 0 then 0
    else
      var t := trades[|trades| - 1];
      var n := LastFill(trades[..|trades| - 1], buy, sell, start);
      if t.buy == buy && t.sell == sell && t.start == start then Max(n, t.fill) else n
  }

  /** A grid-safe price inside both limits. */
  predicate Accepted(buy: Order, sell: Order, safe: bool, price: int) {
    safe && sell.limit <= price <= buy.limit
  }

  predicate Skipped(b: Books, p: Proposal)
    requires 0 <= p.buy < |b.orders| && 0 <= p.sell < |b.orders|
  {
    b.orders[p.buy].status == Rejected || b.orders[p.sell].status == Rejected
    || b.orders[p.buy].user == b.orders[p.sell].user
  }

  function NewTrade(b: Books, p: Proposal, start: int, price: int, accepted: bool): Trade {
    Trade(p.buy, p.sell, p.quantity, p.price, price, start, start + INTERVAL,
          1 + LastFill(b.trades, p.buy, p.sell, start), if accepted then Committed else Refused)
  }

  function Judge(o: Order, quantity: int, accepted: bool): Order {
    if accepted then Commit(o, quantity) else o.(status := Rejected)
  }

  /** One proposal of the clearing loop. */
  function FillOne(b: Books, p: Proposal, start: int, safe: bool, env: Env): Clearing {
    if !(0 <= p.buy < |b.orders| && 0 <= p.sell < |b.orders|) then Err(UnknownOrder)
    else if Skipped(b, p) then Ok(b)
    else
      var buy, sell := b.orders[p.buy], b.orders[p.sell];
      var quote := env.quote(p, sell.site);
      if quote.None? then Err(NoForecast)
      else if quote.value < 0 || p.quantity <= 0 || p.price < 0 || p.buy == p.sell then Err(ConstraintViolation)
      else
        var accepted := Accepted(buy, sell, safe, quote.value);
        Ok(Books(
             b.orders[p.buy := Judge(buy, p.quantity, accepted)][p.sell := Judge(sell, p.quantity, accepted)],
             b.trades + [NewTrade(b, p, start, quote.value, accepted)]))
  }

  function FillAll(b: Books, ps: seq<Proposal>, start: int, safe: bool, env: Env): Clearing
    decreases |ps|
  {
    if |ps| == 0 then Ok(b)
    else
      var r := FillOne(b, ps[0], start, safe, env);
      if r.Err? then r else FillAll(r.value, ps[1..], start, safe, env)
  }

  /** Orders the clearing may use, fixed before the first slot is cleared. */
  predicate Eligible(o: Order, id: OrderId, clock: int, only: Option<set<OrderId>>) {
    o.Active() && o.start > clock && (only.Some? ==> id in only.value)
  }

  function OpenIds(orders: seq<Order>, clock: int, only: Option<set<OrderId>>): (ids: seq<OrderId>)
    ensures forall i :: 0 <= i < |ids| ==> 0 <= ids[i] < |orders| && Eligible(orders[ids[i]], ids[i], clock, only)
    ensures forall k :: 0 <= k < |orders| && Eligible(orders[k], k, clock, only) ==> k in ids
    ensures DistinctIds(ids)
  {
    if |orders| == 0 then []
    else
      var n := |orders| - 1;
      var front := OpenIds(orders[..n], clock, only);
      if Eligible(orders[n], n, clock, only) then front + [n] else front
  }

  /** Delivery starts of the listed orders, each once and in time order. */
  function Starts(orders: seq<Order>, ids: seq<OrderId>): (r: seq<int>)
    requires forall i :: 0 <= i < |ids| ==> 0 <= ids[i] < |orders|
    ensures Increasing(r)
    ensures forall i :: 0 <= i < |ids| ==> orders[ids[i]].start in r
    ensures forall x :: x in r ==> exists i :: 0 <= i < |ids| && orders[ids[i]].start == x
  {
    if |ids| == 0 then []
    else AddStart(Starts(orders, ids[..|ids| - 1]), orders[ids[|ids| - 1]].start)
  }

  function Group(orders: seq<Order>, ids: seq<OrderId>, start: int): (r: seq<OrderId>)
    requires forall i :: 0 <= i < |ids| ==> 0 <= ids[i] < |orders|
    ensures forall i :: 0 <= i < |r| ==> r[i] in ids && 0 <= r[i] < |orders| && orders[r[i]].start == start
  {
    if |ids| == 0 then []
    else
      var front := Group(orders, ids[..|ids| - 1], start);
      var last := ids[|ids| - 1];
      if orders[last].start == start then front + [last] else front
  }

  lemma {:induction false} GroupDistinct(orders: seq<Order>, ids: seq<OrderId>, start: int)
    requires forall i :: 0 <= i < |ids| ==> 0 <= ids[i] < |orders|
    requires DistinctIds(ids)
    ensures DistinctIds(Group(orders, ids, start))
  {
    if |ids| > 0 {
      GroupDistinct(orders, ids[..|ids| - 1], start);
      var front := Group(orders, ids[..|ids| - 1], start);
      forall i | 0 <= i < |front| ensures front[i] != ids[|ids| - 1] {
        assert front[i] in ids[..|ids| - 1];
      }
    }
  }

  function ClearSlot(b: Books, ids: seq<OrderId>, start: int, cap: Option<int>, env: Env): Clearing {
    if exists i :: 0 <= i < |ids| && !(0 <= ids[i] < |b.orders|) then Err(UnknownOrder)
    else
      var ps := Matching.Match(BookOf(b.orders, Group(b.orders, ids, start), cap));
      if |ps| == 0 then Ok(b)
      else
        var safe := env.grid(start);
        if safe.None? then Err(GridIncomplete) else FillAll(b, ps, start, safe.value, env)
  }

  function ClearSlots(b: Books, ids: seq<OrderId>, starts: seq<int>, cap: Option<int>, env: Env): Clearing
    decreases |starts|
  {
    if |starts| == 0 then Ok(b)
    else
      var r := ClearSlot(b, ids, starts[0], cap, env);
      if r.Err? then r else ClearSlots(r.value, ids, starts[1..], cap, env)
  }

  function Clear(s: State, only: Option<set<OrderId>>, cap: Option<int>, env: Env): Outcome {
    var ids := OpenIds(s.orders, s.clock, only);
    var r := ClearSlots(Books(s.orders, s.trades), ids, Starts(s.orders, ids), cap, env);
    if r.Err? then Err(r.error)
    else Ok(s.(orders := r.value.orders, trades := r.value.trades))
  }

  // ---- direct matches ------------------------------------------------------

  datatype Acceptance = Acceptance(
    user: UserId, offer: OrderId, quantity: int, price: int, request: RequestId,
    own: Option<OrderId>, created: int)

  predicate SameBody(a: Action, q: Acceptance) {
    a.offer == q.offer && a.quantity == q.quantity && a.price == q.price && a.own == q.own
  }

  function Opposite(side: Side): Side {
    if side == Sell then Buy else Sell
  }

  /** Checks on the offer and on the caller's own order, before any match. */
  function AcceptError(s: State, q: Acceptance): Option<LedgerError> {
    if !(0 <= q.offer < |s.orders|) || !s.orders[q.offer].Active() || s.orders[q.offer].start <= s.clock then Some(OfferGone)
    else
      var offer := s.orders[q.offer];
      if offer.user == q.user then Some(OwnOffer)
      else if q.quantity > offer.Remaining() then Some(TooMuch)
      else if q.own.None? then PlaceError(s, q.user, offer.start, Opposite(offer.side), q.quantity, q.price)
      else if !(0 <= q.own.value < |s.orders|) || s.orders[q.own.value].user != q.user then Some(OrderNotFound)
      else
        var own := s.orders[q.own.value];
        if !own.Active() || own.side != Opposite(offer.side) || own.start != offer.start || own.Remaining() < q.quantity
        then Some(OwnOrderUnfit)
        else None
  }

  /** The caller's order: the one named, or a new one for exactly this purchase. */
  function Prepare(s: State, q: Acceptance): State
    requires AcceptError(s, q).None?
  {
    if q.own.Some? then s
    else
      var offer := s.orders[q.offer];
      s.(orders := s.orders + [NewOrder(q.user, s.siteOf[q.user], offer.start, Opposite(offer.side), q.quantity, q.price, q.created)])
  }

  function OwnId(s: State, q: Acceptance): OrderId {
    if q.own.Some? then q.own.value else |s.orders|
  }

  /** The match itself: the fresh half of `accept_offer`. */
  function AcceptFresh(s: State, q: Acceptance, env: Env): Outcome
    requires AcceptError(s, q).None?
  {
    var r := Clear(Prepare(s, q), Some({OwnId(s, q), q.offer}), Some(q.quantity), env);
    if r.Err? then r
    else if |r.value.trades| <= |s.trades| || r.value.trades[|s.trades|].status != Committed then Err(NoMatch)
    else Ok(r.value.(actions := r.value.actions[(q.user, q.request) :=
                                                Action(q.offer, q.quantity, q.price, q.own, |s.trades|)]))
  }

  function Accept(s: State, q: Acceptance, env: Env): Outcome {
    if (q.user, q.request) in s.actions then
      if SameBody(s.actions[(q.user, q.request)], q) then Ok(s) else Err(RequestReused)
    else
      var error := AcceptError(s, q);
      if error.Some? then Err(error.value) else AcceptFresh(s, q, env)
  }

  // ---- readings and forecasts ----------------------------------------------

  function Keys(sites: set<SiteId>, moments: set<int>): set<Key> {
    set site, t | site in sites && t in moments :: Key(site, t)
  }

  function Moments(from: int, n: nat): set<int> {
    set i | 0 <= i < n :: from + i * INTERVAL
  }

  function Measure(k: Key, scenario: Scenario, env: Env): Reading {
    var f := env.meter(k, scenario);
    Reading(k.start + INTERVAL, true, Some(f.exportKwh), Some(f.importKwh))
  }

  /** Readings are written once: an interval that has one keeps it. */
  function AddReadings(readings: map<Key, Reading>, keys: set<Key>, scenario: Scenario, env: Env): map<Key, Reading> {
    if scenario == Missing then readings
    else readings + (map k | k in keys && k !in readings :: Measure(k, scenario, env))
  }

  function AllSites(s: State): set<SiteId> {
    set user | user in s.siteOf :: s.siteOf[user]
  }

  /** Forecast tomorrow for every listed site that has none for that day. */
  function ForecastAll(s: State, sites: set<SiteId>, env: Env): State {
    var day := Tomorrow(s.clock);
    var todo := set site | site in sites && Key(site, day) !in s.forecastDays;
    s.(forecastDays := s.forecastDays + Keys(todo, {day}),
       forecasts := s.forecasts + (map k | k in Keys(todo, Moments(day, 96)) :: env.predict(k)))
  }

  // ---- delivery ------------------------------------------------------------

  function SellerShare(a: Allocation, k: Key): int {
    if a.seller == k then a.energy else 0
  }

  function BuyerShare(a: Allocation, k: Key): int {
    if a.buyer == k then a.energy else 0
  }

  function SellerUsed(rows: seq<Allocation>, k: Key): int {
    Sum(seq(|rows|, i requires 0 <= i < |rows| => SellerShare(rows[i], k)))
  }

  function BuyerUsed(rows: seq<Allocation>, k: Key): int {
    Sum(seq(|rows|, i requires 0 <= i < |rows| => BuyerShare(rows[i], k)))
  }

  /** A valid reading of exactly the delivery interval. */
  predicate Usable(readings: map<Key, Reading>, k: Key, end: int) {
    k in readings && readings[k].valid && readings[k].end == end
  }

  function SellerKey(s: State, t: Trade): Key
    requires 0 <= t.sell < |s.orders|
  {
    Key(s.orders[t.sell].site, t.start)
  }

  function BuyerKey(s: State, t: Trade): Key
    requires 0 <= t.buy < |s.orders|
  {
    Key(s.orders[t.buy].site, t.start)
  }

  predicate HasOrders(s: State, t: Trade) {
    0 <= t.buy < |s.orders| && 0 <= t.sell < |s.orders|
  }

  predicate Measured(s: State, t: Trade)
    requires HasOrders(s, t)
  {
    && Usable(s.readings, SellerKey(s, t), t.end) && s.readings[SellerKey(s, t)].exportKwh.Some?
    && Usable(s.readings, BuyerKey(s, t), t.end) && s.readings[BuyerKey(s, t)].importKwh.Some?
  }

  function Delivered(s: State, t: Trade): int
    requires HasOrders(s, t) && Measured(s, t)
  {
    var seller, buyer := SellerKey(s, t), BuyerKey(s, t);
    Min(t.quantity,
        Min(Max(0, s.readings[seller].exportKwh.value - SellerUsed(s.allocations, seller)),
            Max(0, s.readings[buyer].importKwh.value - BuyerUsed(s.allocations, buyer))))
  }

  function Abs(x: int): int {
    if x < 0 then -x else x
  }

  /** The rows one settlement writes. */
  function SettleRows(s: State, id: int): State
    requires 0 <= id < |s.trades| && HasOrders(s, s.trades[id]) && Measured(s, s.trades[id])
  {
    var t := s.trades[id];
    var kwh := Delivered(s, t);
    var gross := RoundHalfEven(kwh * t.price, PAISA);
    var buyer, seller := s.orders[t.buy].user, s.orders[t.sell].user;
    var n := |s.settlements|;
    s.(trades := s.trades[id := t.(status := Settled)],
       allocations := s.allocations + [Allocation(id, SellerKey(s, t), BuyerKey(s, t), kwh)],
       reconciliations := s.reconciliations + [Reconciliation(
         id, t.quantity, kwh, kwh - t.quantity, 20 * Abs(kwh - t.quantity) <= t.quantity, t.quantity - kwh)],
       settlements := s.settlements + [Settlement(id, buyer, seller, kwh, gross, s.clock)],
       journal := s.journal + [Posting(n, buyer, -gross), Posting(n, seller, gross)],
       receipts := s.receipts + [Receipt(id, n, t.quantity, kwh, t.price, gross, t.start)])
  }

  /** A trade without both measurements waits. */
  function SettleOne(s: State, id: int): State {
    if 0 <= id < |s.trades| && HasOrders(s, s.trades[id]) && Measured(s, s.trades[id]) then SettleRows(s, id) else s
  }

  function SettleAll(s: State, ids: seq<int>): State
    decreases |ids|
  {
    if |ids| == 0 then s else SettleAll(SettleOne(s, ids[0]), ids[1..])
  }

  predicate IsDue(t: Trade, clock: int) {
    t.status == Committed && t.end <= clock
  }

  /** Insert by delivery start, after the earlier trades of the same start. */
  function AddDue(trades: seq<Trade>, ids: seq<int>, id: int): (r: seq<int>)
    requires 0 <= id < |trades| && forall i :: 0 <= i < |ids| ==> 0 <= ids[i] < |trades|
    ensures |r| == |ids| + 1
    ensures multiset(r) == multiset(ids) + multiset{id}
    ensures forall i :: 0 <= i < |r| ==> 0 <= r[i] < |trades|
  {
    if |ids| == 0 then [id]
    else
      var last := ids[|ids| - 1];
      assert ids == ids[..|ids| - 1] + [last];
      if trades[last].start <= trades[id].start then ids + [id]
      else AddDue(trades, ids[..|ids| - 1], id) + [last]
  }

  /** Committed trades whose delivery is over, chronologically. */
  function Due(trades: seq<Trade>, n: nat, clock: int): (ids: seq<int>)
    requires n <= |trades|
    ensures forall i :: 0 <= i < |ids| ==> 0 <= ids[i] < |trades|
  {
    if n == 0 then []
    else
      var front := Due(trades, n - 1, clock);
      if IsDue(trades[n - 1], clock) then AddDue(trades, front, n - 1) else front
  }

  function Reconcile(s: State): State {
    SettleAll(s, Due(s.trades, |s.trades|, s.clock))
  }

  // ---- the clock -----------------------------------------------------------

  function Steps(distance: int): nat {
    if distance <= 0 then 0 else (distance + INTERVAL - 1) / INTERVAL
  }

  function LatestEnd(trades: seq<Trade>): (r: Option<int>)
    ensures r.None? <==> forall i :: 0 <= i < |trades| ==> trades[i].status != Committed
    ensures r.Some? ==> forall i :: 0 <= i < |trades| && trades[i].status == Committed ==> trades[i].end <= r.value
    ensures r.Some? ==> exists i :: 0 <= i < |trades| && trades[i].status == Committed && trades[i].end == r.value
  {
    if |trades| == 0 then None
    else
      var front := LatestEnd(trades[..|trades| - 1]);
      var t := trades[|trades| - 1];
      if t.status != Committed then front
      else if front.Some? && front.value >= t.end then front
      else Some(t.end)
  }

  function AdvanceError(s: State, intervals: int, deliver: bool): Option<LedgerError> {
    if deliver && LatestEnd(s.trades).None? then Some(NothingDue)
    else if Target(s, intervals, deliver) > s.clock + 2 * DAY then Some(TooFar)
    else None
  }

  function Target(s: State, intervals: int, deliver: bool): int {
    if deliver && LatestEnd(s.trades).Some? then LatestEnd(s.trades).value else s.clock + INTERVAL * intervals
  }

  /** Move the clock over n intervals and meter every site on the way. */
  function Elapse(s: State, n: nat, env: Env): State {
    s.(clock := s.clock + n * INTERVAL,
       readings := AddReadings(s.readings, Keys(AllSites(s), Moments(s.clock, n)), s.scenario, env))
  }

  function Advance(s: State, intervals: int, deliver: bool, env: Env): Outcome {
    var error := AdvanceError(s, intervals, deliver);
    if error.Some? then Err(error.value)
    else
      var moved := Elapse(s, Steps(Target(s, intervals, deliver) - s.clock), env);
      Ok(ForecastAll(Reconcile(moved), AllSites(s), env))
  }

  function FloorTime(t: int): int {
    t / INTERVAL * INTERVAL
  }

  function TickStart(s: State, now: int): int {
    Min(FloorTime(now), Max(s.clock, FloorTime(now) - 30 * DAY))
  }

  function TickCount(s: State, now: int): nat {
    (FloorTime(now) - TickStart(s, now)) / INTERVAL
  }

  /** Follow the wall clock; the clock may move backwards here. */
  function Tick(s: State, now: int, env: Env): State {
    var n := TickCount(s, now);
    var moved := s.(clock := FloorTime(now),
                    readings := AddReadings(s.readings, Keys(AllSites(s), Moments(TickStart(s, now), n)), Normal, env));
    var settled := Reconcile(moved);
    if n > 0 then ForecastAll(settled, AllSites(s), env) else settled
  }

  function EnableLive(s: State, now: int, env: Env): State {
    var clock := FloorTime(now);
    ForecastAll(
      s.(clock := clock, scenario := Normal,
         readings := AddReadings(s.readings, Keys(AllSites(s), Moments(clock - 2880 * INTERVAL, 2880)), Normal, env)),
      AllSites(s), env)
  }

  // ---- replay, accounts, other writers -------------------------------------

  /** The readings `recover_missing` stages, one per order of every due trade
      that has none; staging does not see what is already staged. */
  function Staged(s: State, n: nat): seq<Key>
    requires n <= |s.trades|
  {
    if n == 0 then []
    else
      var front := Staged(s, n - 1);
      var t := s.trades[n - 1];
      if !IsDue(t, s.clock) || !HasOrders(s, t) then front
      else
        front
        + (if BuyerKey(s, t) in s.readings then [] else [BuyerKey(s, t)])
        + (if SellerKey(s, t) in s.readings then [] else [SellerKey(s, t)])
  }

  predicate NoRepeats(ks: seq<Key>) {
    forall i, j :: 0 <= i < j < |ks| ==> ks[i] != ks[j]
  }

  function Recover(s: State, env: Env): Outcome {
    var staged := Staged(s, |s.trades|);
    if !NoRepeats(staged) then Err(DuplicateReading)
    else Ok(Reconcile(s.(readings := AddReadings(s.readings, (set k | k in staged), Normal, env))))
  }

  function Register(s: State, user: UserId, site: SiteId, prosumer: bool, days: nat, env: Env): Outcome {
    if user in s.siteOf || site in AllSites(s) then Err(AccountExists)
    else
      var joined := s.(siteOf := s.siteOf[user := site],
                       prosumers := if prosumer then s.prosumers + {user} else s.prosumers,
                       readings := AddReadings(s.readings, Keys({site}, Moments(s.clock - days * 96 * INTERVAL, days * 96)), Normal, env));
      Ok(ForecastAll(joined, {site}, env))
  }

  /** A reading from any other source; the natural key admits the first only. */
  function Ingest(s: State, k: Key, r: Reading): State {
    if k in s.readings then s else s.(readings := s.readings[k := r])
  }
}
