/** Runs of the marketplace: any sequence of operations, refused ones included,
    from the empty community. */
module Runs {
  import opened Base
  import opened Orders
  import opened Ledger
  import opened Trading
  import opened Delivery

  datatype Step =
    | DoPlace(user: UserId, start: int, side: Side, quantity: int, price: int, created: int)
    | DoCancel(canceller: UserId, id: OrderId)
    | DoAccept(request: Acceptance, env: Env)
    | DoClear(env: Env)
    | DoAdvance(intervals: int, deliver: bool, env: Env)
    | DoTick(now: int, env: Env)
    | DoEnableLive(now: int, env: Env)
    | DoScenario(scenario: Scenario)
    | DoRecover(env: Env)
    | DoRegister(newcomer: UserId, site: SiteId, prosumer: bool, days: nat, env: Env)
    | DoIngest(key: Key, reading: Reading)

  function Attempt(s: State, step: Step): Outcome {
    match step
    case DoPlace(user, start, side, quantity, price, created) => Place(s, user, start, side, quantity, price, created)
    case DoCancel(user, id) => Cancel(s, user, id)
    case DoAccept(q, env) => Accept(s, q, env)
    case DoClear(env) => Clear(s, None, None, env)
    case DoAdvance(intervals, deliver, env) => Advance(s, intervals, deliver, env)
    case DoTick(now, env) => Ok(Tick(s, now, env))
    case DoEnableLive(now, env) => Ok(EnableLive(s, now, env))
    case DoScenario(scenario) => Ok(s.(scenario := scenario))
    case DoRecover(env) => Recover(s, env)
    case DoRegister(user, site, prosumer, days, env) => Register(s, user, site, prosumer, days, env)
    case DoIngest(k, r) => Ok(Ingest(s, k, r))
  }

  /** A refused operation rolls back. */
  function Apply(s: State, step: Step): State {
    var r := Attempt(s, step);
    if r.Ok? then r.value else s
  }

  function Run(s: State, steps: seq<Step>): State
    decreases |steps|
  {
    if |steps| == 0 then s else Run(Apply(s, steps[0]), steps[1..])
  }

  function Initial(clock: int): State {
    State(clock, Normal, map[], {}, {}, map[], map[], [], [], map[], [], [], [], [], [])
  }

  // ---- the invariant of every run ------------------------------------------

  /** Orders stand on quarter hours and belong to their owner's site. */
  predicate PlacesOk(s: State) {
    && (forall i :: 0 <= i < |s.orders| ==> s.orders[i].start % INTERVAL == 0)
    && (forall i :: 0 <= i < |s.orders| ==>
          s.orders[i].user in s.siteOf && s.orders[i].site == s.siteOf[s.orders[i].user])
    && (forall u, v :: u in s.siteOf && v in s.siteOf && u != v ==> s.siteOf[u] != s.siteOf[v])
  }

  ghost predicate Inv(s: State) {
    TradingOk(s) && DeliveryOk(s) && ForecastOk(s) && PlacesOk(s)
  }

  /** A trade keeps its terms; only a committed one may become settled. */
  predicate TradeKept(a: Trade, b: Trade) {
    b.(status := a.status) == a && (b.status == a.status || (a.status == Committed && b.status == Settled))
  }

  /** What no operation ever takes back. */
  ghost predicate Grows(s: State, r: State) {
    && SameTerms(s.orders, r.orders)
    && |s.trades| <= |r.trades| && (forall i :: 0 <= i < |s.trades| ==> TradeKept(s.trades[i], r.trades[i]))
    && Extends(s.actions, r.actions) && Extends(s.readings, r.readings) && Extends(s.forecasts, r.forecasts)
    && s.allocations <= r.allocations && s.reconciliations <= r.reconciliations
    && s.settlements <= r.settlements && s.journal <= r.journal && s.receipts <= r.receipts
  }

  lemma GrowsTransitive(a: State, b: State, c: State)
    requires Grows(a, b) && Grows(b, c)
    ensures Grows(a, c)
  {
    SameTermsTransitive(a.orders, b.orders, c.orders);
    forall i | 0 <= i < |a.trades| ensures TradeKept(a.trades[i], c.trades[i]) {
      assert TradeKept(a.trades[i], b.trades[i]) && TradeKept(b.trades[i], c.trades[i]);
    }
  }

  /** The operation changed nothing but orders, trades and actions. */
  ghost predicate OnlyTrades(s: State, r: State) {
    && SameTerms(s.orders, r.orders) && s.trades <= r.trades && Unsettled(r.trades, |s.trades|)
    && Extends(s.actions, r.actions)
    && r == s.(orders := r.orders, trades := r.trades, actions := r.actions)
  }

  lemma TradingStep(s: State, r: State)
    requires Inv(s) && TradingOk(r) && OnlyTrades(s, r)
    requires forall i :: |s.orders| <= i < |r.orders| ==>
      r.orders[i].start % INTERVAL == 0 && r.orders[i].user in s.siteOf && r.orders[i].site == s.siteOf[r.orders[i].user]
    ensures Inv(r) && Grows(s, r)
  {
    hide TradingOk, DeliveryOk;
    DeliveryUndisturbed(s, r);
  }

  lemma PlaceStep(s: State, user: UserId, start: int, side: Side, quantity: int, price: int, created: int)
    requires Inv(s) && Place(s, user, start, side, quantity, price, created).Ok?
    ensures Inv(Place(s, user, start, side, quantity, price, created).value)
    ensures Grows(s, Place(s, user, start, side, quantity, price, created).value)
  {
    hide TradingOk, DeliveryOk;
    PlaceKeeps(s, user, start, side, quantity, price, created);
    TradingStep(s, Place(s, user, start, side, quantity, price, created).value);
  }

  lemma AcceptPlaces(s: State, q: Acceptance)
    requires AcceptError(s, q).None? && PlacesOk(s)
    ensures PlacesOk(Prepare(s, q))
    ensures q.own.None? ==> |Prepare(s, q).orders| == |s.orders| + 1
  {
  }

  lemma AcceptStep(s: State, q: Acceptance, env: Env)
    requires Inv(s) && Accept(s, q, env).Ok?
    ensures Inv(Accept(s, q, env).value) && Grows(s, Accept(s, q, env).value)
  {
    hide TradingOk, DeliveryOk, Clear, AcceptError, Prepare;
    AcceptKeeps(s, q, env);
    var r := Accept(s, q, env).value;
    if (q.user, q.request) !in s.actions {
      AcceptPlaces(s, q);
      var p := Prepare(s, q);
      PrepareKeeps(s, q);
      ClearShape(p, Some({OwnId(s, q), q.offer}), Some(q.quantity), env);
      PrepareShape(s, q);
      assert SameTerms(p.orders, r.orders) && |p.orders| == |r.orders|;
      TradingStep(s, r);
    } else {
      TradingStep(s, r);
    }
  }

  lemma PrepareShape(s: State, q: Acceptance)
    requires AcceptError(s, q).None?
    ensures Prepare(s, q) == s.(orders := Prepare(s, q).orders)
  {
  }

  lemma ClearShape(s: State, only: Option<set<OrderId>>, cap: Option<int>, env: Env)
    requires TradingOk(s) && Clear(s, only, cap, env).Ok?
    ensures var r := Clear(s, only, cap, env).value;
      && r == s.(orders := r.orders, trades := r.trades)
      && TradingOk(r) && OnlyTrades(s, r) && |r.orders| == |s.orders|
  {
    hide TradingOk, ClearSlots, OpenIds, Starts;
    ClearKeeps(s, only, cap, env);
  }

  lemma CancelStep(s: State, user: UserId, id: OrderId)
    requires Inv(s) && Cancel(s, user, id).Ok?
    ensures Inv(Cancel(s, user, id).value) && Grows(s, Cancel(s, user, id).value)
  {
    hide TradingOk, DeliveryOk;
    CancelKeeps(s, user, id);
    TradingStep(s, Cancel(s, user, id).value);
  }

  // ---- steps of the clock --------------------------------------------------

  /** Readings, the clock, accounts and the scenario may change freely. */
  ghost predicate OnlyMeters(s: State, r: State) {
    && Extends(s.readings, r.readings) && Extends(s.siteOf, r.siteOf)
    && r == s.(clock := r.clock, scenario := r.scenario, readings := r.readings, siteOf := r.siteOf, prosumers := r.prosumers)
    && (forall u, v :: u in r.siteOf && v in r.siteOf && u != v ==> r.siteOf[u] != r.siteOf[v])
  }

  lemma MeterStep(s: State, r: State)
    requires Inv(s) && OnlyMeters(s, r)
    ensures Inv(r) && Grows(s, r)
  {
    hide TradingOk, DeliveryOk;
    TradingSame(s, r);
    DeliveryUndisturbed(s, r);
  }

  lemma ReconcileStep(s: State)
    requires Inv(s)
    ensures Inv(Reconcile(s)) && Grows(s, Reconcile(s))
  {
    hide TradingOk, DeliveryOk, Reconcile, Settles;
    ReconcileEffect(s);
  }

  lemma ForecastStep(s: State, sites: set<SiteId>, env: Env)
    requires Inv(s)
    ensures Inv(ForecastAll(s, sites, env)) && Grows(s, ForecastAll(s, sites, env))
  {
    hide BooksOk, DeliveryOk, ForecastAll, SurplusOk;
    ForecastAllKeeps(s, sites, env);
    var r := ForecastAll(s, sites, env);
    SurplusGrows(s, r);
    DeliveryUndisturbed(s, r);
  }

  /** Meter, settle, forecast: the shape of every clock step. */
  lemma ClockStep(s: State, moved: State, sites: set<SiteId>, env: Env)
    requires Inv(s) && OnlyMeters(s, moved)
    ensures Inv(Reconcile(moved)) && Grows(s, Reconcile(moved))
    ensures Inv(ForecastAll(Reconcile(moved), sites, env)) && Grows(s, ForecastAll(Reconcile(moved), sites, env))
    ensures Inv(ForecastAll(moved, sites, env)) && Grows(s, ForecastAll(moved, sites, env))
  {
    hide Inv, Grows, Reconcile, ForecastAll, OnlyMeters;
    MeterStep(s, moved);
    ReconcileStep(moved);
    GrowsTransitive(s, moved, Reconcile(moved));
    ForecastStep(Reconcile(moved), sites, env);
    GrowsTransitive(s, Reconcile(moved), ForecastAll(Reconcile(moved), sites, env));
    ForecastStep(moved, sites, env);
    GrowsTransitive(s, moved, ForecastAll(moved, sites, env));
  }

  lemma AdvanceStep(s: State, intervals: int, deliver: bool, env: Env)
    requires Inv(s) && Advance(s, intervals, deliver, env).Ok?
    ensures Inv(Advance(s, intervals, deliver, env).value) && Grows(s, Advance(s, intervals, deliver, env).value)
  {
    hide TradingOk, DeliveryOk, Reconcile, ForecastAll, Grows, Target;
    var moved := Elapse(s, Steps(Target(s, intervals, deliver) - s.clock), env);
    AddReadingsExtends(s.readings, Keys(AllSites(s), Moments(s.clock, Steps(Target(s, intervals, deliver) - s.clock))), s.scenario, env);
    ClockStep(s, moved, AllSites(s), env);
  }

  lemma TickStep(s: State, now: int, env: Env)
    requires Inv(s)
    ensures Inv(Tick(s, now, env)) && Grows(s, Tick(s, now, env))
  {
    hide TradingOk, DeliveryOk, Reconcile, ForecastAll, Grows, TickCount, TickStart;
    var keys := Keys(AllSites(s), Moments(TickStart(s, now), TickCount(s, now)));
    AddReadingsExtends(s.readings, keys, Normal, env);
    var moved := s.(clock := FloorTime(now), readings := AddReadings(s.readings, keys, Normal, env));
    MeterStep(s, moved);
    ReconcileSites(moved);
    ClockStep(s, moved, AllSites(s), env);
  }

  lemma ReconcileSites(s: State)
    requires Inv(s)
    ensures AllSites(Reconcile(s)) == AllSites(s)
  {
    hide TradingOk, DeliveryOk, Reconcile, Settles;
    ReconcileEffect(s);
  }

  lemma EnableLiveStep(s: State, now: int, env: Env)
    requires Inv(s)
    ensures Inv(EnableLive(s, now, env)) && Grows(s, EnableLive(s, now, env))
  {
    hide TradingOk, DeliveryOk, ForecastAll, Grows, Reconcile;
    var clock := FloorTime(now);
    var keys := Keys(AllSites(s), Moments(clock - 2880 * INTERVAL, 2880));
    AddReadingsExtends(s.readings, keys, Normal, env);
    var moved := s.(clock := clock, scenario := Normal, readings := AddReadings(s.readings, keys, Normal, env));
    ClockStep(s, moved, AllSites(s), env);
  }

  lemma RecoverStep(s: State, env: Env)
    requires Inv(s) && Recover(s, env).Ok?
    ensures Inv(Recover(s, env).value) && Grows(s, Recover(s, env).value)
  {
    hide TradingOk, DeliveryOk, Reconcile, Grows, Staged;
    var keys := set k | k in Staged(s, |s.trades|);
    AddReadingsExtends(s.readings, keys, Normal, env);
    ClockStep(s, s.(readings := AddReadings(s.readings, keys, Normal, env)), {}, env);
  }

  lemma RegisterStep(s: State, user: UserId, site: SiteId, prosumer: bool, days: nat, env: Env)
    requires Inv(s) && Register(s, user, site, prosumer, days, env).Ok?
    ensures Inv(Register(s, user, site, prosumer, days, env).value)
    ensures Grows(s, Register(s, user, site, prosumer, days, env).value)
  {
    hide TradingOk, DeliveryOk, ForecastAll, Grows, Reconcile;
    var keys := Keys({site}, Moments(s.clock - days * 96 * INTERVAL, days * 96));
    AddReadingsExtends(s.readings, keys, Normal, env);
    var joined := s.(siteOf := s.siteOf[user := site],
                     prosumers := if prosumer then s.prosumers + {user} else s.prosumers,
                     readings := AddReadings(s.readings, keys, Normal, env));
    FreshSite(s, user, site);
    ClockStep(s, joined, {site}, env);
  }

  lemma FreshSite(s: State, user: UserId, site: SiteId)
    requires PlacesOk(s) && user !in s.siteOf && site !in AllSites(s)
    ensures var m := s.siteOf[user := site];
      forall u, v :: u in m && v in m && u != v ==> m[u] != m[v]
  {
    forall u | u in s.siteOf ensures s.siteOf[u] != site {
      assert s.siteOf[u] in AllSites(s);
    }
  }

  // ---- every run -----------------------------------------------------------

  lemma StepKeeps(s: State, step: Step)
    requires Inv(s)
    ensures Inv(Apply(s, step)) && Grows(s, Apply(s, step))
  {
    hide Inv, Place, Cancel, Accept, Clear, Advance, Tick, EnableLive, Recover, Register, TradingOk, DeliveryOk;
    assert Grows(s, s);
    if Attempt(s, step).Ok? {
      match step
      case DoPlace(user, start, side, quantity, price, created) => PlaceStep(s, user, start, side, quantity, price, created);
      case DoCancel(user, id) => CancelStep(s, user, id);
      case DoAccept(q, env) => AcceptStep(s, q, env);
      case DoClear(env) => ClearStep(s, env);
      case DoAdvance(intervals, deliver, env) => AdvanceStep(s, intervals, deliver, env);
      case DoTick(now, env) => TickStep(s, now, env);
      case DoEnableLive(now, env) => EnableLiveStep(s, now, env);
      case DoScenario(scenario) => SimpleStep(s, s.(scenario := scenario));
      case DoRecover(env) => RecoverStep(s, env);
      case DoRegister(user, site, prosumer, days, env) => RegisterStep(s, user, site, prosumer, days, env);
      case DoIngest(k, r) => SimpleStep(s, Ingest(s, k, r));
    }
  }

  lemma SimpleStep(s: State, r: State)
    requires Inv(s) && Extends(s.readings, r.readings)
    requires r == s.(scenario := r.scenario, readings := r.readings)
    ensures Inv(r) && Grows(s, r)
  {
    hide TradingOk, DeliveryOk, Grows;
    MeterStep(s, r);
  }

  lemma ClearStep(s: State, env: Env)
    requires Inv(s) && Clear(s, None, None, env).Ok?
    ensures Inv(Clear(s, None, None, env).value) && Grows(s, Clear(s, None, None, env).value)
  {
    hide TradingOk, DeliveryOk, Clear, Grows;
    ClearShape(s, None, None, env);
    TradingStep(s, Clear(s, None, None, env).value);
  }

  lemma {:induction false} RunKeeps(s: State, steps: seq<Step>)
    requires Inv(s)
    ensures Inv(Run(s, steps)) && Grows(s, Run(s, steps))
    decreases |steps|
  {
    hide Inv, Apply, TradingOk, DeliveryOk;
    if |steps| > 0 {
      StepKeeps(s, steps[0]);
      RunKeeps(Apply(s, steps[0]), steps[1..]);
      GrowsTransitive(s, Apply(s, steps[0]), Run(s, steps));
    }
  }

  lemma InitialOk(clock: int)
    ensures Inv(Initial(clock))
  {
    var s := Initial(clock);
    forall k ensures Reserved(s.orders, k) == 0 && SellerUsed(s.allocations, k) == 0 && BuyerUsed(s.allocations, k) == 0 {
      assert Reservations(s.orders, k) == [];
    }
  }

  /** Every reachable state satisfies the invariant. */
  lemma Reachable(clock: int, steps: seq<Step>)
    ensures Inv(Run(Initial(clock), steps))
  {
    hide Inv, Run;
    InitialOk(clock);
    RunKeeps(Initial(clock), steps);
  }
}
