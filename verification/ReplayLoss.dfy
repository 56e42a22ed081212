/** A run from the empty community whose replay of missing readings is lost: one
    household buys twice from another for the same slot, and neither is metered. */
module ReplayLoss {
  import opened Base
  import opened Orders
  import opened Ledger
  import opened Trading
  import opened Delivery
  import opened Runs
  import opened DirectMatch
  import opened Deadlines

  /** Noon in India on the day after the clock's first moment. */
  const SLOT: int := 109_800_000_000

  const BUYER: UserId := 1
  const SELLER: UserId := 2

  /** Safe slots, a quote of 4, two units of surplus everywhere, any meter. */
  function Fair(meter: (Key, Scenario) -> Flow): Env {
    Env(t => Some(true), (p, site) => Some(4), meter, k => Forecast(Some(2), Some(0)))
  }

  function Purchase(request: RequestId): Acceptance {
    Acceptance(BUYER, 0, 1, 5, request, None, 0)
  }

  function LosingSteps(env: Env): seq<Step> {
    [DoRegister(BUYER, 1, false, 7, env), DoRegister(SELLER, 2, true, 7, env),
     DoPlace(SELLER, SLOT, Sell, 2, 3, 0),
     DoAccept(Purchase(1), env), DoAccept(Purchase(2), env),
     DoScenario(Missing), DoAdvance(1, true, env)]
  }

  /** The same steps, one state at a time. */
  lemma RunSteps(s: State, env: Env)
    ensures var x := LosingSteps(env);
      Run(s, x) ==
      Apply(Apply(Apply(Apply(Apply(Apply(Apply(s, x[0]), x[1]), x[2]), x[3]), x[4]), x[5]), x[6])
  {
    hide Apply;
    var x := LosingSteps(env);
    var s1 := Apply(s, x[0]);
    var s2 := Apply(s1, x[1]);
    var s3 := Apply(s2, x[2]);
    var s4 := Apply(s3, x[3]);
    var s5 := Apply(s4, x[4]);
    var s6 := Apply(s5, x[5]);
    assert x[1..][0] == x[1] && x[2..][0] == x[2] && x[3..][0] == x[3];
    assert x[1..][1..] == x[2..] && x[2..][1..] == x[3..] && x[3..][1..] == x[4..];
    assert x[4..][1..] == x[5..] && x[5..][1..] == x[6..] && x[6..][1..] == [];
    assert Run(s, x) == Run(s1, x[1..]);
    assert Run(s1, x[1..]) == Run(s2, x[2..]);
    assert Run(s2, x[2..]) == Run(s3, x[3..]);
    assert Run(s3, x[3..]) == Run(s4, x[4..]);
    assert Run(s4, x[4..]) == Run(s5, x[5..]);
    assert Run(s5, x[5..]) == Run(s6, x[6..]);
  }

  /** What stays true from the second registration on. */
  ghost predicate Peopled(s: State) {
    && s.clock == 0 && s.siteOf == map[BUYER := 1, SELLER := 2] && SELLER in s.prosumers
    && (forall site :: site == 1 || site == 2 ==>
          Key(site, SLOT) in s.forecasts && s.forecasts[Key(site, SLOT)] == Forecast(Some(2), Some(0))
          && Key(site, SLOT) !in s.readings)
  }

  lemma SlotIsTomorrowNoon()
    ensures Tomorrow(0) + 48 * INTERVAL == SLOT && SLOT % INTERVAL == 0 && Day(SLOT) == 1 && Day(0) == 0
  {
  }

  lemma FirstSlotForecast(s: State, site: SiteId, env: Env)
    requires s.clock == 0 && Key(site, Tomorrow(0)) !in s.forecastDays
    ensures var r := ForecastAll(s, {site}, env);
      && Key(site, SLOT) in r.forecasts && r.forecasts[Key(site, SLOT)] == env.predict(Key(site, SLOT))
      && (forall k: Key :: k.site != site ==> (k in r.forecasts <==> k in s.forecasts))
      && (forall k: Key :: k.site != site && k in s.forecasts ==> r.forecasts[k] == s.forecasts[k])
      && (forall k: Key :: k.site != site ==> (k in r.forecastDays <==> k in s.forecastDays))
      && r == s.(forecasts := r.forecasts, forecastDays := r.forecastDays)
  {
    SlotIsTomorrowNoon();
    assert SLOT in Moments(Tomorrow(0), 96);
  }

  /** Registering meters the past only, and forecasts the newcomer's site. */
  lemma Joins(s: State, user: UserId, site: SiteId, prosumer: bool, env: Env)
    requires s.clock == 0 && user !in s.siteOf && site !in AllSites(s)
    requires forall k :: k in s.readings ==> k.start < 0
    requires Key(site, Tomorrow(0)) !in s.forecastDays
    ensures var r := Apply(s, DoRegister(user, site, prosumer, 7, env));
      && r == s.(siteOf := s.siteOf[user := site], prosumers := r.prosumers, readings := r.readings,
                 forecasts := r.forecasts, forecastDays := r.forecastDays)
      && (prosumer ==> user in r.prosumers)
      && (forall k: Key :: k in r.readings ==> k.start < 0)
      && Key(site, SLOT) in r.forecasts && r.forecasts[Key(site, SLOT)] == env.predict(Key(site, SLOT))
      && (forall k: Key :: k.site != site && k in s.forecasts ==> k in r.forecasts && r.forecasts[k] == s.forecasts[k])
      && (forall k: Key :: k.site != site ==> (k in r.forecastDays <==> k in s.forecastDays))
  {
    hide ForecastAll;
    var keys := Keys({site}, Moments(-7 * 96 * INTERVAL, 7 * 96));
    forall k | k in keys ensures k.start < 0 {
      var i :| 0 <= i < 672 && k.start == -7 * 96 * INTERVAL + i * INTERVAL;
    }
    var joined := s.(siteOf := s.siteOf[user := site],
                     prosumers := if prosumer then s.prosumers + {user} else s.prosumers,
                     readings := AddReadings(s.readings, keys, Normal, env));
    FirstSlotForecast(joined, site, env);
    assert Apply(s, DoRegister(user, site, prosumer, 7, env)) == ForecastAll(joined, {site}, env);
  }

  lemma TwoHouseholds(env: Env)
    requires forall k :: env.predict(k) == Forecast(Some(2), Some(0))
    ensures var s := Apply(Apply(Initial(0), LosingSteps(env)[0]), LosingSteps(env)[1]);
      Peopled(s) && s.orders == [] && s.trades == [] && s.actions == map[]
  {
    hide Apply;
    var s1 := Apply(Initial(0), LosingSteps(env)[0]);
    Joins(Initial(0), BUYER, 1, false, env);
    Joins(s1, SELLER, 2, true, env);
  }

  // ---- the same offer bought twice -----------------------------------------

  /** The sell order after n purchases of one unit each. */
  ghost predicate Bought(s: State, n: nat) {
    && Peopled(s) && |s.orders| == 1 + n && |s.trades| == n
    && s.orders[0] == Order(SELLER, 2, Sell, 2, 3, SLOT, SLOT + INTERVAL, 0, n,
                            if n == 0 then Open else if n == 1 then PartiallyFilled else Filled)
    && (forall i :: 1 <= i <= n ==> s.orders[i].site == 1)
    && (forall i :: 0 <= i < n ==> s.trades[i].buy == i + 1 && s.trades[i].sell == 0 && s.trades[i].status == Committed)
    && (forall request :: request > n ==> (BUYER, request) !in s.actions)
  }

  lemma Offered(s: State, env: Env)
    requires Peopled(s) && s.orders == [] && s.trades == [] && s.actions == map[]
    ensures Bought(Apply(s, LosingSteps(env)[2]), 0)
  {
    SlotIsTomorrowNoon();
    var k := Key(2, SLOT);
    assert Reservations([], k) == [];
    assert Reserved(s.orders, k) == 0;
    assert PlaceError(s, SELLER, SLOT, Sell, 2, 3).None?;
  }

  lemma BuyOnce(s: State, n: nat, meter: (Key, Scenario) -> Flow)
    requires Inv(s) && Bought(s, n) && n < 2
    ensures Bought(Apply(s, DoAccept(Purchase(n + 1), Fair(meter))), n + 1)
  {
    hide Inv, TradingOk, AcceptFresh, Reserved;
    var q, env := Purchase(n + 1), Fair(meter);
    SlotIsTomorrowNoon();
    assert s.forecasts[Key(1, SLOT)] == Forecast(Some(2), Some(0));
    assert PlaceError(s, BUYER, SLOT, Buy, 1, 5).None?;
    assert AcceptError(s, q).None?;
    InvTrading(s);
    PreparedPair(s, q);
    assert Dealable(Prepare(s, q), q, 1 + n, 0, env);
    AcceptSucceedsIff(s, q, env);
    AcceptCommitsExactly(s, q, env);
    var p, r := Prepare(s, q), Accept(s, q, env).value;
    assert p.orders[..|s.orders|] == s.orders;
    assert r.orders == p.orders[1 + n := Commit(p.orders[1 + n], 1)][0 := Commit(p.orders[0], 1)];
    assert Apply(s, DoAccept(q, env)) == r;
    assert p.orders[0] == s.orders[0];
    assert r.orders[0] == Commit(s.orders[0], 1);
    forall i | 1 <= i <= n + 1 ensures r.orders[i].site == 1 {
      assert i <= n ==> p.orders[i] == s.orders[i];
    }
    assert Peopled(r);
    assert r.trades[n].buy == n + 1;
    forall i | 0 <= i < n ensures r.trades[i] == s.trades[i] {
      assert r.trades[..|s.trades|][i] == s.trades[i];
    }
  }

  // ---- the slot passes unmetered -------------------------------------------

  /** The slot is over, and two due trades lack the buyer's reading. */
  lemma Passes(s: State, env: Env)
    requires Inv(s) && Bought(s, 2)
    ensures var r := Apply(Apply(s, DoScenario(Missing)), DoAdvance(1, true, env));
      Inv(r) && |r.trades| == 2 && Lacks(r, 0, Key(1, SLOT)) && Lacks(r, 1, Key(1, SLOT))
  {
    hide Inv, TradingOk, DeliveryOk, Reconcile, ForecastAll, LatestEnd, Settles;
    var m := Apply(s, DoScenario(Missing));
    StepKeeps(s, DoScenario(Missing));
    CommittedTrade(m, 0);
    CommittedTrade(m, 1);
    AlignedEnd(m, 0);
    AlignedEnd(m, 1);
    TradeStarts(m, 0);
    TradeStarts(m, 1);
    var end := SLOT + INTERVAL;
    assert m.trades[0].end == end && m.trades[1].end == end;
    assert m.trades[0].status == Committed;
    assert LatestEnd(m.trades) == Some(end);
    StepsExact(end);
    var moved := Elapse(m, Steps(end), env);
    assert moved == m.(clock := end);
    ElapseIsMetering(m, Steps(end), env);
    MeterStep(m, moved);
    InvParts(moved);
    ReconcileEffect(moved);
    forall i | 0 <= i < 2 ensures !Settles(moved, moved.trades[i]) {
      Unmetered(moved, i);
    }
    var settled := Reconcile(moved);
    assert settled.trades == moved.trades;
    ForecastLeaves(settled, AllSites(m), env);
    StepKeeps(m, DoAdvance(1, true, env));
    var r := Apply(m, DoAdvance(1, true, env));
    assert r == ForecastAll(settled, AllSites(m), env);
  }

  lemma TradeStarts(s: State, i: nat)
    requires Inv(s) && i < |s.trades| && s.trades[i].sell == 0 && 0 < |s.orders|
    ensures s.trades[i].start == s.orders[0].start
  {
    hide DeliveryOk, Reserved, MatchedOk, FillsNumbered, OrdersOk, ForecastOk;
    assert TradeOk(s.orders, s.trades[i]);
  }

  lemma Unmetered(s: State, i: nat)
    requires i < |s.trades| && 0 <= s.trades[i].buy < |s.orders| && BuyerKey(s, s.trades[i]) !in s.readings
    ensures !Settles(s, s.trades[i])
  {
  }

  lemma ForecastLeaves(s: State, sites: set<SiteId>, env: Env)
    ensures var r := ForecastAll(s, sites, env);
      r == s.(forecasts := r.forecasts, forecastDays := r.forecastDays)
  {
  }

  /** From the empty community, two registrations, one offer, two purchases of it
      and an unmetered day lead to a replay that always fails. */
  lemma ReplayCanBeLost(meter: (Key, Scenario) -> Flow, env: Env)
    ensures Recover(Run(Initial(0), LosingSteps(Fair(meter))), env) == Err(DuplicateReading)
  {
    hide Inv, Apply, Recover, Run, Shared, Peopled, Bought;
    var fair := Fair(meter);
    var x := LosingSteps(fair);
    InitialOk(0);
    RunSteps(Initial(0), fair);
    var s1 := Apply(Initial(0), x[0]);
    var s2 := Apply(s1, x[1]);
    var s3 := Apply(s2, x[2]);
    var s4 := Apply(s3, x[3]);
    var s5 := Apply(s4, x[4]);
    StepKeeps(Initial(0), x[0]);
    StepKeeps(s1, x[1]);
    TwoHouseholds(fair);
    Offered(s2, fair);
    StepKeeps(s2, x[2]);
    BuyOnce(s3, 0, meter);
    StepKeeps(s3, x[3]);
    BuyOnce(s4, 1, meter);
    StepKeeps(s4, x[4]);
    Passes(s5, fair);
    LostReplay(Apply(Apply(s5, x[5]), x[6]), env);
  }

  lemma LostReplay(s: State, env: Env)
    requires Inv(s) && |s.trades| == 2 && Lacks(s, 0, Key(1, SLOT)) && Lacks(s, 1, Key(1, SLOT))
    ensures Recover(s, env) == Err(DuplicateReading)
  {
    hide Inv, Staged, Reconcile;
    RecoverSucceedsIff(s, env);
  }
}
