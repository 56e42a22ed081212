/** What the clock operations leave in the tables: which intervals are metered and
    with what, how far the clock goes, and which days are forecast. */
module Effects {
  import opened Base
  import opened Orders
  import opened Ledger
  import opened Admission

  // ---- readings ------------------------------------------------------------

  /** A slot metered over given tables: a reading already there stays; otherwise it
      is valid, a quarter of an hour long, and what the meter exported and imported. */
  predicate Metered(before: map<Key, Reading>, after: map<Key, Reading>, k: Key, scenario: Scenario, env: Env) {
    && k in after
    && (k in before ==> after[k] == before[k])
    && (k !in before ==>
          && after[k].end == k.start + 900_000_000 && after[k].valid
          && after[k].exportKwh == Some(env.meter(k, scenario).exportKwh)
          && after[k].importKwh == Some(env.meter(k, scenario).importKwh))
  }

  /** The intervals of some sites, n of them from a moment on. */
  predicate Within(k: Key, sites: set<SiteId>, from: int, n: nat) {
    k.site in sites && exists i :: 0 <= i < n && k.start == from + i * 900_000_000
  }

  lemma WithinIsKeys(k: Key, sites: set<SiteId>, from: int, n: nat)
    ensures k in Keys(sites, Moments(from, n)) <==> Within(k, sites, from, n)
  {
    if Within(k, sites, from, n) {
      var i :| 0 <= i < n && k.start == from + i * 900_000_000;
      assert from + i * INTERVAL in Moments(from, n);
    }
    if k in Keys(sites, Moments(from, n)) {
      assert k.start in Moments(from, n);
      var i :| 0 <= i < n && k.start == from + i * INTERVAL;
    }
  }

  /** Metering fills exactly the slots asked for, unless the scenario is a missing
      meter, which fills none. */
  ghost predicate MetersExactly(before: map<Key, Reading>, after: map<Key, Reading>, sites: set<SiteId>, from: int, n: nat,
                                scenario: Scenario, env: Env)
  {
    && (scenario == Missing ==> after == before)
    && (scenario != Missing ==> forall k :: Within(k, sites, from, n) ==> Metered(before, after, k, scenario, env))
    && (forall k :: k in before ==> k in after && after[k] == before[k])
    && (forall k :: k in after && k !in before ==> Within(k, sites, from, n))
  }

  lemma AddReadingsExactly(readings: map<Key, Reading>, sites: set<SiteId>, from: int, n: nat, scenario: Scenario, env: Env)
    ensures MetersExactly(readings, AddReadings(readings, Keys(sites, Moments(from, n)), scenario, env), sites, from, n, scenario, env)
  {
    hide Keys, Moments, Within;
    forall k ensures k in Keys(sites, Moments(from, n)) <==> Within(k, sites, from, n) {
      WithinIsKeys(k, sites, from, n);
    }
  }

  // ---- forecasts -----------------------------------------------------------

  /** The days forecast: for every listed site that had no run for the Indian day
      after the clock's, all 96 slots of that day; nothing else changes. */
  ghost predicate ForecastsTomorrow(s: State, r: State, sites: set<SiteId>, env: Env) {
    && r == s.(forecasts := r.forecasts, forecastDays := r.forecastDays)
    && (forall site :: site in sites ==> Key(site, Tomorrow(s.clock)) in r.forecastDays)
    && (forall d :: d in r.forecastDays <==> d in s.forecastDays || (d.site in sites && d.start == Tomorrow(s.clock)))
    && (forall k :: Within(k, sites, Tomorrow(s.clock), 96) && Key(k.site, Tomorrow(s.clock)) !in s.forecastDays ==>
          k in r.forecasts && r.forecasts[k] == env.predict(k))
    && (forall k :: !(Within(k, sites, Tomorrow(s.clock), 96) && Key(k.site, Tomorrow(s.clock)) !in s.forecastDays) ==>
          (k in r.forecasts <==> k in s.forecasts) && (k in s.forecasts ==> r.forecasts[k] == s.forecasts[k]))
  }

  lemma ForecastAllExactly(s: State, sites: set<SiteId>, env: Env)
    ensures ForecastsTomorrow(s, ForecastAll(s, sites, env), sites, env)
  {
    hide Moments, Tomorrow, Within;
    var day := Tomorrow(s.clock);
    var todo := set site | site in sites && Key(site, day) !in s.forecastDays;
    forall k ensures k in Keys(todo, Moments(day, 96)) <==> Within(k, todo, day, 96) {
      WithinIsKeys(k, todo, day, 96);
    }
    forall k ensures Within(k, todo, day, 96) <==> Within(k, sites, day, 96) && Key(k.site, day) !in s.forecastDays {
      WithinSome(k, todo, sites, day, 96);
      assert k.site in todo <==> k.site in sites && Key(k.site, day) !in s.forecastDays;
    }
    forall d ensures d in Keys(todo, {day}) <==> d.site in sites && d.start == day && d !in s.forecastDays {
      KeysMember(d, todo, {day});
      assert d.site in todo <==> d.site in sites && Key(d.site, day) !in s.forecastDays;
    }
  }

  lemma KeysMember(k: Key, sites: set<SiteId>, moments: set<int>)
    ensures k in Keys(sites, moments) <==> k.site in sites && k.start in moments
  {
  }

  lemma WithinSome(k: Key, some: set<SiteId>, sites: set<SiteId>, from: int, n: nat)
    requires some <= sites
    ensures Within(k, some, from, n) <==> Within(k, sites, from, n) && k.site in some
    ensures Within(k, sites, from, n) ==> k.site in sites
  {
  }

  /** The 96 slots are the quarter hours of the Indian day after the clock's. */
  lemma SlotsOfTomorrow(clock: int, t: int)
    ensures (exists i :: 0 <= i < 96 && t == Tomorrow(clock) + i * 900_000_000) <==>
      Tomorrow(clock) <= t < Tomorrow(clock) + 86_400_000_000 && (t - Tomorrow(clock)) % 900_000_000 == 0
  {
    var d := t - Tomorrow(clock);
    if 0 <= d < 86_400_000_000 && d % 900_000_000 == 0 {
      var i := d / 900_000_000;
      assert t == Tomorrow(clock) + i * 900_000_000;
    }
  }

  // ---- advance -------------------------------------------------------------

  /** Where an advance is to end: so many quarter hours on, or at the last delivery
      still committed. */
  predicate Goal(s: State, intervals: int, deliver: bool, target: int) {
    if deliver then
      && (exists i :: 0 <= i < |s.trades| && s.trades[i].status == Committed && s.trades[i].end == target)
      && (forall i :: 0 <= i < |s.trades| && s.trades[i].status == Committed ==> s.trades[i].end <= target)
    else target == s.clock + intervals * 900_000_000
  }

  /** An advance is refused exactly for want of a delivery, or beyond two days. */
  lemma AdvancesIff(s: State, intervals: int, deliver: bool, env: Env, target: int)
    requires Goal(s, intervals, deliver, target)
    ensures Advance(s, intervals, deliver, env).Ok? <==> target <= s.clock + 2 * 86_400_000_000
    ensures Advance(s, intervals, deliver, env).Err? ==> Advance(s, intervals, deliver, env) == Err(TooFar)
  {
    hide LatestEnd, Elapse, Reconcile, ForecastAll;
    TargetIsGoal(s, intervals, deliver, target);
  }

  lemma TargetIsGoal(s: State, intervals: int, deliver: bool, target: int)
    requires Goal(s, intervals, deliver, target)
    ensures Target(s, intervals, deliver) == target && (deliver ==> LatestEnd(s.trades).Some?)
  {
    hide LatestEnd;
  }

  lemma NothingToDeliver(s: State, intervals: int, env: Env)
    requires forall i :: 0 <= i < |s.trades| ==> s.trades[i].status != Committed
    ensures Advance(s, intervals, true, env) == Err(NothingDue)
  {
    hide LatestEnd;
  }

  /** It moves the clock by whole quarter hours to the first at or after its goal,
      meters every site for each of them under the scenario, reconciles, and
      forecasts the day after. */
  lemma AdvanceLeaves(s: State, intervals: int, deliver: bool, env: Env, target: int)
    requires Goal(s, intervals, deliver, target) && Advance(s, intervals, deliver, env).Ok?
    ensures exists n: nat, moved: State ::
      && (target <= s.clock ==> n == 0)
      && (target > s.clock ==> s.clock + (n - 1) * 900_000_000 < target <= s.clock + n * 900_000_000)
      && moved == s.(clock := s.clock + n * 900_000_000, readings := moved.readings)
      && MetersExactly(s.readings, moved.readings, AllSites(s), s.clock, n, s.scenario, env)
      && ForecastsTomorrow(Reconcile(moved), Advance(s, intervals, deliver, env).value, AllSites(s), env)
  {
    hide LatestEnd, Reconcile, ForecastAll, Keys, Moments, AddReadings, AllSites, MetersExactly, ForecastsTomorrow;
    TargetIsGoal(s, intervals, deliver, target);
    var n := Steps(target - s.clock);
    StepsRoundUp(target - s.clock);
    var moved := Elapse(s, n, env);
    AddReadingsExactly(s.readings, AllSites(s), s.clock, n, s.scenario, env);
    ForecastAllExactly(Reconcile(moved), AllSites(s), env);
    assert moved == s.(clock := s.clock + n * 900_000_000, readings := moved.readings);
  }

  lemma StepsRoundUp(distance: int)
    ensures distance <= 0 ==> Steps(distance) == 0
    ensures distance > 0 ==> (Steps(distance) - 1) * 900_000_000 < distance <= Steps(distance) * 900_000_000
  {
  }

  // ---- wall time -----------------------------------------------------------

  /** Following the wall clock: the clock becomes its last quarter hour; the passed
      intervals, of the last thirty days at most, are metered; then the due trades
      settle, and if any interval passed tomorrow is forecast. */
  lemma TickLeaves(s: State, now: int, env: Env)
    ensures var r := Tick(s, now, env);
      && r.clock % 900_000_000 == 0 && r.clock <= now < r.clock + 900_000_000
      && exists from: int, n: nat, moved: State ::
        && from + n * 900_000_000 <= r.clock < from + (n + 1) * 900_000_000
        && from == Min(r.clock, Max(s.clock, r.clock - 30 * 86_400_000_000))
        && moved == s.(clock := r.clock, readings := moved.readings)
        && MetersExactly(s.readings, moved.readings, AllSites(s), from, n, Normal, env)
        && (n > 0 ==> ForecastsTomorrow(Reconcile(moved), r, AllSites(s), env))
        && (n == 0 ==> r == Reconcile(moved))
  {
    hide Reconcile, ForecastAll, Keys, Moments, AddReadings, AllSites, MetersExactly, ForecastsTomorrow;
    var clock, from, n := FloorTime(now), TickStart(s, now), TickCount(s, now);
    AddReadingsExactly(s.readings, AllSites(s), from, n, Normal, env);
    var moved := s.(clock := clock,
                    readings := AddReadings(s.readings, Keys(AllSites(s), Moments(from, n)), Normal, env));
    ForecastAllExactly(Reconcile(moved), AllSites(s), env);
    FloorTimeExact(now);
    TickKeepsClock(moved, AllSites(s), env);
    WholeIntervals(clock - from);
    assert moved == s.(clock := clock, readings := moved.readings);
  }

  lemma FloorTimeExact(now: int)
    ensures FloorTime(now) % 900_000_000 == 0 && FloorTime(now) <= now < FloorTime(now) + 900_000_000
  {
  }

  lemma WholeIntervals(d: int)
    requires d >= 0
    ensures d / INTERVAL * 900_000_000 <= d < (d / INTERVAL + 1) * 900_000_000
  {
  }

  lemma TickKeepsClock(moved: State, sites: set<SiteId>, env: Env)
    ensures Reconcile(moved).clock == moved.clock && ForecastAll(Reconcile(moved), sites, env).clock == moved.clock
  {
    hide Due, Keys, Moments;
    SettleKeepsClock(moved, Due(moved.trades, |moved.trades|, moved.clock));
  }

  lemma {:induction false} SettleKeepsClock(s: State, ids: seq<int>)
    ensures SettleAll(s, ids).clock == s.clock
    decreases |ids|
  {
    hide Measured, Delivered, RoundHalfEven;
    if |ids| > 0 {
      SettleKeepsClock(SettleOne(s, ids[0]), ids[1..]);
    }
  }

  /** Going live sets the clock to the last quarter hour, ends any scenario, meters
      the thirty days before and forecasts tomorrow. */
  lemma LiveLeaves(s: State, now: int, env: Env)
    ensures var r := EnableLive(s, now, env);
      && r.clock % 900_000_000 == 0 && r.clock <= now < r.clock + 900_000_000
      && exists moved: State ::
        && moved == s.(clock := r.clock, scenario := Normal, readings := moved.readings)
        && MetersExactly(s.readings, moved.readings, AllSites(s), r.clock - 30 * 86_400_000_000, 2880, Normal, env)
        && ForecastsTomorrow(moved, r, AllSites(s), env)
  {
    hide ForecastAll, Keys, Moments, AddReadings, AllSites, MetersExactly, ForecastsTomorrow;
    var clock := FloorTime(now);
    FloorTimeExact(now);
    AddReadingsExactly(s.readings, AllSites(s), clock - 2880 * INTERVAL, 2880, Normal, env);
    var moved := s.(clock := clock, scenario := Normal,
                    readings := AddReadings(s.readings, Keys(AllSites(s), Moments(clock - 2880 * INTERVAL, 2880)), Normal, env));
    ForecastAllExactly(moved, AllSites(s), env);
    ForecastKeepsClock(moved, AllSites(s), env);
    assert moved == s.(clock := clock, scenario := Normal, readings := moved.readings);
  }

  lemma ForecastKeepsClock(s: State, sites: set<SiteId>, env: Env)
    ensures ForecastAll(s, sites, env).clock == s.clock
  {
    hide Keys, Moments;
  }

  /** A new household: admitted exactly when neither it nor its site is known, with
      the readings of so many days before the clock and tomorrow's forecast. */
  lemma RegisterLeaves(s: State, user: UserId, site: SiteId, prosumer: bool, days: nat, env: Env)
    ensures Register(s, user, site, prosumer, days, env).Ok? <==>
      user !in s.siteOf && forall u :: u in s.siteOf ==> s.siteOf[u] != site
    ensures Register(s, user, site, prosumer, days, env).Ok? ==> exists joined: State ::
      && joined == s.(siteOf := s.siteOf[user := site], prosumers := joined.prosumers, readings := joined.readings)
      && (forall u :: u in joined.prosumers <==> u in s.prosumers || (prosumer && u == user))
      && MetersExactly(s.readings, joined.readings, {site}, s.clock - days * 86_400_000_000, days * 96, Normal, env)
      && ForecastsTomorrow(joined, Register(s, user, site, prosumer, days, env).value, {site}, env)
  {
    hide ForecastAll, Keys, Moments, AddReadings, MetersExactly, ForecastsTomorrow;
    assert site in AllSites(s) <==> exists u :: u in s.siteOf && s.siteOf[u] == site;
    var from := s.clock - days * 96 * INTERVAL;
    assert from == s.clock - days * 86_400_000_000;
    AddReadingsExactly(s.readings, {site}, from, days * 96, Normal, env);
    var joined := s.(siteOf := s.siteOf[user := site],
                     prosumers := if prosumer then s.prosumers + {user} else s.prosumers,
                     readings := AddReadings(s.readings, Keys({site}, Moments(from, days * 96)), Normal, env));
    ForecastAllExactly(joined, {site}, env);
    assert joined == s.(siteOf := s.siteOf[user := site], prosumers := joined.prosumers, readings := joined.readings);
  }

  // ---- replay --------------------------------------------------------------

  /** A slot a due trade needs and no reading covers. */
  predicate Wanting(s: State, k: Key) {
    exists i :: 0 <= i < |s.trades| && Wants(s, s.trades[i], k)
  }

  predicate Wants(s: State, t: Trade, k: Key) {
    && t.status == Committed && t.end <= s.clock && 0 <= t.buy < |s.orders| && 0 <= t.sell < |s.orders|
    && k.start == t.start && (k.site == s.orders[t.buy].site || k.site == s.orders[t.sell].site)
  }

  lemma {:induction false} StagedWants(s: State, n: nat, k: Key)
    requires n <= |s.trades|
    ensures k in Staged(s, n) <==> k !in s.readings && exists i :: 0 <= i < n && Wants(s, s.trades[i], k)
  {
    if n > 0 {
      StagedWants(s, n - 1, k);
      var t := s.trades[n - 1];
      assert k in Staged(s, n) <==> k in Staged(s, n - 1) || (k !in s.readings && Wants(s, t, k));
    }
  }

  /** A successful replay meters exactly the slots due trades want, under the normal
      profile, and then reconciles. */
  lemma RecoverLeaves(s: State, env: Env)
    requires Recover(s, env).Ok?
    ensures exists moved: State ::
      && moved == s.(readings := moved.readings) && Recover(s, env) == Ok(Reconcile(moved))
      && (forall k :: Wanting(s, k) ==> Metered(s.readings, moved.readings, k, Normal, env))
      && (forall k :: k in s.readings ==> k in moved.readings && moved.readings[k] == s.readings[k])
      && (forall k :: k in moved.readings && k !in s.readings ==> Wanting(s, k))
  {
    hide Reconcile, Staged, Wants;
    var staged := Staged(s, |s.trades|);
    var keys := set k | k in staged;
    var moved := s.(readings := AddReadings(s.readings, keys, Normal, env));
    forall k ensures k in keys <==> k !in s.readings && Wanting(s, k) {
      StagedWants(s, |s.trades|, k);
    }
    assert moved == s.(readings := moved.readings);
  }
}
