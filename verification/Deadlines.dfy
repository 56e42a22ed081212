/** When delivery completes: advancing the clock over every delivery, and
    replaying missing intervals. */
module Deadlines {
  import opened Base
  import opened Orders
  import opened Ledger
  import opened Trading
  import opened Delivery
  import opened Runs

  // ---- advance(deliver=True) -----------------------------------------------

  /** Deliveries already begun have both their measurements. */
  predicate PastCovered(s: State) {
    forall i :: 0 <= i < |s.trades| && s.trades[i].status == Committed && s.trades[i].start < s.clock ==>
      Settles(s, s.trades[i])
  }

  /** Where another source has already measured a coming delivery, its reading is usable. */
  predicate Unspoiled(s: State, t: Trade) {
    HasOrders(s, t)
    && (SellerKey(s, t) in s.readings ==> Usable(s.readings, SellerKey(s, t), t.end) && s.readings[SellerKey(s, t)].exportKwh.Some?)
    && (BuyerKey(s, t) in s.readings ==> Usable(s.readings, BuyerKey(s, t), t.end) && s.readings[BuyerKey(s, t)].importKwh.Some?)
  }

  predicate ComingUnspoiled(s: State) {
    forall i :: 0 <= i < |s.trades| && s.trades[i].status == Committed && s.trades[i].start >= s.clock ==>
      Unspoiled(s, s.trades[i])
  }

  lemma StepsExact(distance: int)
    requires distance > 0 && distance % INTERVAL == 0
    ensures Steps(distance) * INTERVAL == distance
  {
  }

  lemma MomentOf(clock: int, n: nat, start: int)
    requires clock % INTERVAL == 0 && start % INTERVAL == 0
    requires clock <= start && start + INTERVAL <= clock + n * INTERVAL
    ensures start in Moments(clock, n)
  {
    var j := (start - clock) / INTERVAL;
    assert start == clock + j * INTERVAL;
    assert 0 <= j < n;
  }

  lemma CoveredByElapse(s: State, n: nat, env: Env, t: Trade)
    requires PlacesOk(s) && TradeOk(s.orders, t) && s.clock % INTERVAL == 0 && s.scenario != Missing
    requires t.start < s.clock ==> Settles(s, t)
    requires t.start >= s.clock ==> Unspoiled(s, t) && t.end <= s.clock + n * INTERVAL
    ensures Settles(Elapse(s, n, env), t)
  {
    hide Day;
    var keys := Keys(AllSites(s), Moments(s.clock, n));
    AddReadingsExtends(s.readings, keys, s.scenario, env);
    if t.start >= s.clock {
      var buyer, seller := BuyerKey(s, t), SellerKey(s, t);
      MomentOf(s.clock, n, t.start);
      assert s.siteOf[s.orders[t.buy].user] in AllSites(s) && s.siteOf[s.orders[t.sell].user] in AllSites(s);
      assert buyer in keys && seller in keys;
    }
  }

  lemma CommittedTrade(s: State, i: nat)
    requires Inv(s) && i < |s.trades|
    ensures TradeOk(s.orders, s.trades[i]) && PlacesOk(s)
    ensures s.trades[i].start % INTERVAL == 0 && s.trades[i].end % INTERVAL == 0
  {
    hide DeliveryOk, Reserved, MatchedOk, FillsNumbered, OrdersOk, ForecastOk;
    assert TradeOk(s.orders, s.trades[i]);
  }

  /** From a quarter-hour clock with the past measured, a successful delivery
      run stops exactly at the last delivery and leaves no committed trade. */
  lemma AdvanceDeliversAll(s: State, intervals: int, env: Env)
    requires Inv(s) && s.clock % INTERVAL == 0 && s.scenario != Missing
    requires PastCovered(s) && ComingUnspoiled(s)
    requires Advance(s, intervals, true, env).Ok?
    ensures var r := Advance(s, intervals, true, env).value;
      && LatestEnd(s.trades).Some? && r.clock == Max(s.clock, LatestEnd(s.trades).value)
      && |r.trades| == |s.trades|
      && forall i :: 0 <= i < |r.trades| ==> r.trades[i].status != Committed
  {
    hide Inv, TradingOk, DeliveryOk, Settles, Unspoiled, TradeOk, PlacesOk, Reconcile, ForecastAll, LatestEnd, Elapse;
    var target := Target(s, intervals, true);
    var n := Steps(target - s.clock);
    var last :| 0 <= last < |s.trades| && s.trades[last].status == Committed && s.trades[last].end == target;
    CommittedTrade(s, last);
    if target > s.clock { StepsExact(target - s.clock); }
    var moved := Elapse(s, n, env);
    ElapseIsMetering(s, n, env);
    MeterStep(s, moved);
    forall i | 0 <= i < |s.trades| && s.trades[i].status == Committed
      ensures IsDue(moved.trades[i], moved.clock) && Settles(moved, moved.trades[i])
    {
      CommittedTrade(s, i);
      AlignedEnd(s, i);
      CoveredByElapse(s, n, env, s.trades[i]);
    }
    InvParts(moved);
    ReconcileEffect(moved);
    ForecastKeepsTrades(Reconcile(moved), AllSites(s), env);
  }

  lemma AlignedEnd(s: State, i: nat)
    requires Inv(s) && i < |s.trades|
    ensures s.trades[i].end == s.trades[i].start + INTERVAL
  {
    hide DeliveryOk, Reserved, MatchedOk, FillsNumbered, OrdersOk, ForecastOk;
    assert TradeOk(s.orders, s.trades[i]);
  }

  lemma ElapseIsMetering(s: State, n: nat, env: Env)
    requires Inv(s)
    ensures OnlyMeters(s, Elapse(s, n, env))
    ensures Elapse(s, n, env).clock == s.clock + n * INTERVAL && Elapse(s, n, env).trades == s.trades
  {
    hide TradingOk, DeliveryOk, ForecastOk;
    AddReadingsExtends(s.readings, Keys(AllSites(s), Moments(s.clock, n)), s.scenario, env);
  }

  lemma InvParts(s: State)
    requires Inv(s)
    ensures TradingOk(s) && DeliveryOk(s) && ForecastOk(s)
  {
    hide TradingOk, DeliveryOk, ForecastOk;
  }

  lemma ForecastKeepsTrades(s: State, sites: set<SiteId>, env: Env)
    ensures ForecastAll(s, sites, env).trades == s.trades && ForecastAll(s, sites, env).clock == s.clock
  {
  }

  /** The clock stays on quarter hours once it is on one, in either direction. */
  lemma {:induction false} ClockStaysAligned(s: State, steps: seq<Step>)
    requires Inv(s) && s.clock % INTERVAL == 0
    ensures Run(s, steps).clock % INTERVAL == 0
    decreases |steps|
  {
    hide Inv, Apply;
    if |steps| > 0 {
      StepKeeps(s, steps[0]);
      StepAligned(s, steps[0]);
      ClockStaysAligned(Apply(s, steps[0]), steps[1..]);
    }
  }

  lemma StepAligned(s: State, step: Step)
    requires Inv(s) && s.clock % INTERVAL == 0
    ensures Apply(s, step).clock % INTERVAL == 0
  {
    hide Inv, Place, Cancel, Accept, Clear, Reconcile, ForecastAll, Moments, Keys, Staged, Target, AdvanceError, TickCount, TickStart;
    if Attempt(s, step).Ok? {
      match step
      case DoPlace(_, _, _, _, _, _) => ClockUntouched(s, step);
      case DoCancel(_, _) => ClockUntouched(s, step);
      case DoAccept(_, _) => ClockUntouched(s, step);
      case DoClear(_) => ClockUntouched(s, step);
      case DoAdvance(intervals, deliver, env) =>
        var n := Steps(Target(s, intervals, deliver) - s.clock);
        var moved := Elapse(s, n, env);
        ElapseIsMetering(s, n, env);
        MeterStep(s, moved);
        ReconcileClock(moved);
        ForecastKeepsTrades(Reconcile(moved), AllSites(s), env);
      case DoTick(now, env) =>
        TickClock(s, now, env);
      case DoEnableLive(now, env) =>
        var keys := Keys(AllSites(s), Moments(FloorTime(now) - 2880 * INTERVAL, 2880));
        ForecastKeepsTrades(s.(clock := FloorTime(now), scenario := Normal, readings := AddReadings(s.readings, keys, Normal, env)), AllSites(s), env);
      case DoScenario(_) =>
      case DoRecover(env) =>
        RecoverClock(s, env);
      case DoRegister(user, site, prosumer, days, env) =>
        RegisterClock(s, user, site, prosumer, days, env);
      case DoIngest(_, _) =>
    }
  }

  lemma ClockUntouched(s: State, step: Step)
    requires step.DoPlace? || step.DoCancel? || step.DoAccept? || step.DoClear?
    ensures Apply(s, step).clock == s.clock
  {
    hide PlaceError, ClearSlots, OpenIds, Starts, AcceptError;
  }

  lemma ReconcileClock(s: State)
    requires Inv(s)
    ensures Reconcile(s).clock == s.clock
  {
    hide TradingOk, DeliveryOk, Reconcile, Settles;
    ReconcileEffect(s);
  }

  lemma TickClock(s: State, now: int, env: Env)
    requires Inv(s)
    ensures Tick(s, now, env).clock == FloorTime(now)
  {
    hide Reconcile, ForecastAll, TickCount, TickStart, Grows, TradingOk, DeliveryOk, ForecastOk;
    var keys := Keys(AllSites(s), Moments(TickStart(s, now), TickCount(s, now)));
    AddReadingsExtends(s.readings, keys, Normal, env);
    var moved := s.(clock := FloorTime(now), readings := AddReadings(s.readings, keys, Normal, env));
    MeterStep(s, moved);
    ReconcileClock(moved);
    ForecastKeepsTrades(Reconcile(moved), AllSites(Reconcile(moved)), env);
    ForecastKeepsTrades(Reconcile(moved), AllSites(s), env);
  }

  lemma RecoverClock(s: State, env: Env)
    requires Inv(s) && Recover(s, env).Ok?
    ensures Recover(s, env).value.clock == s.clock
  {
    hide Reconcile, Staged, Grows, TradingOk, DeliveryOk, ForecastOk;
    var keys := set k | k in Staged(s, |s.trades|);
    AddReadingsExtends(s.readings, keys, Normal, env);
    var moved := s.(readings := AddReadings(s.readings, keys, Normal, env));
    MeterStep(s, moved);
    ReconcileClock(moved);
  }

  lemma RegisterClock(s: State, user: UserId, site: SiteId, prosumer: bool, days: nat, env: Env)
    requires Register(s, user, site, prosumer, days, env).Ok?
    ensures Register(s, user, site, prosumer, days, env).value.clock == s.clock
  {
    hide Keys, Moments;
  }

  // ---- recover_missing -----------------------------------------------------

  /** The readings a due trade still lacks. */
  predicate Lacks(s: State, i: nat, k: Key)
    requires i < |s.trades|
  {
    && IsDue(s.trades[i], s.clock) && HasOrders(s, s.trades[i]) && k !in s.readings
    && (k == BuyerKey(s, s.trades[i]) || k == SellerKey(s, s.trades[i]))
  }

  lemma {:induction false} StagedExact(s: State, n: nat, k: Key)
    requires n <= |s.trades|
    ensures k in Staged(s, n) <==> exists i :: 0 <= i < n && Lacks(s, i, k)
  {
    if n > 0 {
      StagedExact(s, n - 1, k);
      assert k in Staged(s, n) <==> k in Staged(s, n - 1) || Lacks(s, n - 1, k);
    }
  }

  /** Two of the first n trades are due and lack the same reading. */
  ghost predicate Shared(s: State, n: nat)
    requires n <= |s.trades|
  {
    exists i: nat, j: nat, k :: i < j < n && Lacks(s, i, k) && Lacks(s, j, k)
  }

  lemma DistinctSites(s: State, i: nat)
    requires Inv(s) && i < |s.trades|
    ensures HasOrders(s, s.trades[i]) && BuyerKey(s, s.trades[i]) != SellerKey(s, s.trades[i])
  {
    hide DeliveryOk, Reserved, MatchedOk, FillsNumbered, OrdersOk, ForecastOk;
    assert TradeOk(s.orders, s.trades[i]);
  }

  lemma {:induction false} StagedRepeats(s: State, n: nat)
    requires Inv(s) && n <= |s.trades|
    ensures NoRepeats(Staged(s, n)) <==> !Shared(s, n)
  {
    hide Inv, IsDue, Lacks, NoRepeats;
    if n == 0 {
      NothingStaged(s);
    } else {
      StagedRepeats(s, n - 1);
      var added := Added(s, n - 1);
      AddedStep(s, n - 1);
      RepeatsAppend(Staged(s, n - 1), added);
      forall j | 0 <= j < |added|
        ensures added[j] in Staged(s, n - 1) <==> exists i :: 0 <= i < n - 1 && Lacks(s, i, added[j])
      {
        StagedExact(s, n - 1, added[j]);
      }
      if !Shared(s, n - 1) && Shared(s, n) {
        var i: nat, j: nat, k :| i < j < n && Lacks(s, i, k) && Lacks(s, j, k);
        assert j == n - 1;
        assert k in added;
      }
      forall j | 0 <= j < |added| ensures Lacks(s, n - 1, added[j]) {
        assert added[j] in added;
      }
    }
  }

  lemma NothingStaged(s: State)
    ensures NoRepeats(Staged(s, 0))
  {
  }

  /** What the replay stages for one trade. */
  function Added(s: State, i: nat): seq<Key>
    requires i < |s.trades|
  {
    var t := s.trades[i];
    if !IsDue(t, s.clock) || !HasOrders(s, t) then []
    else
      (if BuyerKey(s, t) in s.readings then [] else [BuyerKey(s, t)])
      + (if SellerKey(s, t) in s.readings then [] else [SellerKey(s, t)])
  }

  lemma AddedStep(s: State, i: nat)
    requires Inv(s) && i < |s.trades|
    ensures Staged(s, i + 1) == Staged(s, i) + Added(s, i)
    ensures NoRepeats(Added(s, i))
    ensures forall k :: k in Added(s, i) <==> Lacks(s, i, k)
  {
    hide Inv, IsDue;
    DistinctSites(s, i);
  }

  lemma RepeatsAppend(front: seq<Key>, added: seq<Key>)
    ensures NoRepeats(front + added) <==>
      NoRepeats(front) && NoRepeats(added) && forall j :: 0 <= j < |added| ==> added[j] !in front
  {
    var all := front + added;
    if NoRepeats(all) {
      forall i, j | 0 <= i < j < |front| ensures front[i] != front[j] { assert all[i] != all[j]; }
      forall i, j | 0 <= i < j < |added| ensures added[i] != added[j] { assert all[|front| + i] != all[|front| + j]; }
      forall j | 0 <= j < |added| ensures added[j] !in front {
        forall i | 0 <= i < |front| ensures front[i] != added[j] { assert all[i] != all[|front| + j]; }
      }
    }
  }

  /** Replay succeeds if and only if no two due trades lack the same reading;
      otherwise the reading is staged twice and the whole replay is lost. */
  lemma RecoverSucceedsIff(s: State, env: Env)
    requires Inv(s)
    ensures Recover(s, env).Ok? <==> !Shared(s, |s.trades|)
  {
    hide Inv, Staged, Reconcile, Shared;
    StagedRepeats(s, |s.trades|);
  }

  /** A successful replay settles every due trade whose existing readings are usable. */
  lemma RecoverSettles(s: State, env: Env, i: nat)
    requires Inv(s) && Recover(s, env).Ok? && i < |s.trades| && IsDue(s.trades[i], s.clock)
    requires Unspoiled(s, s.trades[i])
    ensures i < |Recover(s, env).value.trades| && Recover(s, env).value.trades[i].status == Settled
  {
    hide Inv, TradingOk, DeliveryOk, Reconcile, Staged, IsDue;
    var keys := set k | k in Staged(s, |s.trades|);
    AddReadingsExtends(s.readings, keys, Normal, env);
    var moved := s.(readings := AddReadings(s.readings, keys, Normal, env));
    InvSites(s);
    MeterStep(s, moved);
    InvParts(moved);
    ReconcileEffect(moved);
    AlignedEnd(s, i);
    var t := s.trades[i];
    StagedExact(s, |s.trades|, BuyerKey(s, t));
    StagedExact(s, |s.trades|, SellerKey(s, t));
    assert BuyerKey(s, t) !in s.readings ==> Lacks(s, i, BuyerKey(s, t));
    assert SellerKey(s, t) !in s.readings ==> Lacks(s, i, SellerKey(s, t));
    assert Settles(moved, moved.trades[i]);
  }

  lemma InvSites(s: State)
    requires Inv(s)
    ensures PlacesOk(s)
  {
    hide TradingOk, DeliveryOk, ForecastOk;
  }
}
