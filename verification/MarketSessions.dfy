/** The life of a market session: orders come in, intake closes, one clearing
    fills them, and orders may be withdrawn at any time. */
module MarketSessions {
  import opened Base
  import opened Orders
  import opened Market
  import Matching

  /** The session row with its moments, and the orders and trades under it. */
  datatype Session = Session(
    status: SessionStatus, openedAt: int, closedAt: Option<int>, clearedAt: Option<int>,
    orders: seq<Order>, trades: seq<Proposal>)

  /** An order request, with the limit its side requires and what the site table,
      eligibility and the forecast answer about it. */
  datatype Request = Request(
    user: UserId, site: SiteId, side: Side, energy: int, limit: Option<int>, start: int, end: int, created: int,
    siteKnown: bool, eligible: bool, available: int)

  datatype Step = DoPlace(request: Request) | DoCancel(id: OrderId) | DoClose(at: int) | DoClear(output: Option<seq<Proposal>>, at: int)

  datatype SessionError =
    | NotAccepting | SiteNotFound | NotEligible | BadQuantity | BadWindow | PriceRequired | NoSurplus
    | ConstraintViolation
    | OrderNotFound | NotActive | NotOpen | Refused(reason: ClearError)

  type Outcome = Result<Session, SessionError>

  /** A session just opened. */
  function Opened(at: int): Session {
    Session(Accepting, at, None, None, [], [])
  }

  function RequestError(s: Session, r: Request): Option<SessionError> {
    if s.status != Accepting then Some(NotAccepting)
    else if !r.siteKnown then Some(SiteNotFound)
    else if !r.eligible then Some(NotEligible)
    else if r.energy <= 0 then Some(BadQuantity)
    else if r.end <= r.start then Some(BadWindow)
    else if r.limit.None? then Some(PriceRequired)
    else if r.side == Sell && r.available < r.energy then Some(NoSurplus)
    else if r.limit.value < 0 then Some(ConstraintViolation)
    else None
  }

  function Placed(r: Request): Order
    requires r.limit.Some?
  {
    Order(r.user, r.site, r.side, r.energy, r.limit.value, r.start, r.end, r.created, 0, Open)
  }

  function OutputError(s: Session, output: Option<seq<Proposal>>, at: int): Option<ClearError> {
    if s.status != Closed then Some(NotClearable)
    else if output.None? then Some(EngineFailed)
    else
      var book := SessionBook(s.orders);
      var error := FirstError(Known(book.buys + book.sells), output.value, 0);
      if error.Some? then error
      else if !NoPairTwice(s.trades + output.value) then Some(DuplicateFill)
      else if s.closedAt.Some? && at < s.closedAt.value then Some(EarlyMoment)
      else None
  }

  lemma OutputErrorExact(s: Session, output: Option<seq<Proposal>>, at: int)
    ensures OutputError(s, output, at).None? <==>
      && s.status == Closed && output.Some?
      && ValidOutput(output.value, SessionBook(s.orders)) && NoPairTwice(s.trades + output.value)
      && (s.closedAt.Some? ==> at >= s.closedAt.value)
    ensures OutputError(s, output, at).None? ==>
      InRange(s.orders, output.value)
      && forall i :: 0 <= i < |output.value| ==>
        s.orders[output.value[i].buy].side == Buy && s.orders[output.value[i].sell].side == Sell
        && output.value[i].quantity > 0
  {
    hide SessionBook, FirstError, Known, WellFormedBook;
    if output.Some? {
      SessionBookFacts(s.orders, 0);
      CheckIsExact(SessionBook(s.orders), output.value);
      if OutputError(s, output, at).None? {
        ShapesOfValid(output.value, SessionBook(s.orders));
        ValidIsInRange(s.orders, output.value);
      }
    }
  }

  function Attempt(s: Session, step: Step): Outcome {
    match step
    case DoPlace(r) =>
      var error := RequestError(s, r);
      if error.Some? then Err(error.value) else Ok(s.(orders := s.orders + [Placed(r)]))
    case DoCancel(id) =>
      if !(0 <= id < |s.orders|) then Err(OrderNotFound)
      else if !s.orders[id].Active() then Err(NotActive)
      else Ok(s.(orders := s.orders[id := s.orders[id].(status := Cancelled)]))
    case DoClose(at) =>
      if s.status != Accepting then Err(NotOpen)
      else if at < s.openedAt then Err(ConstraintViolation)
      else Ok(s.(status := Closed, closedAt := Some(at)))
    case DoClear(output, at) =>
      var error := OutputError(s, output, at);
      if error.Some? then Err(Refused(error.value))
      else
        OutputErrorExact(s, output, at);
        Ok(s.(status := Cleared, clearedAt := Some(at),
              orders := ApplyFills(s.orders, output.value), trades := s.trades + output.value))
  }

  /** An order is taken exactly in an open session, of a known site and an eligible
      user, for some energy over some time at a limit not negative, and for a sell
      within the forecast; it enters as asked for, open and unmatched. */
  lemma PlacedIff(s: Session, r: Request)
    ensures Attempt(s, DoPlace(r)).Ok? <==>
      && s.status == Accepting && r.siteKnown && r.eligible && r.energy > 0 && r.start < r.end
      && r.limit.Some? && r.limit.value >= 0 && (r.side == Sell ==> r.energy <= r.available)
    ensures Attempt(s, DoPlace(r)).Ok? ==> Attempt(s, DoPlace(r)) == Ok(s.(orders := s.orders
      + [Order(r.user, r.site, r.side, r.energy, r.limit.value, r.start, r.end, r.created, 0, Open)]))
  {
  }

  /** Closing and clearing note their moments; clearing adds the engine's trades and
      fills each order by what they take from it, and neither moves anything else. */
  lemma MomentsNoted(s: Session, output: Option<seq<Proposal>>, at: int)
    ensures Attempt(s, DoClose(at)).Ok? <==> s.status == Accepting && at >= s.openedAt
    ensures Attempt(s, DoClose(at)).Ok? ==> Attempt(s, DoClose(at)) == Ok(s.(status := Closed, closedAt := Some(at)))
    ensures Attempt(s, DoClear(output, at)).Ok? ==> (
      var r := Attempt(s, DoClear(output, at)).value;
      && output.Some? && r == s.(status := Cleared, clearedAt := Some(at), orders := r.orders, trades := s.trades + output.value)
      && |r.orders| == |s.orders|
      && forall id :: 0 <= id < |s.orders| ==>
        (r.orders[id].matched == s.orders[id].matched + Touched(output.value, id)
         && r.orders[id].(matched := 0, status := Open) == s.orders[id].(matched := 0, status := Open)))
  {
    hide Touched, SessionBook, FirstError, Known, ApplyFills, References;
    if Attempt(s, DoClear(output, at)).Ok? {
      OutputErrorExact(s, output, at);
      forall id | 0 <= id < |s.orders|
        ensures ApplyFills(s.orders, output.value)[id].matched == s.orders[id].matched + Touched(output.value, id)
        ensures ApplyFills(s.orders, output.value)[id].(matched := 0, status := Open) == s.orders[id].(matched := 0, status := Open)
      {
        FillEffect(s.orders, output.value, id);
      }
    }
  }

  /** An order is withdrawn exactly while it is open or partly filled. */
  lemma WithdrawnIff(s: Session, id: OrderId)
    ensures Attempt(s, DoCancel(id)).Ok? <==>
      0 <= id < |s.orders| && (s.orders[id].status == Open || s.orders[id].status == PartiallyFilled)
    ensures Attempt(s, DoCancel(id)).Ok? ==>
      Attempt(s, DoCancel(id)) == Ok(s.(orders := s.orders[id := s.orders[id].(status := Cancelled)]))
  {
  }

  function Run(s: Session, steps: seq<Step>): Session
    decreases |steps|
  {
    if |steps| == 0 then s
    else
      var r := Attempt(s, steps[0]);
      Run(if r.Ok? then r.value else s, steps[1..])
  }

  // ---- what every run keeps ------------------------------------------------

  /** Status against how much is matched; withdrawal may leave a part matched. */
  predicate StatusOk(o: Order) {
    && o.energy > 0 && o.limit >= 0 && 0 <= o.matched <= o.energy
    && (o.status == Open ==> o.matched == 0)
    && (o.status == PartiallyFilled ==> 0 < o.matched < o.energy)
    && (o.status == Filled <==> o.matched == o.energy)
    && o.status != Rejected
  }

  predicate Inv(s: Session) {
    && (forall id :: 0 <= id < |s.orders| ==> StatusOk(s.orders[id]) && s.orders[id].matched == Touched(s.trades, id))
    && InRange(s.orders, s.trades)
    && (s.status != Cleared ==> s.trades == [])
    && (s.status == Closed ==> s.closedAt.Some?)
    && (s.closedAt.Some? ==> s.openedAt <= s.closedAt.value)
    && SideMatched(s.orders, Buy) == Sum(Quantities(s.trades)) == SideMatched(s.orders, Sell)
  }

  lemma PlaceKeeps(s: Session, o: Order)
    requires Inv(s) && StatusOk(o) && o.matched == 0
    ensures Inv(s.(orders := s.orders + [o]))
  {
    hide Touched, Sum;
    var n, longer := |s.orders|, s.orders + [o];
    assert !References(s.trades, n);
    UntouchedIsZero(s.trades, n);
    forall side ensures SideMatched(longer, side) == SideMatched(s.orders, side) {
      assert SideAmounts(longer, side) == SideAmounts(s.orders, side) + [0];
      SumAppend(SideAmounts(s.orders, side), 0);
    }
  }

  lemma CancelKeeps(s: Session, id: OrderId)
    requires Inv(s) && 0 <= id < |s.orders| && s.orders[id].Active()
    ensures Inv(s.(orders := s.orders[id := s.orders[id].(status := Cancelled)]))
  {
    hide Touched, Sum;
    var next := s.orders[id := s.orders[id].(status := Cancelled)];
    forall side ensures SideMatched(next, side) == SideMatched(s.orders, side) {
      assert SideAmounts(next, side) == SideAmounts(s.orders, side);
    }
  }

  lemma ClearKeeps(s: Session, output: Option<seq<Proposal>>, at: int)
    requires Inv(s) && Attempt(s, DoClear(output, at)).Ok?
    ensures Inv(Attempt(s, DoClear(output, at)).value)
  {
    hide Touched, Sum, SessionBook, ApplyFills, OutputError, References, SideMatched;
    OutputErrorExact(s, output, at);
    var ts := output.value;
    var filled := ApplyFills(s.orders, ts);
    assert s.trades + ts == ts;
    forall id | 0 <= id < |s.orders| ensures filled[id].matched == Touched(ts, id) && StatusOk(filled[id]) {
      FillEffect(s.orders, ts, id);
      TouchedNothing(id);
      FilledFits(s, ts, id);
    }
    SidesMoveTogether(s.orders, ts, Buy);
    SidesMoveTogether(s.orders, ts, Sell);
    assert Quantities([]) == [];
    EmptySum();
  }

  lemma EmptySum()
    ensures Sum([]) == 0
  {
  }

  lemma FilledFits(s: Session, ts: seq<Proposal>, id: OrderId)
    requires Inv(s) && ValidOutput(ts, SessionBook(s.orders)) && InRange(s.orders, ts)
    requires 0 <= id < |s.orders|
    ensures ApplyFills(s.orders, ts)[id].matched <= s.orders[id].energy
    ensures References(ts, id) ==> Touched(ts, id) > 0 && s.orders[id].Active()
    ensures Touched(ts, id) >= 0
  {
    hide Touched, SessionBook, ApplyFills, References;
    ShapesOfValid(ts, SessionBook(s.orders));
    assert Sane(s.orders);
    CheckIsExactlyStrongEnough(s.orders, ts);
    assert Sane(ApplyFills(s.orders, ts));
    FillEffect(s.orders, ts, id);
    TouchedNonNegative(ts, id);
    if References(ts, id) {
      ReferencedIsActive(s.orders, ts, id);
      TouchedPositive(ts, id);
    }
  }

  lemma ReferencedIsActive(orders: seq<Order>, ts: seq<Proposal>, id: OrderId)
    requires ValidOutput(ts, SessionBook(orders)) && References(ts, id)
    ensures 0 <= id < |orders| && orders[id].Active()
  {
    hide SessionBook;
    var k :| 0 <= k < |ts| && (ts[k].buy == id || ts[k].sell == id);
    assert Shapely(ts[k], SessionBook(orders));
    SessionBookFacts(orders, id);
  }

  lemma TouchedPositive(ts: seq<Proposal>, id: OrderId)
    requires References(ts, id) && forall i :: 0 <= i < |ts| ==> ts[i].quantity > 0
    ensures Touched(ts, id) > 0
  {
    var k :| 0 <= k < |ts| && (ts[k].buy == id || ts[k].sell == id);
    SumMember(Shares(ts, id), k);
  }

  lemma StepKeeps(s: Session, step: Step)
    requires Inv(s) && Attempt(s, step).Ok?
    ensures Inv(Attempt(s, step).value)
  {
    hide Inv;
    match step
    case DoPlace(r) => PlaceKeeps(s, Placed(r));
    case DoCancel(id) => CancelKeeps(s, id);
    case DoClose(at) => CloseKeeps(s, at);
    case DoClear(output, at) => ClearKeeps(s, output, at);
  }

  lemma CloseKeeps(s: Session, at: int)
    requires Inv(s) && s.status == Accepting && s.openedAt <= at
    ensures Inv(s.(status := Closed, closedAt := Some(at)))
  {
  }

  lemma {:induction false} RunKeeps(s: Session, steps: seq<Step>)
    requires Inv(s)
    ensures Inv(Run(s, steps))
    decreases |steps|
  {
    hide Inv, Attempt;
    if |steps| > 0 {
      var r := Attempt(s, steps[0]);
      if r.Ok? {
        StepKeeps(s, steps[0]);
      }
      RunKeeps(if r.Ok? then r.value else s, steps[1..]);
    }
  }

  /** Over any life of a session, whatever whole units the engine answers in: each order is
      matched by exactly what the trades name it for and never beyond its energy,
      its status agrees, and buyers and sellers are matched for the same total. */
  lemma SessionBalances(from: int, steps: seq<Step>, id: OrderId)
    requires 0 <= id < |Run(Opened(from), steps).orders|
    ensures var s := Run(Opened(from), steps);
      && StatusOk(s.orders[id]) && s.orders[id].matched == Touched(s.trades, id)
      && SideMatched(s.orders, Buy) == SideMatched(s.orders, Sell) == Sum(Quantities(s.trades))
  {
    hide Run;
    StartOk(from);
    RunKeeps(Opened(from), steps);
  }

  /** The shipped auction clears a closed session exactly at a moment not before
      it closed; an earlier moment is refused by the session row. */
  lemma BaselineClears(s: Session, at: int)
    requires Inv(s) && s.status == Closed
    ensures var r := Attempt(s, DoClear(Some(Matching.Match(SessionBook(s.orders))), at));
      && s.closedAt.Some?
      && (r.Ok? <==> at >= s.closedAt.value)
      && (r.Err? ==> r.error == Refused(EarlyMoment))
  {
    hide SessionBook, Matching.Match, ApplyFills, OutputError, Matching.PairsOnce;
    var book := SessionBook(s.orders);
    var ts := Matching.Match(book);
    SessionBookFacts(s.orders, 0);
    forall e | e in book.buys + book.sells ensures e.limit >= 0 {
      EntryIsOrder(s.orders, e);
      EntryLimit(s.orders, e);
    }
    BaselinePasses(book);
    Matching.MatchPairsOnce(book);
    PairsOnceIsNoPairTwice(ts);
    assert s.trades + ts == ts;
    OnlyTheMoment(s, ts, at);
  }

  lemma OnlyTheMoment(s: Session, ts: seq<Proposal>, at: int)
    requires s.status == Closed && s.closedAt.Some? && NoPairTwice(s.trades + ts)
    requires WellFormedBook(SessionBook(s.orders)) && ValidOutput(ts, SessionBook(s.orders))
    ensures OutputError(s, Some(ts), at) == if at < s.closedAt.value then Some(EarlyMoment) else None
  {
    hide SessionBook, FirstError, Known, ValidOutput, WellFormedBook;
    CheckIsExact(SessionBook(s.orders), ts);
  }

  /** So whatever came before, a session that closed is cleared by it at any
      moment from then on, and at none before. */
  lemma ShippedEngineClears(from: int, steps: seq<Step>, at: int)
    requires Run(Opened(from), steps).status == Closed
    ensures var s := Run(Opened(from), steps);
      && s.closedAt.Some? && from == s.openedAt <= s.closedAt.value
      && (Attempt(s, DoClear(Some(Matching.Match(SessionBook(s.orders))), at)).Ok? <==> at >= s.closedAt.value)
  {
    hide Run, Attempt;
    StartOk(from);
    RunKeeps(Opened(from), steps);
    OpenedStays(Opened(from), steps);
    BaselineClears(Run(Opened(from), steps), at);
  }

  lemma {:induction false} OpenedStays(s: Session, steps: seq<Step>)
    ensures Run(s, steps).openedAt == s.openedAt
    decreases |steps|
  {
    hide FirstError, SessionBook, ApplyFills, OutputError, RequestError;
    if |steps| > 0 {
      var r := Attempt(s, steps[0]);
      OpenedStays(if r.Ok? then r.value else s, steps[1..]);
    }
  }

  lemma StartOk(from: int)
    ensures Inv(Opened(from))
  {
    var s := Opened(from);
    assert SideAmounts(s.orders, Buy) == [] && SideAmounts(s.orders, Sell) == [];
    assert Quantities(s.trades) == [];
  }

  lemma PairsOnceIsNoPairTwice(ts: seq<Proposal>)
    requires Matching.PairsOnce(ts)
    ensures NoPairTwice(ts)
  {
  }

  lemma EntryLimit(orders: seq<Order>, e: Entry)
    requires e in SessionBook(orders).buys + SessionBook(orders).sells
    ensures 0 <= e.id < |orders| && e.limit == orders[e.id].limit
  {
    hide Entries;
  }

  /** The same proposal twice, within what both orders have left: the boundary
      check passes it, the table does not, and the session stays closed. */
  lemma RepeatedPairingIsRefused(s: Session, t: Proposal, at: int)
    requires s.status == Closed && Shapely(t, SessionBook(s.orders))
    requires forall e :: e in SessionBook(s.orders).buys + SessionBook(s.orders).sells && (e.id == t.buy || e.id == t.sell) ==>
      2 * t.quantity <= e.remaining
    ensures var book := SessionBook(s.orders);
      && FirstError(Known(book.buys + book.sells), [t, t], 0).None?
      && Attempt(s, DoClear(Some([t, t]), at)) == Err(Refused(DuplicateFill))
  {
    hide SessionBook, FirstError, Known, WellFormedBook, Touched;
    var book := SessionBook(s.orders);
    SessionBookFacts(s.orders, t.buy);
    SessionBookFacts(s.orders, t.sell);
    var all := book.buys + book.sells;
    forall k | 0 <= k < |all| && References([t, t], all[k].id) ensures Touched([t, t], all[k].id) <= all[k].remaining {
      assert all[k] in all;
      TouchedTwice(t, all[k].id);
    }
    assert WithinRemaining([t, t], all);
    assert ValidOutput([t, t], book);
    CheckIsExact(book, [t, t]);
    var both := s.trades + [t, t];
    assert both[|s.trades|] == both[|s.trades| + 1] == t;
    assert !NoPairTwice(both);
    assert OutputError(s, Some([t, t]), at) == Some(DuplicateFill);
  }

  lemma TouchedTwice(t: Proposal, id: OrderId)
    requires t.buy != t.sell
    ensures Touched([t, t], id) == if t.buy == id || t.sell == id then 2 * t.quantity else 0
  {
    assert [t, t] == [t] + [t] && [t] == [] + [t];
    TouchedNothing(id);
    TouchedAppend([], t, id);
    TouchedAppend([t], t, id);
  }

  /** A cleared session clears no more: its trades and what is matched are final. */
  lemma {:induction false} ClearedIsFinal(s: Session, steps: seq<Step>)
    requires s.status == Cleared
    ensures var r := Run(s, steps);
      && r.status == Cleared && r.trades == s.trades && |r.orders| == |s.orders|
      && r.closedAt == s.closedAt && r.clearedAt == s.clearedAt
      && (forall id :: 0 <= id < |s.orders| ==>
            r.orders[id] == s.orders[id] || r.orders[id] == s.orders[id].(status := Cancelled))
    decreases |steps|
  {
    hide FirstError, SessionBook, ApplyFills;
    if |steps| > 0 {
      var r := Attempt(s, steps[0]);
      ClearedIsFinal(if r.Ok? then r.value else s, steps[1..]);
    }
  }

  /** Each sell is backed by the forecast on its own, not together: the same
      surplus can be offered twice in one session. */
  lemma SurplusCanBeOfferedTwice(from: int, r: Request)
    requires r.siteKnown && r.eligible && r.side == Sell && 0 < r.energy == r.available && r.start < r.end
    requires r.limit.Some? && r.limit.value >= 0
    ensures var s := Run(Opened(from), [DoPlace(r), DoPlace(r)]);
      |s.orders| == 2 && s.orders[0].Active() && s.orders[1].Active()
      && s.orders[0].site == s.orders[1].site && s.orders[0].start == s.orders[1].start
      && s.orders[0].Remaining() + s.orders[1].Remaining() > r.available
  {
    var steps := [DoPlace(r), DoPlace(r)];
    assert steps[1..] == [DoPlace(r)] && steps[1..][1..] == [];
    var start := Opened(from);
    var once := start.(orders := [Placed(r)]);
    assert start.orders + [Placed(r)] == [Placed(r)];
    assert Run(start, steps) == Run(once, steps[1..]);
    var twice := once.(orders := [Placed(r), Placed(r)]);
    assert once.orders + [Placed(r)] == [Placed(r), Placed(r)];
    assert Run(once, [DoPlace(r)]) == Run(twice, []);
  }

  // ---- the service ---------------------------------------------------------

  /** One market session: its orders, its status and the trades it proposed. */
  class MarketSession {
    var status: SessionStatus
    var openedAt: int
    var closedAt: Option<int>
    var clearedAt: Option<int>
    var orders: seq<Order>
    var trades: seq<Proposal>

    function View(): Session
      reads this
    {
      Session(status, openedAt, closedAt, clearedAt, orders, trades)
    }

    constructor (at: int)
      ensures View() == Opened(at)
    {
      status, openedAt, closedAt, clearedAt := Accepting, at, None, None;
      orders, trades := [], [];
    }

    /** `place_order`. */
    method PlaceOrder(r: Request) returns (error: Option<SessionError>)
      modifies this`orders
      ensures error.None? ==> Attempt(old(View()), DoPlace(r)) == Ok(View())
      ensures error.Some? ==> Attempt(old(View()), DoPlace(r)) == Err(error.value) && View() == old(View())
    {
      if status != Accepting {
        return Some(NotAccepting);
      }
      if !r.siteKnown {
        return Some(SiteNotFound);
      }
      if !r.eligible {
        return Some(NotEligible);
      }
      if r.energy <= 0 {
        return Some(BadQuantity);
      }
      if r.end <= r.start {
        return Some(BadWindow);
      }
      if r.limit.None? {
        return Some(PriceRequired);
      }
      if r.side == Sell && r.available < r.energy {
        return Some(NoSurplus);
      }
      if r.limit.value < 0 {
        return Some(ConstraintViolation);
      }
      orders := orders + [Order(r.user, r.site, r.side, r.energy, r.limit.value, r.start, r.end, r.created, 0, Open)];
      error := None;
    }

    /** `cancel_order`. */
    method CancelOrder(id: OrderId) returns (error: Option<SessionError>)
      modifies this`orders
      ensures error.None? ==> Attempt(old(View()), DoCancel(id)) == Ok(View())
      ensures error.Some? ==> Attempt(old(View()), DoCancel(id)) == Err(error.value) && View() == old(View())
    {
      if !(0 <= id < |orders|) {
        return Some(OrderNotFound);
      }
      if !orders[id].Active() {
        return Some(NotActive);
      }
      orders := orders[id := orders[id].(status := Cancelled)];
      error := None;
    }

    /** Stop taking orders. */
    method Close(at: int) returns (error: Option<SessionError>)
      modifies this`status, this`closedAt
      ensures error.None? <==> old(status) == Accepting && at >= openedAt
      ensures error.None? ==> Attempt(old(View()), DoClose(at)) == Ok(View())
      ensures error.Some? ==> Attempt(old(View()), DoClose(at)) == Err(error.value) && View() == old(View())
    {
      if status != Accepting {
        return Some(NotOpen);
      }
      if at < openedAt {
        return Some(ConstraintViolation);
      }
      status, closedAt := Closed, Some(at);
      error := None;
    }

    /** `clear_session` with an engine that may raise or answer anything in whole units. */
    method Clear(engine: Book -> Option<seq<Proposal>>, at: int) returns (error: Option<ClearError>)
      modifies this
      ensures error.None? <==>
        && old(status) == Closed && engine(SessionBook(old(orders))).Some?
        && ValidOutput(engine(SessionBook(old(orders))).value, SessionBook(old(orders)))
        && NoPairTwice(old(trades) + engine(SessionBook(old(orders))).value)
        && (old(closedAt).Some? ==> at >= old(closedAt).value)
      ensures error.None? ==> Attempt(old(View()), DoClear(engine(SessionBook(old(orders))), at)) == Ok(View())
      ensures error.Some? ==>
        Attempt(old(View()), DoClear(engine(SessionBook(old(orders))), at)) == Err(Refused(error.value))
        && View() == old(View())
    {
      hide SessionBook, ValidOutput, ApplyFills, InRange, FirstError, Known;
      var book := SessionBook(orders);
      ghost var output := engine(book);
      OutputErrorExact(View(), output, at);
      if status != Closed {
        return Some(NotClearable);
      }
      SessionBookFacts(orders, 0);
      var result := engine(book);
      if result.None? {
        return Some(EngineFailed);
      }
      var ts := result.value;
      error := ValidateResult(ts, book);
      if error.Some? {
        return;
      }
      if !NoPairTwice(trades + ts) {
        return Some(DuplicateFill);
      }
      if closedAt.Some? && at < closedAt.value {
        return Some(EarlyMoment);
      }
      trades := trades + ts;
      ApplyAll(ts);
      status, clearedAt := Cleared, Some(at);
    }

    /** The fill loop: `_apply_fill` on both orders of every trade. */
    method ApplyAll(ts: seq<Proposal>)
      requires InRange(orders, ts)
      modifies this`orders
      ensures InRange(old(orders), ts) && orders == ApplyFills(old(orders), ts)
    {
      var i := 0;
      ghost var start := orders;
      assert ts[..0] == [];
      while i < |ts|
        invariant 0 <= i <= |ts|
        invariant InRange(start, ts) && InRange(start, ts[..i])
        invariant orders == ApplyFills(start, ts[..i])
      {
        assert ts[..i + 1][..i] == ts[..i];
        var t := ts[i];
        orders := orders[t.buy := Fill(orders[t.buy], t.quantity)];
        orders := orders[t.sell := Fill(orders[t.sell], t.quantity)];
        i := i + 1;
      }
      assert ts[..i] == ts;
    }
  }
}
