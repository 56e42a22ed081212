/** `accept_offer`: an atomic purchase of exactly the requested energy, safe to
    retry for ever after. */
module DirectMatch {
  import opened Base
  import opened Orders
  import opened Ledger
  import opened Trading
  import opened Delivery
  import opened Runs
  import Matching

  // ---- a book of two orders ------------------------------------------------

  predicate IsPair(ids: seq<OrderId>, x: OrderId, y: OrderId) {
    ids == [x, y] || ids == [y, x]
  }

  lemma PairIds(orders: seq<Order>, clock: int, x: OrderId, y: OrderId)
    requires 0 <= x < |orders| && 0 <= y < |orders| && x != y
    requires Eligible(orders[x], x, clock, Some({x, y})) && Eligible(orders[y], y, clock, Some({x, y}))
    ensures IsPair(OpenIds(orders, clock, Some({x, y})), x, y)
  {
    hide OpenIds;
    var ids := OpenIds(orders, clock, Some({x, y}));
    assert x in ids && y in ids;
    ThreeDiffer(ids, x, y);
  }

  lemma ThreeDiffer(ids: seq<OrderId>, x: OrderId, y: OrderId)
    requires DistinctIds(ids)
    ensures |ids| > 2 ==> exists i :: 0 <= i < |ids| && ids[i] != x && ids[i] != y
  {
    if |ids| > 2 {
      assert ids[0] != ids[1] && ids[1] != ids[2] && ids[0] != ids[2];
    }
  }

  lemma SingleOrder(orders: seq<Order>, x: OrderId, cap: Option<int>, side: Side)
    requires 0 <= x < |orders|
    ensures Starts(orders, [x]) == [orders[x].start]
    ensures Group(orders, [x], orders[x].start) == [x]
    ensures Entries(orders, [x], cap, side) == if orders[x].side == side then [ToEntry(x, orders[x], cap)] else []
  {
    assert [x][..0] == [];
    assert Starts(orders, []) == [];
    assert Group(orders, [], orders[x].start) == [];
    assert Entries(orders, [], cap, side) == [];
  }

  lemma PairStarts(orders: seq<Order>, ids: seq<OrderId>, b: OrderId, s: OrderId)
    requires 0 <= b < |orders| && 0 <= s < |orders| && IsPair(ids, b, s)
    requires orders[b].start == orders[s].start
    ensures Starts(orders, ids) == [orders[b].start]
  {
    hide Group, Entries;
    assert ids[..1] == [ids[0]];
    SingleOrder(orders, ids[0], None, Buy);
    assert Starts(orders, ids) == AddStart(Starts(orders, ids[..1]), orders[ids[1]].start);
  }

  lemma PairGroup(orders: seq<Order>, ids: seq<OrderId>, b: OrderId, s: OrderId)
    requires 0 <= b < |orders| && 0 <= s < |orders| && IsPair(ids, b, s)
    requires orders[b].start == orders[s].start
    ensures Group(orders, ids, orders[b].start) == ids
  {
    hide Starts, Entries;
    var start := orders[b].start;
    assert ids[..1] == [ids[0]];
    assert [ids[0]][..0] == [];
    assert Group(orders, [], start) == [];
    assert Group(orders, [ids[0]], start) == [] + [ids[0]];
    assert Group(orders, ids, start) == Group(orders, ids[..1], start) + [ids[1]];
  }

  lemma PairBook(orders: seq<Order>, ids: seq<OrderId>, b: OrderId, s: OrderId, cap: Option<int>)
    requires 0 <= b < |orders| && 0 <= s < |orders| && IsPair(ids, b, s)
    requires orders[b].side == Buy && orders[s].side == Sell
    ensures BookOf(orders, ids, cap) == Book([ToEntry(b, orders[b], cap)], [ToEntry(s, orders[s], cap)])
  {
    assert ids[..1] == [ids[0]];
    SingleOrder(orders, ids[0], cap, Buy);
    SingleOrder(orders, ids[0], cap, Sell);
  }

  function Bargain(b: Entry, s: Entry): Proposal {
    Proposal(b.id, s.id, Min(b.remaining, s.remaining), Midpoint(b.limit, s.limit), Max(b.start, s.start), Min(b.end, s.end))
  }

  lemma MeritOne(e: Entry)
    ensures Matching.Merit([e]) == if e.remaining > 0 then [e] else []
  {
    assert [e][..0] == [];
    if e.remaining > 0 {
      assert Matching.Live([e]) == [e];
      assert Matching.Sort([]) == [];
    }
  }

  lemma PairMatch(b: Entry, s: Entry)
    ensures Matching.Match(Book([b], [s])) ==
      if Matching.Compatible(b, s) && b.remaining > 0 && s.remaining > 0 then [Bargain(b, s)] else []
  {
    hide Matching.Merit, Matching.Compatible;
    MeritOne(b);
    MeritOne(s);
    var book := Book([b], [s]);
    var opening := Matching.Opening(book);
    if b.remaining > 0 && s.remaining > 0 {
      assert [b][..0] == [] && [s][..0] == [];
      assert Matching.VisitBuys(opening, [b][..0], [s]) == opening;
      assert Matching.VisitSells(opening, b, [s][..0]) == opening;
      assert Matching.VisitBuys(opening, [b], [s]) == Matching.Visit(opening, b, s);
    } else if b.remaining > 0 {
      assert [b][..0] == [];
      assert Matching.VisitBuys(opening, [b], []) == opening;
    }
  }

  // ---- exactly the requested energy ----------------------------------------

  /** The accepted purchase as a buy and a sell. */
  function BuyId(s: State, q: Acceptance): OrderId
    requires 0 <= q.offer < |s.orders|
  {
    if s.orders[q.offer].side == Sell then OwnId(s, q) else q.offer
  }

  function SellId(s: State, q: Acceptance): OrderId
    requires 0 <= q.offer < |s.orders|
  {
    if s.orders[q.offer].side == Sell then q.offer else OwnId(s, q)
  }

  predicate Paired(p: State, q: Acceptance, b: OrderId, s: OrderId) {
    && 0 <= b < |p.orders| && 0 <= s < |p.orders| && b != s
    && p.orders[b].side == Buy && p.orders[s].side == Sell
    && p.orders[b].start == p.orders[s].start > p.clock
    && p.orders[b].Active() && p.orders[s].Active()
    && p.orders[b].Remaining() >= q.quantity && p.orders[s].Remaining() >= q.quantity
  }

  lemma PreparedPair(s: State, q: Acceptance)
    requires AcceptError(s, q).None? && TradingOk(s)
    ensures Paired(Prepare(s, q), q, BuyId(s, q), SellId(s, q))
    ensures {OwnId(s, q), q.offer} == {BuyId(s, q), SellId(s, q)}
  {
    hide TradingOk, Reserved, SurplusOf;
  }

  lemma PairClearing(p: State, q: Acceptance, b: OrderId, s: OrderId, env: Env)
    requires OrdersOk(p.orders) && Paired(p, q, b, s)
    ensures var cap := Some(q.quantity);
      var be, se := ToEntry(b, p.orders[b], cap), ToEntry(s, p.orders[s], cap);
      var books := Books(p.orders, p.trades);
      var ids := OpenIds(p.orders, p.clock, Some({b, s}));
      ClearSlots(books, ids, Starts(p.orders, ids), cap, env) ==
        if !(Matching.Compatible(be, se) && q.quantity > 0) then Ok(books)
        else if env.grid(p.orders[b].start).None? then Err(GridIncomplete)
        else FillOne(books, Bargain(be, se), p.orders[b].start, env.grid(p.orders[b].start).value, env)
  {
    hide OpenIds, Starts, Group, Entries, BookOf, Matching.Match, FillOne, Matching.Compatible;
    var cap := Some(q.quantity);
    var be, se := ToEntry(b, p.orders[b], cap), ToEntry(s, p.orders[s], cap);
    var books := Books(p.orders, p.trades);
    var ids := OpenIds(p.orders, p.clock, Some({b, s}));
    PairIds(p.orders, p.clock, b, s);
    PairStarts(p.orders, ids, b, s);
    PairGroup(p.orders, ids, b, s);
    PairBook(p.orders, ids, b, s, cap);
    PairMatch(be, se);
    var start := p.orders[b].start;
    assert [start][1..] == [];
    if Matching.Compatible(be, se) && q.quantity > 0 && env.grid(start).Some? {
      assert [Bargain(be, se)][1..] == [];
      var r := FillOne(books, Bargain(be, se), start, env.grid(start).value, env);
      assert FillAll(books, [Bargain(be, se)], start, env.grid(start).value, env) == r;
    }
  }

  /** A fresh accept that succeeds commits one trade of exactly the requested
      energy between the two orders and touches nothing else. */
  lemma AcceptCommitsExactly(s: State, q: Acceptance, env: Env)
    requires Inv(s) && (q.user, q.request) !in s.actions && Accept(s, q, env).Ok?
    ensures var r := Accept(s, q, env).value;
      && AcceptError(s, q).None? && q.quantity > 0
      && var p := Prepare(s, q);
      var b, o := BuyId(s, q), SellId(s, q);
      && Paired(p, q, b, o)
      && |r.trades| == |s.trades| + 1 && r.trades[..|s.trades|] == s.trades
      && r.trades[|s.trades|].buy == b && r.trades[|s.trades|].sell == o
      && r.trades[|s.trades|].quantity == q.quantity && r.trades[|s.trades|].status == Committed
      && r == p.(orders := p.orders[b := Commit(p.orders[b], q.quantity)][o := Commit(p.orders[o], q.quantity)],
                 trades := r.trades,
                 actions := s.actions[(q.user, q.request) := Action(q.offer, q.quantity, q.price, q.own, |s.trades|)])
  {
    hide Inv, TradingOk, DeliveryOk, AcceptError, Prepare, ClearSlots, OpenIds, Starts, FillOne, BooksOk;
    InvTrading(s);
    OfferExists(s, q);
    var p := Prepare(s, q);
    var b, o := BuyId(s, q), SellId(s, q);
    PrepareKeeps(s, q);
    PrepareShape(s, q);
    PreparedPair(s, q);
    TradingOrders(p);
    PairClearing(p, q, b, o, env);
    var cap := Some(q.quantity);
    var be, se := ToEntry(b, p.orders[b], cap), ToEntry(o, p.orders[o], cap);
    var books := Books(p.orders, p.trades);
    var start := p.orders[b].start;
    JudgedFill(books, Bargain(be, se), start, env.grid(start).value, env);
  }

  /** What decides a fresh accept once its checks pass: something to trade, a
      safe grid in the slot, and a quote inside both limits. */
  predicate Dealable(p: State, q: Acceptance, b: OrderId, o: OrderId, env: Env)
    requires Paired(p, q, b, o)
  {
    var cap := Some(q.quantity);
    var quote := env.quote(Bargain(ToEntry(b, p.orders[b], cap), ToEntry(o, p.orders[o], cap)), p.orders[o].site);
    && q.quantity > 0 && env.grid(p.orders[b].start) == Some(true)
    && quote.Some? && p.orders[o].limit <= quote.value <= p.orders[b].limit
  }

  /** Exactly when a fresh accept goes through. */
  lemma AcceptSucceedsIff(s: State, q: Acceptance, env: Env)
    requires Inv(s) && (q.user, q.request) !in s.actions
    ensures Accept(s, q, env).Ok? <==>
      && AcceptError(s, q).None? && 0 <= q.offer < |s.orders|
      && Paired(Prepare(s, q), q, BuyId(s, q), SellId(s, q))
      && Dealable(Prepare(s, q), q, BuyId(s, q), SellId(s, q), env)
  {
    hide Inv, TradingOk, DeliveryOk, AcceptError, Prepare, ClearSlots, OpenIds, Starts, FillOne, BooksOk, Dealable;
    if AcceptError(s, q).None? {
      InvTrading(s);
      OfferExists(s, q);
      var p := Prepare(s, q);
      var b, o := BuyId(s, q), SellId(s, q);
      PrepareKeeps(s, q);
      PrepareShape(s, q);
      PreparedPair(s, q);
      TradingOrders(p);
      PairClearing(p, q, b, o, env);
      PairDeals(p, q, b, o, env);
      PreparedUsers(s, q);
    }
  }

  lemma PreparedUsers(s: State, q: Acceptance)
    requires AcceptError(s, q).None? && 0 <= q.offer < |s.orders|
    requires Paired(Prepare(s, q), q, BuyId(s, q), SellId(s, q))
    ensures Prepare(s, q).orders[BuyId(s, q)].user != Prepare(s, q).orders[SellId(s, q)].user
  {
    hide PlaceError;
  }

  /** The clearing of a pair commits its bargain exactly when it is dealable. */
  lemma PairDeals(p: State, q: Acceptance, b: OrderId, o: OrderId, env: Env)
    requires OrdersOk(p.orders) && Paired(p, q, b, o)
    ensures var cap := Some(q.quantity);
      var be, se := ToEntry(b, p.orders[b], cap), ToEntry(o, p.orders[o], cap);
      var books := Books(p.orders, p.trades);
      var grid := env.grid(p.orders[b].start);
      && (Dealable(p, q, b, o, env) && p.orders[b].user != p.orders[o].user ==> Matching.Compatible(be, se))
      && (Dealable(p, q, b, o, env) ==> q.quantity > 0 && grid.Some?)
      && (grid.Some? && Matching.Compatible(be, se) && q.quantity > 0 ==>
            var r := FillOne(books, Bargain(be, se), p.orders[b].start, grid.value, env);
            (r.Ok? && |r.value.trades| > |p.trades| && r.value.trades[|p.trades|].status == Committed)
            <==> Dealable(p, q, b, o, env))
  {
    assert OrderOk(p.orders[b]) && OrderOk(p.orders[o]);
  }

  lemma OfferExists(s: State, q: Acceptance)
    requires AcceptError(s, q).None?
    ensures 0 <= q.offer < |s.orders|
  {
  }

  lemma InvTrading(s: State)
    requires Inv(s)
    ensures TradingOk(s)
  {
    hide TradingOk, DeliveryOk;
  }

  lemma TradingOrders(s: State)
    requires TradingOk(s)
    ensures OrdersOk(s.orders)
  {
    hide Reserved;
  }

  // ---- retries -------------------------------------------------------------

  /** After a successful accept, whatever happens next, the same request gets
      the same trade back and changes nothing; a different body is refused. */
  lemma RetryIsFree(s: State, q: Acceptance, env: Env, later: seq<Step>, again: Acceptance, env': Env)
    requires Inv(s) && Accept(s, q, env).Ok?
    requires again.user == q.user && again.request == q.request
    ensures var first := Accept(s, q, env).value;
      var r := Run(first, later);
      && (q.user, q.request) in first.actions && (q.user, q.request) in r.actions
      && var trade := first.actions[(q.user, q.request)].trade;
      && r.actions[(q.user, q.request)] == first.actions[(q.user, q.request)]
      && 0 <= trade < |first.trades| <= |r.trades| && TradeKept(first.trades[trade], r.trades[trade])
      && Accept(r, again, env') ==
         if again.offer == q.offer && again.quantity == q.quantity && again.price == q.price && again.own == q.own
         then Ok(r) else Err(RequestReused)
  {
    hide Inv, TradingOk, DeliveryOk, AcceptError, AcceptFresh, Run, BooksOk, SurplusOk;
    AcceptStep(s, q, env);
    var first := Accept(s, q, env).value;
    RunKeeps(first, later);
    ActionRecorded(s, q, env);
    InvActions(first);
    assert (q.user, q.request) in first.actions;
  }

  lemma ActionRecorded(s: State, q: Acceptance, env: Env)
    requires Accept(s, q, env).Ok?
    ensures var first := Accept(s, q, env).value;
      (q.user, q.request) in first.actions && SameBody(first.actions[(q.user, q.request)], q)
  {
    hide AcceptError, Clear, Prepare;
  }

  lemma InvActions(s: State)
    requires Inv(s)
    ensures ActionsOk(s)
  {
    hide BooksOk, SurplusOk, DeliveryOk;
  }

  /** Of two different requests at most the remaining energy is sold: a second
      accept cannot take what a first one took. */
  lemma TwoAcceptsShareTheOffer(s: State, q1: Acceptance, env1: Env, q2: Acceptance, env2: Env)
    requires Inv(s) && (q1.user, q1.request) !in s.actions && Accept(s, q1, env1).Ok?
    requires (q2.user, q2.request) !in Accept(s, q1, env1).value.actions
    requires Accept(Accept(s, q1, env1).value, q2, env2).Ok? && q2.offer == q1.offer
    ensures 0 <= q1.offer < |s.orders| && q1.quantity + q2.quantity <= s.orders[q1.offer].Remaining()
  {
    hide Inv, TradingOk, DeliveryOk, Accept, PlaceError;
    AcceptCommitsExactly(s, q1, env1);
    var r := Accept(s, q1, env1).value;
    AcceptStep(s, q1, env1);
    AcceptCommitsExactly(r, q2, env2);
    assert s.orders[q1.offer].Remaining() - q1.quantity == r.orders[q1.offer].Remaining();
  }
}
