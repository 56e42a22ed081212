/** The `orders` row and the plain values that cross the matching boundary.
    Energy is counted in 0.0001 kWh, prices in 0.0001 INR/kWh, time in
    microseconds since the epoch; an order is identified by its position. */
module Orders {
  import opened Base

  type OrderId = int
  type UserId = int
  type SiteId = int

  datatype Side = Buy | Sell

  datatype OrderStatus = Open | PartiallyFilled | Filled | Cancelled | Rejected

  /** `limit` is the minimum price of a sell and the maximum price of a buy. */
  datatype Order = Order(
    user: UserId, site: SiteId, side: Side, energy: int, limit: int,
    start: int, end: int, created: int, matched: int, status: OrderStatus)
  {
    function Remaining(): int { energy - matched }

    predicate Active() { status.Open? || status.PartiallyFilled? }
  }

  /** What an engine is shown of an order. */
  datatype Entry = Entry(
    id: OrderId, side: Side, user: UserId, remaining: int, limit: int,
    start: int, end: int, created: int)

  datatype Book = Book(buys: seq<Entry>, sells: seq<Entry>)

  datatype Proposal = Proposal(
    buy: OrderId, sell: OrderId, quantity: int, price: int, start: int, end: int)

  function ToEntry(id: OrderId, o: Order, cap: Option<int>): Entry {
    Entry(id, o.side, o.user,
          if cap.Some? then Min(o.Remaining(), cap.value) else o.Remaining(),
          o.limit, o.start, o.end, o.created)
  }

  /** One side of the book for the listed orders, in listing order. */
  function Entries(orders: seq<Order>, ids: seq<OrderId>, cap: Option<int>, side: Side): (es: seq<Entry>)
    requires forall i :: 0 <= i < |ids| ==> 0 <= ids[i] < |orders|
    ensures forall k :: 0 <= k < |es| ==>
      es[k].id in ids && orders[es[k].id].side == side && es[k] == ToEntry(es[k].id, orders[es[k].id], cap)
    ensures forall i :: 0 <= i < |ids| && orders[ids[i]].side == side ==> ToEntry(ids[i], orders[ids[i]], cap) in es
  {
    if |ids| == 0 then []
    else
      var last := ids[|ids| - 1];
      var front := Entries(orders, ids[..|ids| - 1], cap, side);
      if orders[last].side == side then front + [ToEntry(last, orders[last], cap)] else front
  }

  predicate Distinct(es: seq<Entry>) {
    forall i, j :: 0 <= i < j < |es| ==> es[i].id != es[j].id
  }

  predicate DistinctIds(ids: seq<OrderId>) {
    forall i, j :: 0 <= i < j < |ids| ==> ids[i] != ids[j]
  }

  lemma {:induction false} EntriesDistinct(orders: seq<Order>, ids: seq<OrderId>, cap: Option<int>, side: Side)
    requires forall i :: 0 <= i < |ids| ==> 0 <= ids[i] < |orders|
    requires DistinctIds(ids)
    ensures Distinct(Entries(orders, ids, cap, side))
  {
    if |ids| > 0 {
      EntriesDistinct(orders, ids[..|ids| - 1], cap, side);
    }
  }

  predicate WellFormedBook(book: Book) {
    && Distinct(book.buys) && Distinct(book.sells)
    && (forall i :: 0 <= i < |book.buys| ==> book.buys[i].side == Buy)
    && (forall i :: 0 <= i < |book.sells| ==> book.sells[i].side == Sell)
    && (forall i, j :: 0 <= i < |book.buys| && 0 <= j < |book.sells| ==> book.buys[i].id != book.sells[j].id)
  }

  function BookOf(orders: seq<Order>, ids: seq<OrderId>, cap: Option<int>): Book
    requires forall i :: 0 <= i < |ids| ==> 0 <= ids[i] < |orders|
  {
    Book(Entries(orders, ids, cap, Buy), Entries(orders, ids, cap, Sell))
  }

  lemma BookOfWellFormed(orders: seq<Order>, ids: seq<OrderId>, cap: Option<int>)
    requires forall i :: 0 <= i < |ids| ==> 0 <= ids[i] < |orders|
    requires DistinctIds(ids)
    ensures WellFormedBook(BookOf(orders, ids, cap))
  {
    EntriesDistinct(orders, ids, cap, Buy);
    EntriesDistinct(orders, ids, cap, Sell);
  }

  /** What the engine is shown: for each listed order of a side its own limit, times
      and owner, and what it has left, or the cap if that is less. */
  lemma BookShows(orders: seq<Order>, ids: seq<OrderId>, cap: Option<int>, e: Entry)
    requires forall i :: 0 <= i < |ids| ==> 0 <= ids[i] < |orders|
    ensures var book := BookOf(orders, ids, cap);
      && (e in book.buys <==> Shown(orders, ids, cap, e) && e.side == Buy)
      && (e in book.sells <==> Shown(orders, ids, cap, e) && e.side == Sell)
  {
    EntriesExactly(orders, ids, cap, Buy, e);
    EntriesExactly(orders, ids, cap, Sell, e);
  }

  predicate Shown(orders: seq<Order>, ids: seq<OrderId>, cap: Option<int>, e: Entry) {
    && e.id in ids && 0 <= e.id < |orders|
    && var o := orders[e.id];
    && e.side == o.side && e.user == o.user && e.limit == o.limit
    && e.start == o.start && e.end == o.end && e.created == o.created
    && e.remaining == (if cap.Some? && cap.value < o.energy - o.matched then cap.value else o.energy - o.matched)
  }

  lemma {:induction false} EntriesExactly(orders: seq<Order>, ids: seq<OrderId>, cap: Option<int>, side: Side, e: Entry)
    requires forall i :: 0 <= i < |ids| ==> 0 <= ids[i] < |orders|
    ensures e in Entries(orders, ids, cap, side) <==> Shown(orders, ids, cap, e) && e.side == side
  {
    if |ids| > 0 {
      EntriesExactly(orders, ids[..|ids| - 1], cap, side, e);
      assert ids == ids[..|ids| - 1] + [ids[|ids| - 1]];
    }
  }

  /** Energy a list of proposals takes from one order, on whichever side. */
  function Share(p: Proposal, id: OrderId): int {
    if p.buy == id || p.sell == id then p.quantity else 0
  }

  function Shares(ps: seq<Proposal>, id: OrderId): seq<int> {
    seq(|ps|, i requires 0 <= i < |ps| => Share(ps[i], id))
  }

  function Touched(ps: seq<Proposal>, id: OrderId): int {
    Sum(Shares(ps, id))
  }

  lemma TouchedAppend(ps: seq<Proposal>, p: Proposal, id: OrderId)
    ensures Touched(ps + [p], id) == Touched(ps, id) + Share(p, id)
  {
    assert Shares(ps + [p], id) == Shares(ps, id) + [Share(p, id)];
    SumAppend(Shares(ps, id), Share(p, id));
  }

  lemma TouchedHead(ps: seq<Proposal>, id: OrderId)
    requires |ps| > 0
    ensures Touched(ps, id) == Share(ps[0], id) + Touched(ps[1..], id)
  {
    SumHead(Shares(ps, id));
    assert Shares(ps, id)[1..] == Shares(ps[1..], id);
  }

  lemma TouchedNothing(id: OrderId)
    ensures Touched([], id) == 0
  {
    assert Shares([], id) == [];
  }

  predicate References(ps: seq<Proposal>, id: OrderId) {
    exists i :: 0 <= i < |ps| && (ps[i].buy == id || ps[i].sell == id)
  }

  lemma UntouchedIsZero(ps: seq<Proposal>, id: OrderId)
    requires !References(ps, id)
    ensures Touched(ps, id) == 0
  {
    SumOfZeros(Shares(ps, id));
  }
}
