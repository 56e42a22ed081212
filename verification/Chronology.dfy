/** First come, first served: which trades a reconciliation serves, in which
    order, and what each is given of what the earlier ones left. */
module Chronology {
  import opened Base
  import opened Orders
  import opened Ledger
  import opened Trading
  import opened Delivery

  /** Both households' readings of exactly the delivery interval are there, valid
      and with the channel the trade needs. */
  predicate Ready(s: State, t: Trade) {
    && 0 <= t.buy < |s.orders| && 0 <= t.sell < |s.orders|
    && var seller, buyer := Key(s.orders[t.sell].site, t.start), Key(s.orders[t.buy].site, t.start);
    && seller in s.readings && s.readings[seller].valid && s.readings[seller].end == t.end
    && s.readings[seller].exportKwh.Some?
    && buyer in s.readings && s.readings[buyer].valid && s.readings[buyer].end == t.end
    && s.readings[buyer].importKwh.Some?
  }

  lemma ReadyIsSettles(s: State, t: Trade)
    ensures Ready(s, t) <==> Settles(s, t)
  {
  }

  /** The listed trades that are ready, in the order of the list. */
  function Served(s: State, trades: seq<Trade>, ids: seq<int>): (r: seq<int>)
    requires forall i :: 0 <= i < |ids| ==> 0 <= ids[i] < |trades|
    ensures forall x :: x in r <==> x in ids && Ready(s, trades[x])
  {
    if |ids| == 0 then []
    else if Ready(s, trades[ids[0]]) then [ids[0]] + Served(s, trades, ids[1..])
    else Served(s, trades, ids[1..])
  }

  lemma {:induction false} ServedInOrder(s: State, trades: seq<Trade>, ids: seq<int>)
    requires forall i :: 0 <= i < |ids| ==> 0 <= ids[i] < |trades|
    requires Chronological(trades, ids)
    ensures forall i :: 0 <= i < |Served(s, trades, ids)| ==> 0 <= Served(s, trades, ids)[i] < |trades|
    ensures Chronological(trades, Served(s, trades, ids))
    decreases |ids|
  {
    hide Ready, Earlier;
    if |ids| > 0 {
      ServedInOrder(s, trades, ids[1..]);
      var rest := Served(s, trades, ids[1..]);
      forall i | 0 <= i < |rest| ensures 0 <= rest[i] < |trades| && Earlier(trades, ids[0], rest[i]) {
        assert rest[i] in ids[1..];
        var j :| 0 <= j < |ids[1..]| && ids[1..][j] == rest[i];
        assert ids[j + 1] == rest[i];
      }
    }
  }

  lemma {:induction false} ServedSame(s: State, m: State, a: seq<Trade>, b: seq<Trade>, ids: seq<int>)
    requires m.orders == s.orders && m.readings == s.readings && |a| == |b|
    requires forall i :: 0 <= i < |ids| ==> 0 <= ids[i] < |a| && a[ids[i]] == b[ids[i]]
    ensures Served(s, a, ids) == Served(m, b, ids)
    decreases |ids|
  {
    if |ids| > 0 {
      ServedSame(s, m, a, b, ids[1..]);
    }
  }

  /** What the meters leave a trade after the rows before it. */
  function Left(s: State, rows: seq<Allocation>, t: Trade): int
    requires Ready(s, t)
  {
    var seller, buyer := Key(s.orders[t.sell].site, t.start), Key(s.orders[t.buy].site, t.start);
    Min(t.quantity,
        Min(Max(0, s.readings[seller].exportKwh.value - SellerUsed(rows, seller)),
            Max(0, s.readings[buyer].importKwh.value - BuyerUsed(rows, buyer))))
  }

  function RowFor(s: State, rows: seq<Allocation>, trades: seq<Trade>, id: int): Allocation
    requires 0 <= id < |trades| && Ready(s, trades[id])
  {
    var t := trades[id];
    Allocation(id, Key(s.orders[t.sell].site, t.start), Key(s.orders[t.buy].site, t.start), Left(s, rows, t))
  }

  /** A row of a ready trade that takes what the rows before it leave. */
  predicate RowServes(s: State, trades: seq<Trade>, rows: seq<Allocation>, i: nat)
    requires i < |rows|
  {
    && 0 <= rows[i].trade < |trades| && Ready(s, trades[rows[i].trade])
    && rows[i] == RowFor(s, rows[..i], trades, rows[i].trade)
  }

  function TradesOf(rows: seq<Allocation>): (ids: seq<int>)
    ensures |ids| == |rows| && forall i :: 0 <= i < |rows| ==> ids[i] == rows[i].trade
  {
    seq(|rows|, i requires 0 <= i < |rows| => rows[i].trade)
  }

  lemma SettleOneRow(s: State, id: int)
    requires 0 <= id < |s.trades|
    ensures var r := SettleOne(s, id);
      && r.orders == s.orders && r.readings == s.readings && |r.trades| == |s.trades|
      && (forall x :: 0 <= x < |s.trades| && x != id ==> r.trades[x] == s.trades[x])
      && r.allocations == s.allocations
        + (if Ready(s, s.trades[id]) then [RowFor(s, s.allocations, s.trades, id)] else [])
      && TradesOf(r.allocations) == TradesOf(s.allocations) + (if Ready(s, s.trades[id]) then [id] else [])
  {
    hide SellerUsed, BuyerUsed, RoundHalfEven;
  }

  lemma {:induction false} SettleAllRows(s: State, ids: seq<int>)
    requires NoRepeatedIds(ids) && forall i :: 0 <= i < |ids| ==> 0 <= ids[i] < |s.trades|
    ensures var r := SettleAll(s, ids);
      && s.allocations <= r.allocations
      && TradesOf(r.allocations) == TradesOf(s.allocations) + Served(s, s.trades, ids)
      && forall i :: |s.allocations| <= i < |r.allocations| ==> RowServes(s, s.trades, r.allocations, i)
    decreases |ids|
  {
    hide SettleOne, Ready, RowFor, RowServes;
    if |ids| == 0 {
      assert Served(s, s.trades, ids) == [];
      assert TradesOf(s.allocations) + [] == TradesOf(s.allocations);
    } else {
      var m, rest := SettleOne(s, ids[0]), ids[1..];
      SettleOneRow(s, ids[0]);
      forall i | 0 <= i < |rest| ensures rest[i] == ids[i + 1] && m.trades[rest[i]] == s.trades[rest[i]] {
        assert ids[0] != ids[i + 1];
      }
      SettleAllRows(m, rest);
      ServedSame(s, m, s.trades, m.trades, rest);
      var r, n := SettleAll(m, rest).allocations, |s.allocations|;
      assert Served(s, s.trades, ids) == (if Ready(s, s.trades[ids[0]]) then [ids[0]] else []) + Served(s, s.trades, rest);
      forall i | n <= i < |r| ensures RowServes(s, s.trades, r, i) {
        if i < |m.allocations| {
          assert r[i] == m.allocations[i] && r[..n] == s.allocations;
          RowServesFirst(s, r, ids[0]);
        } else {
          assert RowServes(m, m.trades, r, i);
          LaterRow(s, m, r, rest, i);
          RowServesSame(s, m, r, i);
        }
      }
    }
  }

  lemma RowServesFirst(s: State, rows: seq<Allocation>, id: int)
    requires 0 <= id < |s.trades| && Ready(s, s.trades[id]) && |s.allocations| < |rows|
    requires rows[..|s.allocations|] == s.allocations
    requires rows[|s.allocations|] == RowFor(s, s.allocations, s.trades, id)
    ensures RowServes(s, s.trades, rows, |s.allocations|)
  {
  }

  /** A row the rest of the list adds is of a trade of the rest. */
  lemma LaterRow(s: State, m: State, rows: seq<Allocation>, rest: seq<int>, i: nat)
    requires m.orders == s.orders && m.readings == s.readings && |m.trades| == |s.trades|
    requires forall k :: 0 <= k < |rest| ==> 0 <= rest[k] < |s.trades| && m.trades[rest[k]] == s.trades[rest[k]]
    requires TradesOf(rows) == TradesOf(m.allocations) + Served(m, m.trades, rest)
    requires |m.allocations| <= i < |rows|
    ensures 0 <= rows[i].trade < |s.trades| && m.trades[rows[i].trade] == s.trades[rows[i].trade]
  {
    var served := Served(m, m.trades, rest);
    assert TradesOf(rows)[i] == served[i - |m.allocations|];
    assert rows[i].trade in served;
  }

  lemma RowServesSame(s: State, m: State, rows: seq<Allocation>, i: nat)
    requires m.orders == s.orders && m.readings == s.readings && |m.trades| == |s.trades| && i < |rows|
    requires 0 <= rows[i].trade < |s.trades| && m.trades[rows[i].trade] == s.trades[rows[i].trade]
    requires RowServes(m, m.trades, rows, i)
    ensures RowServes(s, s.trades, rows, i)
  {
    hide SellerUsed, BuyerUsed;
  }

  /** Of an earlier delivery start, or of the same start and created earlier. */
  predicate Before(s: State, a: Allocation, b: Allocation) {
    && 0 <= a.trade < |s.trades| && 0 <= b.trade < |s.trades|
    && (s.trades[a.trade].start < s.trades[b.trade].start
        || (s.trades[a.trade].start == s.trades[b.trade].start && a.trade < b.trade))
  }

  /** A row takes the least of the trade's quantity and what the rows before it
      leave of the seller's export and of the buyer's import. */
  predicate RowIs(s: State, rows: seq<Allocation>, a: Allocation)
    requires 0 <= a.trade < |s.trades| && Ready(s, s.trades[a.trade])
  {
    var t := s.trades[a.trade];
    && a.seller == Key(s.orders[t.sell].site, t.start) && a.buyer == Key(s.orders[t.buy].site, t.start)
    && a.energy == Min(t.quantity,
         Min(Max(0, s.readings[a.seller].exportKwh.value - SellerUsed(rows, a.seller)),
             Max(0, s.readings[a.buyer].importKwh.value - BuyerUsed(rows, a.buyer))))
  }

  /** The rows a reconciliation adds are of exactly the due, measured trades, in
      order of delivery start and then creation, and each is given the least of
      its quantity and what both meters have left after the rows before it. */
  lemma FirstComeFirstServed(s: State)
    ensures var r, n := Reconcile(s).allocations, |s.allocations|;
      && s.allocations <= r
      && (forall t :: 0 <= t < |s.trades| ==>
            ((exists i :: n <= i < |r| && r[i].trade == t) <==>
              s.trades[t].status == Committed && s.trades[t].end <= s.clock && Ready(s, s.trades[t])))
      && (forall i :: n <= i < |r| ==> 0 <= r[i].trade < |s.trades| && Ready(s, s.trades[r[i].trade]))
      && (forall i, j :: n <= i < j < |r| ==> Before(s, r[i], r[j]))
      && (forall i :: n <= i < |r| ==> RowIs(s, r[..i], r[i]))
  {
    hide Ready, SellerUsed, BuyerUsed, RowServes, Reconcile, ServedOf, Before;
    var r, n := Reconcile(s).allocations, |s.allocations|;
    var served := ServedOf(s);
    ServedRows(s);
    forall t | 0 <= t < |s.trades|
      ensures (exists i :: n <= i < |r| && r[i].trade == t) <==>
        s.trades[t].status == Committed && s.trades[t].end <= s.clock && Ready(s, s.trades[t])
    {
      ServedByRow(r, n, served, t);
    }
    forall i | n <= i < |r|
      ensures 0 <= r[i].trade < |s.trades| && Ready(s, s.trades[r[i].trade]) && RowIs(s, r[..i], r[i])
    {
      RowServesIs(s, r, i);
    }
    forall i, j | n <= i < j < |r| ensures Before(s, r[i], r[j]) {
      BeforeByRow(s, r, n, served, i, j);
    }
  }

  /** The trades a reconciliation serves. */
  function ServedOf(s: State): seq<int> {
    Served(s, s.trades, Due(s.trades, |s.trades|, s.clock))
  }

  lemma ServedRows(s: State)
    ensures var r, n, served := Reconcile(s).allocations, |s.allocations|, ServedOf(s);
      && s.allocations <= r && TradesOf(r) == TradesOf(s.allocations) + served
      && (forall t :: 0 <= t < |s.trades| ==>
            (t in served <==> s.trades[t].status == Committed && s.trades[t].end <= s.clock && Ready(s, s.trades[t])))
      && (forall i :: n <= i < |r| ==> RowServes(s, s.trades, r, i))
      && (forall i :: 0 <= i < |served| ==> 0 <= served[i] < |s.trades|)
      && Chronological(s.trades, served)
  {
    hide SettleAll, Due, Ready, Chronological, Served, RowServes;
    var ids := Due(s.trades, |s.trades|, s.clock);
    DueExact(s.trades, |s.trades|, s.clock);
    SettleAllRows(s, ids);
    ServedInOrder(s, s.trades, ids);
  }

  lemma ServedByRow(r: seq<Allocation>, n: nat, served: seq<int>, t: int)
    requires n <= |r| && TradesOf(r) == TradesOf(r[..n]) + served
    ensures (exists i :: n <= i < |r| && r[i].trade == t) <==> t in served
  {
    assert |TradesOf(r)| == n + |served|;
    if t in served {
      var k :| 0 <= k < |served| && served[k] == t;
      assert TradesOf(r)[n + k] == t;
      assert r[n + k].trade == t;
    }
    if i :| n <= i < |r| && r[i].trade == t {
      assert TradesOf(r)[i] == served[i - n];
    }
  }

  lemma BeforeByRow(s: State, r: seq<Allocation>, n: nat, served: seq<int>, i: nat, j: nat)
    requires n <= i < j < |r| && TradesOf(r) == TradesOf(r[..n]) + served
    requires forall k :: 0 <= k < |served| ==> 0 <= served[k] < |s.trades|
    requires Chronological(s.trades, served)
    ensures Before(s, r[i], r[j])
  {
    assert TradesOf(r)[i] == served[i - n] && TradesOf(r)[j] == served[j - n];
    assert Earlier(s.trades, served[i - n], served[j - n]);
  }

  lemma RowServesIs(s: State, rows: seq<Allocation>, i: nat)
    requires i < |rows| && RowServes(s, s.trades, rows, i)
    ensures 0 <= rows[i].trade < |s.trades| && Ready(s, s.trades[rows[i].trade]) && RowIs(s, rows[..i], rows[i])
  {
    hide SellerUsed, BuyerUsed;
  }

  /** A reconciliation settles at its clock, and touches no order, reading or
      earlier settlement. */
  lemma SettledNow(s: State)
    ensures var r := Reconcile(s);
      && s.settlements <= r.settlements && r.clock == s.clock && r.orders == s.orders && r.readings == s.readings
      && forall i :: |s.settlements| <= i < |r.settlements| ==> r.settlements[i].at == s.clock
  {
    hide Due;
    SettleAllNow(s, Due(s.trades, |s.trades|, s.clock));
  }

  lemma {:induction false} SettleAllNow(s: State, ids: seq<int>)
    ensures var r := SettleAll(s, ids);
      && s.settlements <= r.settlements && r.clock == s.clock && r.orders == s.orders && r.readings == s.readings
      && forall i :: |s.settlements| <= i < |r.settlements| ==> r.settlements[i].at == s.clock
    decreases |ids|
  {
    hide SettleOne;
    if |ids| > 0 {
      SettleOneNow(s, ids[0]);
      SettleAllNow(SettleOne(s, ids[0]), ids[1..]);
    }
  }

  lemma SettleOneNow(s: State, id: int)
    ensures var r := SettleOne(s, id);
      && s.settlements <= r.settlements && r.clock == s.clock && r.orders == s.orders && r.readings == s.readings
      && forall i :: |s.settlements| <= i < |r.settlements| ==> r.settlements[i].at == s.clock
  {
    hide Measured, Delivered, RoundHalfEven;
  }
}
