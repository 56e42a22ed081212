/** What a clearing trades: every slot with eligible orders is matched, every
    proposal of it is traded or stopped by a rejection, and nothing else is. */
module Clearing {
  import opened Base
  import opened Orders
  import opened Ledger
  import opened Trading
  import Matching

  // ---- one slot ------------------------------------------------------------

  /** A trade of exactly this proposal, in this slot. */
  predicate Made(t: Trade, p: Proposal, start: int) {
    && t.buy == p.buy && t.sell == p.sell && t.quantity == p.quantity && t.clearing == p.price
    && t.start == start && t.end == start + INTERVAL
  }

  /** Priced by the quote, and committed exactly in a safe slot inside both limits. */
  predicate Decided(orders: seq<Order>, t: Trade, p: Proposal, safe: bool, env: Env) {
    && 0 <= p.buy < |orders| && 0 <= p.sell < |orders|
    && env.quote(p, orders[p.sell].site) == Some(t.price)
    && t.status == (if safe && orders[p.sell].limit <= t.price <= orders[p.buy].limit then Committed else Refused)
  }

  predicate Stopped(orders: seq<Order>, p: Proposal) {
    && 0 <= p.buy < |orders| && 0 <= p.sell < |orders|
    && (orders[p.buy].status == Rejected || orders[p.sell].status == Rejected)
  }

  predicate MadeSince(trades: seq<Trade>, from: nat, p: Proposal, start: int) {
    exists i :: from <= i < |trades| && Made(trades[i], p, start)
  }

  /** Every proposal was traded, or one of its orders ended rejected. */
  predicate Answered(r: Books, from: nat, ps: seq<Proposal>, start: int) {
    forall j :: 0 <= j < |ps| ==> Stopped(r.orders, ps[j]) || MadeSince(r.trades, from, ps[j], start)
  }

  predicate Explained(orders: seq<Order>, t: Trade, ps: seq<Proposal>, start: int, safe: bool, env: Env) {
    exists j :: 0 <= j < |ps| && Made(t, ps[j], start) && Decided(orders, t, ps[j], safe, env)
  }

  predicate AllExplained(orders: seq<Order>, trades: seq<Trade>, from: nat, ps: seq<Proposal>, start: int, safe: bool, env: Env) {
    forall i :: from <= i < |trades| ==> Explained(orders, trades[i], ps, start, safe, env)
  }

  /** Rejection is final, and earlier trades stay. */
  predicate Continues(b: Books, r: Books) {
    && |r.orders| == |b.orders| && b.trades <= r.trades
    && (forall k :: 0 <= k < |b.orders| && b.orders[k].status == Rejected ==> r.orders[k].status == Rejected)
    && SameTerms(b.orders, r.orders)
  }

  lemma ContinuesTransitive(a: Books, b: Books, c: Books)
    requires Continues(a, b) && Continues(b, c)
    ensures Continues(a, c)
  {
  }

  lemma AnsweredLater(b: Books, r: Books, from: nat, ps: seq<Proposal>, start: int)
    requires Continues(b, r) && Answered(b, from, ps, start)
    ensures Answered(r, from, ps, start)
  {
    hide Made;
    forall j | 0 <= j < |ps| ensures Stopped(r.orders, ps[j]) || MadeSince(r.trades, from, ps[j], start) {
      if MadeSince(b.trades, from, ps[j], start) {
        var i :| from <= i < |b.trades| && Made(b.trades[i], ps[j], start);
        assert r.trades[i] == b.trades[i];
      }
    }
  }

  lemma FillOneExact(b: Books, p: Proposal, start: int, safe: bool, env: Env)
    requires FillOne(b, p, start, safe, env).Ok? && Fitting(b.orders, p, start)
    ensures var r := FillOne(b, p, start, safe, env).value;
      && Continues(b, r) && |r.trades| <= |b.trades| + 1
      && (forall k :: 0 <= k < |b.orders| && k != p.buy && k != p.sell ==> r.orders[k] == b.orders[k])
      && (Stopped(r.orders, p) || MadeSince(r.trades, |b.trades|, p, start))
      && (forall i :: |b.trades| <= i < |r.trades| ==> Made(r.trades[i], p, start) && Decided(b.orders, r.trades[i], p, safe, env))
  {
    hide LastFill;
    var r := FillOne(b, p, start, safe, env).value;
    if |r.trades| > |b.trades| {
      assert Made(r.trades[|b.trades|], p, start);
    }
  }

  lemma {:induction false} FillAllExact(b: Books, ps: seq<Proposal>, start: int, safe: bool, env: Env)
    requires BooksOk(b) && Pending(b.orders, ps, start) && FillAll(b, ps, start, safe, env).Ok?
    ensures var r := FillAll(b, ps, start, safe, env).value;
      && Continues(b, r)
      && (forall k :: 0 <= k < |b.orders| && !References(ps, k) ==> r.orders[k] == b.orders[k])
      && Answered(r, |b.trades|, ps, start)
      && AllExplained(b.orders, r.trades, |b.trades|, ps, start, safe, env)
    decreases |ps|
  {
    hide FillOne, BooksOk, Pending, Touched, Made, Decided, Explained, Answered, AllExplained, References, Continues;
    if |ps| == 0 {
      NothingProposed(b, start, safe, env);
      assert ps == [];
    } else {
      var m := FillOne(b, ps[0], start, safe, env).value;
      var r := FillAll(m, ps[1..], start, safe, env).value;
      PendingHead(b.orders, ps, start);
      FillOneKeeps(b, ps, start, safe, env);
      FillOneExact(b, ps[0], start, safe, env);
      FillAllExact(m, ps[1..], start, safe, env);
      ContinuesTransitive(b, m, r);
      Combine(b, m, r, ps, start, safe, env);
    }
  }

  lemma NothingProposed(b: Books, start: int, safe: bool, env: Env)
    ensures Continues(b, b) && Answered(b, |b.trades|, [], start)
    ensures AllExplained(b.orders, b.trades, |b.trades|, [], start, safe, env)
  {
  }

  lemma PendingHead(orders: seq<Order>, ps: seq<Proposal>, start: int)
    requires Pending(orders, ps, start) && |ps| > 0
    ensures Fitting(orders, ps[0], start)
  {
    hide Touched;
  }

  lemma Combine(b: Books, m: Books, r: Books, ps: seq<Proposal>, start: int, safe: bool, env: Env)
    requires |ps| > 0 && Continues(b, m) && Continues(m, r)
    requires forall k :: 0 <= k < |b.orders| && k != ps[0].buy && k != ps[0].sell ==> m.orders[k] == b.orders[k]
    requires forall k :: 0 <= k < |m.orders| && !References(ps[1..], k) ==> r.orders[k] == m.orders[k]
    requires Stopped(m.orders, ps[0]) || MadeSince(m.trades, |b.trades|, ps[0], start)
    requires forall i :: |b.trades| <= i < |m.trades| ==>
      Made(m.trades[i], ps[0], start) && Decided(b.orders, m.trades[i], ps[0], safe, env)
    requires Answered(r, |m.trades|, ps[1..], start)
    requires AllExplained(m.orders, r.trades, |m.trades|, ps[1..], start, safe, env)
    ensures forall k :: 0 <= k < |b.orders| && !References(ps, k) ==> r.orders[k] == b.orders[k]
    ensures Answered(r, |b.trades|, ps, start)
    ensures AllExplained(b.orders, r.trades, |b.trades|, ps, start, safe, env)
  {
    hide Made, Decided;
    forall k | 0 <= k < |b.orders| && !References(ps, k) ensures r.orders[k] == b.orders[k] {
      assert ps[0].buy != k && ps[0].sell != k;
      ReferencedByTail(ps, k);
    }
    forall j | 0 <= j < |ps| ensures Stopped(r.orders, ps[j]) || MadeSince(r.trades, |b.trades|, ps[j], start) {
      if j == 0 {
        if MadeSince(m.trades, |b.trades|, ps[0], start) {
          var i :| |b.trades| <= i < |m.trades| && Made(m.trades[i], ps[0], start);
          assert r.trades[i] == m.trades[i];
        }
      } else {
        assert ps[j] == ps[1..][j - 1];
        if MadeSince(r.trades, |m.trades|, ps[j], start) {
          var i :| |m.trades| <= i < |r.trades| && Made(r.trades[i], ps[j], start);
        }
      }
    }
    forall i | |b.trades| <= i < |r.trades| ensures Explained(b.orders, r.trades[i], ps, start, safe, env) {
      if i < |m.trades| {
        assert r.trades[i] == m.trades[i];
      } else {
        assert Explained(m.orders, r.trades[i], ps[1..], start, safe, env);
        var j :| 0 <= j < |ps[1..]| && Made(r.trades[i], ps[1..][j], start) && Decided(m.orders, r.trades[i], ps[1..][j], safe, env);
        assert ps[1..][j] == ps[j + 1];
        SameDecision(b.orders, m.orders, r.trades[i], ps[j + 1], safe, env);
      }
    }
  }

  lemma ReferencedByTail(ps: seq<Proposal>, k: OrderId)
    requires |ps| > 0
    ensures References(ps[1..], k) ==> References(ps, k)
  {
    if References(ps[1..], k) {
      var j :| 0 <= j < |ps[1..]| && (ps[1..][j].buy == k || ps[1..][j].sell == k);
      assert ps[j + 1] == ps[1..][j];
    }
  }

  lemma SameDecision(a: seq<Order>, b: seq<Order>, t: Trade, p: Proposal, safe: bool, env: Env)
    requires SameTerms(a, b) && |a| == |b| && Decided(b, t, p, safe, env)
    ensures Decided(a, t, p, safe, env)
  {
  }

  // ---- every slot ----------------------------------------------------------

  /** What the auction proposes for the listed orders of one slot. */
  function Proposed(orders: seq<Order>, ids: seq<OrderId>, start: int, cap: Option<int>): seq<Proposal>
    requires forall i :: 0 <= i < |ids| ==> 0 <= ids[i] < |orders|
  {
    Matching.Match(BookOf(orders, Group(orders, ids, start), cap))
  }

  predicate SafeSlot(start: int, env: Env) {
    env.grid(start) == Some(true)
  }

  lemma ClearSlotExact(b: Books, ids: seq<OrderId>, start: int, cap: Option<int>, env: Env)
    requires BooksOk(b) && Clearable(b.orders, ids) && ClearSlot(b, ids, start, cap, env).Ok?
    ensures var r := ClearSlot(b, ids, start, cap, env).value;
      && Continues(b, r)
      && (forall k :: 0 <= k < |b.orders| && b.orders[k].start != start ==> r.orders[k] == b.orders[k])
      && Answered(r, |b.trades|, Proposed(b.orders, ids, start, cap), start)
      && AllExplained(b.orders, r.trades, |b.trades|, Proposed(b.orders, ids, start, cap), start, SafeSlot(start, env), env)
  {
    hide Matching.Match, Group, BookOf, FillAll, Answered, AllExplained, Continues, BooksOk;
    BooksHaveOrders(b);
    SlotFits(b.orders, ids, start, cap);
    var ps := Proposed(b.orders, ids, start, cap);
    NothingProposed(b, start, SafeSlot(start, env), env);
    if |ps| > 0 {
      FillAllExact(b, ps, start, env.grid(start).value, env);
      forall k | 0 <= k < |b.orders| && b.orders[k].start != start ensures !References(ps, k) {
        ReferencedStarts(b.orders, ps, start, k);
      }
    } else {
      assert ps == [];
    }
  }

  lemma BooksHaveOrders(b: Books)
    requires BooksOk(b)
    ensures OrdersOk(b.orders)
  {
    hide OrdersOk, TradesOk, MatchedOk, FillsNumbered;
  }

  lemma ReferencedStarts(orders: seq<Order>, ps: seq<Proposal>, start: int, k: int)
    requires Pending(orders, ps, start)
    ensures References(ps, k) ==> 0 <= k < |orders| && orders[k].start == start
  {
    hide Touched;
    if References(ps, k) {
      var j :| 0 <= j < |ps| && (ps[j].buy == k || ps[j].sell == k);
      assert Fitting(orders, ps[j], start);
    }
  }

  /** A slot's book does not change while other slots are cleared. */
  lemma SlotUntouched(a: seq<Order>, b: seq<Order>, ids: seq<OrderId>, start: int, cap: Option<int>)
    requires |a| == |b| && SameTerms(a, b) && forall i :: 0 <= i < |ids| ==> 0 <= ids[i] < |a|
    requires forall k :: 0 <= k < |a| && a[k].start == start ==> b[k] == a[k]
    ensures Proposed(b, ids, start, cap) == Proposed(a, ids, start, cap)
  {
    hide Matching.Match;
    SameGroup(a, b, ids, start);
    var group := Group(a, ids, start);
    SameEntries(a, b, group, cap, Buy);
    SameEntries(a, b, group, cap, Sell);
  }

  lemma {:induction false} SameGroup(a: seq<Order>, b: seq<Order>, ids: seq<OrderId>, start: int)
    requires |a| == |b| && SameTerms(a, b) && forall i :: 0 <= i < |ids| ==> 0 <= ids[i] < |a|
    ensures Group(a, ids, start) == Group(b, ids, start)
  {
    if |ids| > 0 {
      SameGroup(a, b, ids[..|ids| - 1], start);
    }
  }

  lemma {:induction false} SameEntries(a: seq<Order>, b: seq<Order>, ids: seq<OrderId>, cap: Option<int>, side: Side)
    requires |a| == |b| && forall i :: 0 <= i < |ids| ==> 0 <= ids[i] < |a| && a[ids[i]] == b[ids[i]]
    ensures Entries(a, ids, cap, side) == Entries(b, ids, cap, side)
  {
    if |ids| > 0 {
      SameEntries(a, b, ids[..|ids| - 1], cap, side);
    }
  }

  /** One slot's part of a clearing. */
  predicate SlotCleared(b: Books, r: Books, ids: seq<OrderId>, start: int, cap: Option<int>, env: Env)
    requires forall i :: 0 <= i < |ids| ==> 0 <= ids[i] < |b.orders|
  {
    var ps := Proposed(b.orders, ids, start, cap);
    && Answered(r, |b.trades|, ps, start)
    && forall i :: |b.trades| <= i < |r.trades| && r.trades[i].start == start ==>
      Explained(b.orders, r.trades[i], ps, start, SafeSlot(start, env), env)
  }

  lemma {:induction false} ClearSlotsExact(b: Books, ids: seq<OrderId>, starts: seq<int>, cap: Option<int>, env: Env)
    requires BooksOk(b) && Clearable(b.orders, ids) && Increasing(starts)
    requires ClearSlots(b, ids, starts, cap, env).Ok?
    ensures var r := ClearSlots(b, ids, starts, cap, env).value;
      && Continues(b, r)
      && (forall k :: 0 <= k < |b.orders| && b.orders[k].start !in starts ==> r.orders[k] == b.orders[k])
      && (forall i :: |b.trades| <= i < |r.trades| ==> r.trades[i].start in starts)
      && (forall start :: start in starts ==> SlotCleared(b, r, ids, start, cap, env))
    decreases |starts|
  {
    hide ClearSlot, BooksOk, Answered, Explained, Proposed, SlotCleared, AllExplained, Continues;
    if |starts| == 0 {
      NothingProposed(b, 0, false, env);
    } else {
      var first, rest := starts[0], starts[1..];
      ClearSlotKeeps(b, ids, first, cap, env);
      ClearSlotExact(b, ids, first, cap, env);
      var m := ClearSlot(b, ids, first, cap, env).value;
      ClearSlotsExact(m, ids, rest, cap, env);
      var r := ClearSlots(m, ids, rest, cap, env).value;
      ContinuesTransitive(b, m, r);
      assert starts == [first] + rest;
      forall i | 0 <= i < |rest| ensures rest[i] != first { assert rest[i] == starts[i + 1]; }
      FirstSlot(b, m, r, ids, first, rest, cap, env);
      forall start | start in rest ensures SlotCleared(b, r, ids, start, cap, env) {
        LaterSlot(b, m, r, ids, first, start, cap, env);
      }
      StartsOfTrades(b, m, r, ids, first, rest, cap, env);
    }
  }

  lemma StartsOfTrades(b: Books, m: Books, r: Books, ids: seq<OrderId>, first: int, rest: seq<int>, cap: Option<int>, env: Env)
    requires Continues(b, m) && Continues(m, r) && forall i :: 0 <= i < |ids| ==> 0 <= ids[i] < |b.orders|
    requires forall k :: 0 <= k < |b.orders| && b.orders[k].start != first ==> m.orders[k] == b.orders[k]
    requires forall k :: 0 <= k < |m.orders| && m.orders[k].start !in rest ==> r.orders[k] == m.orders[k]
    requires AllExplained(b.orders, m.trades, |b.trades|, Proposed(b.orders, ids, first, cap), first, SafeSlot(first, env), env)
    requires forall i :: |m.trades| <= i < |r.trades| ==> r.trades[i].start in rest
    ensures forall i :: |b.trades| <= i < |r.trades| ==> r.trades[i].start in [first] + rest
    ensures forall k :: 0 <= k < |b.orders| && b.orders[k].start !in [first] + rest ==> r.orders[k] == b.orders[k]
  {
    hide Proposed, Decided;
    forall i | |b.trades| <= i < |r.trades| ensures r.trades[i].start in [first] + rest {
      if i < |m.trades| {
        assert Explained(b.orders, m.trades[i], Proposed(b.orders, ids, first, cap), first, SafeSlot(first, env), env);
        assert r.trades[i] == m.trades[i];
      }
    }
  }

  lemma FirstSlot(b: Books, m: Books, r: Books, ids: seq<OrderId>, first: int, rest: seq<int>, cap: Option<int>, env: Env)
    requires Continues(b, m) && Continues(m, r) && forall i :: 0 <= i < |ids| ==> 0 <= ids[i] < |b.orders|
    requires Answered(m, |b.trades|, Proposed(b.orders, ids, first, cap), first)
    requires AllExplained(b.orders, m.trades, |b.trades|, Proposed(b.orders, ids, first, cap), first, SafeSlot(first, env), env)
    requires first !in rest && forall i :: |m.trades| <= i < |r.trades| ==> r.trades[i].start in rest
    ensures SlotCleared(b, r, ids, first, cap, env)
  {
    hide Proposed, Explained, Answered;
    var ps := Proposed(b.orders, ids, first, cap);
    AnsweredLater(m, r, |b.trades|, ps, first);
    forall i | |b.trades| <= i < |r.trades| && r.trades[i].start == first
      ensures Explained(b.orders, r.trades[i], ps, first, SafeSlot(first, env), env)
    {
      assert i < |m.trades| && r.trades[i] == m.trades[i];
    }
  }

  lemma TradesOfSlot(b: Books, m: Books, ps: seq<Proposal>, start: int, safe: bool, env: Env)
    requires AllExplained(b.orders, m.trades, |b.trades|, ps, start, safe, env)
    ensures forall i :: |b.trades| <= i < |m.trades| ==> m.trades[i].start == start
  {
    hide Decided;
    forall i | |b.trades| <= i < |m.trades| ensures m.trades[i].start == start {
      assert Explained(b.orders, m.trades[i], ps, start, safe, env);
    }
  }

  lemma LaterSlot(b: Books, m: Books, r: Books, ids: seq<OrderId>, first: int, start: int, cap: Option<int>, env: Env)
    requires Continues(b, m) && Continues(m, r) && forall i :: 0 <= i < |ids| ==> 0 <= ids[i] < |b.orders|
    requires start != first
    requires forall k :: 0 <= k < |b.orders| && b.orders[k].start != first ==> m.orders[k] == b.orders[k]
    requires AllExplained(b.orders, m.trades, |b.trades|, Proposed(b.orders, ids, first, cap), first, SafeSlot(first, env), env)
    requires SlotCleared(m, r, ids, start, cap, env)
    ensures SlotCleared(b, r, ids, start, cap, env)
  {
    hide Proposed, Decided;
    var ps := Proposed(b.orders, ids, start, cap);
    SlotUntouched(b.orders, m.orders, ids, start, cap);
    TradesOfSlot(b, m, Proposed(b.orders, ids, first, cap), first, SafeSlot(first, env), env);
    assert forall i :: |b.trades| <= i < |m.trades| ==> r.trades[i] == m.trades[i];
    forall j | 0 <= j < |ps| ensures Stopped(r.orders, ps[j]) || MadeSince(r.trades, |b.trades|, ps[j], start) {
      if MadeSince(r.trades, |m.trades|, ps[j], start) {
        var i :| |m.trades| <= i < |r.trades| && Made(r.trades[i], ps[j], start);
      }
    }
    forall i | |b.trades| <= i < |r.trades| && r.trades[i].start == start
      ensures Explained(b.orders, r.trades[i], ps, start, SafeSlot(start, env), env)
    {
      assert i >= |m.trades|;
      var j :| 0 <= j < |ps| && Made(r.trades[i], ps[j], start) && Decided(m.orders, r.trades[i], ps[j], SafeSlot(start, env), env);
      SameDecision(b.orders, m.orders, r.trades[i], ps[j], SafeSlot(start, env), env);
    }
  }

  // ---- the whole clearing --------------------------------------------------

  /** The orders a clearing may use in one slot, in order of creation: open or
      partly filled, starting then and after the clock, and among those asked for. */
  ghost predicate IsSlot(s: State, only: Option<set<OrderId>>, start: int, ids: seq<OrderId>) {
    && Increasing(ids)
    && forall id: OrderId :: id in ids <==>
      (0 <= id < |s.orders| && (s.orders[id].status == Open || s.orders[id].status == PartiallyFilled)
       && s.orders[id].start == start && start > s.clock && (only.Some? ==> id in only.value))
  }

  lemma {:induction false} OpenIdsIncrease(orders: seq<Order>, clock: int, only: Option<set<OrderId>>)
    ensures Increasing(OpenIds(orders, clock, only))
    ensures forall i :: 0 <= i < |OpenIds(orders, clock, only)| ==> OpenIds(orders, clock, only)[i] < |orders|
  {
    if |orders| > 0 {
      OpenIdsIncrease(orders[..|orders| - 1], clock, only);
    }
  }

  lemma {:induction false} GroupExact(orders: seq<Order>, ids: seq<OrderId>, start: int)
    requires Increasing(ids) && forall i :: 0 <= i < |ids| ==> 0 <= ids[i] < |orders|
    ensures Increasing(Group(orders, ids, start))
    ensures forall id :: id in Group(orders, ids, start) <==> id in ids && orders[id].start == start
  {
    if |ids| > 0 {
      var n := |ids| - 1;
      GroupExact(orders, ids[..n], start);
      var front := Group(orders, ids[..n], start);
      assert ids == ids[..n] + [ids[n]];
      forall i | 0 <= i < |front| ensures front[i] < ids[n] {
        assert front[i] in ids[..n];
      }
    }
  }

  lemma {:induction false} OneIncreasing(a: seq<int>, b: seq<int>)
    requires Increasing(a) && Increasing(b) && forall x :: x in a <==> x in b
    ensures a == b
    decreases |a|
  {
    forall k | 0 <= k < |b| ensures b[k] in a { assert b[k] in b; }
    forall k | 0 <= k < |a| ensures a[k] in b { assert a[k] in a; }
    if |b| > 0 {
      LastIsGreatest(a, b[|b| - 1]);
    }
    if |a| > 0 {
      var n, m := |a| - 1, |b| - 1;
      LastIsGreatest(b, a[n]);
      FrontOfIncreasing(a);
      FrontOfIncreasing(b);
      OneIncreasing(a[..n], b[..m]);
      assert a == a[..n] + [a[n]] && b == b[..m] + [b[m]];
    }
  }

  lemma LastIsGreatest(a: seq<int>, x: int)
    requires Increasing(a) && x in a
    ensures |a| > 0 && x <= a[|a| - 1]
  {
    var i :| 0 <= i < |a| && a[i] == x;
  }

  lemma FrontOfIncreasing(a: seq<int>)
    requires Increasing(a) && |a| > 0
    ensures forall x :: x in a[..|a| - 1] <==> x in a && x != a[|a| - 1]
  {
    assert a == a[..|a| - 1] + [a[|a| - 1]];
  }

  lemma SlotIsGroup(s: State, only: Option<set<OrderId>>, start: int)
    ensures IsSlot(s, only, start, Group(s.orders, OpenIds(s.orders, s.clock, only), start))
  {
    hide Group, OpenIds;
    var ids := OpenIds(s.orders, s.clock, only);
    OpenIdsIncrease(s.orders, s.clock, only);
    GroupExact(s.orders, ids, start);
    forall id: OrderId
      ensures id in ids <==> 0 <= id < |s.orders| && Eligible(s.orders[id], id, s.clock, only)
    {
      if id in ids {
        var i :| 0 <= i < |ids| && ids[i] == id;
      }
    }
  }

  /** After a successful clearing every slot has been matched: each proposal of the
      auction on its eligible orders is a new trade of that slot, or one of the two
      orders ended rejected; each new trade of the slot is one of those proposals,
      priced by its quote and committed exactly in a safe slot inside both limits;
      and a slot whose book matches nothing has no new trade. */
  lemma ClearsEverySlot(s: State, only: Option<set<OrderId>>, cap: Option<int>, env: Env, start: int, ids: seq<OrderId>)
    requires TradingOk(s) && Clear(s, only, cap, env).Ok? && IsSlot(s, only, start, ids)
    ensures forall i :: 0 <= i < |ids| ==> 0 <= ids[i] < |s.orders|
    ensures var r, n := Clear(s, only, cap, env).value, |s.trades|;
      var ps := Matching.Match(BookOf(s.orders, ids, cap));
      && s.trades <= r.trades
      && (forall j :: 0 <= j < |ps| ==> Stopped(r.orders, ps[j]) || MadeSince(r.trades, n, ps[j], start))
      && (forall i :: n <= i < |r.trades| && r.trades[i].start == start ==>
            Explained(s.orders, r.trades[i], ps, start, SafeSlot(start, env), env))
      && (|ps| == 0 ==> forall i :: n <= i < |r.trades| ==> r.trades[i].start != start)
  {
    hide TradingOk, ClearSlots, OpenIds, Starts, Group, Matching.Match, BookOf, Made, Decided, BooksOk;
    var open := OpenIds(s.orders, s.clock, only);
    var starts := Starts(s.orders, open);
    var b := Books(s.orders, s.trades);
    ClearReady(s, only);
    ClearSlotsExact(b, open, starts, cap, env);
    SlotIsGroup(s, only, start);
    OneIncreasing(ids, Group(s.orders, open, start));
    var r := ClearSlots(b, open, starts, cap, env).value;
    forall i | 0 <= i < |ids| ensures 0 <= ids[i] < |s.orders| { assert ids[i] in ids; }
    if |ids| > 0 {
      assert ids[0] in ids;
      GroupedStarts(s, only, start, ids[0]);
    }
    if start in starts {
      assert SlotCleared(b, r, open, start, cap, env);
    } else {
      assert ids == [];
      EmptyMatch(s.orders, cap);
    }
  }

  lemma ClearReady(s: State, only: Option<set<OrderId>>)
    requires TradingOk(s)
    ensures BooksOk(Books(s.orders, s.trades)) && Clearable(s.orders, OpenIds(s.orders, s.clock, only))
  {
    hide Reserved, OrdersOk, TradesOk, MatchedOk, FillsNumbered, OpenIds;
  }

  lemma GroupedStarts(s: State, only: Option<set<OrderId>>, start: int, id: OrderId)
    requires id in Group(s.orders, OpenIds(s.orders, s.clock, only), start)
    ensures start in Starts(s.orders, OpenIds(s.orders, s.clock, only))
  {
    hide OpenIds, Starts;
    var ids := OpenIds(s.orders, s.clock, only);
    OpenIdsIncrease(s.orders, s.clock, only);
    GroupExact(s.orders, ids, start);
    var i :| 0 <= i < |ids| && ids[i] == id;
  }

  lemma EmptyMatch(orders: seq<Order>, cap: Option<int>)
    ensures Matching.Match(BookOf(orders, [], cap)) == []
  {
    assert Entries(orders, [], cap, Buy) == [] && Entries(orders, [], cap, Sell) == [];
  }

  /** And every slot is one the statement speaks of. */
  lemma EverySlotIsListed(s: State, only: Option<set<OrderId>>, start: int)
    ensures exists ids :: IsSlot(s, only, start, ids)
  {
    SlotIsGroup(s, only, start);
  }

  // ---- what a new trade is -------------------------------------------------

  /** A trade both orders could want: a buy and a sell of the slot by different
      households, open to trade when the clearing began, at prices that cross, for
      no more than either had left or the cap, at the middle of the two limits, and
      committed only at a price inside both. */
  predicate Bargained(s: State, t: Trade, cap: Option<int>) {
    && 0 <= t.buy < |s.orders| && 0 <= t.sell < |s.orders|
    && var buy, sell := s.orders[t.buy], s.orders[t.sell];
    && buy.side == Buy && sell.side == Sell && buy.user != sell.user
    && (buy.status == Open || buy.status == PartiallyFilled) && (sell.status == Open || sell.status == PartiallyFilled)
    && buy.start == t.start == sell.start && t.start > s.clock && t.end == t.start + 900_000_000
    && sell.limit <= buy.limit && 0 <= 2 * t.clearing - (buy.limit + sell.limit) <= 1
    && 0 < t.quantity <= buy.energy - buy.matched && t.quantity <= sell.energy - sell.matched
    && (cap.Some? ==> t.quantity <= cap.value)
    && (t.status == Committed ==> sell.limit <= t.price <= buy.limit)
    && (t.status == Committed || t.status == Refused)
  }

  lemma NewTradesAreBargains(s: State, only: Option<set<OrderId>>, cap: Option<int>, env: Env, i: nat)
    requires TradingOk(s) && Clear(s, only, cap, env).Ok?
    requires |s.trades| <= i < |Clear(s, only, cap, env).value.trades|
    ensures Bargained(s, Clear(s, only, cap, env).value.trades[i], cap)
  {
    hide TradingOk, Clear, Matching.Match, BookOf, Made, Decided, Group, OpenIds, IsSlot;
    var t := Clear(s, only, cap, env).value.trades[i];
    var ids := Group(s.orders, OpenIds(s.orders, s.clock, only), t.start);
    SlotIsGroup(s, only, t.start);
    ClearsEverySlot(s, only, cap, env, t.start, ids);
    var ps := Matching.Match(BookOf(s.orders, ids, cap));
    assert Explained(s.orders, t, ps, t.start, SafeSlot(t.start, env), env);
    var j :| 0 <= j < |ps| && Made(t, ps[j], t.start) && Decided(s.orders, t, ps[j], SafeSlot(t.start, env), env);
    ProposalIsBargain(s, only, t.start, ids, cap, j);
    MadeBargain(s, t, ps[j], SafeSlot(t.start, env), env, cap);
  }

  predicate FairProposal(s: State, p: Proposal, start: int, cap: Option<int>) {
    && 0 <= p.buy < |s.orders| && 0 <= p.sell < |s.orders|
    && var buy, sell := s.orders[p.buy], s.orders[p.sell];
    && buy.side == Buy && sell.side == Sell && buy.user != sell.user
    && (buy.status == Open || buy.status == PartiallyFilled) && (sell.status == Open || sell.status == PartiallyFilled)
    && buy.start == start == sell.start && start > s.clock
    && sell.limit <= buy.limit && 0 <= 2 * p.price - (buy.limit + sell.limit) <= 1
    && 0 < p.quantity <= buy.energy - buy.matched && p.quantity <= sell.energy - sell.matched
    && (cap.Some? ==> p.quantity <= cap.value)
  }

  lemma MadeBargain(s: State, t: Trade, p: Proposal, safe: bool, env: Env, cap: Option<int>)
    requires FairProposal(s, p, t.start, cap) && Made(t, p, t.start) && Decided(s.orders, t, p, safe, env)
    ensures Bargained(s, t, cap)
  {
  }

  lemma ProposalIsBargain(s: State, only: Option<set<OrderId>>, start: int, ids: seq<OrderId>, cap: Option<int>, j: nat)
    requires IsSlot(s, only, start, ids) && forall i :: 0 <= i < |ids| ==> 0 <= ids[i] < |s.orders|
    requires j < |Matching.Match(BookOf(s.orders, ids, cap))|
    ensures FairProposal(s, Matching.Match(BookOf(s.orders, ids, cap))[j], start, cap)
  {
    hide Matching.Match, Entries, Touched;
    BookOfWellFormed(s.orders, ids, cap);
    var book := BookOf(s.orders, ids, cap);
    var ps := Matching.Match(book);
    Matching.MatchIsSound(book, j);
    var b, o :| b in book.buys && o in book.sells && b.remaining > 0 && o.remaining > 0 && Matching.Agreed(ps[j], b, o);
    Matching.MatchWithinRemaining(book, b);
    Matching.MatchWithinRemaining(book, o);
    NoMoreThanTouched(book, j);
    assert b.id in ids && o.id in ids;
  }

  lemma NoMoreThanTouched(book: Book, j: nat)
    requires WellFormedBook(book) && j < |Matching.Match(book)|
    ensures var ps := Matching.Match(book);
      ps[j].quantity <= Touched(ps, ps[j].buy) && ps[j].quantity <= Touched(ps, ps[j].sell)
  {
    hide Matching.Match, Matching.Agreed, Touched;
    var ps := Matching.Match(book);
    forall k | 0 <= k < |ps| ensures ps[k].quantity > 0 { PositiveProposal(book, k); }
    OneOfTouched(ps, j, ps[j].buy);
    OneOfTouched(ps, j, ps[j].sell);
  }

  lemma PositiveProposal(book: Book, k: nat)
    requires WellFormedBook(book) && k < |Matching.Match(book)|
    ensures Matching.Match(book)[k].quantity > 0
  {
    hide Matching.Match;
    Matching.MatchIsSound(book, k);
  }

  lemma OneOfTouched(ps: seq<Proposal>, j: nat, id: OrderId)
    requires j < |ps| && (ps[j].buy == id || ps[j].sell == id)
    requires forall k :: 0 <= k < |ps| ==> ps[k].quantity > 0
    ensures ps[j].quantity <= Touched(ps, id)
  {
    SumMember(Shares(ps, id), j);
  }
}
