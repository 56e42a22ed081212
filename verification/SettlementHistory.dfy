/** Settlements that append and supersede, behind any calculator, and the
    standard calculator that satisfies the boundary. Energy in 0.0001 kWh, money
    in paise. */
module SettlementHistory {
  import opened Base

  datatype Comparison = Comparison(
    committed: int, actual: Option<int>, deviation: Option<int>, within: bool, balancing: int)

  datatype Calculation = Calculation(
    trade: int, buyer: int, seller: int, kwh: int, gross: int, fee: int, charge: int, debit: int, credit: int,
    comparison: Comparison, complete: bool, versioned: bool)

  datatype Status = Settled | Superseded

  datatype Row = Row(result: Calculation, status: Status, at: int)

  datatype Reconciliation = Reconciliation(trade: int, comparison: Comparison, complete: bool)

  datatype Store = Store(rows: seq<Row>, reconciliations: seq<Reconciliation>)

  datatype SettlementError = CalculatorFailed | NotReconcilable | Unbalanced | Negative | Unreconciled | Unversioned | ConstraintViolation

  /** A request to settle or to reconcile, with what the calculator answers. */
  datatype Call = Settle(trade: int, result: Option<Calculation>, at: int) | Reconcile(trade: int, result: Option<Calculation>)

  /** `_validate_result`, in the order of its checks. */
  function ResultError(c: Calculation): Option<SettlementError> {
    if c.debit != c.credit + c.fee + c.charge then Some(Unbalanced)
    else if c.kwh < 0 || c.gross < 0 then Some(Negative)
    else if !c.complete then Some(Unreconciled)
    else if !c.versioned then Some(Unversioned)
    else None
  }

  /** The check constraints of the two tables. */
  predicate ComparisonFits(c: Comparison) {
    && c.committed > 0 && c.balancing >= 0 && (c.actual.Some? ==> c.actual.value >= 0)
    && (c.actual.Some? <==> c.deviation.Some?) && (c.actual.None? ==> !c.within)
  }

  predicate RowFits(c: Calculation) {
    c.debit == c.credit + c.fee + c.charge && c.kwh >= 0 && c.gross >= 0 && c.fee >= 0 && c.charge >= 0 && c.debit >= 0
  }

  function Supersede(rows: seq<Row>, trade: int): (r: seq<Row>)
    ensures |r| == |rows|
  {
    seq(|rows|, i requires 0 <= i < |rows| =>
      if rows[i].result.trade == trade && rows[i].status == Settled then rows[i].(status := Superseded) else rows[i])
  }

  /** The store after one call, and why it was refused, if it was. */
  function Next(s: Store, call: Call): (Store, Option<SettlementError>) {
    if call.result.None? then (s, Some(CalculatorFailed))
    else
      var c := call.result.value;
      if !ComparisonFits(c.comparison) then (s, Some(ConstraintViolation))
      else
        var noted := s.(reconciliations := s.reconciliations + [Reconciliation(call.trade, c.comparison, c.complete)]);
        if call.Reconcile? then (noted, None)
        else if !c.complete then (noted, Some(NotReconcilable))
        else if ResultError(c).Some? then (s, ResultError(c))
        else if !RowFits(c) then (s, Some(ConstraintViolation))
        else (noted.(rows := Supersede(s.rows, call.trade) + [Row(c, Settled, call.at)]), None)
  }

  function Run(s: Store, calls: seq<Call>): Store
    decreases |calls|
  {
    if |calls| == 0 then s else Run(Next(s, calls[0]).0, calls[1..])
  }

  // ---- what every run keeps ------------------------------------------------

  /** A standing settlement is the last one appended for its trade, and the last
      one appended for a trade stands. */
  predicate LastStands(rows: seq<Row>) {
    forall i :: 0 <= i < |rows| ==>
      (rows[i].status == Settled <==> forall j :: i < j < |rows| ==> rows[j].result.trade != rows[i].result.trade)
  }

  predicate Inv(s: Store) {
    LastStands(s.rows) && forall i :: 0 <= i < |s.rows| ==> RowFits(s.rows[i].result)
  }

  predicate Standing(rows: seq<Row>, trade: int) {
    exists i :: 0 <= i < |rows| && rows[i].result.trade == trade && rows[i].status == Settled
  }

  predicate AtMostOneStands(rows: seq<Row>) {
    forall i, j :: 0 <= i < j < |rows| && rows[i].status == Settled && rows[j].status == Settled ==>
      rows[i].result.trade != rows[j].result.trade
  }

  /** The calculator answers about the trade it was asked about. */
  predicate Honest(call: Call) {
    call.Settle? && call.result.Some? ==> call.result.value.trade == call.trade
  }

  lemma NextKeeps(s: Store, call: Call)
    requires Inv(s) && Honest(call)
    ensures Inv(Next(s, call).0)
  {
    var next := Next(s, call).0;
    if next.rows != s.rows {
      var n := |s.rows|;
      forall i | 0 <= i < |next.rows|
        ensures next.rows[i].status == Settled <==>
          forall j :: i < j < |next.rows| ==> next.rows[j].result.trade != next.rows[i].result.trade
      {
        if i < n {
          assert next.rows[i].result.trade == s.rows[i].result.trade;
          if next.rows[i].status == Settled {
            assert s.rows[i].status == Settled && s.rows[i].result.trade != call.trade;
          } else if s.rows[i].status == Settled {
            assert next.rows[n].result.trade == next.rows[i].result.trade;
          } else {
            var j :| i < j < n && s.rows[j].result.trade == s.rows[i].result.trade;
            assert next.rows[j].result.trade == next.rows[i].result.trade;
          }
        }
      }
    }
  }

  /** Earlier rows keep every amount; only a status may go from settled to
      superseded, never back. */
  predicate HistoryKept(before: seq<Row>, after: seq<Row>) {
    |before| <= |after| && forall i :: 0 <= i < |before| ==>
      (after[i].result == before[i].result && after[i].at == before[i].at
       && (before[i].status == Superseded ==> after[i].status == Superseded))
  }

  /** One standing settlement per trade at most, and it is the last appended,
      over any run of settled, refused and merely reconciled calls. */
  lemma {:induction false} RunKeeps(s: Store, calls: seq<Call>)
    requires Inv(s) && forall i :: 0 <= i < |calls| ==> Honest(calls[i])
    ensures Inv(Run(s, calls)) && AtMostOneStands(Run(s, calls).rows)
    ensures HistoryKept(s.rows, Run(s, calls).rows)
    decreases |calls|
  {
    if |calls| > 0 {
      NextKeeps(s, calls[0]);
      RunKeeps(Next(s, calls[0]).0, calls[1..]);
    }
  }

  /** `active_for_trade` orders by the moment of settlement; in every reachable
      store its answer is the row appended last, whatever the moments say. */
  function LastFor(rows: seq<Row>, trade: int): Option<Row> {
    if |rows| == 0 then None
    else if rows[|rows| - 1].result.trade == trade then Some(rows[|rows| - 1])
    else LastFor(rows[..|rows| - 1], trade)
  }

  predicate IsActive(rows: seq<Row>, trade: int, row: Row) {
    && row in rows && row.result.trade == trade && row.status != Superseded
    && forall i :: 0 <= i < |rows| && rows[i].result.trade == trade && rows[i].status != Superseded ==> rows[i].at <= row.at
  }

  lemma ActiveIsLast(s: Store, calls: seq<Call>, trade: int, row: Row)
    requires Inv(s) && forall i :: 0 <= i < |calls| ==> Honest(calls[i])
    ensures IsActive(Run(s, calls).rows, trade, row) <==> LastFor(Run(s, calls).rows, trade) == Some(row)
  {
    hide LastStands, IsActive, LastFor;
    RunKeeps(s, calls);
    ActiveIsLastIn(Run(s, calls).rows, trade, row);
  }

  lemma ActiveIsLastIn(rows: seq<Row>, trade: int, row: Row)
    requires LastStands(rows)
    ensures IsActive(rows, trade, row) <==> LastFor(rows, trade) == Some(row)
  {
    hide LastFor, LastStands;
    LastForFacts(rows, trade);
    if LastFor(rows, trade).Some? {
      var i :| 0 <= i < |rows| && IsLast(rows, trade, i) && rows[i] == LastFor(rows, trade).value;
      assert rows[i].status == Settled by { SettledIffLast(rows, i); }
      forall j | 0 <= j < |rows| && rows[j].result.trade == trade && rows[j].status != Superseded ensures j == i {
        SettledIffLast(rows, j);
      }
      assert rows[i] in rows;
    }
  }

  lemma SettledIffLast(rows: seq<Row>, i: nat)
    requires LastStands(rows) && i < |rows|
    ensures rows[i].status == Settled <==> forall j :: i < j < |rows| ==> rows[j].result.trade != rows[i].result.trade
  {
  }

  predicate IsLast(rows: seq<Row>, trade: int, i: nat)
    requires i < |rows|
  {
    rows[i].result.trade == trade && forall j :: i < j < |rows| ==> rows[j].result.trade != trade
  }

  lemma {:induction false} LastForFacts(rows: seq<Row>, trade: int)
    ensures LastFor(rows, trade).None? <==> forall i :: 0 <= i < |rows| ==> rows[i].result.trade != trade
    ensures LastFor(rows, trade).Some? ==>
      exists i :: 0 <= i < |rows| && IsLast(rows, trade, i) && rows[i] == LastFor(rows, trade).value
  {
    if |rows| > 0 {
      var n := |rows| - 1;
      var front := rows[..n];
      assert forall i :: 0 <= i < n ==> front[i] == rows[i];
      if rows[n].result.trade == trade {
        assert IsLast(rows, trade, n);
      } else {
        LastForFacts(front, trade);
        if LastFor(front, trade).Some? {
          var i :| 0 <= i < n && IsLast(front, trade, i) && front[i] == LastFor(front, trade).value;
          assert IsLast(rows, trade, i);
        }
      }
    }
  }

  /** Without that honesty the boundary check does not help: a successful call
      keeps one standing settlement per trade exactly when the calculator answers
      about the right trade, or about one that has none standing. */
  lemma OneStandsIff(s: Store, call: Call)
    requires Inv(s) && call.Settle? && Next(s, call).1.None?
    ensures var c := call.result.value;
      AtMostOneStands(Next(s, call).0.rows) <==> c.trade == call.trade || !Standing(s.rows, c.trade)
  {
    var c := call.result.value;
    var rows, n := Next(s, call).0.rows, |s.rows|;
    assert forall i :: 0 <= i < n ==> rows[i].result.trade == s.rows[i].result.trade;
    if c.trade != call.trade && Standing(s.rows, c.trade) {
      var i :| 0 <= i < n && s.rows[i].result.trade == c.trade && s.rows[i].status == Settled;
      assert rows[i] == s.rows[i] && rows[n].result.trade == c.trade;
    }
  }

  /** A calculator that answers about another trade than asked: two accepted calls
      leave two settlements standing for the same trade. */
  lemma DishonestCalculatorLeavesTwo(c: Calculation, other: int, at: int)
    requires c.complete && ResultError(c).None? && RowFits(c) && ComparisonFits(c.comparison) && other != c.trade
    ensures var first := Settle(c.trade, Some(c), at);
      var second := Settle(other, Some(c), at);
      var once := Next(Store([], []), first);
      var twice := Next(once.0, second);
      && once.1.None? && twice.1.None? && Standing(once.0.rows, c.trade)
      && !AtMostOneStands(twice.0.rows)
  {
    var once := Next(Store([], []), Settle(c.trade, Some(c), at)).0;
    var row := Row(c, Settled, at);
    assert once.rows == [row];
    assert once.rows[0] == row;
    var twice := Next(once, Settle(other, Some(c), at)).0;
    assert twice.rows == [row, row];
    assert twice.rows[0] == twice.rows[1] == row;
  }

  /** An accepted call appends the calculation as given, standing, at the moment
      asked for, and supersedes what stood for the trade; every other call leaves
      the settlements as they are. */
  lemma AppendsAsAsked(s: Store, call: Call)
    ensures var r := Next(s, call).0.rows;
      if Next(s, call).1.None? && call.Settle? then
        && |r| == |s.rows| + 1 && r[|s.rows|] == Row(call.result.value, Settled, call.at)
        && forall i :: 0 <= i < |s.rows| ==>
          (r[i].result == s.rows[i].result && r[i].at == s.rows[i].at
           && r[i].status == (if s.rows[i].result.trade == call.trade then Superseded else s.rows[i].status))
      else r == s.rows
  {
  }

  /** A call whose transaction commits: it reaches a calculation that fits the
      tables, and then only reconciles, finds delivery unmeasured, or settles. */
  predicate Commits(call: Call) {
    && call.result.Some? && ComparisonFits(call.result.value.comparison)
    && (call.Reconcile? || !call.result.value.complete || Accepts(call))
  }

  predicate Accepts(call: Call) {
    && call.Settle? && call.result.Some? && call.result.value.complete
    && ComparisonFits(call.result.value.comparison)
    && ResultError(call.result.value).None? && RowFits(call.result.value)
  }

  /** The reconciliations of the committing calls, in order. */
  function Noted(calls: seq<Call>): seq<Reconciliation> {
    if |calls| == 0 then []
    else
      (if Commits(calls[0])
       then [Reconciliation(calls[0].trade, calls[0].result.value.comparison, calls[0].result.value.complete)]
       else [])
      + Noted(calls[1..])
  }

  /** The calculations of the accepted settling calls, in order. */
  function Booked(calls: seq<Call>): seq<Calculation> {
    if |calls| == 0 then []
    else (if Accepts(calls[0]) then [calls[0].result.value] else []) + Booked(calls[1..])
  }

  function Results(rows: seq<Row>): seq<Calculation> {
    seq(|rows|, i requires 0 <= i < |rows| => rows[i].result)
  }

  /** Over any run the reconciliations added are one for each committing call,
      refused settlements included, and the settlements added one for each
      accepted call; every other call leaves no trace. */
  lemma {:induction false} OneReconciliationPerCommit(s: Store, calls: seq<Call>)
    ensures Run(s, calls).reconciliations == s.reconciliations + Noted(calls)
    ensures Results(Run(s, calls).rows) == Results(s.rows) + Booked(calls)
    decreases |calls|
  {
    hide ComparisonFits, RowFits, ResultError;
    if |calls| > 0 {
      var next := Next(s, calls[0]).0;
      OneReconciliationPerCommit(next, calls[1..]);
      OneCall(s, calls[0]);
      var noted := if Commits(calls[0])
        then [Reconciliation(calls[0].trade, calls[0].result.value.comparison, calls[0].result.value.complete)] else [];
      var booked := if Accepts(calls[0]) then [calls[0].result.value] else [];
      assert s.reconciliations + noted + Noted(calls[1..]) == s.reconciliations + (noted + Noted(calls[1..]));
      assert Results(s.rows) + booked + Booked(calls[1..]) == Results(s.rows) + (booked + Booked(calls[1..]));
    }
  }

  lemma OneCall(s: Store, call: Call)
    ensures var next := Next(s, call).0;
      && next.reconciliations == s.reconciliations
        + (if Commits(call)
           then [Reconciliation(call.trade, call.result.value.comparison, call.result.value.complete)] else [])
      && Results(next.rows) == Results(s.rows) + (if Accepts(call) then [call.result.value] else [])
  {
    hide ComparisonFits, RowFits, ResultError;
  }

  // ---- the service ---------------------------------------------------------

  class SettlementTable {
    var rows: seq<Row>
    var reconciliations: seq<Reconciliation>

    function View(): Store
      reads this
    {
      Store(rows, reconciliations)
    }

    constructor ()
      ensures View() == Store([], [])
    {
      rows, reconciliations := [], [];
    }

    /** Mark what stands for a trade as superseded, row by row. */
    method SupersedeStanding(trade: int)
      modifies this`rows
      ensures rows == Supersede(old(rows), trade)
    {
      var i := 0;
      while i < |rows|
        invariant 0 <= i <= |rows| && |rows| == |old(rows)|
        invariant forall k :: 0 <= k < i ==> rows[k] == Supersede(old(rows), trade)[k]
        invariant forall k :: i <= k < |rows| ==> rows[k] == old(rows)[k]
      {
        if rows[i].result.trade == trade && rows[i].status == Settled {
          rows := rows[i := rows[i].(status := Superseded)];
        }
        i := i + 1;
      }
    }

    /** `settle_trade`. */
    method SettleTrade(trade: int, result: Option<Calculation>, at: int) returns (error: Option<SettlementError>)
      modifies this
      ensures (View(), error) == Next(old(View()), Settle(trade, result, at))
    {
      if result.None? {
        return Some(CalculatorFailed);
      }
      var c := result.value;
      if !ComparisonFits(c.comparison) {
        return Some(ConstraintViolation);
      }
      var saved := reconciliations;
      reconciliations := reconciliations + [Reconciliation(trade, c.comparison, c.complete)];
      if !c.complete {
        return Some(NotReconcilable);
      }
      error := ResultError(c);
      if error.Some? || !RowFits(c) {
        reconciliations := saved;
        return if error.Some? then error else Some(ConstraintViolation);
      }
      SupersedeStanding(trade);
      rows := rows + [Row(c, Settled, at)];
      error := None;
    }

    /** `reconcile_trade`. */
    method ReconcileTrade(trade: int, result: Option<Calculation>) returns (error: Option<SettlementError>)
      modifies this
      ensures (View(), error) == Next(old(View()), Reconcile(trade, result))
    {
      if result.None? {
        return Some(CalculatorFailed);
      }
      var c := result.value;
      if !ComparisonFits(c.comparison) {
        return Some(ConstraintViolation);
      }
      reconciliations := reconciliations + [Reconciliation(trade, c.comparison, c.complete)];
      error := None;
    }
  }

  // ---- the standard calculator ---------------------------------------------

  /** A fraction of the policy, as a quotient. */
  datatype Ratio = Ratio(num: int, den: int)

  /** Tolerance in [0, 1), a non-negative balancing multiplier, a fee in [0, 1). */
  datatype Policy = Policy(tolerance: Ratio, multiplier: Ratio, fee: Ratio)

  predicate PolicyOk(p: Policy) {
    && p.tolerance.den > 0 && p.multiplier.den > 0 && p.fee.den > 0
    && 0 <= p.tolerance.num < p.tolerance.den && 0 <= p.multiplier.num && 0 <= p.fee.num < p.fee.den
  }

  datatype Request = Request(trade: int, buyer: int, seller: int, committed: int, actual: Option<int>, price: int)

  function Distance(a: int, b: int): int {
    if a >= b then a - b else b - a
  }

  /** `reconcile`: what may be settled and what the grid had to supply. */
  function Compare(p: Policy, committed: int, actual: Option<int>): Comparison
    requires PolicyOk(p)
  {
    if actual.None? then Comparison(committed, None, None, false, 0)
    else
      var within := Distance(actual.value, committed) * p.tolerance.den <= committed * p.tolerance.num;
      Comparison(committed, actual, Some(actual.value - committed), within,
                 if within then 0 else Max(committed - actual.value, 0))
  }

  const PAISA: int := 1_000_000

  /** `StandardSettlementCalculator.settle`. */
  function Standard(p: Policy, r: Request): Calculation
    requires PolicyOk(p)
  {
    var c := Compare(p, r.committed, r.actual);
    if r.actual.None? then Calculation(r.trade, r.buyer, r.seller, 0, 0, 0, 0, 0, 0, c, false, true)
    else
      var kwh := Min(r.committed, r.actual.value);
      var gross := RoundHalfUp(kwh * r.price, PAISA);
      var fee := RoundHalfUp(gross * p.fee.num, p.fee.den);
      var charge := RoundHalfUp(c.balancing * r.price * p.multiplier.num, PAISA * p.multiplier.den);
      Calculation(r.trade, r.buyer, r.seller, kwh, gross, fee, charge, gross, gross - fee - charge, c, true, true)
  }

  /** For a measured delivery and a non-negative price the standard calculator is
      honest, passes the boundary and fits the tables, and settles no more than
      was agreed or measured. */
  lemma StandardPasses(p: Policy, r: Request)
    requires PolicyOk(p) && r.committed > 0 && r.price >= 0 && (r.actual.Some? ==> r.actual.value >= 0)
    ensures var c := Standard(p, r);
      && c.trade == r.trade && ComparisonFits(c.comparison)
      && (r.actual.Some? ==> ResultError(c).None? && RowFits(c))
      && (r.actual.None? ==> !c.complete)
  {
    var c := Standard(p, r);
    if r.actual.Some? {
      ProductNonNegative(c.kwh, r.price);
      ProductNonNegative(c.gross, p.fee.num);
      ProductNonNegative(c.comparison.balancing, r.price);
      ProductNonNegative(c.comparison.balancing * r.price, p.multiplier.num);
    }
  }

  lemma ProductNonNegative(a: int, b: int)
    requires a >= 0 && b >= 0
    ensures a * b >= 0
  {
  }

  /** Outside the tolerance, what is settled and what is balanced make up the
      commitment exactly, except that over-delivery balances nothing; inside it
      nothing is balanced. The buyer's debit is within half a paisa of the
      delivered energy's price, and the two sides differ by what was retained. */
  lemma StandardAccounts(p: Policy, r: Request)
    requires PolicyOk(p) && r.committed > 0 && r.actual.Some?
    ensures var c := Standard(p, r);
      && c.kwh <= r.committed && c.kwh <= r.actual.value
      && c.comparison.balancing == (if c.comparison.within then 0 else r.committed - c.kwh)
      && (c.comparison.within <==>
            Distance(r.actual.value, r.committed) * p.tolerance.den <= r.committed * p.tolerance.num)
      && -PAISA <= 2 * (c.debit * PAISA - c.kwh * r.price) <= PAISA
      && c.debit - c.credit == c.fee + c.charge
      && c.trade == r.trade && c.buyer == r.buyer && c.seller == r.seller && c.gross == c.debit
      && c.comparison.committed == r.committed && c.comparison.actual == r.actual
      && c.comparison.deviation == Some(r.actual.value - r.committed)
  {
  }

  /** The fee is its fraction of the gross amount, and the charge the balanced
      energy at the price times the multiplier, each to the nearest paisa. */
  lemma StandardCharges(p: Policy, r: Request)
    requires PolicyOk(p) && r.committed > 0 && r.actual.Some?
    ensures var c := Standard(p, r);
      && -p.fee.den <= 2 * (c.fee * p.fee.den - c.gross * p.fee.num) <= p.fee.den
      && -PAISA * p.multiplier.den
           <= 2 * (c.charge * (PAISA * p.multiplier.den) - c.comparison.balancing * r.price * p.multiplier.num)
           <= PAISA * p.multiplier.den
  {
    hide RoundHalfUp;
  }

  /** So every run driven by the standard calculator keeps the history sound. */
  ghost predicate StandardCall(p: Policy, call: Call)
    requires PolicyOk(p)
  {
    exists r: Request :: r.trade == call.trade && call.result == Some(Standard(p, r))
  }

  lemma StandardRuns(p: Policy, calls: seq<Call>)
    requires PolicyOk(p) && forall i :: 0 <= i < |calls| ==> StandardCall(p, calls[i])
    ensures var s := Run(Store([], []), calls); Inv(s) && AtMostOneStands(s.rows)
  {
    RunKeeps(Store([], []), calls);
  }
}
