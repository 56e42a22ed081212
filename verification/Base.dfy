/** Shared vocabulary: optional values, results, sums of integer sequences, and
    the rounding rules of the decimal columns. */
module Base {

  datatype Option<+T> = None | Some(value: T)

  datatype Result<+T, +E> = Ok(value: T) | Err(error: E)

  function Min(a: int, b: int): int {
    if a <= b then a else b
  }

  function Max(a: int, b: int): int {
    if a >= b then a else b
  }

  function Sum(xs: seq<int>): int {
    if |xs| == 0 then 0 else Sum(xs[..|xs| - 1]) + xs[|xs| - 1]
  }

  lemma SumAppend(xs: seq<int>, x: int)
    ensures Sum(xs + [x]) == Sum(xs) + x
  {
    assert (xs + [x])[..|xs|] == xs;
  }

  lemma {:induction false} SumConcat(xs: seq<int>, ys: seq<int>)
    ensures Sum(xs + ys) == Sum(xs) + Sum(ys)
    decreases |ys|
  {
    if |ys| == 0 {
      assert xs + ys == xs;
    } else {
      var n := |ys| - 1;
      assert (xs + ys)[..|xs + ys| - 1] == xs + ys[..n];
      SumConcat(xs, ys[..n]);
    }
  }

  lemma {:induction false} SumHead(xs: seq<int>)
    requires |xs| > 0
    ensures Sum(xs) == xs[0] + Sum(xs[1..])
  {
    var n := |xs| - 1;
    if n > 0 {
      SumHead(xs[..n]);
      assert xs[..n][1..] == xs[1..][..n - 1];
    }
  }

  lemma {:induction false} SumUpdate(xs: seq<int>, i: nat, v: int)
    requires i < |xs|
    ensures Sum(xs[i := v]) == Sum(xs) - xs[i] + v
    decreases |xs|
  {
    var n := |xs| - 1;
    if i == n {
      assert xs[i := v][..n] == xs[..n];
    } else {
      assert xs[i := v][..n] == xs[..n][i := v];
      SumUpdate(xs[..n], i, v);
    }
  }

  lemma {:induction false} SumMonotone(xs: seq<int>, ys: seq<int>)
    requires |xs| == |ys|
    requires forall i :: 0 <= i < |xs| ==> xs[i] <= ys[i]
    ensures Sum(xs) <= Sum(ys)
  {
    if |xs| > 0 {
      var n := |xs| - 1;
      SumMonotone(xs[..n], ys[..n]);
    }
  }

  lemma {:induction false} SumOfZeros(xs: seq<int>)
    requires forall i :: 0 <= i < |xs| ==> xs[i] == 0
    ensures Sum(xs) == 0
  {
    if |xs| > 0 {
      SumOfZeros(xs[..|xs| - 1]);
    }
  }

  lemma SumNonNegative(xs: seq<int>)
    requires forall i :: 0 <= i < |xs| ==> xs[i] >= 0
    ensures Sum(xs) >= 0
  {
    var zeros := seq(|xs|, i => 0);
    SumOfZeros(zeros);
    SumMonotone(zeros, xs);
  }

  lemma SumMember(xs: seq<int>, i: nat)
    requires i < |xs|
    requires forall j :: 0 <= j < |xs| ==> xs[j] >= 0
    ensures xs[i] <= Sum(xs)
  {
    SumUpdate(xs, i, 0);
    SumNonNegative(xs[i := 0]);
  }

  lemma {:induction false} SumAdd(xs: seq<int>, ys: seq<int>, zs: seq<int>)
    requires |xs| == |ys| == |zs|
    requires forall i :: 0 <= i < |xs| ==> zs[i] == xs[i] + ys[i]
    ensures Sum(zs) == Sum(xs) + Sum(ys)
  {
    if |xs| > 0 {
      var n := |xs| - 1;
      SumAdd(xs[..n], ys[..n], zs[..n]);
    }
  }

  /** Division with the default decimal context: ties go to the even neighbour. */
  function RoundHalfEven(n: int, d: int): (q: int)
    requires d > 0
    ensures -d <= 2 * (q * d - n) <= d
    ensures n >= 0 ==> q >= 0
    ensures 2 * (q * d - n) == d || 2 * (q * d - n) == -d ==> q % 2 == 0
  {
    var q := n / d;
    var r := n % d;
    assert n == q * d + r;
    assert (q + 1) * d == q * d + d;
    if 2 * r < d then q
    else if 2 * r > d then q + 1
    else if q % 2 == 0 then q
    else q + 1
  }

  /** Half up, away from zero on a tie. */
  function RoundHalfUp(n: int, d: int): (q: int)
    requires d > 0
    ensures -d <= 2 * (q * d - n) <= d
    ensures n >= 0 ==> q >= 0
    ensures n >= 0 ==> 2 * (q * d - n) > -d
    ensures n < 0 ==> 2 * (q * d - n) < d
  {
    if n >= 0 then HalfUp(n, d) else -HalfUp(-n, d)
  }

  function HalfUp(n: int, d: int): (q: int)
    requires d > 0 && n >= 0
    ensures -d < 2 * (q * d - n) <= d && q >= 0
  {
    var q := (2 * n + d) / (2 * d);
    assert 2 * n + d == q * (2 * d) + (2 * n + d) % (2 * d);
    assert q * (2 * d) == 2 * (q * d);
    assert q >= 0 by { QuotientNonNegative(2 * n + d, 2 * d); }
    q
  }

  lemma QuotientNonNegative(n: int, d: int)
    requires n >= 0 && d > 0
    ensures n / d >= 0
  {
  }

  // ---- products ------------------------------------------------------------

  lemma CancelFactor(a: int, b: int, n: int)
    requires n > 0 && a * n < b * n
    ensures a < b
  {
    assert (b - a) * n > 0;
  }

  lemma SumTimes(a: int, b: int, d: int)
    ensures (a + b) * d == a * d + b * d
  {
  }

  lemma MultipleOf(k: int, d: int)
    requires d > 0
    ensures k * d % d == 0
  {
    var q, r := k * d / d, k * d % d;
    assert k * d == q * d + r;
    SumTimes(k - q, q, d);
    CancelFactor(k - q, 1, d);
    CancelFactor(-1, k - q, d);
  }

  /** Two multiples at most half a step apart are the same. */
  lemma NearestUnit(a: int, b: int, d: int)
    requires d > 0 && -d <= 2 * (a * d - b * d) <= d
    ensures a == b
  {
    var c := a - b;
    SumTimes(c, b, d);
    SumTimes(c, c, d);
    CancelFactor(c + c, 2, d);
    CancelFactor(-2, c + c, d);
  }

  // ---- ordered sets of moments ---------------------------------------------

  predicate Increasing(xs: seq<int>) {
    forall i, j :: 0 <= i < j < |xs| ==> xs[i] < xs[j]
  }

  function AddStart(xs: seq<int>, x: int): (r: seq<int>)
    requires Increasing(xs)
    ensures Increasing(r)
    ensures forall y :: y in r <==> y in xs || y == x
  {
    if |xs| == 0 then [x]
    else
      var last := xs[|xs| - 1];
      var front := xs[..|xs| - 1];
      assert forall y :: y in xs <==> y in front || y == last by { assert xs == front + [last]; }
      if x == last then xs
      else if x > last then xs + [x]
      else
        var r := AddStart(front, x);
        assert forall i :: 0 <= i < |front| ==> front[i] < last by {
          assert forall i :: 0 <= i < |front| ==> front[i] == xs[i];
        }
        assert forall i :: 0 <= i < |r| ==> r[i] in r;
        r + [last]
  }

  /** A set with no member to pick is empty. */
  lemma Inhabited(xs: set<int>)
    ensures xs == {} || exists x :: x in xs
  {
    if forall x: int :: x !in xs {
      assert xs == {};
    }
  }

  // ---- prices --------------------------------------------------------------

  /** Half-up division by two, for non-negative prices. */
  function Midpoint(a: int, b: int): (m: int)
    ensures 0 <= 2 * m - (a + b) <= 1
  {
    (a + b + 1) / 2
  }
}
