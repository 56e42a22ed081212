/** The arithmetic of a two-sided greedy allocation: what is left unserved is
    blocked by a source that is used up, so half of any optimum is reached. */
module Greedy {
  import opened Base
  import opened Ledger

  function Part(v: int, inside: bool): int {
    if inside then v else 0
  }

  /** The part of v drawn from one source, and from a set of sources. */
  function AtParts(v: seq<int>, ks: seq<Key>, k: Key): seq<int>
    requires |v| == |ks|
  {
    seq(|v|, i requires 0 <= i < |v| => Part(v[i], ks[i] == k))
  }

  function InParts(v: seq<int>, ks: seq<Key>, among: set<Key>): seq<int>
    requires |v| == |ks|
  {
    seq(|v|, i requires 0 <= i < |v| => Part(v[i], ks[i] in among))
  }

  function At(v: seq<int>, ks: seq<Key>, k: Key): int
    requires |v| == |ks|
  {
    Sum(AtParts(v, ks, k))
  }

  function In(v: seq<int>, ks: seq<Key>, among: set<Key>): int
    requires |v| == |ks|
  {
    Sum(InParts(v, ks, among))
  }

  lemma SplitSource(v: seq<int>, ks: seq<Key>, among: set<Key>, k: Key)
    requires |v| == |ks| && k in among
    ensures In(v, ks, among) == In(v, ks, among - {k}) + At(v, ks, k)
  {
    SumAdd(InParts(v, ks, among - {k}), AtParts(v, ks, k), InParts(v, ks, among));
  }

  /** Source by source no more, so over all the sources no more. */
  lemma {:induction false} SourcewiseBound(v: seq<int>, w: seq<int>, ks: seq<Key>, among: set<Key>)
    requires |v| == |w| == |ks|
    requires forall k :: k in among ==> At(v, ks, k) <= At(w, ks, k)
    ensures In(v, ks, among) <= In(w, ks, among)
    decreases |among|
  {
    hide At, In;
    if among == {} {
      InNothing(v, ks);
      InNothing(w, ks);
    } else {
      var k :| k in among;
      SplitSource(v, ks, among, k);
      SplitSource(w, ks, among, k);
      SourcewiseBound(v, w, ks, among - {k});
    }
  }

  lemma InNothing(v: seq<int>, ks: seq<Key>)
    requires |v| == |ks|
    ensures In(v, ks, {}) == 0
  {
    SumOfZeros(InParts(v, ks, {}));
  }

  /** d is what was delivered, q what was agreed, x any other allocation that
      draws no more than d does from every used-up source. */
  lemma HalfOfAny(d: seq<int>, x: seq<int>, q: seq<int>, sellers: seq<Key>, buyers: seq<Key>,
                  dry: set<Key>, full: set<Key>)
    requires |d| == |x| == |q| == |sellers| == |buyers|
    requires forall i :: 0 <= i < |d| ==> 0 <= d[i] && 0 <= x[i] <= q[i]
    requires forall k :: k in dry ==> At(x, sellers, k) <= At(d, sellers, k)
    requires forall k :: k in full ==> At(x, buyers, k) <= At(d, buyers, k)
    requires forall i :: 0 <= i < |d| && d[i] < q[i] ==> sellers[i] in dry || buyers[i] in full
    ensures Sum(x) <= 2 * Sum(d)
  {
    hide At, Sum;
    SourcewiseBound(x, d, sellers, dry);
    SourcewiseBound(x, d, buyers, full);
    var rest := seq(|d|, i requires 0 <= i < |d| => Part(d[i], sellers[i] !in dry && buyers[i] !in full));
    Totals(x, InParts(x, sellers, dry), InParts(x, buyers, full), rest);
    Doubled(d, InParts(d, sellers, dry), InParts(d, buyers, full), rest);
  }

  function Plus(a: seq<int>, b: seq<int>): (c: seq<int>)
    requires |a| == |b|
    ensures |c| == |a| && forall i :: 0 <= i < |a| ==> c[i] == a[i] + b[i]
  {
    seq(|a|, i requires 0 <= i < |a| => a[i] + b[i])
  }

  lemma PlusSum(a: seq<int>, b: seq<int>)
    requires |a| == |b|
    ensures Sum(Plus(a, b)) == Sum(a) + Sum(b)
  {
    SumAdd(a, b, Plus(a, b));
  }

  lemma Totals(x: seq<int>, a: seq<int>, b: seq<int>, c: seq<int>)
    requires |x| == |a| == |b| == |c|
    requires forall i :: 0 <= i < |x| ==> x[i] <= a[i] + b[i] + c[i]
    ensures Sum(x) <= Sum(a) + Sum(b) + Sum(c)
  {
    hide Sum, Plus;
    PlusSum(a, b);
    PlusSum(Plus(a, b), c);
    SumMonotone(x, Plus(Plus(a, b), c));
  }

  lemma Doubled(d: seq<int>, a: seq<int>, b: seq<int>, c: seq<int>)
    requires |d| == |a| == |b| == |c|
    requires forall i :: 0 <= i < |d| ==> a[i] + b[i] + c[i] <= 2 * d[i]
    ensures Sum(a) + Sum(b) + Sum(c) <= 2 * Sum(d)
  {
    hide Sum, Plus;
    PlusSum(a, b);
    PlusSum(Plus(a, b), c);
    PlusSum(d, d);
    SumMonotone(Plus(Plus(a, b), c), Plus(d, d));
  }
}
