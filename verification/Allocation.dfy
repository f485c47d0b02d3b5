/** Splitting an amount by integer weights with the largest-remainder method. */
module Allocation {
  import opened Arithmetic
  import opened Common

  datatype AllocationError = BadWeights | AllZero

  // --- sums ---------------------------------------------------------------------

  function Sum(s: seq<int>): int {
    if s == [] then 0 else Sum(s[..|s| - 1]) + s[|s| - 1]
  }

  lemma {:induction false} SumUpdate(s: seq<int>, i: nat, x: int)
    requires i < |s|
    ensures Sum(s[i := x]) == Sum(s) - s[i] + x
    decreases |s|
  {
    var n := |s| - 1;
    if i == n {
      assert s[i := x][..n] == s[..n];
    } else {
      assert s[i := x][..n] == s[..n][i := x];
      SumUpdate(s[..n], i, x);
    }
  }

  lemma {:induction false} SumNonNegative(s: seq<int>)
    requires forall x | x in s :: 0 <= x
    ensures 0 <= Sum(s)
    ensures forall x | x in s :: x <= Sum(s)
  {
    if s != [] {
      var n := |s| - 1;
      assert s[n] in s && forall x | x in s[..n] :: x in s;
      SumNonNegative(s[..n]);
      assert forall x | x in s :: x in s[..n] || x == s[n];
    }
  }

  lemma {:induction false} SumPointwise(a: seq<int>, b: seq<int>)
    requires |a| == |b| && forall i | 0 <= i < |a| :: a[i] <= b[i]
    ensures Sum(a) <= Sum(b)
    ensures Sum(a) == Sum(b) ==> a == b
  {
    if a != [] {
      var n := |a| - 1;
      SumPointwise(a[..n], b[..n]);
      assert a == a[..n] + [a[n]] && b == b[..n] + [b[n]];
    }
  }

  function Negated(s: seq<int>): (r: seq<int>)
    ensures |r| == |s| && forall i | 0 <= i < |s| :: r[i] == -s[i]
  {
    seq(|s|, i requires 0 <= i < |s| => -s[i])
  }

  // --- what an allocation is ----------------------------------------------------------

  predicate WeightsFit(weights: seq<int>) {
    weights != [] && (forall w | w in weights :: 0 <= w) && Sum(weights) != 0
  }

  function Share(amount: nat, weights: seq<int>, i: nat): int
    requires WeightsFit(weights) && i < |weights|
  {
    (amount * weights[i]) / Sum(weights)
  }

  function Remainder(amount: nat, weights: seq<int>, i: nat): int
    requires WeightsFit(weights) && i < |weights|
  {
    (amount * weights[i]) % Sum(weights)
  }

  /** The larger remainder is served first, and on a tie the earlier weight. */
  predicate Before(remainders: seq<int>, i: nat, j: nat)
    requires i < |remainders| && j < |remainders|
  {
    remainders[i] > remainders[j] || (remainders[i] == remainders[j] && i < j)
  }

  function Remainders(amount: nat, weights: seq<int>): (r: seq<int>)
    requires WeightsFit(weights)
    ensures |r| == |weights| && forall i | 0 <= i < |r| :: r[i] == Remainder(amount, weights, i)
  {
    seq(|weights|, i requires 0 <= i < |weights| => Remainder(amount, weights, i))
  }

  /**
   * The parts add up; each is the rounded-down share or one more; and whoever
   * got the extra unit comes before whoever did not.
   */
  predicate LargestRemainder(amount: nat, weights: seq<int>, parts: seq<int>)
    requires WeightsFit(weights)
  {
    && |parts| == |weights|
    && Sum(parts) == amount
    && (forall i | 0 <= i < |parts| ::
          parts[i] == Share(amount, weights, i) || parts[i] == Share(amount, weights, i) + 1)
    && (forall i, j | 0 <= i < |parts| && 0 <= j < |parts| && i != j
          && parts[i] == Share(amount, weights, i) + 1 && parts[j] == Share(amount, weights, j) ::
          Before(Remainders(amount, weights), i, j))
  }

  /** Signed amounts are split by magnitude. */
  predicate IsAllocation(amount: int, weights: seq<int>, parts: seq<int>)
    requires WeightsFit(weights)
  {
    if amount < 0 then LargestRemainder(-amount, weights, Negated(parts)) else LargestRemainder(amount, weights, parts)
  }

  // --- properties -----------------------------------------------------------------

  lemma {:induction false} SumNegated(s: seq<int>)
    ensures Sum(Negated(s)) == -Sum(s)
  {
    if s != [] {
      var n := |s| - 1;
      assert Negated(s)[..n] == Negated(s[..n]);
      SumNegated(s[..n]);
    }
  }

  /** The parts always add up to the amount. */
  lemma PartsAddUp(amount: int, weights: seq<int>, parts: seq<int>)
    requires WeightsFit(weights) && IsAllocation(amount, weights, parts)
    ensures |parts| == |weights| && Sum(parts) == amount
  {
    SumNegated(parts);
  }

  lemma ShareSplits(amount: nat, weights: seq<int>, i: nat)
    requires WeightsFit(weights) && i < |weights|
    ensures 0 < Sum(weights) && weights[i] in weights
    ensures amount * weights[i] == Share(amount, weights, i) * Sum(weights) + Remainder(amount, weights, i)
    ensures 0 <= Remainder(amount, weights, i) < Sum(weights) && 0 <= Share(amount, weights, i)
  {
    assert weights[i] in weights;
    SumNonNegative(weights);
    var x := amount * weights[i];
    assert 0 <= x;
    Splits(x, Sum(weights));
  }

  /** Part by part, how far the parts are above the exact shares, in units of 1 / total. */
  function Gaps(amount: nat, weights: seq<int>, parts: seq<int>, total: int): (r: seq<int>)
    requires |parts| == |weights|
    ensures |r| == |parts| && forall i | 0 <= i < |parts| :: r[i] == parts[i] * total - amount * weights[i]
  {
    seq(|parts|, i requires 0 <= i < |parts| => parts[i] * total - amount * weights[i])
  }

  lemma {:induction false} GapsCancel(amount: nat, weights: seq<int>, parts: seq<int>, total: int)
    requires |parts| == |weights|
    ensures Sum(Gaps(amount, weights, parts, total)) == Sum(parts) * total - amount * Sum(weights)
  {
    if parts != [] {
      var n := |parts| - 1;
      assert Gaps(amount, weights, parts, total)[..n] == Gaps(amount, weights[..n], parts[..n], total);
      GapsCancel(amount, weights[..n], parts[..n], total);
      Distribute(Sum(parts[..n]), parts[n], total);
      Distribute(Sum(weights[..n]), weights[n], amount);
    }
  }

  lemma GapsOf(amount: nat, weights: seq<int>, parts: seq<int>, i: nat, j: nat)
    requires WeightsFit(weights) && LargestRemainder(amount, weights, parts) && i < |parts| && j < |parts|
    requires Remainder(amount, weights, i) == 0 && parts[i] == Share(amount, weights, i) + 1
    ensures 0 <= Gaps(amount, weights, parts, Sum(weights))[j]
    ensures 0 < Gaps(amount, weights, parts, Sum(weights))[i]
  {
    ShareSplits(amount, weights, i);
    ShareSplits(amount, weights, j);
    NextMultiple(Share(amount, weights, i), Sum(weights));
    NextMultiple(Share(amount, weights, j), Sum(weights));
    assert Remainders(amount, weights)[j] == Remainder(amount, weights, j);
    assert parts[j] == Share(amount, weights, j) ==> Before(Remainders(amount, weights), i, j);
  }

  /**
   * A weight whose share is exact gets nothing extra: if it got a unit, so would every
   * weight with a remainder, and there are not that many units left over.
   */
  lemma ExactShareGetsNoMore(amount: nat, weights: seq<int>, parts: seq<int>, i: nat)
    requires WeightsFit(weights) && LargestRemainder(amount, weights, parts)
    requires i < |parts| && Remainder(amount, weights, i) == 0
    ensures parts[i] == Share(amount, weights, i)
  {
    if parts[i] == Share(amount, weights, i) + 1 {
      var gaps := Gaps(amount, weights, parts, Sum(weights));
      forall j | 0 <= j < |parts|
        ensures 0 <= gaps[j] && 0 < gaps[i]
      {
        GapsOf(amount, weights, parts, i, j);
      }
      SumNonNegative(gaps);
      assert gaps[i] in gaps;
      GapsCancel(amount, weights, parts, Sum(weights));
    }
  }

  /** A zero weight gets nothing. */
  lemma ZeroWeightGetsZero(amount: nat, weights: seq<int>, parts: seq<int>, i: nat)
    requires WeightsFit(weights) && LargestRemainder(amount, weights, parts)
    requires i < |parts| && weights[i] == 0
    ensures parts[i] == 0
  {
    var product := amount * weights[i];
    assert product == 0;
    assert 0 / Sum(weights) == 0;
    ShareSplits(amount, weights, i);
    ExactShareGetsNoMore(amount, weights, parts, i);
  }

  /** Each part differs from its exact share amount * w / total by less than one unit. */
  lemma PartNearExactShare(amount: nat, weights: seq<int>, parts: seq<int>, i: nat)
    requires WeightsFit(weights) && LargestRemainder(amount, weights, parts) && i < |parts|
    ensures Abs(parts[i] * Sum(weights) - amount * weights[i]) < Sum(weights)
  {
    ShareSplits(amount, weights, i);
    NextMultiple(Share(amount, weights, i), Sum(weights));
    if Remainder(amount, weights, i) == 0 {
      ExactShareGetsNoMore(amount, weights, parts, i);
    }
  }

  lemma ShareMonotone(amount: nat, weights: seq<int>, i: nat, j: nat)
    requires WeightsFit(weights) && i < |weights| && j < |weights|
    requires weights[j] < weights[i] && amount != 0
    ensures Share(amount, weights, j) <= Share(amount, weights, i)
    ensures Share(amount, weights, j) == Share(amount, weights, i) ==>
              Remainder(amount, weights, j) < Remainder(amount, weights, i)
  {
    ShareSplits(amount, weights, i);
    ShareSplits(amount, weights, j);
    Distribute(weights[j], weights[i] - weights[j], amount);
    assert 0 < amount * (weights[i] - weights[j]);
    var a, b, total := Share(amount, weights, i), Share(amount, weights, j), Sum(weights);
    if a < b {
      AtLeast(a + 1, b, total);
      NextMultiple(a, total);
    }
  }

  /** A larger weight never gets a smaller part. */
  lemma LargerWeightNeverLess(amount: nat, weights: seq<int>, parts: seq<int>, i: nat, j: nat)
    requires WeightsFit(weights) && LargestRemainder(amount, weights, parts)
    requires i < |parts| && j < |parts| && weights[j] < weights[i]
    ensures parts[j] <= parts[i]
  {
    if amount == 0 {
      NothingToShare(weights, parts);
    } else {
      ShareMonotone(amount, weights, i, j);
      if parts[j] == Share(amount, weights, j) + 1 && parts[i] == Share(amount, weights, i) {
        assert Before(Remainders(amount, weights), j, i);
      }
    }
  }

  lemma NothingToShare(weights: seq<int>, parts: seq<int>)
    requires WeightsFit(weights) && LargestRemainder(0, weights, parts)
    ensures forall i | 0 <= i < |parts| :: parts[i] == 0
  {
    forall x | x in parts
      ensures 0 <= x
    {
      var i :| 0 <= i < |parts| && parts[i] == x;
      ShareSplits(0, weights, i);
    }
    SumNonNegative(parts);
    forall i | 0 <= i < |parts|
      ensures parts[i] == 0
    {
      assert parts[i] in parts;
    }
  }

  lemma {:induction false} LowerSomewhere(p: seq<int>, q: seq<int>)
    requires |p| == |q| && Sum(p) == Sum(q) && p != q
    ensures exists i | 0 <= i < |p| :: p[i] < q[i]
  {
    if forall i | 0 <= i < |p| :: q[i] <= p[i] {
      SumPointwise(q, p);
    }
  }

  lemma NoSwap(amount: nat, weights: seq<int>, p: seq<int>, q: seq<int>, i: nat, j: nat)
    requires WeightsFit(weights) && LargestRemainder(amount, weights, p) && LargestRemainder(amount, weights, q)
    requires i < |p| && j < |p| && p[i] < q[i]
    ensures p[j] <= q[j]
  {
    assert Share(amount, weights, i) <= Share(amount, weights, i) + 1;
    assert Share(amount, weights, j) <= Share(amount, weights, j) + 1;
  }

  lemma MagnitudesUnique(amount: nat, weights: seq<int>, p: seq<int>, q: seq<int>)
    requires WeightsFit(weights) && LargestRemainder(amount, weights, p) && LargestRemainder(amount, weights, q)
    ensures p == q
  {
    if p != q {
      LowerSomewhere(p, q);
      var i :| 0 <= i < |p| && p[i] < q[i];
      forall j | 0 <= j < |p|
        ensures p[j] <= q[j]
      {
        NoSwap(amount, weights, p, q, i, j);
      }
      SumPointwise(p, q);
    }
  }

  /** The rule leaves no choice: any order-respecting way of handing out the units gives these parts. */
  lemma AllocationUnique(amount: int, weights: seq<int>, p: seq<int>, q: seq<int>)
    requires WeightsFit(weights) && IsAllocation(amount, weights, p) && IsAllocation(amount, weights, q)
    ensures p == q
  {
    if amount < 0 {
      MagnitudesUnique(-amount, weights, Negated(p), Negated(q));
      assert forall i | 0 <= i < |p| :: Negated(p)[i] == Negated(q)[i];
    } else {
      MagnitudesUnique(amount, weights, p, q);
    }
  }

  /** A negative amount mirrors the positive one. */
  lemma AllocationMirrors(amount: int, weights: seq<int>, parts: seq<int>)
    requires WeightsFit(weights) && IsAllocation(amount, weights, parts)
    ensures IsAllocation(-amount, weights, Negated(parts))
  {
    assert Negated(Negated(parts)) == parts;
    if amount == 0 {
      NothingToShare(weights, parts);
      assert Negated(parts) == parts;
    }
  }

  /** All of it for signed amounts: fair to within a unit, nothing for nothing, larger weights first. */
  lemma AllocationFair(amount: int, weights: seq<int>, parts: seq<int>, i: nat, j: nat)
    requires WeightsFit(weights) && IsAllocation(amount, weights, parts) && i < |parts| && j < |parts|
    ensures |parts| == |weights|
    ensures Abs(parts[i] * Sum(weights) - amount * weights[i]) < Sum(weights)
    ensures weights[i] == 0 ==> parts[i] == 0
    ensures weights[j] < weights[i] ==> Abs(parts[j]) <= Abs(parts[i])
    ensures 0 <= parts[i] * Sign(amount)
  {
    hide Share, Sum, Remainders;
    var magnitudes := if amount < 0 then Negated(parts) else parts;
    PartNearExactShare(Abs(amount), weights, magnitudes, i);
    NegatedProduct(parts[i], Sum(weights));
    NegatedProduct(amount, weights[i]);
    ShareSplits(Abs(amount), weights, i);
    ShareSplits(Abs(amount), weights, j);
    if weights[i] == 0 {
      ZeroWeightGetsZero(Abs(amount), weights, magnitudes, i);
    }
    if weights[j] < weights[i] {
      LargerWeightNeverLess(Abs(amount), weights, magnitudes, i, j);
    }
  }

  function Sign(x: int): int {
    if x < 0 then -1 else 1
  }

  // --- the algorithm ------------------------------------------------------------------

  /** Indices in serving order. */
  predicate Ordered(remainders: seq<int>, order: seq<nat>) {
    && (forall k | 0 <= k < |order| :: order[k] < |remainders|)
    && (forall k, l | 0 <= k < l < |order| :: Before(remainders, order[k], order[l]))
  }

  /** Puts one more index where it belongs. */
  function Insert(remainders: seq<int>, i: nat, order: seq<nat>): (r: seq<nat>)
    requires i < |remainders| && Ordered(remainders, order) && i !in order
    ensures Ordered(remainders, r) && |r| == |order| + 1
    ensures forall j: nat :: j in r <==> j == i || j in order
  {
    if order == [] then [i]
    else if Before(remainders, i, order[0]) then [i] + order
    else
      assert forall j | j in order[1..] :: j in order;
      var rest := Insert(remainders, i, order[1..]);
      assert forall l | 0 <= l < |rest| :: rest[l] == i || rest[l] in order[1..];
      [order[0]] + rest
  }

  /** The first `n` indices, sorted by the comparator. */
  function SortIndices(remainders: seq<int>, n: nat): (r: seq<nat>)
    requires n <= |remainders|
    ensures Ordered(remainders, r) && |r| == n
    ensures forall j: nat :: j in r <==> j < n
  {
    if n == 0 then [] else Insert(remainders, n - 1, SortIndices(remainders, n - 1))
  }

  function Shares(amount: nat, weights: seq<int>): (r: seq<int>)
    requires WeightsFit(weights)
    ensures |r| == |weights| && forall i | 0 <= i < |r| :: r[i] == Share(amount, weights, i)
  {
    seq(|weights|, i requires 0 <= i < |weights| => Share(amount, weights, i))
  }

  /** Rounding down leaves over fewer units than there are weights. */
  lemma FewLeftOver(amount: nat, weights: seq<int>)
    requires WeightsFit(weights)
    ensures 0 <= amount - Sum(Shares(amount, weights)) < |weights|
  {
    var total, shares := Sum(weights), Shares(amount, weights);
    var gaps := Gaps(amount, weights, shares, total);
    forall i | 0 <= i < |gaps|
      ensures -total < gaps[i] <= 0
    {
      ShareSplits(amount, weights, i);
    }
    GapsCancel(amount, weights, shares, total);
    ShareSplits(amount, weights, 0);
    SumBounds(gaps, total);
    var left := amount - Sum(shares);
    Distribute(amount, -Sum(shares), total);
    NegatedProduct(Sum(shares), total);
    assert Sum(gaps) == -(left * total);
    if left < 0 {
      AtLeast(left, -1, total);
    }
    if |weights| <= left {
      AtLeast(|weights|, left, total);
    }
  }

  lemma {:induction false} SumBounds(gaps: seq<int>, total: int)
    requires 0 < total && forall i | 0 <= i < |gaps| :: -total < gaps[i] <= 0
    ensures Sum(gaps) <= 0 && (gaps != [] ==> -(|gaps| * total) < Sum(gaps))
  {
    if gaps != [] {
      var n := |gaps| - 1;
      SumBounds(gaps[..n], total);
      NextMultiple(n, total);
    }
  }

  /** The first `k` indices in serving order have had their extra unit. */
  predicate HandedOut(amount: nat, weights: seq<int>, shares: seq<int>, order: seq<nat>, k: nat)
    requires WeightsFit(weights) && k <= |order|
  {
    && |shares| == |weights|
    && forall i | 0 <= i < |shares| :: shares[i] == Share(amount, weights, i) + if i in order[..k] then 1 else 0
  }

  lemma NothingHandedOut(amount: nat, weights: seq<int>, shares: seq<int>, order: seq<nat>)
    requires WeightsFit(weights) && shares == Shares(amount, weights)
    ensures HandedOut(amount, weights, shares, order, 0)
  {
  }

  lemma HandOut(amount: nat, weights: seq<int>, shares: seq<int>, order: seq<nat>, k: nat)
    requires WeightsFit(weights) && k < |order| && HandedOut(amount, weights, shares, order, k)
    requires Ordered(Remainders(amount, weights), order)
    ensures order[k] < |shares|
    ensures HandedOut(amount, weights, shares[order[k] := shares[order[k]] + 1], order, k + 1)
  {
    var i := order[k];
    assert i !in order[..k];
    assert order[..k + 1] == order[..k] + [i];
  }

  /** Rounds every share down, then hands out the units left over in serving order. */
  method SplitMagnitude(amount: nat, weights: seq<int>) returns (shares: seq<int>)
    requires WeightsFit(weights)
    ensures LargestRemainder(amount, weights, shares)
  {
    shares := Shares(amount, weights);
    var remainders := Remainders(amount, weights);
    var left := amount - Sum(shares);
    FewLeftOver(amount, weights);
    var order := SortIndices(remainders, |remainders|);
    var k := 0;
    NothingHandedOut(amount, weights, shares, order);
    hide Share, Sum, Remainder, Before, Ordered, HandedOut, WeightsFit;
    while k < |order| && left != 0
      invariant 0 <= k <= |order| && HandedOut(amount, weights, shares, order, k)
      invariant 0 <= left <= |order| - k
      invariant Sum(shares) + left == amount
    {
      var i := order[k];
      HandOut(amount, weights, shares, order, k);
      SumUpdate(shares, i, shares[i] + 1);
      shares := shares[i := shares[i] + 1];
      left := left - 1;
      k := k + 1;
    }
    ServedFirst(amount, weights, shares, order, k);
  }

  method Allocate(amount: int, weights: seq<int>) returns (r: Result<seq<int>, AllocationError>)
    ensures r.Ok? <==> WeightsFit(weights)
    ensures r == Err(AllZero) <==> weights != [] && (forall w | w in weights :: 0 <= w) && Sum(weights) == 0
    ensures r.Ok? ==> IsAllocation(amount, weights, r.value)
  {
    hide Sum, LargestRemainder;
    if weights == [] || exists w | w in weights :: w < 0 {
      return Err(BadWeights);
    }
    if Sum(weights) == 0 {
      return Err(AllZero);
    }
    var shares := SplitMagnitude(Abs(amount), weights);
    assert Negated(Negated(shares)) == shares;
    r := Ok(if amount < 0 then Negated(shares) else shares);
  }

  /** Handing out units in serving order respects the rule. */
  lemma ServedFirst(amount: nat, weights: seq<int>, shares: seq<int>, order: seq<nat>, k: nat)
    requires WeightsFit(weights) && k <= |order| && HandedOut(amount, weights, shares, order, k) && Sum(shares) == amount
    requires Ordered(Remainders(amount, weights), order) && forall j: nat | j < |weights| :: j in order
    ensures LargestRemainder(amount, weights, shares)
  {
    forall i, j | 0 <= i < |shares| && 0 <= j < |shares| && i in order[..k] && j !in order[..k]
      ensures Before(Remainders(amount, weights), i, j)
    {
      var a :| 0 <= a < k && order[a] == i;
      assert j in order;
      var b :| 0 <= b < |order| && order[b] == j;
      assert k <= b by {
        assert forall m | 0 <= m < k :: order[m] in order[..k];
      }
    }
  }
}
