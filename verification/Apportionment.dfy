/** The method of largest remainders over exact weights: whole parts, rounded down, and then one
    more each for those that lost most by it. */
module Apportionment {
  function Sum(parts: seq<int>): int {
    if parts == [] then 0 else Sum(parts[..|parts| - 1]) + parts[|parts| - 1]
  }

  function SumReal(values: seq<real>): real {
    if values == [] then 0.0 else SumReal(values[..|values| - 1]) + values[|values| - 1]
  }

  ghost predicate NonNegative(values: seq<real>) {
    forall i :: 0 <= i < |values| ==> values[i] >= 0.0
  }

  /** The exact share a weight earns. */
  function ShareOf(total: int, weight: real, totalWeight: real): real
    requires totalWeight > 0.0
  {
    (total as real * weight) / totalWeight
  }

  function Exact(total: int, weights: seq<real>, totalWeight: real): seq<real>
    requires totalWeight > 0.0
  {
    if weights == [] then []
    else Exact(total, weights[..|weights| - 1], totalWeight)
         + [ShareOf(total, weights[|weights| - 1], totalWeight)]
  }

  function Floors(exact: seq<real>): (floors: seq<int>)
    ensures |floors| == |exact|
    ensures forall i :: 0 <= i < |exact| ==> floors[i] == exact[i].Floor
  {
    if exact == [] then [] else Floors(exact[..|exact| - 1]) + [exact[|exact| - 1].Floor]
  }

  function Remainder(value: real): real {
    value - value.Floor as real
  }

  /** The sort's comparison: larger remainder first, then the earlier index. */
  predicate Precedes(exact: seq<real>, i: nat, j: nat)
    requires i < |exact| && j < |exact|
  {
    Remainder(exact[i]) > Remainder(exact[j]) || (Remainder(exact[i]) == Remainder(exact[j]) && i < j)
  }

  ghost predicate Indices(exact: seq<real>, order: seq<nat>) {
    forall k :: 0 <= k < |order| ==> order[k] < |exact|
  }

  function Insert(exact: seq<real>, order: seq<nat>, i: nat): (r: seq<nat>)
    requires Indices(exact, order) && i < |exact|
    ensures Indices(exact, r) && |r| == |order| + 1
    ensures forall x: nat :: x in r <==> x == i || x in order
  {
    if order == [] then [i]
    else if Precedes(exact, i, order[0]) then [i] + order
    else
      assert order == [order[0]] + order[1..];
      [order[0]] + Insert(exact, order[1..], i)
  }

  function OrderUpTo(exact: seq<real>, n: nat): (r: seq<nat>)
    requires n <= |exact|
    ensures Indices(exact, r) && |r| == n
    ensures forall x: nat :: x in r <==> x < n
  {
    if n == 0 then [] else Insert(exact, OrderUpTo(exact, n - 1), n - 1)
  }

  /** The indices by falling remainder. */
  function Order(exact: seq<real>): (r: seq<nat>)
    ensures Indices(exact, r) && |r| == |exact|
    ensures forall x: nat :: x in r <==> x < |exact|
  {
    OrderUpTo(exact, |exact|)
  }

  /** One more for each index listed. */
  function Bump(parts: seq<int>, order: seq<nat>): (r: seq<int>)
    requires forall k :: 0 <= k < |order| ==> order[k] < |parts|
    ensures |r| == |parts|
  {
    if order == [] then parts
    else
      var before := Bump(parts, order[..|order| - 1]);
      before[order[|order| - 1] := before[order[|order| - 1]] + 1]
  }

  function Nothing(n: nat): seq<int> {
    if n == 0 then [] else Nothing(n - 1) + [0]
  }

  function Clamp(x: int, lo: nat, hi: nat): nat
    requires lo <= hi
  {
    if x < lo then lo else if x > hi then hi else x
  }

  function Split(total: int, weights: seq<real>, totalWeight: real): seq<int> {
    if weights == [] || totalWeight <= 0.0 || total <= 0 then Nothing(|weights|)
    else
      var exact := Exact(total, weights, totalWeight);
      var floors := Floors(exact);
      var order := Order(exact);
      Bump(floors, order[..Clamp(total - Sum(floors), 0, |order|)])
  }

  /** `splitByWeight`: the library's sort is the function `Order`. */
  method SplitByWeight(total: int, weights: seq<real>, totalWeight: real) returns (parts: seq<int>)
    ensures parts == Split(total, weights, totalWeight)
  {
    if |weights| == 0 || totalWeight <= 0.0 || total <= 0 {
      parts := [];
      for i := 0 to |weights|
        invariant parts == Nothing(i)
      {
        parts := parts + [0];
      }
      return;
    }
    var exact, floors := FloorEach(total, weights, totalWeight);
    parts := HandOut(floors, Order(exact), total - Sum(floors));
  }

  method FloorEach(total: int, weights: seq<real>, totalWeight: real)
    returns (exact: seq<real>, floors: seq<int>)
    requires totalWeight > 0.0
    ensures exact == Exact(total, weights, totalWeight) && floors == Floors(exact)
  {
    hide ShareOf;
    exact, floors := [], [];
    for i := 0 to |weights|
      invariant |exact| == i && exact == Exact(total, weights[..i], totalWeight) && floors == Floors(exact)
    {
      assert weights[..i + 1][..i] == weights[..i];
      var share := ShareOf(total, weights[i], totalWeight);
      assert (exact + [share])[..i] == exact;
      exact, floors := exact + [share], floors + [share.Floor];
    }
    assert weights[..|weights|] == weights;
  }

  /** Adds one to each part named by the order, until the leftover or the order runs out. */
  method HandOut(floors: seq<int>, order: seq<nat>, whole: int) returns (parts: seq<int>)
    requires forall k :: 0 <= k < |order| ==> order[k] < |floors|
    ensures parts == Bump(floors, order[..Clamp(whole, 0, |order|)])
  {
    var leftover := whole;
    parts := floors;
    var k := 0;
    while k < |order| && leftover > 0
      invariant 0 <= k <= |order| && leftover == whole - k
      invariant |parts| == |floors| && parts == Bump(floors, order[..k])
      invariant k > 0 ==> whole >= k
    {
      assert order[..k + 1][..k] == order[..k];
      parts := parts[order[k] := parts[order[k]] + 1];
      leftover := leftover - 1;
      k := k + 1;
    }
    assert k == Clamp(whole, 0, |order|);
  }

  // ---- sorted order ----------------------------------------------------------

  ghost predicate Sorted(exact: seq<real>, order: seq<nat>)
    requires Indices(exact, order)
  {
    forall a, b :: 0 <= a < b < |order| ==> Precedes(exact, order[a], order[b])
  }

  lemma {:induction false} InsertKeepsSorted(exact: seq<real>, order: seq<nat>, i: nat)
    requires Indices(exact, order) && i < |exact| && Sorted(exact, order) && i !in order
    ensures Sorted(exact, Insert(exact, order, i))
  {
    if order != [] && !Precedes(exact, i, order[0]) {
      InsertKeepsSorted(exact, order[1..], i);
      var rest := Insert(exact, order[1..], i);
      assert order[0] in order && order[0] != i;
      forall b | 0 <= b < |rest| ensures Precedes(exact, order[0], rest[b]) {
        if rest[b] != i {
          assert rest[b] in order[1..];
        }
      }
    }
  }

  lemma {:induction false} OrderIsSorted(exact: seq<real>, n: nat)
    requires n <= |exact|
    ensures Sorted(exact, OrderUpTo(exact, n))
  {
    if n > 0 {
      OrderIsSorted(exact, n - 1);
      InsertKeepsSorted(exact, OrderUpTo(exact, n - 1), n - 1);
    }
  }

  lemma LargerFirst(exact: seq<real>, a: nat, b: nat)
    requires a <= b < |exact|
    ensures Remainder(exact[Order(exact)[a]]) >= Remainder(exact[Order(exact)[b]])
  {
    if a < b {
      OrderIsSorted(exact, |exact|);
      assert Precedes(exact, Order(exact)[a], Order(exact)[b]);
    }
  }

  lemma PrecedesIsStrict(exact: seq<real>, i: nat, j: nat)
    requires i < |exact| && j < |exact|
    ensures !(Precedes(exact, i, j) && Precedes(exact, j, i))
  {}

  /** The order puts whoever precedes first. */
  lemma OrderAgrees(exact: seq<real>, a: nat, b: nat)
    requires a < |exact| && b < |exact| && Precedes(exact, Order(exact)[a], Order(exact)[b])
    ensures a < b
  {
    hide Precedes, OrderUpTo;
    OrderIsSorted(exact, |exact|);
    PrecedesIsStrict(exact, Order(exact)[a], Order(exact)[b]);
  }

  lemma OrderIsDistinct(exact: seq<real>, a: nat, b: nat)
    requires a < b < |exact|
    ensures Order(exact)[a] != Order(exact)[b]
  {
    OrderIsSorted(exact, |exact|);
    assert Precedes(exact, Order(exact)[a], Order(exact)[b]);
  }

  // ---- what bumping does -----------------------------------------------------

  lemma {:induction false} SumUpdate(parts: seq<int>, i: nat, v: int)
    requires i < |parts|
    ensures Sum(parts[i := v]) == Sum(parts) - parts[i] + v
  {
    var n := |parts| - 1;
    if i == n {
      assert parts[i := v][..n] == parts[..n];
    } else {
      SumUpdate(parts[..n], i, v);
      assert parts[i := v][..n] == parts[..n][i := v];
    }
  }

  lemma {:induction false} BumpAddsOneEach(parts: seq<int>, order: seq<nat>)
    requires forall k :: 0 <= k < |order| ==> order[k] < |parts|
    ensures Sum(Bump(parts, order)) == Sum(parts) + |order|
  {
    if order != [] {
      BumpAddsOneEach(parts, order[..|order| - 1]);
      var before := Bump(parts, order[..|order| - 1]);
      SumUpdate(before, order[|order| - 1], before[order[|order| - 1]] + 1);
    }
  }

  lemma {:induction false} BumpAt(parts: seq<int>, order: seq<nat>, i: nat)
    requires i < |parts|
    requires forall k :: 0 <= k < |order| ==> order[k] < |parts|
    requires forall a, b :: 0 <= a < b < |order| ==> order[a] != order[b]
    ensures Bump(parts, order)[i] == parts[i] + (if i in order then 1 else 0)
  {
    if order != [] {
      var n := |order| - 1;
      BumpAt(parts, order[..n], i);
      assert order == order[..n] + [order[n]];
    }
  }

  // ---- the leftover ----------------------------------------------------------

  /** Shares add up as their weights do, and keep their order. */
  lemma ShareLaws(total: int, a: real, b: real, totalWeight: real)
    requires totalWeight > 0.0
    ensures ShareOf(total, a, totalWeight) + ShareOf(total, b, totalWeight) == ShareOf(total, a + b, totalWeight)
    ensures total > 0 && a > b ==> ShareOf(total, a, totalWeight) > ShareOf(total, b, totalWeight)
    ensures total >= 0 && a >= 0.0 ==> ShareOf(total, a, totalWeight) >= 0.0
    ensures ShareOf(total, 0.0, totalWeight) == 0.0
    ensures ShareOf(total, totalWeight, totalWeight) == total as real
  {
    var t := total as real;
    assert t * (a + b) == t * a + t * b;
    if total > 0 && a > b {
      assert t * a - t * b == t * (a - b) > 0.0;
    }
  }

  lemma {:induction false} ExactShape(total: int, weights: seq<real>, totalWeight: real)
    requires totalWeight > 0.0 && total >= 0 && NonNegative(weights)
    ensures var exact := Exact(total, weights, totalWeight);
            && |exact| == |weights| && NonNegative(exact)
            && (forall i :: 0 <= i < |weights| ==> exact[i] == ShareOf(total, weights[i], totalWeight))
            && SumReal(exact) == ShareOf(total, SumReal(weights), totalWeight)
  {
    hide ShareOf;
    if weights == [] {
      ShareLaws(total, 0.0, 0.0, totalWeight);
    } else {
      var n := |weights| - 1;
      ExactShape(total, weights[..n], totalWeight);
      ShareLaws(total, SumReal(weights[..n]), weights[n], totalWeight);
      ShareLaws(total, weights[n], 0.0, totalWeight);
      var exact := Exact(total, weights, totalWeight);
      assert exact[..n] == Exact(total, weights[..n], totalWeight);
    }
  }

  /** The indices with something after the point. */
  function Fractional(exact: seq<real>, n: nat): set<nat>
    requires n <= |exact|
  {
    if n == 0 then {}
    else Fractional(exact, n - 1) + (if Remainder(exact[n - 1]) > 0.0 then {n - 1} else {})
  }

  lemma {:induction false} FractionalIs(exact: seq<real>, n: nat)
    requires n <= |exact|
    ensures forall i: nat :: i in Fractional(exact, n) <==> i < n && Remainder(exact[i]) > 0.0
  {
    if n > 0 {
      FractionalIs(exact, n - 1);
    }
  }

  /** What flooring loses is less than one for each index that loses anything. */
  lemma {:induction false} LeftoverIsSmall(exact: seq<real>, n: nat)
    requires n <= |exact|
    ensures var lost := SumReal(exact[..n]) - Sum(Floors(exact)[..n]) as real;
            && 0.0 <= lost <= |Fractional(exact, n)| as real
            && (Fractional(exact, n) != {} ==> lost < |Fractional(exact, n)| as real)
  {
    if n > 0 {
      LeftoverIsSmall(exact, n - 1);
      FractionalIs(exact, n - 1);
      assert exact[..n][..n - 1] == exact[..n - 1];
      assert Floors(exact)[..n][..n - 1] == Floors(exact)[..n - 1];
      var before, r := Fractional(exact, n - 1), Remainder(exact[n - 1]);
      assert SumReal(exact[..n]) - Sum(Floors(exact)[..n]) as real
          == SumReal(exact[..n - 1]) - Sum(Floors(exact)[..n - 1]) as real + r;
      assert 0.0 <= r < 1.0;
      assert |Fractional(exact, n)| == |before| + (if r > 0.0 then 1 else 0);
    }
  }

  lemma {:induction false} SetOfSeq(s: seq<nat>)
    ensures |set x: nat | x in s| <= |s|
  {
    if s != [] {
      var n := |s| - 1;
      SetOfSeq(s[..n]);
      assert s == s[..n] + [s[n]];
      assert (set x: nat | x in s) == (set x: nat | x in s[..n]) + {s[n]};
    }
  }

  lemma SubsetIsSmaller(a: set<nat>, b: set<nat>)
    requires a <= b
    ensures |a| <= |b|
  {
    assert b == a + (b - a);
  }

  /** The leftover is never handed to an index that lost nothing by flooring. */
  lemma OnlyFractionalBumped(exact: seq<real>, leftover: nat, k: nat)
    requires k < leftover <= |Fractional(exact, |exact|)| && k < |exact|
    ensures Remainder(exact[Order(exact)[k]]) > 0.0
  {
    hide Remainder, OrderUpTo;
    var order, n := Order(exact), |exact|;
    FractionalIs(exact, n);
    if Remainder(exact[order[k]]) <= 0.0 {
      forall i | i in Fractional(exact, n) ensures i in order[..k] {
        assert i in order;
        var j :| 0 <= j < n && order[j] == i;
        if j >= k {
          LargerFirst(exact, k, j);
        } else {
          assert order[..k][j] == i;
        }
      }
      SetOfSeq(order[..k]);
      SubsetIsSmaller(Fractional(exact, n), set x: nat | x in order[..k]);
      assert false;
    }
  }

  // ---- the split -------------------------------------------------------------

  ghost predicate Weights(weights: seq<real>, totalWeight: real) {
    NonNegative(weights) && totalWeight == SumReal(weights)
  }

  lemma {:induction false} NothingShape(n: nat)
    ensures |Nothing(n)| == n && Sum(Nothing(n)) == 0
    ensures forall i :: 0 <= i < n ==> Nothing(n)[i] == 0
  {
    if n > 0 {
      NothingShape(n - 1);
      assert Nothing(n)[..n - 1] == Nothing(n - 1);
    }
  }

  /** How many of the largest remainders get one more. */
  lemma LeftoverOf(total: int, weights: seq<real>, totalWeight: real) returns (leftover: nat)
    requires total > 0 && totalWeight > 0.0 && Weights(weights, totalWeight)
    ensures var exact := Exact(total, weights, totalWeight);
            && |exact| == |weights|
            && leftover == total - Sum(Floors(exact))
            && leftover <= |Fractional(exact, |exact|)| && leftover <= |exact|
            && Split(total, weights, totalWeight) == Bump(Floors(exact), Order(exact)[..leftover])
  {
    hide ShareOf, Exact, Order, Fractional, Bump;
    var exact := Exact(total, weights, totalWeight);
    ExactShape(total, weights, totalWeight);
    ShareLaws(total, totalWeight, 0.0, totalWeight);
    LeftoverIsSmall(exact, |exact|);
    assert exact[..|exact|] == exact && Floors(exact)[..|exact|] == Floors(exact);
    leftover := total - Sum(Floors(exact));
    FractionalIs(exact, |exact|);
    SetOfSeq(Order(exact));
    SubsetIsSmaller(Fractional(exact, |exact|), set x: nat | x in Order(exact));
  }

  /** The parts are the whole: no zatoshi is made or lost. */
  lemma SplitIsExact(total: int, weights: seq<real>, totalWeight: real)
    requires total >= 0 && Weights(weights, totalWeight)
    ensures |Split(total, weights, totalWeight)| == |weights|
    ensures total == 0 || totalWeight > 0.0 ==> Sum(Split(total, weights, totalWeight)) == total
  {
    if total > 0 && totalWeight > 0.0 {
      var leftover := LeftoverOf(total, weights, totalWeight);
      var exact := Exact(total, weights, totalWeight);
      BumpAddsOneEach(Floors(exact), Order(exact)[..leftover]);
    } else {
      NothingShape(|weights|);
    }
  }

  /** Each part is its exact share rounded down, or one more; one more only if something was
      rounded off. So a part with no weight is nothing at all. */
  lemma PartIsFloorOrOneMore(total: int, weights: seq<real>, totalWeight: real, i: nat)
    requires total > 0 && totalWeight > 0.0 && Weights(weights, totalWeight) && i < |weights|
    ensures |Split(total, weights, totalWeight)| == |weights|
    ensures var exact := ShareOf(total, weights[i], totalWeight);
            var part := Split(total, weights, totalWeight)[i];
            && exact.Floor <= part <= exact.Floor + 1
            && (Remainder(exact) == 0.0 ==> part as real == exact)
    ensures weights[i] == 0.0 ==> Split(total, weights, totalWeight)[i] == 0
  {
    hide ShareOf, Exact, Order, Split, Fractional, Bump;
    var leftover := LeftoverOf(total, weights, totalWeight);
    var exact := Exact(total, weights, totalWeight);
    ExactShape(total, weights, totalWeight);
    ShareLaws(total, 0.0, 0.0, totalWeight);
    Bumped(exact, leftover, i);
  }

  /** Who gets one more: exactly those among the first `leftover` by remainder. */
  lemma Bumped(exact: seq<real>, leftover: nat, i: nat)
    requires leftover <= |Fractional(exact, |exact|)| && leftover <= |exact| && i < |exact|
    ensures Bump(Floors(exact), Order(exact)[..leftover])[i]
         == exact[i].Floor + (if i in Order(exact)[..leftover] then 1 else 0)
    ensures i in Order(exact)[..leftover] ==> Remainder(exact[i]) > 0.0
  {
    var order := Order(exact)[..leftover];
    forall a, b | 0 <= a < b < |order| ensures order[a] != order[b] {
      OrderIsDistinct(exact, a, b);
    }
    BumpAt(Floors(exact), order, i);
    if i in order {
      var k :| 0 <= k < leftover && order[k] == i;
      OnlyFractionalBumped(exact, leftover, k);
    }
  }

  /** Whoever precedes someone rounded up is rounded up too. */
  lemma PrecedingIsBumped(exact: seq<real>, leftover: nat, i: nat, j: nat)
    requires leftover <= |exact| && i < |exact| && j < |exact|
    requires Precedes(exact, i, j) && j in Order(exact)[..leftover]
    ensures i in Order(exact)[..leftover]
  {
    hide Precedes;
    var order := Order(exact);
    assert i in order;
    var a :| 0 <= a < |order| && order[a] == i;
    var b :| 0 <= b < leftover && order[b] == j;
    OrderAgrees(exact, a, b);
    assert order[..leftover][a] == i;
  }

  /** A larger weight never gets a smaller part. */
  lemma LargerWeightIsNotLess(total: int, weights: seq<real>, totalWeight: real, i: nat, j: nat)
    requires total > 0 && totalWeight > 0.0 && Weights(weights, totalWeight)
    requires i < |weights| && j < |weights| && weights[i] > weights[j]
    ensures |Split(total, weights, totalWeight)| == |weights|
    ensures Split(total, weights, totalWeight)[i] >= Split(total, weights, totalWeight)[j]
  {
    hide ShareOf, Exact, Order, Split, Fractional, Bump;
    var leftover := LeftoverOf(total, weights, totalWeight);
    var exact := Exact(total, weights, totalWeight);
    ExactShape(total, weights, totalWeight);
    ShareLaws(total, weights[i], weights[j], totalWeight);
    Bumped(exact, leftover, i);
    Bumped(exact, leftover, j);
    if exact[i].Floor == exact[j].Floor && j in Order(exact)[..leftover] {
      PrecedingIsBumped(exact, leftover, i, j);
    }
  }

  /** Nobody is rounded up while somebody with a larger remainder, or the same one and an earlier
      place, is rounded down. */
  lemma LargestRemaindersFirst(total: int, weights: seq<real>, totalWeight: real, i: nat, j: nat)
    requires total > 0 && totalWeight > 0.0 && Weights(weights, totalWeight)
    requires i < |weights| && j < |weights|
    ensures |Split(total, weights, totalWeight)| == |weights|
    ensures var p, q := ShareOf(total, weights[i], totalWeight), ShareOf(total, weights[j], totalWeight);
            var parts := Split(total, weights, totalWeight);
            (Remainder(p) > Remainder(q) || (Remainder(p) == Remainder(q) && i < j)) && parts[j] > q.Floor
            ==> parts[i] > p.Floor
  {
    hide ShareOf, Exact, Order, Split, Fractional, Bump, Remainder;
    var leftover := LeftoverOf(total, weights, totalWeight);
    var exact := Exact(total, weights, totalWeight);
    ExactShape(total, weights, totalWeight);
    Bumped(exact, leftover, i);
    Bumped(exact, leftover, j);
    if Precedes(exact, i, j) && j in Order(exact)[..leftover] {
      PrecedingIsBumped(exact, leftover, i, j);
    }
  }
}
