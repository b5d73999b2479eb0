/**
 Largest-remainder apportionment of a token total over weighted sections. The
 exact share of section `i` is `total * w[i] / Sum(w)`; all comparisons are made
 on integers by multiplying with `Sum(w)`.
 */
module Apportionment {

  function Sum(s: seq<int>): int {
    if s == [] then 0 else Sum(s[..|s| - 1]) + s[|s| - 1]
  }

  function Floor(w: seq<nat>, total: nat, i: nat): (f: nat)
    requires i < |w| && Sum(w) > 0
  {
    total * w[i] / Sum(w)
  }

  function Rest(w: seq<nat>, total: nat, i: nat): (r: nat)
    requires i < |w| && Sum(w) > 0
    ensures r < Sum(w)
    ensures total * w[i] == Sum(w) * Floor(w, total, i) + r
  {
    total * w[i] % Sum(w)
  }

  function Floors(w: seq<nat>, total: nat): (f: seq<int>)
    requires Sum(w) > 0
    ensures |f| == |w| && forall i :: 0 <= i < |w| ==> f[i] == Floor(w, total, i)
  {
    seq(|w|, i requires 0 <= i < |w| => Floor(w, total, i))
  }

  function Rests(w: seq<nat>, total: nat): (r: seq<int>)
    requires Sum(w) > 0
    ensures |r| == |w| && forall i :: 0 <= i < |w| ==> r[i] == Rest(w, total, i)
  {
    seq(|w|, i requires 0 <= i < |w| => Rest(w, total, i))
  }

  // ----------------------------------------------------------- sums

  lemma Spread(a: int, b: int, x: int, y: int, p: int, q: int)
    ensures a * (x + p) + b * (y + q) == a * x + b * y + (a * p + b * q)
  {
  }

  lemma {:induction false} SumLinear(s: seq<int>, t: seq<int>, u: seq<int>, a: int, b: int)
    requires |s| == |t| == |u| && forall i :: 0 <= i < |s| ==> u[i] == a * s[i] + b * t[i]
    ensures Sum(u) == a * Sum(s) + b * Sum(t)
  {
    if s != [] {
      var n := |s| - 1;
      SumLinear(s[..n], t[..n], u[..n], a, b);
      Spread(a, b, Sum(s[..n]), Sum(t[..n]), s[n], t[n]);
    }
  }

  lemma {:induction false} SumMonotone(s: seq<int>, t: seq<int>)
    requires |s| == |t| && forall i :: 0 <= i < |s| ==> s[i] <= t[i]
    ensures Sum(s) <= Sum(t)
    ensures forall i :: 0 <= i < |s| ==> t[i] - s[i] <= Sum(t) - Sum(s)
  {
    if s != [] {
      var n := |s| - 1;
      SumMonotone(s[..n], t[..n]);
      forall i | 0 <= i < |s|
        ensures t[i] - s[i] <= Sum(t) - Sum(s)
      {
        if i < n {
          assert t[..n][i] - s[..n][i] <= Sum(t[..n]) - Sum(s[..n]);
        }
      }
    }
  }

  lemma {:induction false} SumConstant(s: seq<int>, c: int)
    requires forall i :: 0 <= i < |s| ==> s[i] == c
    ensures Sum(s) == c * |s|
  {
    if s != [] {
      SumConstant(s[..|s| - 1], c);
    }
  }

  lemma {:induction false} SumUpdate(s: seq<int>, i: nat, v: int)
    requires i < |s|
    ensures Sum(s[i := v]) == Sum(s) - s[i] + v
  {
    var n := |s| - 1;
    if i == n {
      assert s[i := v][..n] == s[..n];
    } else {
      SumUpdate(s[..n], i, v);
      assert s[i := v][..n] == s[..n][i := v];
    }
  }

  // -------------------------------------------------------- ranking

  /** The larger remainder goes first, then the larger weight, then the earlier section. */
  predicate Precedes(w: seq<nat>, total: nat, i: nat, j: nat)
    requires i < |w| && j < |w| && Sum(w) > 0
  {
    var a, b := Rest(w, total, i), Rest(w, total, j);
    a > b || (a == b && (w[i] > w[j] || (w[i] == w[j] && i < j)))
  }

  predicate Indices(w: seq<nat>, order: seq<nat>) {
    forall k :: 0 <= k < |order| ==> order[k] < |w|
  }

  ghost predicate Ranked(w: seq<nat>, total: nat, order: seq<nat>)
    requires Indices(w, order) && Sum(w) > 0
  {
    forall k, l :: 0 <= k < l < |order| ==> Precedes(w, total, order[k], order[l])
  }

  function Insert(w: seq<nat>, total: nat, i: nat, order: seq<nat>): (r: seq<nat>)
    requires i < |w| && Indices(w, order) && Sum(w) > 0
    ensures Indices(w, r) && |r| == |order| + 1
    ensures forall j :: j in r <==> j == i || j in order
  {
    if order == [] then [i]
    else if Precedes(w, total, i, order[0]) then [i] + order
    else
      assert order == [order[0]] + order[1..];
      [order[0]] + Insert(w, total, i, order[1..])
  }

  lemma {:induction false} InsertKeepsRanked(w: seq<nat>, total: nat, i: nat, order: seq<nat>)
    requires i < |w| && Indices(w, order) && Sum(w) > 0 && Ranked(w, total, order) && i !in order
    ensures Ranked(w, total, Insert(w, total, i, order))
  {
    if order != [] && !Precedes(w, total, i, order[0]) {
      var rest := order[1..];
      InsertKeepsRanked(w, total, i, rest);
      var r := Insert(w, total, i, rest);
      forall l | 0 <= l < |r|
        ensures Precedes(w, total, order[0], r[l])
      {
        assert r[l] in rest || r[l] == i;
      }
    }
  }

  /** The first `n` sections, stably sorted by descending remainder and weight. */
  function Ranking(w: seq<nat>, total: nat, n: nat): (order: seq<nat>)
    requires n <= |w| && Sum(w) > 0
    ensures Indices(w, order) && |order| == n
    ensures forall i: nat :: i in order <==> i < n
  {
    if n == 0 then []
    else
      var before := Ranking(w, total, n - 1);
      Insert(w, total, n - 1, before)
  }

  lemma {:induction false} RankingIsRanked(w: seq<nat>, total: nat, n: nat)
    requires n <= |w| && Sum(w) > 0
    ensures Ranked(w, total, Ranking(w, total, n))
  {
    if n > 0 {
      RankingIsRanked(w, total, n - 1);
      InsertKeepsRanked(w, total, n - 1, Ranking(w, total, n - 1));
    }
  }

  // --------------------------------------------------------- shares

  /** What the floors leave over. */
  function Remainder(w: seq<nat>, total: nat): int
    requires Sum(w) > 0
  {
    total - Sum(Floors(w, total))
  }

  /** What the floors leave over is carried by the remainders. */
  lemma RemainderScaled(w: seq<nat>, total: nat)
    requires Sum(w) > 0
    ensures Sum(w) * Remainder(w, total) == Sum(Rests(w, total))
  {
    var W := Sum(w);
    var floors, rests := Floors(w, total), Rests(w, total);
    var ideal: seq<int> := seq(|w|, i requires 0 <= i < |w| => total * w[i]);
    SumLinear(w, w, ideal, total, 0);
    SumLinear(floors, rests, ideal, W, 1);
    assert W * (total - Sum(floors)) == W * total - W * Sum(floors);
  }

  lemma RestsAreSmall(w: seq<nat>, total: nat)
    requires Sum(w) > 0
    ensures 0 <= Sum(Rests(w, total)) <= (Sum(w) - 1) * |w|
  {
    var none: seq<int> := seq(|w|, i => 0);
    var most: seq<int> := seq(|w|, i => Sum(w) - 1);
    SumConstant(none, 0);
    SumConstant(most, Sum(w) - 1);
    SumMonotone(none, Rests(w, total));
    SumMonotone(Rests(w, total), most);
  }

  lemma CancelFactor(factor: int, x: int, y: int)
    requires factor > 0
    ensures factor * x < factor * y ==> x < y
    ensures factor * x <= factor * y ==> x <= y
  {
    assert factor * (y - x) == factor * y - factor * x;
  }

  /** One pass over the ranking suffices: the remainder is below the number of sections. */
  lemma RemainderIsSmall(w: seq<nat>, total: nat)
    requires Sum(w) > 0
    ensures 0 <= Remainder(w, total) < |w|
  {
    hide Sum, Remainder, Rests;
    RemainderScaled(w, total);
    RestsAreSmall(w, total);
    CancelFactor(Sum(w), 0, Remainder(w, total));
    CancelFactor(Sum(w), Remainder(w, total), |w|);
    assert (Sum(w) - 1) * |w| == Sum(w) * |w| - |w|;
  }

  /** The sections that receive one token beyond their floor. */
  function Favoured(w: seq<nat>, total: nat): (top: seq<nat>)
    requires Sum(w) > 0
    ensures forall k :: 0 <= k < |top| ==> top[k] < |w|
  {
    RemainderIsSmall(w, total);
    Ranking(w, total, |w|)[..Remainder(w, total)]
  }

  function Extra(top: seq<nat>, i: nat): int { if i in top then 1 else 0 }

  function Shares(w: seq<nat>, total: nat): (a: seq<int>)
    requires Sum(w) > 0
    ensures |a| == |w|
  {
    seq(|w|, i requires 0 <= i < |w| => Floor(w, total, i) + Extra(Favoured(w, total), i))
  }

  function Extras(w: seq<nat>, top: seq<nat>): (e: seq<int>)
    ensures |e| == |w|
  {
    seq(|w|, i requires 0 <= i < |w| => Extra(top, i))
  }

  predicate Distinct(s: seq<nat>) {
    forall k, l :: 0 <= k < l < |s| ==> s[k] != s[l]
  }

  /** Distinct sections are counted once each. */
  lemma {:induction false} SumOfExtras(w: seq<nat>, top: seq<nat>)
    requires Indices(w, top) && Distinct(top)
    ensures Sum(Extras(w, top)) == |top|
  {
    if top == [] {
      SumConstant(Extras(w, top), 0);
    } else {
      var rest, last := top[..|top| - 1], top[|top| - 1];
      SumOfExtras(w, rest);
      assert forall i :: i in top <==> i in rest || i == last;
      assert Extras(w, top) == Extras(w, rest)[last := 1];
      SumUpdate(Extras(w, rest), last, 1);
    }
  }

  /** A favoured section precedes every other one; the favoured sections are as many as the remainder. */
  lemma FavouredPrecede(w: seq<nat>, total: nat)
    requires Sum(w) > 0
    ensures |Favoured(w, total)| == Remainder(w, total) && Distinct(Favoured(w, total))
    ensures forall i, j :: i in Favoured(w, total) && 0 <= j < |w| && j !in Favoured(w, total) ==> Precedes(w, total, i, j)
  {
    RemainderIsSmall(w, total);
    RankingIsRanked(w, total, |w|);
    var order, r := Ranking(w, total, |w|), Remainder(w, total);
    forall i, j | i in order[..r] && 0 <= j < |w| && j !in order[..r]
      ensures Precedes(w, total, i, j)
    {
      var k :| 0 <= k < r && order[k] == i;
      assert order == order[..r] + order[r..] && j in order;
      var l :| 0 <= l < |order[r..]| && order[r..][l] == j;
      assert order[r + l] == j;
    }
  }

  /** The shares add up to the total. */
  lemma SharesSumToTotal(w: seq<nat>, total: nat)
    requires Sum(w) > 0
    ensures Sum(Shares(w, total)) == total
  {
    FavouredPrecede(w, total);
    SumOfExtras(w, Favoured(w, total));
    SumLinear(Floors(w, total), Extras(w, Favoured(w, total)), Shares(w, total), 1, 1);
  }

  lemma SumOfScaledExtras(w: seq<nat>, top: seq<nat>, c: int)
    requires Indices(w, top) && Distinct(top)
    ensures Sum(seq(|w|, j requires 0 <= j < |w| => if j in top then c else 0)) == c * |top|
  {
    var scaled: seq<int> := seq(|w|, j requires 0 <= j < |w| => if j in top then c else 0);
    SumOfExtras(w, top);
    SumLinear(Extras(w, top), Extras(w, top), scaled, c, 0);
  }

  /** An extra token never goes to a section whose share is already exact. */
  lemma FavouredHaveRest(w: seq<nat>, total: nat, i: nat)
    requires Sum(w) > 0 && i < |w| && i in Favoured(w, total)
    ensures Rest(w, total, i) > 0
  {
    hide Sum, Floor, Rest, Favoured, Remainder;
    var top := Favoured(w, total);
    if Rest(w, total, i) == 0 {
      FavouredPrecede(w, total);
      var ceiling: seq<int> := seq(|w|, j requires 0 <= j < |w| => if j in top then Sum(w) - 1 else 0);
      SumOfScaledExtras(w, top, Sum(w) - 1);
      SumMonotone(Rests(w, total), ceiling);
      assert ceiling[i] - Rests(w, total)[i] == Sum(w) - 1;
      RemainderScaled(w, total);
      Distribute(Remainder(w, total), Sum(w), 1);
    }
  }

  /** Every share is the floor or the ceiling of the exact one. */
  lemma {:induction false} SharesStayWithinQuota(w: seq<nat>, total: nat, i: nat)
    requires Sum(w) > 0 && i < |w|
    ensures Sum(w) * (Shares(w, total)[i] - 1) < total * w[i] < Sum(w) * (Shares(w, total)[i] + 1)
    ensures Rest(w, total, i) == 0 ==> Sum(w) * Shares(w, total)[i] == total * w[i]
  {
    hide Floor, Rest, Sum, Favoured;
    var W, share, f, r := Sum(w), Shares(w, total)[i], Floor(w, total, i), Rest(w, total, i);
    Distribute(W, share, 1);
    Distribute(W, f, 1);
    if i in Favoured(w, total) {
      FavouredHaveRest(w, total, i);
      assert share == f + 1;
    } else {
      assert share == f;
    }
  }

  /**
   Who gets a token beyond the floor: whoever has the larger remainder, on equal
   remainders the heavier section, on equal weights the earlier one, comes first.
   */
  lemma {:induction false} HandOutOrder(w: seq<nat>, total: nat, i: nat, j: nat)
    requires Sum(w) > 0 && i < |w| && j < |w|
    requires
      var a, b := total * w[i] % Sum(w), total * w[j] % Sum(w);
      a > b || (a == b && (w[i] > w[j] || (w[i] == w[j] && i < j)))
    ensures Shares(w, total)[i] - total * w[i] / Sum(w) in {0, 1}
    ensures Shares(w, total)[j] == total * w[j] / Sum(w) + 1 ==> Shares(w, total)[i] == total * w[i] / Sum(w) + 1
  {
    FavouredPrecede(w, total);
    ShareAt(w, total, i);
    ShareAt(w, total, j);
    RestIsRemainder(w, total, i);
    RestIsRemainder(w, total, j);
    hide Sum, Floor, Rest, Favoured, Shares;
    assert !Precedes(w, total, j, i) && (j in Favoured(w, total) ==> i in Favoured(w, total));
  }

  lemma RestIsRemainder(w: seq<nat>, total: nat, i: nat)
    requires Sum(w) > 0 && i < |w|
    ensures Rest(w, total, i) == total * w[i] % Sum(w) && Floor(w, total, i) == total * w[i] / Sum(w)
  {
  }

  /** A strictly heavier section never receives fewer tokens. */
  lemma {:induction false} SharesAreMonotone(w: seq<nat>, total: nat, i: nat, j: nat)
    requires Sum(w) > 0 && i < |w| && j < |w| && w[i] > w[j]
    ensures Shares(w, total)[i] >= Shares(w, total)[j]
  {
    hide Floor, Rest, Sum, Favoured;
    FavouredPrecede(w, total);
    var W, f, g, r, q := Sum(w), Floor(w, total, i), Floor(w, total, j), Rest(w, total, i), Rest(w, total, j);
    CancelSign(total, w[i] - w[j]);
    Distribute(total, w[i], w[j]);
    Distribute(W, f, 1);
    CancelFactor(W, g, f + 1);
    assert f == g ==> Precedes(w, total, i, j) && !Precedes(w, total, j, i);
  }

  // ------------------------------------------------------- optimality

  function Abs(x: int): nat { if x < 0 then -x else x }

  /** How far an allocation is from the exact shares, summed up and scaled by `Sum(w)`. */
  function Deviations(w: seq<nat>, total: nat, y: seq<int>): (d: seq<int>)
    requires |y| == |w|
    ensures |d| == |w|
  {
    seq(|w|, i requires 0 <= i < |w| => Abs(Sum(w) * y[i] - total * w[i]))
  }

  function Deviation(w: seq<nat>, total: nat, y: seq<int>): int
    requires |y| == |w|
  {
    Sum(Deviations(w, total, y))
  }

  lemma ProductSigns(W: int, theta: int, d: int)
    requires 0 <= theta < W
    ensures d >= 1 ==> W * d >= W && theta * d >= theta
    ensures d <= 0 ==> W * d <= 0 && W * d <= theta * d
  {
    if d >= 1 {
      CancelSign(W, d - 1);
      CancelSign(theta, d - 1);
    } else {
      CancelSign(W, -d);
      CancelSign(W - theta, -d);
    }
  }

  lemma CancelSign(x: int, y: int)
    requires x >= 0 && y >= 0
    ensures x * y >= 0
    ensures x * (y + 1) == x * y + x && x * -y == -(x * y)
  {
  }

  /** The price argument for one section, with `p` for `W * d` and `q` for `theta * d`. */
  lemma DeviationSlope(W: int, r: int, theta: int, d: int, a: int, p: int, q: int)
    requires 0 <= r < W && 0 <= theta < W && (a == 0 || a == 1)
    requires (a == 1 ==> theta <= r) && (a == 0 ==> r <= theta)
    requires d >= 1 ==> p >= W && q >= theta
    requires d <= 0 ==> p <= 0 && p <= q
    ensures Abs(p - r) - Abs((if a == 1 then W else 0) - r) >= p - 2 * q - (if a == 1 then W - 2 * theta else 0)
  {
  }

  lemma LastFavouredIsSmallest(w: seq<nat>, total: nat, i: nat)
    requires Sum(w) > 0 && i < |w| && Favoured(w, total) != []
    ensures var top := Favoured(w, total);
      var theta := Rest(w, total, top[|top| - 1]);
      if i in top then theta <= Rest(w, total, i) else Rest(w, total, i) <= theta
  {
    hide Floor, Rest, Sum;
    FavouredPrecede(w, total);
    RemainderIsSmall(w, total);
    RankingIsRanked(w, total, |w|);
    var top, order := Favoured(w, total), Ranking(w, total, |w|);
    if i in top {
      var k :| 0 <= k < |top| && top[k] == i;
      assert order[k] == i && order[|top| - 1] == top[|top| - 1];
      assert k < |top| - 1 ==> Precedes(w, total, order[k], order[|top| - 1]);
    } else {
      assert Precedes(w, total, top[|top| - 1], i);
    }
  }

  lemma NothingFavouredNothingLeft(w: seq<nat>, total: nat, i: nat)
    requires Sum(w) > 0 && i < |w| && Favoured(w, total) == []
    ensures Rest(w, total, i) == 0
  {
    hide Floor, Rest, Favoured;
    FavouredPrecede(w, total);
    RemainderScaled(w, total);
    var none: seq<int> := seq(|w|, i => 0);
    SumConstant(none, 0);
    SumMonotone(none, Rests(w, total));
    assert Rest(w, total, i) == Rests(w, total)[i] - none[i];
  }

  /** The smallest remainder among the favoured sections separates them from the others. */
  lemma Threshold(w: seq<nat>, total: nat) returns (theta: nat)
    requires Sum(w) > 0
    ensures theta < Sum(w)
    ensures forall i :: 0 <= i < |w| ==>
      if i in Favoured(w, total) then theta <= Rest(w, total, i) else Rest(w, total, i) <= theta
  {
    hide Floor, Rest, Sum, Favoured;
    var top := Favoured(w, total);
    theta := if top == [] then 0 else Rest(w, total, top[|top| - 1]);
    forall i | 0 <= i < |w|
      ensures if i in top then theta <= Rest(w, total, i) else Rest(w, total, i) <= theta
    {
      if top == [] {
        NothingFavouredNothingLeft(w, total, i);
      } else {
        LastFavouredIsSmallest(w, total, i);
      }
    }
  }

  lemma Distribute(x: int, y: int, z: int)
    ensures x * (y + z) == x * y + x * z && x * (y - z) == x * y - x * z && (y - z) * x == y * x - z * x
  {
  }

  lemma SectionSlope(W: int, f: int, r: int, theta: int, y: int, a: int)
    requires 0 <= r < W && 0 <= theta < W && (a == 0 || a == 1)
    requires (a == 1 ==> theta <= r) && (a == 0 ==> r <= theta)
    ensures Abs(W * y - (W * f + r)) - Abs(W * (f + a) - (W * f + r)) >= (W - 2 * theta) * y - (W - 2 * theta) * (f + a)
  {
    hide Abs;
    var d := y - f;
    ProductSigns(W, theta, d);
    DeviationSlope(W, r, theta, d, a, W * d, theta * d);
    Distribute(W, y, f);
    Distribute(W, f, a);
    SlopeDifference(W, theta, y, f, a);
  }

  lemma SlopeDifference(W: int, theta: int, y: int, f: int, a: int)
    requires a == 0 || a == 1
    ensures (W - 2 * theta) * y - (W - 2 * theta) * (f + a) ==
      W * (y - f) - 2 * (theta * (y - f)) - if a == 1 then W - 2 * theta else 0
  {
    var slope, d := W - 2 * theta, y - f;
    Distribute(slope, y, f + a);
    Distribute(slope, d, a);
    Distribute(d, W, 2 * theta);
    assert y - (f + a) == d - a;
  }

  lemma SumSlope(y: seq<int>, s: seq<int>, price: seq<int>, slope: int)
    requires |y| == |s| == |price| && forall i :: 0 <= i < |y| ==> price[i] == slope * y[i] - slope * s[i]
    requires Sum(y) == Sum(s)
    ensures Sum(price) == 0
  {
    forall i | 0 <= i < |y|
      ensures price[i] == slope * y[i] + -slope * s[i]
    {
    }
    SumLinear(y, s, price, slope, -slope);
    assert slope * Sum(y) + -slope * Sum(s) == 0;
  }

  lemma ShareAt(w: seq<nat>, total: nat, i: nat)
    requires Sum(w) > 0 && i < |w|
    ensures
      var a := Extra(Favoured(w, total), i);
      Shares(w, total)[i] == Floor(w, total, i) + a && a == if i in Favoured(w, total) then 1 else 0
  {
    hide Floor, Sum, Favoured;
  }

  lemma DeviationAt(w: seq<nat>, total: nat, a: seq<int>, i: nat)
    requires Sum(w) > 0 && |a| == |w| && i < |w|
    ensures Deviations(w, total, a)[i] == Abs(Sum(w) * a[i] - (Sum(w) * Floor(w, total, i) + Rest(w, total, i)))
  {
    hide Floor, Rest, Sum, Abs;
  }

  lemma SectionBound(w: seq<nat>, total: nat, y: seq<int>, theta: nat, i: nat)
    requires Sum(w) > 0 && |y| == |w| && i < |w| && theta < Sum(w)
    requires if i in Favoured(w, total) then theta <= Rest(w, total, i) else Rest(w, total, i) <= theta
    ensures Deviations(w, total, Shares(w, total))[i] + ((Sum(w) - 2 * theta) * y[i] - (Sum(w) - 2 * theta) * Shares(w, total)[i])
         <= Deviations(w, total, y)[i]
  {
    hide Floor, Rest, Sum, Favoured, Shares, Deviations, Abs, Extra;
    var a := Extra(Favoured(w, total), i);
    ShareAt(w, total, i);
    DeviationAt(w, total, Shares(w, total), i);
    DeviationAt(w, total, y, i);
    SectionSlope(Sum(w), Floor(w, total, i), Rest(w, total, i), theta, y[i], a);
  }

  /** Among all integer allocations of the same total the shares deviate least from the exact ones. */
  lemma {:induction false} SharesAreOptimal(w: seq<nat>, total: nat, y: seq<int>)
    requires Sum(w) > 0 && |y| == |w| && Sum(y) == total
    ensures Deviation(w, total, Shares(w, total)) <= Deviation(w, total, y)
  {
    hide Floor, Rest, Sum, Favoured, Shares, Deviations;
    var shares := Shares(w, total);
    var theta := Threshold(w, total);
    var slope := Sum(w) - 2 * theta;
    var ds, dy := Deviations(w, total, shares), Deviations(w, total, y);
    var price: seq<int> := seq(|w|, i requires 0 <= i < |w| => slope * y[i] - slope * shares[i]);
    var bound: seq<int> := seq(|w|, i requires 0 <= i < |w| => ds[i] + price[i]);
    forall i | 0 <= i < |w|
      ensures bound[i] <= dy[i]
    {
      SectionBound(w, total, y, theta, i);
    }
    SumMonotone(bound, dy);
    SumLinear(ds, price, bound, 1, 1);
    SharesSumToTotal(w, total);
    SumSlope(y, shares, price, slope);
  }
}
