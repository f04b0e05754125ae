/** Exact half-up ratios in 128-bit arithmetic, shares that add up, and compositions. */
module Rounding {
  import opened Wrappers
  import opened CrossTab

  const TWO_64 := 0x1_0000_0000_0000_0000
  const MAX_UINT64 := TWO_64 - 1

  predicate Unsigned(x: int) {
    0 <= x <= MAX_UINT64
  }

  /** The magnitude, computed so that the smallest 64-bit value stays representable. */
  function AbsMinor(value: int): (r: int)
    requires Fits(value)
    ensures Unsigned(r)
  {
    if value >= 0 then value
    else
      var flipped := -(value + 1);
      assert Fits(flipped);
      flipped + 1
  }

  /** numerator * multiplier / denominator, rounded half up, through a 128-bit product. */
  function RatioHalfUp(numerator: int, denominator: int, multiplier: int): Option<int>
    requires Unsigned(numerator) && Unsigned(denominator) && Unsigned(multiplier)
  {
    if denominator == 0 then None
    else
      var product := numerator * multiplier;
      var high, low := product / TWO_64, product % TWO_64;
      if high >= denominator then None
      else
        var dividend := high * TWO_64 + low;
        var quotient, remainder := dividend / denominator, dividend % denominator;
        var roundsUp := remainder >= denominator / 2 + denominator % 2;
        if roundsUp && quotient == MAX_UINT64 then None
        else
          var rounded := if roundsUp then quotient + 1 else quotient;
          if rounded > MAX_INT64 then None else Some(rounded)
  }

  /** The exact ratio rounded half up. */
  function Rounded(product: int, denominator: int): int
    requires denominator > 0
  {
    (2 * product + denominator) / (2 * denominator)
  }

  lemma Scaled(b: int, d: int)
    requires b > 0
    ensures d >= 1 ==> b * d >= b
    ensures d <= -1 ==> b * d <= -b
  {
  }

  lemma DivisionIs(a: int, b: int, q: int)
    requires b > 0 && b * q <= a < b * q + b
    ensures a / b == q
  {
    var d := q - a / b;
    assert a == b * (a / b) + a % b;
    assert b * d == b * q - b * (a / b);
    Scaled(b, d);
  }

  lemma RoundedIs(product: int, d: int)
    requires d > 0 && product >= 0
    ensures Rounded(product, d) == product / d + if product % d >= d / 2 + d % 2 then 1 else 0
  {
    var q, r := product / d, product % d;
    assert product == d * q + r;
    assert 2 * product + d == (2 * d) * q + (2 * r + d) by {
      assert (2 * d) * q == 2 * (d * q);
    }
    if r >= d / 2 + d % 2 {
      assert (2 * d) * (q + 1) == (2 * d) * q + 2 * d;
      DivisionIs(2 * product + d, 2 * d, q + 1);
    } else {
      DivisionIs(2 * product + d, 2 * d, q);
    }
  }

  /** The rounded ratio is the nearest whole number, and of two equally near ones the larger. */
  lemma RoundedIsNearest(product: int, d: int)
    requires d > 0
    ensures 0 - d < 2 * (d * Rounded(product, d) - product) <= d
  {
    var r := Rounded(product, d);
    assert 2 * product + d == (2 * d) * r + (2 * product + d) % (2 * d);
    assert (2 * d) * r == 2 * (d * r);
  }

  lemma Bounded(d: int, q: int, bound: int)
    requires d > 0
    ensures q < bound ==> d * q <= d * (bound - 1)
    ensures q >= bound ==> d * q >= d * bound
  {
  }

  lemma HighPart(product: int, d: int)
    requires product >= 0 && d > 0
    ensures product / TWO_64 >= d <==> product / d >= TWO_64
  {
    var q, h := product / d, product / TWO_64;
    assert product == d * q + product % d;
    assert product == TWO_64 * h + product % TWO_64;
    Bounded(d, q, TWO_64);
    Bounded(TWO_64, h, d);
  }

  lemma ProductIsNatural(a: int, b: int)
    requires a >= 0 && b >= 0
    ensures a * b >= 0
  {
  }

  /** The ratio is exact, and fails only on a zero denominator or a result beyond 63 bits. */
  lemma RatioIsExact(numerator: int, denominator: int, multiplier: int)
    requires Unsigned(numerator) && Unsigned(denominator) && Unsigned(multiplier)
    ensures RatioHalfUp(numerator, denominator, multiplier) ==
            if denominator == 0 || Rounded(numerator * multiplier, denominator) > MAX_INT64 then None
            else Some(Rounded(numerator * multiplier, denominator))
  {
    if denominator > 0 {
      var product := numerator * multiplier;
      ProductIsNatural(numerator, multiplier);
      RoundedIs(product, denominator);
      HighPart(product, denominator);
      assert product / TWO_64 * TWO_64 + product % TWO_64 == product;
      hide Rounded;
    }
  }

  // Shares ----------------------------------------------------------------------------------------------------

  function Sum(xs: seq<int>): int {
    if xs == [] then 0 else Sum(xs[..|xs| - 1]) + xs[|xs| - 1]
  }

  const TENTHS := 1000

  // A rounded share is within half a tenth of the true share.
  lemma ShareError(part: int, whole: int)
    requires part >= 0 && whole > 0
    ensures
      var error := 2 * whole * Rounded(part * TENTHS, whole) - 2 * TENTHS * part;
      -whole < error <= whole
  {
    var a, b := 2 * (part * TENTHS) + whole, 2 * whole;
    assert a == b * (a / b) + a % b;
  }

  /** Each share is its part of the whole in tenths of a percent, rounded half up. */
  ghost predicate SharesOf(shares: seq<int>, parts: seq<int>, whole: int)
    requires whole > 0
  {
    |shares| == |parts| && forall i :: 0 <= i < |parts| ==>
        parts[i] >= 0 && shares[i] == Rounded(parts[i] * TENTHS, whole)
  }

  lemma {:induction false} SharesError(shares: seq<int>, parts: seq<int>, whole: int)
    requires whole > 0 && SharesOf(shares, parts, whole)
    ensures
      var error := 2 * whole * Sum(shares) - 2 * TENTHS * Sum(parts);
      -whole * |parts| <= error <= whole * |parts|
  {
    if parts != [] {
      var n := |parts| - 1;
      SharesError(shares[..n], parts[..n], whole);
      ShareError(parts[n], whole);
      hide Rounded, SharesOf;
      var w := 2 * whole;
      assert w * Sum(shares) == w * Sum(shares[..n]) + w * shares[n];
      assert whole * |parts| == whole * n + whole;
    }
  }

  /** The shares of `k` parts of a whole differ from 1000 tenths by at most k/2. */
  lemma SharesAddUp(shares: seq<int>, parts: seq<int>, whole: int)
    requires whole > 0 && SharesOf(shares, parts, whole) && Sum(parts) == whole
    ensures -|parts| <= 2 * Sum(shares) - 2 * TENTHS <= |parts|
  {
    SharesError(shares, parts, whole);
    hide *;
    CancelWhole(whole, Sum(shares), |parts|);
  }

  lemma CancelWhole(whole: int, sum: int, k: int)
    requires whole > 0 && -whole * k <= 2 * whole * sum - 2 * TENTHS * whole <= whole * k
    ensures -k <= 2 * sum - 2 * TENTHS <= k
  {
    var error := 2 * sum - 2 * TENTHS;
    assert whole * error == 2 * whole * sum - 2 * TENTHS * whole;
    Cancel(whole, error, k);
  }

  lemma Cancel(whole: int, error: int, k: int)
    requires whole > 0 && -whole * k <= whole * error <= whole * k
    ensures -k <= error <= k
  {
    Bounded(whole, error, k + 1);
    Bounded(whole, -error, k + 1);
  }

  // The average -------------------------------------------------------------------------------------------------

  /** Net divided by a count, rounded half away from zero, in wrapping 64-bit steps. */
  function AveragePerTransaction(net: int, count: nat): Option<int>
    requires Fits(net)
  {
    if count == 0 then None
    else
      var magnitude := AbsMinor(net);
      var quotient, remainder := magnitude / count, magnitude % count;
      var rounded := if remainder >= count - remainder then quotient + 1 else quotient;
      var average := Wrap(rounded);
      Some(if net < 0 then Wrap(-average) else average)
  }

  /** The average fits in 64 bits and is within half a minor unit of the exact quotient, also at the
  smallest 64-bit net; a quotient halfway between two is rounded away from zero. */
  lemma AverageIsWithinHalf(net: int, count: nat)
    requires Fits(net) && count > 0
    ensures
      var average := AveragePerTransaction(net, count).value;
      && Fits(average) && 0 - count <= 2 * (average * count - net) <= count
      && (net >= 0 ==> average >= 0 && 0 - count < 2 * (average * count - net))
      && (net <= 0 ==> average <= 0 && 2 * (average * count - net) < count)
  {
    var magnitude := AbsMinor(net);
    var rounded := HalfUpQuotient(magnitude, count);
    AverageIsSigned(net, count);
    QuotientIsWithinHalf(magnitude, count);
    AbsIs(net);
    assert (-rounded) * count == -(rounded * count);
    hide AbsMinor, HalfUpQuotient, AveragePerTransaction, Wrap;
  }

  function HalfUpQuotient(magnitude: int, count: int): int
    requires count > 0
  {
    var quotient, remainder := magnitude / count, magnitude % count;
    if remainder >= count - remainder then quotient + 1 else quotient
  }

  lemma AverageIsSigned(net: int, count: nat)
    requires Fits(net) && count > 0
    ensures
      var rounded := HalfUpQuotient(AbsMinor(net), count);
      && AveragePerTransaction(net, count) == Some(if net < 0 then -rounded else rounded)
      && 0 <= rounded <= AbsMinor(net) && Fits(if net < 0 then -rounded else rounded)
  {
    var rounded := HalfUpQuotient(AbsMinor(net), count);
    AverageFits(AbsMinor(net), count);
    AbsIs(net);
    WrapFits(rounded);
    WrapFits(-rounded);
    hide Wrap, AbsMinor;
  }

  lemma QuotientIsWithinHalf(magnitude: int, count: int)
    requires magnitude >= 0 && count > 0
    ensures 0 - count < 2 * (HalfUpQuotient(magnitude, count) * count - magnitude) <= count
  {
    var quotient, remainder := magnitude / count, magnitude % count;
    assert magnitude == count * quotient + remainder;
    assert (quotient + 1) * count == quotient * count + count;
  }

  lemma AbsIs(value: int)
    requires Fits(value)
    ensures AbsMinor(value) == if value >= 0 then value else -value
  {
  }

  lemma WrapFits(x: int)
    ensures Fits(x) ==> Wrap(x) == x
    ensures x == MAX_INT64 + 1 ==> Wrap(x) == MIN_INT64 && Wrap(-Wrap(x)) == MIN_INT64
  {
  }

  lemma Doubled(b: int, d: int)
    requires b > 0 && d >= 2
    ensures d * b >= 2 * b
  {
    Scaled(b, d - 2);
    assert d * b == (d - 2) * b + 2 * b;
  }

  lemma AverageFits(magnitude: int, count: nat)
    requires 0 <= magnitude && count > 0
    ensures
      var quotient, remainder := magnitude / count, magnitude % count;
      0 <= (if remainder >= count - remainder then quotient + 1 else quotient) <= magnitude
  {
    var quotient, remainder := magnitude / count, magnitude % count;
    assert magnitude == count * quotient + remainder;
    if quotient > 0 {
      Scaled(quotient, count);
    }
    if count == 1 {
      assert remainder == 0;
    } else if quotient > 0 {
      Doubled(quotient, count);
    }
  }
}
