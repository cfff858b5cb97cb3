// How charges are shared out over the flats.
module Splits {
  import opened Seqs
  import opened Sums
  import opened Money

  /** _split_charge, in paise: by weight when a total weight is given, else equal with the remainder on the last
      flat. */
  function SplitCharge(total: real, index: nat, count: nat, weight: real, totalWeight: real): int {
    if total <= 0.0 || count <= 0 then 0
    else if totalWeight > 0.0 then RoundMoney(total * weight / totalWeight)
    else
      var base := RoundMoney(total / count as real);
      if index == count - 1 then RoundMoney(total - (base * (count - 1)) as real) else base
  }

  function EqualShare(total: real, count: nat): nat -> int {
    (i: nat) => SplitCharge(total, i, count, 1.0, 0.0)
  }

  function Base(total: real, count: nat): int
    requires count > 0
  {
    RoundMoney(total / count as real)
  }

  /** An error of at most half a paisa for each of n roundings. */
  predicate Within(error: real, n: nat) {
    -(n as real) / 2.0 <= error <= n as real / 2.0
  }

  lemma {:induction false} ConstantSum(n: nat, m: nat, f: nat -> int, c: int)
    requires n <= m && forall i: nat | i < n :: f(i) == c
    ensures SumBy(Range(m)[..n], f) == n * c
  {
    if n > 0 {
      ConstantSum(n - 1, m, f, c);
      SumStep(Range(m), n - 1, f);
      assert n * c == (n - 1) * c + c;
    }
  }

  /** Equal shares over all flats add up to the rounded total, exactly. */
  lemma EqualSharesConserve(total: real, count: nat)
    requires count > 0
    ensures SumBy(Range(count), EqualShare(total, count)) == if total <= 0.0 then 0 else RoundMoney(total)
  {
    var f := EqualShare(total, count);
    assert Range(count)[..count] == Range(count);
    if total <= 0.0 {
      ConstantSum(count, count, f, 0);
    } else {
      var base := Base(total, count);
      ConstantSum(count - 1, count, f, base);
      SumStep(Range(count), count - 1, f);
    }
  }

  lemma ScaledError(k: nat, error: real)
    requires -0.5 <= error <= 0.5
    ensures -(k as real) / 2.0 <= k as real * error <= k as real / 2.0
  {
  }

  /** What the other flats' rounding leaves on the last one. */
  lemma Carried(total: real, count: nat) returns (carry: real)
    requires total > 0.0 && count > 0
    ensures Within(carry, count - 1)
    ensures total - (Base(total, count) * (count - 1)) as real == total / count as real + carry
  {
    Nearest(total / count as real);
    carry := CarryOf(total, total / count as real, Base(total, count), count - 1);
  }

  lemma CarryOf(total: real, mean: real, base: int, k: nat) returns (carry: real)
    requires total == (k + 1) as real * mean && -0.5 <= base as real - mean <= 0.5
    ensures Within(carry, k) && total - (base * k) as real == mean + carry
  {
    var error := mean - base as real;
    carry := ScaledBy(k, error);
    assert (base * k) as real == k as real * base as real;
    assert (k + 1) as real * mean == k as real * mean + mean;
    assert mean == error + base as real;
  }

  lemma ScaledBy(k: nat, error: real) returns (r: real)
    requires -0.5 <= error <= 0.5
    ensures r == k as real * error && Within(r, k)
  {
    r := k as real * error;
    ScaledError(k, error);
  }

  /** The last share is within half a paisa per other flat of the mean, plus its own rounding. */
  lemma LastShareBounds(total: real, count: nat)
    requires total > 0.0 && count > 0
    ensures Within(EqualShare(total, count)(count - 1) as real - total / count as real, count)
    ensures total == total.Floor as real ==>
              Within(EqualShare(total, count)(count - 1) as real - total / count as real, count - 1)
  {
    var carry := Carried(total, count);
    var taken := Base(total, count) * (count - 1);
    LastShareRounding(total, taken);
    assert EqualShare(total, count)(count - 1) == RoundMoney(total - taken as real);
  }

  lemma LastShareRounding(total: real, taken: int)
    ensures -0.5 <= RoundMoney(total - taken as real) as real - (total - taken as real) <= 0.5
    ensures total == total.Floor as real ==> RoundMoney(total - taken as real) as real == total - taken as real
  {
    Nearest(total - taken as real);
    if total == total.Floor as real {
      assert total - taken as real == (total.Floor - taken) as real;
      WholePaise(total.Floor - taken);
    }
  }

  /** Every share but the last is within half a paisa of the mean. */
  lemma OtherShareBounds(total: real, count: nat, i: nat)
    requires total > 0.0 && i < count - 1
    ensures -0.5 <= EqualShare(total, count)(i) as real - total / count as real <= 0.5
  {
    Nearest(total / count as real);
  }

  // ---- When the last equal share is negative ----

  /** The total in whole half-paise, rounded down: all that rounding halves and shares can see of it. */
  function HalfPaise(total: real): int {
    (2.0 * total).Floor
  }

  lemma PositiveFactor(m: real, x: real)
    requires m > 0.0
    ensures (m * x >= 0.0 ==> x >= 0.0) && (m * x > 0.0 ==> x > 0.0)
  {
    if x < 0.0 {
      assert m * (-x) > 0.0;
      assert m * x == -(m * (-x));
    }
  }

  /** The equal share is the total's half-paise, plus one half per flat, divided by two halves per flat. */
  lemma BaseIs(total: real, count: nat)
    requires total > 0.0 && count > 0
    ensures Base(total, count) == (HalfPaise(total) + count) / (2 * count)
  {
    var mean, k := total / count as real, (HalfPaise(total) + count) / (2 * count);
    assert (2 * count * k) as real <= 2.0 * total + count as real < (2 * count * k + 2 * count) as real;
    HalfBand(count, k, mean, total);
    RoundUnique(mean, k);
  }

  lemma HalfBand(count: nat, k: int, mean: real, total: real)
    requires count > 0 && count as real * mean == total
    requires (2 * count * k) as real <= 2.0 * total + count as real < (2 * count * k + 2 * count) as real
    ensures -0.5 < k as real - mean <= 0.5
  {
    var m := 2.0 * count as real;
    assert (2 * count * k) as real == m * k as real by { RealProduct(2 * k, count); }
    Distribute(m, mean + 0.5, k as real);
    Distribute(m, k as real + 0.5, mean);
    assert m * mean == 2.0 * total;
    assert m * (mean + 0.5) == 2.0 * total + count as real;
    assert m * (k as real + 0.5) == m * k as real + count as real;
    PositiveFactor(m, mean + 0.5 - k as real);
    PositiveFactor(m, k as real + 0.5 - mean);
  }

  /** For every total: with d its half-paise plus one half per flat, the last share is negative exactly when twice the
      quotient of d by two halves per flat, plus the remainder, falls short of the number of flats by more than one. */
  lemma LastShareNegativeIff(total: real, count: nat)
    requires total > 0.0 && count > 0
    ensures var d := HalfPaise(total) + count;
      EqualShare(total, count)(count - 1) < 0 <==> 2 * (d / (2 * count)) + d % (2 * count) + 1 < count
  {
    var h, b := HalfPaise(total), Base(total, count);
    BaseIs(total, count);
    assert EqualShare(total, count)(count - 1) == (h + 1) / 2 - b * (count - 1);
  }

  /** For a whole number of paise: exactly when at least half a paisa is left per flat and the quotient and remainder
      together fall short of the number of flats by more than one. */
  lemma WholeLastShareNegativeIff(total: nat, count: nat)
    requires total > 0 && count > 0
    ensures EqualShare(total as real, count)(count - 1) < 0
            <==> 2 * (total % count) >= count && total / count + total % count + 1 < count
  {
    LastShareNegativeIff(total as real, count);
    HalfOfWhole(total);
    HalvesOfWhole(total, count);
    var q, r, d := total / count, total % count, 2 * total + count;
    var k, rest := d / (2 * count), d % (2 * count);
    assert 0 <= r < count;
    assert if 2 * r < count then k == q && rest == 2 * r + count else k == q + 1 && rest == 2 * r - count;
    QuotientNonNegative(total, count);
  }

  lemma HalfOfWhole(total: nat)
    ensures HalfPaise(total as real) == 2 * total
  {
    assert 2.0 * total as real == (2 * total) as real;
  }

  lemma QuotientNonNegative(total: nat, count: nat)
    requires count > 0
    ensures total / count >= 0
  {
  }

  lemma HalvesOfWhole(total: nat, count: nat)
    requires count > 0
    ensures var (q, r, d) := (total / count, total % count, 2 * total + count);
      if 2 * r < count then d / (2 * count) == q && d % (2 * count) == 2 * r + count
      else d / (2 * count) == q + 1 && d % (2 * count) == 2 * r - count
  {
    var q, r := total / count, total % count;
    assert total == count * q + r;
    assert 2 * total == 2 * count * q + 2 * r;
    if 2 * r < count {
      Division(2 * total + count, 2 * count, q, 2 * r + count);
    } else {
      assert 2 * count * (q + 1) == 2 * count * q + 2 * count;
      Division(2 * total + count, 2 * count, q + 1, 2 * r - count);
    }
  }

  lemma Division(x: int, d: nat, q: int, r: int)
    requires d > 0 && 0 <= r < d && x == d * q + r
    ensures x / d == q && x % d == r
  {
    var k := x / d - q;
    assert d * (x / d) == d * q + d * k;
    MultipleBounds(d, k);
  }

  lemma MultipleBounds(d: int, k: int)
    requires d >= 0
    ensures (k > 0 ==> d * k >= d) && (k < 0 ==> d * k <= -d)
  {
  }

  /** A mean of at least half a paisa for each flat keeps the last share from being negative. */
  lemma LargeTotalsAreSafe(total: real, count: nat)
    requires count > 0 && total > 0.0 && total / count as real >= count as real / 2.0
    ensures EqualShare(total, count)(count - 1) >= 0
  {
    LastShareBounds(total, count);
  }

  /** Five paise over ten flats: nine shares of one paisa and a last share of minus four. */
  lemma NegativeLastShare()
    ensures EqualShare(5.0, 10)(0) == 1 && EqualShare(5.0, 10)(9) == -4
    ensures EqualShare(5.0, 10)(9) < 0
  {
    WholeLastShareNegativeIff(5, 10);
    BaseIs(5.0, 10);
    WholePaise(-4);
  }

  // ---- Shares by weight ----

  function RealSum(ws: seq<real>): real {
    if |ws| == 0 then 0.0 else RealSum(ws[..|ws| - 1]) + ws[|ws| - 1]
  }

  function WeightedShare(total: real, ws: seq<real>, totalWeight: real): nat -> int {
    (i: nat) => if i < |ws| then SplitCharge(total, i, |ws|, ws[i], totalWeight) else 0
  }

  function RoundAt(parts: seq<real>): nat -> int {
    (i: nat) => if i < |parts| then RoundMoney(parts[i]) else 0
  }

  lemma {:induction false} RoundedPrefix(parts: seq<real>, n: nat)
    requires n <= |parts|
    ensures Within(SumBy(Range(|parts|)[..n], RoundAt(parts)) as real - RealSum(parts[..n]), n)
  {
    if n > 0 {
      RoundedPrefix(parts, n - 1);
      SumStep(Range(|parts|), n - 1, RoundAt(parts));
      assert parts[..n][..n - 1] == parts[..n - 1];
      Nearest(parts[n - 1]);
    }
  }

  /** The unrounded shares. */
  function Parts(total: real, ws: seq<real>, totalWeight: real): (r: seq<real>)
    requires totalWeight > 0.0
    ensures |r| == |ws| && forall i :: 0 <= i < |r| ==> r[i] == Part(total, ws[i], totalWeight)
  {
    seq(|ws|, i requires 0 <= i < |ws| => Part(total, ws[i], totalWeight))
  }

  function Part(total: real, weight: real, totalWeight: real): real
    requires totalWeight > 0.0
  {
    total * weight / totalWeight
  }

  /** An additive map carries the sum of the weights to the sum of the parts. */
  lemma {:induction false} AdditiveSum(ws: seq<real>, parts: seq<real>, scale: real -> real, n: nat)
    requires n <= |ws| == |parts| && scale(0.0) == 0.0
    requires forall i | 0 <= i < |ws| :: parts[i] == scale(ws[i])
    requires forall i | 0 <= i < |ws| :: scale(RealSum(ws[..i + 1])) == scale(RealSum(ws[..i])) + scale(ws[i])
    ensures RealSum(parts[..n]) == scale(RealSum(ws[..n]))
  {
    if n > 0 {
      AdditiveSum(ws, parts, scale, n - 1);
      assert parts[..n][..n - 1] == parts[..n - 1];
      assert parts[n - 1] == scale(ws[n - 1]);
    }
  }

  function Scaling(total: real, w: real): real -> real
    requires w > 0.0
  {
    (x: real) => Part(total, x, w)
  }

  lemma RealSumStep(ws: seq<real>, i: nat)
    requires i < |ws|
    ensures RealSum(ws[..i + 1]) == RealSum(ws[..i]) + ws[i]
  {
    assert ws[..i + 1][..i] == ws[..i];
  }

  lemma ScalingStep(total: real, ws: seq<real>, w: real, i: nat)
    requires w > 0.0 && i < |ws|
    ensures Scaling(total, w)(RealSum(ws[..i + 1])) == Scaling(total, w)(RealSum(ws[..i])) + Scaling(total, w)(ws[i])
  {
    RealSumStep(ws, i);
  }

  lemma ScalingEnds(total: real, w: real)
    requires w > 0.0
    ensures Scaling(total, w)(0.0) == 0.0 && Scaling(total, w)(w) == total
  {
  }

  lemma PartsTotal(total: real, ws: seq<real>)
    requires RealSum(ws) > 0.0
    ensures RealSum(Parts(total, ws, RealSum(ws))) == total
  {
    var parts, scale := Parts(total, ws, RealSum(ws)), Scaling(total, RealSum(ws));
    ScalingEnds(total, RealSum(ws));
    forall i | 0 <= i < |ws| ensures scale(RealSum(ws[..i + 1])) == scale(RealSum(ws[..i])) + scale(ws[i]) {
      ScalingStep(total, ws, RealSum(ws), i);
    }
    AdditiveSum(ws, parts, scale, |ws|);
    assert ws[..|ws|] == ws && parts[..|ws|] == parts;
  }

  /** Shares weighted by area add up to the total within half a paisa per flat. */
  lemma WeightedSharesNearTotal(total: real, ws: seq<real>)
    requires total > 0.0 && RealSum(ws) > 0.0
    ensures Within(SumBy(Range(|ws|), WeightedShare(total, ws, RealSum(ws))) as real - total, |ws|)
  {
    var parts := Parts(total, ws, RealSum(ws));
    RoundedPrefix(parts, |ws|);
    assert parts[..|ws|] == parts && Range(|ws|)[..|ws|] == Range(|ws|);
    PartsTotal(total, ws);
    SameShares(total, ws);
  }

  lemma SameShares(total: real, ws: seq<real>)
    requires total > 0.0 && RealSum(ws) > 0.0
    ensures SumBy(Range(|ws|), WeightedShare(total, ws, RealSum(ws)))
              == SumBy(Range(|ws|), RoundAt(Parts(total, ws, RealSum(ws))))
  {
    SumExt(Range(|ws|), WeightedShare(total, ws, RealSum(ws)), RoundAt(Parts(total, ws, RealSum(ws))));
  }

  // ---- Water, by head ----

  const HEADS: nat -> int := (n: nat) => n

  /** The resident count used as divisor: the flats stand in when nobody is resident. */
  function Divisor(inmates: seq<nat>): int {
    if SumBy(inmates, HEADS) != 0 then SumBy(inmates, HEADS) else |inmates|
  }

  function WaterRate(total: real, inmates: seq<nat>): int {
    if total != 0.0 && Divisor(inmates) != 0 then RoundMoney(total / Divisor(inmates) as real) else 0
  }

  function WaterShare(rate: int): nat -> int {
    (n: nat) => RoundMoney((rate * n) as real)
  }

  lemma {:induction false} WaterSum(inmates: seq<nat>, rate: int)
    ensures SumBy(inmates, WaterShare(rate)) == rate * SumBy(inmates, HEADS)
  {
    if |inmates| == 0 {
    } else {
      WaterSum(inmates[..|inmates| - 1], rate);
      WholePaise(rate * inmates[|inmates| - 1]);
    }
  }

  /** Water charges add up to the water total within half a paisa per resident, unless nobody is resident: then nothing
      at all is charged, so the bound holds exactly when someone is resident or there is nothing to charge. */
  lemma WaterNearTotalIff(total: real, inmates: seq<nat>)
    ensures SumBy(inmates, HEADS) >= 0
    ensures Within(SumBy(inmates, WaterShare(WaterRate(total, inmates))) as real - total, SumBy(inmates, HEADS))
            <==> SumBy(inmates, HEADS) > 0 || total == 0.0
  {
    if |inmates| > 0 { SumAtLeast(inmates, HEADS, inmates[0]); }
    var heads: nat, rate := SumBy(inmates, HEADS), WaterRate(total, inmates);
    WaterSum(inmates, rate);
    WholePaise(0);
    if heads > 0 {
      RateTimesHeads(total, heads);
    }
  }

  lemma RateTimesHeads(total: real, heads: nat)
    requires heads > 0
    ensures Within((RoundMoney(total / heads as real) * heads) as real - total, heads)
  {
    var mean := total / heads as real;
    var n := RoundMoney(mean);
    Nearest(mean);
    ScaledRounding(n, mean, heads, total);
  }

  lemma ScaledRounding(n: int, mean: real, heads: nat, total: real)
    requires -0.5 <= n as real - mean <= 0.5 && heads as real * mean == total
    ensures Within((n * heads) as real - total, heads)
  {
    ScaledError(heads, n as real - mean);
    Distribute(heads as real, n as real, mean);
    RealProduct(n, heads);
  }

  lemma Distribute(h: real, a: real, b: real)
    ensures h * (a - b) == h * a - h * b
  {
  }

  lemma {:induction false} RealProduct(n: int, k: nat)
    ensures (n * k) as real == k as real * n as real
  {
    if k > 0 {
      RealProduct(n, k - 1);
      assert n * k == n * (k - 1) + n;
      assert k as real * n as real == (k - 1) as real * n as real + n as real;
    }
  }
}
