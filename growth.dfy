/**
 * `generate_growth_pattern`: three synthetic yearly counts for one tag, computed by
 * one of three formulas chosen by the tag's real count. The random draws and the
 * natural logarithm are parameters: `random(n)` is the n-th value `random.random()`
 * returns during the call (in [0, 1)), `ln(n)` is `math.log(n)`.
 */
module GrowthSynthesizer {

  /** The number of synthetic years; the `years` argument does not change it. */
  const Periods: nat := 3

  /** The three formulas: base count above 1500, above 800, and the rest. */
  datatype Tier = Popular | Moderate | Niche

  function TierOf(baseCount: int): Tier {
    if baseCount > 1500 then Popular
    else if baseCount > 800 then Moderate
    else Niche
  }

  /** `random.uniform(a, b)` as CPython computes it from one draw `u` of `random.random()`. */
  function Uniform(a: real, b: real, u: real): real {
    a + (b - a) * u
  }

  /** A draw in [0, 1] puts `uniform(a, b)` in [a, b], at `a` for the draw 0 and at `b` for the draw 1. */
  lemma UniformRange(a: real, b: real, u: real)
    requires a <= b && 0.0 <= u <= 1.0
    ensures a <= Uniform(a, b, u) <= b
    ensures u == 0.0 ==> Uniform(a, b, u) == a
    ensures u == 1.0 ==> Uniform(a, b, u) == b
  {
    FractionOf(b - a, u);
  }

  /** A fraction `f` in [0, 1] of a non-negative `x` lies in [0, x]. */
  lemma FractionOf(x: real, f: real)
    requires x >= 0.0 && 0.0 <= f <= 1.0
    ensures 0.0 <= x * f <= x
  {
  }

  /** `int(x)` on a float: truncation toward zero. */
  function Trunc(x: real): int {
    if x >= 0.0 then x.Floor else -((-x).Floor)
  }

  /** `int(x)` keeps the integer part: it lies between zero and `x`, less than 1 away from `x`. */
  lemma TruncSpec(x: real)
    ensures x >= 0.0 ==> 0 <= Trunc(x) && Trunc(x) as real <= x < Trunc(x) as real + 1.0
    ensures x < 0.0 ==> Trunc(x) <= 0 && Trunc(x) as real - 1.0 < x <= Trunc(x) as real
  {
  }

  /** The pre-truncation volume of year `yearIndex` (0, 1 or 2), given that year's draw `u`. */
  function Volume(baseCount: int, yearIndex: nat, u: real, ln: nat -> real): real {
    match TierOf(baseCount)
    case Popular => PopularVolume(baseCount, yearIndex, u, ln)
    case Moderate => ModerateVolume(baseCount, yearIndex, u)
    case Niche => NicheVolume(baseCount, yearIndex, u)
  }

  /** Above 1500: logarithmic growth times a variation of plus or minus 5 per cent. */
  function PopularVolume(baseCount: int, yearIndex: nat, u: real, ln: nat -> real): real {
    baseCount as real * (0.4 + ln(yearIndex + 2) * 0.3) * Uniform(0.95, 1.05, u)
  }

  /** Above 800: linear growth of 0.18 a year plus a variation in [-0.05, 0.05]. */
  function ModerateVolume(baseCount: int, yearIndex: nat, u: real): real {
    baseCount as real * (0.4 + yearIndex as real * 0.18 + Uniform(-0.05, 0.05, u))
  }

  /** The rest: linear growth of 0.15 a year plus a variation in [-0.1, 0.15]. */
  function NicheVolume(baseCount: int, yearIndex: nat, u: real): real {
    baseCount as real * (0.4 + yearIndex as real * 0.15 + Uniform(-0.1, 0.15, u))
  }

  /** The synthetic count of year `yearIndex`: its volume truncated to an integer. */
  function SyntheticCount(baseCount: int, yearIndex: nat, u: real, ln: nat -> real): int {
    Trunc(Volume(baseCount, yearIndex, u, ln))
  }

  /**
   * Appends one count per year index 0, 1, 2 inside the branch chosen by `baseCount`;
   * year `k` uses the k-th draw of the call.
   */
  method GenerateGrowthPattern(baseCount: int, years: seq<int>, random: nat -> real, start: nat, ln: nat -> real)
    returns (counts: seq<int>)
    ensures |counts| == Periods
    ensures forall k :: 0 <= k < Periods ==> counts[k] == SyntheticCount(baseCount, k, random(start + k), ln)
  {
    counts := [];
    if baseCount > 1500 {
      for yearIndex := 0 to Periods
        invariant CountsSoFar(counts, baseCount, random, start, ln, yearIndex)
      {
        var growth := 0.4 + ln(yearIndex + 2) * 0.3;
        var variation := Uniform(0.95, 1.05, random(start + yearIndex));
        var count := Trunc(baseCount as real * growth * variation);
        TierStep(baseCount, yearIndex, random(start + yearIndex), ln, count);
        CountsStep(counts, baseCount, random, start, ln, count);
        counts := counts + [count];
      }
    } else if baseCount > 800 {
      for yearIndex := 0 to Periods
        invariant CountsSoFar(counts, baseCount, random, start, ln, yearIndex)
      {
        var growth := 0.4 + yearIndex as real * 0.18 + Uniform(-0.05, 0.05, random(start + yearIndex));
        var count := Trunc(baseCount as real * growth);
        assert baseCount as real * growth == Volume(baseCount, yearIndex, random(start + yearIndex), ln);
        TierStep(baseCount, yearIndex, random(start + yearIndex), ln, count);
        CountsStep(counts, baseCount, random, start, ln, count);
        counts := counts + [count];
      }
    } else {
      for yearIndex := 0 to Periods
        invariant CountsSoFar(counts, baseCount, random, start, ln, yearIndex)
      {
        var growth := 0.4 + yearIndex as real * 0.15 + Uniform(-0.1, 0.15, random(start + yearIndex));
        var count := Trunc(baseCount as real * growth);
        assert baseCount as real * growth == Volume(baseCount, yearIndex, random(start + yearIndex), ln);
        TierStep(baseCount, yearIndex, random(start + yearIndex), ln, count);
        CountsStep(counts, baseCount, random, start, ln, count);
        counts := counts + [count];
      }
    }
  }

  /** `counts` holds the synthetic counts of the first `n` years. */
  ghost predicate CountsSoFar(counts: seq<int>, baseCount: int, random: nat -> real, start: nat, ln: nat -> real, n: nat) {
    && |counts| == n
    && forall k :: 0 <= k < n ==> counts[k] == SyntheticCount(baseCount, k, random(start + k), ln)
  }

  lemma CountsStep(counts: seq<int>, baseCount: int, random: nat -> real, start: nat, ln: nat -> real, count: int)
    requires CountsSoFar(counts, baseCount, random, start, ln, |counts|)
    requires count == SyntheticCount(baseCount, |counts|, random(start + |counts|), ln)
    ensures CountsSoFar(counts + [count], baseCount, random, start, ln, |counts| + 1)
  {
  }

  /** A count the branch of `baseCount`'s tier computes is that year's synthetic count. */
  lemma TierStep(baseCount: int, yearIndex: nat, u: real, ln: nat -> real, count: int)
    requires TierOf(baseCount) == Popular ==> count == Trunc(PopularVolume(baseCount, yearIndex, u, ln))
    requires TierOf(baseCount) == Moderate ==> count == Trunc(ModerateVolume(baseCount, yearIndex, u))
    requires TierOf(baseCount) == Niche ==> count == Trunc(NicheVolume(baseCount, yearIndex, u))
    ensures count == SyntheticCount(baseCount, yearIndex, u, ln)
  {
  }

  lemma ScaleAtLeast(x: real, f: real, lo: real)
    requires x >= 0.0 && f >= lo
    ensures x * f >= x * lo
  {
  }

  lemma ScaleAtMost(x: real, f: real, hi: real)
    requires x >= 0.0 && f <= hi
    ensures x * f <= x * hi
  {
  }

  /** For a draw in [0, 1] every tier's volume is at least 0.3 times the base count. */
  lemma VolumeLowerBound(baseCount: int, yearIndex: nat, u: real, ln: nat -> real)
    requires baseCount >= 0 && 0.0 <= u <= 1.0 && ln(yearIndex + 2) >= 0.0
    ensures Volume(baseCount, yearIndex, u, ln) >= baseCount as real * 0.3
  {
    var base := baseCount as real;
    var k := yearIndex as real;
    match TierOf(baseCount)
    case Popular =>
      var g := 0.4 + ln(yearIndex + 2) * 0.3;
      var v := Uniform(0.95, 1.05, u);
      ScaleAtLeast(base, g, 0.4);
      ScaleAtLeast(base * g, v, 0.95);
      ScaleAtLeast(0.95, base * g, base * 0.4);
      assert base * g * v >= base * 0.38;
    case Moderate =>
      ScaleAtLeast(base, 0.4 + k * 0.18 + Uniform(-0.05, 0.05, u), 0.35);
    case Niche =>
      ScaleAtLeast(base, 0.4 + k * 0.15 + Uniform(-0.1, 0.15, u), 0.3);
  }

  /**
   * No synthetic count is negative when the base count is not: every tier's growth
   * factor stays positive for draws in [0, 1] (the question of clamping never arises).
   */
  lemma SyntheticCountNonNegative(baseCount: int, yearIndex: nat, u: real, ln: nat -> real)
    requires baseCount >= 0 && 0.0 <= u <= 1.0 && ln(yearIndex + 2) >= 0.0
    ensures SyntheticCount(baseCount, yearIndex, u, ln) >= 0
  {
    VolumeLowerBound(baseCount, yearIndex, u, ln);
    TruncSpec(Volume(baseCount, yearIndex, u, ln));
  }

  /** A tag seen at least four times never gets a zero synthetic count. */
  lemma SyntheticCountPositive(baseCount: int, yearIndex: nat, u: real, ln: nat -> real)
    requires baseCount >= 4 && 0.0 <= u <= 1.0 && ln(yearIndex + 2) >= 0.0
    ensures SyntheticCount(baseCount, yearIndex, u, ln) >= 1
  {
    VolumeLowerBound(baseCount, yearIndex, u, ln);
    TruncSpec(Volume(baseCount, yearIndex, u, ln));
  }

  /** A tag seen once, drawing 0.0 in its first year, gets the count int(0.3) = 0. */
  lemma NicheCountCanBeZero(ln: nat -> real)
    ensures TierOf(1) == Niche && SyntheticCount(1, 0, 0.0, ln) == 0
  {
    TruncSpec(NicheVolume(1, 0, 0.0));
  }

  /** Below the top tier the synthetic count never exceeds the real count (growth stays under 0.85). */
  lemma SyntheticCountAtMostBase(baseCount: int, yearIndex: nat, u: real, ln: nat -> real)
    requires 0 <= baseCount <= 1500 && yearIndex < Periods && 0.0 <= u <= 1.0
    ensures SyntheticCount(baseCount, yearIndex, u, ln) <= baseCount
  {
    VolumeAtMostBase(baseCount, yearIndex, u, ln);
    TruncSpec(Volume(baseCount, yearIndex, u, ln));
  }

  lemma VolumeAtMostBase(baseCount: int, yearIndex: nat, u: real, ln: nat -> real)
    requires 0 <= baseCount <= 1500 && yearIndex < Periods && 0.0 <= u <= 1.0
    ensures Volume(baseCount, yearIndex, u, ln) <= baseCount as real
  {
    var base := baseCount as real;
    var k := yearIndex as real;
    assert k <= 2.0;
    match TierOf(baseCount)
    case Moderate =>
      var f := 0.4 + k * 0.18 + Uniform(-0.05, 0.05, u);
      ScaleAtMost(base, f, 1.0);
      assert ModerateVolume(baseCount, yearIndex, u) <= base;
    case Niche =>
      var f := 0.4 + k * 0.15 + Uniform(-0.1, 0.15, u);
      ScaleAtMost(base, f, 1.0);
      assert NicheVolume(baseCount, yearIndex, u) <= base;
  }
}
