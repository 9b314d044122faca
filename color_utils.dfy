/**
 * The older colour utilities over plain hex strings: factorial, the palette
 * count, and the enumeration of ordered palettes with optional sampling.
 */
module ColorUtils {
  import opened Types
  import opened Combinatorics
  import opened Helpers

  /** `factorial`: the product 1 * 2 * ... * n, which is 1 for n <= 0. */
  method Factorial(n: int) returns (result: int)
    ensures result == Fact(n)
    ensures result >= 1
  {
    FactPositive(n);
    if n == 0 {
      return 1;
    }
    result := 1;
    var i := 1;
    while i <= n
      invariant 1 <= i <= (if n >= 1 then n + 1 else 1)
      invariant result == Fact(i - 1)
    {
      result := result * i;
      i := i + 1;
    }
  }

  /**
   * `calculateTotalPossiblePalettes`: factorial(n) / factorial(n - k), which is
   * the same count as `calculateTotalPossiblePermutations`.
   */
  method CalculateTotalPossiblePalettes(inputColorsLength: int, paletteSize: int) returns (r: int)
    ensures r == PermutationCount(inputColorsLength, paletteSize)
  {
    if inputColorsLength < paletteSize || paletteSize <= 0 {
      return 0;
    }
    var numerator := Factorial(inputColorsLength);
    var denominator := Factorial(inputColorsLength - paletteSize);
    FactSplit(inputColorsLength, paletteSize);
    ExactDivision(FallingFactorial(inputColorsLength, paletteSize), denominator);
    r := numerator / denominator;
  }

  lemma ExactDivision(a: int, b: int)
    requires b >= 1
    ensures (a * b) / b == a
  {
    var q, r := (a * b) / b, (a * b) % b;
    assert a * b == q * b + r && 0 <= r < b;
    assert (a - q) * b == r;
    MultipleBelow(a - q, b, r);
  }

  /** The only multiple of b in [0, b) is 0 * b. */
  lemma MultipleBelow(x: int, b: int, r: int)
    requires b >= 1 && 0 <= r < b && x * b == r
    ensures x == 0
  {
  }

  /** Each selection as an unused string palette. */
  function Unused(cs: seq<seq<string>>): (r: seq<StrPalette>)
    ensures |r| == |cs|
    ensures forall j :: 0 <= j < |cs| ==> r[j] == StrPalette(cs[j], false)
  {
    seq(|cs|, j requires 0 <= j < |cs| => StrPalette(cs[j], false))
  }

  lemma UnusedAppend(a: seq<seq<string>>, b: seq<seq<string>>)
    ensures Unused(a + b) == Unused(a) + Unused(b)
  {
  }

  /** The palettes of branch i, then those of the later branches, are those of branches i onwards. */
  lemma HelperStep(current: seq<string>, available: seq<string>, remaining: nat, i: nat, before: seq<StrPalette>)
    requires remaining > 0 && i < |available|
    ensures
      var here := Extend(current + [available[i]], ValueArrangements(RemoveValue(available, available[i]), remaining - 1));
      (before + Unused(here)) + Unused(Extend(current, ValueArrangeFrom(available, remaining, i + 1)))
        == before + Unused(Extend(current, ValueArrangeFrom(available, remaining, i)))
  {
    var color := available[i];
    var sub := ValueArrangements(RemoveValue(available, color), remaining - 1);
    var here := Extend(current + [color], sub);
    var later := Extend(current, ValueArrangeFrom(available, remaining, i + 1));
    assert ValueArrangeFrom(available, remaining, i) == Prefixed(color, sub) + ValueArrangeFrom(available, remaining, i + 1);
    ExtendAppend(current, Prefixed(color, sub), ValueArrangeFrom(available, remaining, i + 1));
    ExtendPrefixed(current, color, sub);
    UnusedAppend(here, later);
  }

  /**
   * `generateHelper` of colorUtils: with `current` chosen, appends one unused
   * palette per ordered selection of `remaining` more colours; choosing a
   * colour removes every copy of that string from the available ones.
   */
  method GenerateHelper(current: seq<string>, remaining: nat, availableColors: seq<string>, result: seq<StrPalette>)
    returns (out: seq<StrPalette>)
    ensures out == result + Unused(Extend(current, ValueArrangements(availableColors, remaining)))
    decreases remaining
  {
    if remaining == 0 {
      out := result + [StrPalette(current, false)];
      var e := Extend(current, ValueArrangements(availableColors, 0));
      assert e[0] == current + [] == current;
      return;
    }
    out := result;
    for i := 0 to |availableColors|
      invariant out + Unused(Extend(current, ValueArrangeFrom(availableColors, remaining, i)))
             == result + Unused(Extend(current, ValueArrangements(availableColors, remaining)))
    {
      var color := availableColors[i];
      var nextAvailable := RemoveValue(availableColors, color);
      HelperStep(current, availableColors, remaining, i, out);
      out := GenerateHelper(current + [color], remaining - 1, nextAvailable, out);
    }
  }

  /** The first `numSamples` palettes of a shuffle when there are more than that, else all in order. */
  function Sample(all: seq<StrPalette>, numSamples: int, picks: seq<nat>): seq<StrPalette> {
    if |all| > numSamples && numSamples >= 0 then Shuffled(all, picks)[..numSamples] else all
  }

  /**
   * A sample never exceeds `numSamples`, takes every palette when they fit,
   * otherwise exactly `numSamples` of them, each at most as often as in the
   * enumeration, and distinct when the enumeration is.
   */
  lemma SampleSpec(all: seq<StrPalette>, numSamples: int, picks: seq<nat>)
    requires numSamples >= 0
    ensures |Sample(all, numSamples, picks)| == if |all| <= numSamples then |all| else numSamples
    ensures |all| <= numSamples ==> Sample(all, numSamples, picks) == all
    ensures multiset(Sample(all, numSamples, picks)) <= multiset(all)
    ensures Distinct(all) ==> Distinct(Sample(all, numSamples, picks))
  {
    if |all| > numSamples {
      var sh := Shuffled(all, picks);
      ShuffledMultiset(all, picks);
      assert sh == sh[..numSamples] + sh[numSamples..];
      assert multiset(sh[..numSamples]) <= multiset(sh);
      if Distinct(all) {
        ShuffledDistinct(all, picks);
      }
    }
  }

  /**
   * `generatePalettes` of colorUtils: every ordered selection of `paletteSize`
   * input strings as an unused palette, then a random sample of `numSamples`
   * of them when there are more (`picks` stands for the random sort).
   */
  method GeneratePalettes(inputColors: seq<string>, paletteSize: int, numSamples: int, picks: seq<nat>)
    returns (r: seq<StrPalette>)
    ensures |inputColors| == 0 || paletteSize <= 0 || numSamples <= 0 ==> r == []
    ensures |inputColors| > 0 && paletteSize > 0 && numSamples > 0 ==>
      r == Sample(Unused(ValueArrangements(inputColors, paletteSize)), numSamples, picks)
    ensures numSamples > 0 ==> |r| <= numSamples
    ensures forall j :: 0 <= j < |r| ==>
      && |r[j].colors| == paletteSize && Distinct(r[j].colors) && !r[j].used
      && forall x :: x in r[j].colors ==> x in inputColors
  {
    if |inputColors| == 0 || paletteSize <= 0 || numSamples <= 0 {
      return [];
    }
    var result := GenerateHelper([], paletteSize, inputColors, []);
    var all := Unused(ValueArrangements(inputColors, paletteSize));
    ExtendEmpty(ValueArrangements(inputColors, paletteSize));
    assert result == all;
    if |result| > numSamples {
      var shuffled := Shuffled(result, picks);
      r := shuffled[..numSamples];
    } else {
      r := result;
    }
    SampleSpec(all, numSamples, picks);
    SampleShape(all, inputColors, paletteSize, numSamples, picks);
  }

  /** Every sampled palette is one of the enumeration, so it has the enumeration's shape. */
  lemma SampleShape(all: seq<StrPalette>, inputColors: seq<string>, paletteSize: nat, numSamples: int, picks: seq<nat>)
    requires numSamples >= 0
    requires all == Unused(ValueArrangements(inputColors, paletteSize))
    ensures forall j :: 0 <= j < |Sample(all, numSamples, picks)| ==>
      var p := Sample(all, numSamples, picks)[j];
      && |p.colors| == paletteSize && Distinct(p.colors) && !p.used
      && forall x :: x in p.colors ==> x in inputColors
  {
    var r := Sample(all, numSamples, picks);
    SampleSpec(all, numSamples, picks);
    ValueArrangementsShape(inputColors, paletteSize);
    forall j | 0 <= j < |r|
      ensures |r[j].colors| == paletteSize && Distinct(r[j].colors) && !r[j].used
      ensures forall x :: x in r[j].colors ==> x in inputColors
    {
      assert r[j] in multiset(all);
      var m :| 0 <= m < |all| && all[m] == r[j];
      assert ValueArrangements(inputColors, paletteSize)[m] in ValueArrangements(inputColors, paletteSize);
    }
  }

  /**
   * Over distinct input strings the enumeration holds exactly
   * `calculateTotalPossiblePalettes` palettes, pairwise distinct.
   */
  lemma EnumerationOfDistinct(inputColors: seq<string>, paletteSize: nat)
    requires Distinct(inputColors) && paletteSize > 0
    ensures |Unused(ValueArrangements(inputColors, paletteSize))| == PermutationCount(|inputColors|, paletteSize)
    ensures Distinct(Unused(ValueArrangements(inputColors, paletteSize)))
  {
    ValueArrangementsOfDistinct(inputColors, paletteSize);
    ArrangementsCount(inputColors, paletteSize);
    if |inputColors| < paletteSize { FallingFactorialZero(|inputColors|, paletteSize); }
    ArrangementsDistinct(inputColors, paletteSize);
    var u := Unused(Arrangements(inputColors, paletteSize));
    forall p, q | 0 <= p < q < |u| ensures u[p] != u[q] {
      assert u[p].colors == Arrangements(inputColors, paletteSize)[p];
    }
  }
}
