/**
 * The palette helpers of the Redux version: counting and enumerating ordered
 * palettes, the used-first shuffle, hex parsing, number formatting and the
 * dense colour-position statistics.
 */
module Helpers {
  import opened Types
  import opened Combinatorics

  // ---------------------------------------------------------------------------
  // Counting palettes
  // ---------------------------------------------------------------------------

  /** What the source promises for `calculateTotalPossiblePermutations(n, k)`: 0 unless 0 < k <= n, else P(n, k). */
  function PermutationCount(n: int, k: int): int {
    if n < k || k <= 0 then 0 else FallingFactorial(n, k)
  }

  /** The count is positive exactly when a palette can be formed. */
  lemma PermutationCountPositive(n: int, k: int)
    ensures PermutationCount(n, k) > 0 <==> 0 < k <= n
    ensures PermutationCount(n, k) >= 0
  {
    if 0 < k <= n { FallingFactorialPositive(n, k); }
  }

  /**
   * The loop of `calculateTotalPossiblePermutations`. The source's switch to
   * BigInt changes the representation, not the value, so both paths are the
   * same product over unbounded integers here.
   */
  method CalculateTotalPossiblePermutations(inputColorsLength: int, paletteSize: int) returns (result: int)
    ensures result == PermutationCount(inputColorsLength, paletteSize)
    ensures result > 0 <==> 0 < paletteSize <= inputColorsLength
  {
    PermutationCountPositive(inputColorsLength, paletteSize);
    if inputColorsLength < paletteSize || paletteSize <= 0 {
      return 0;
    }
    result := 1;
    for i := 0 to paletteSize
      invariant result == FallingFactorial(inputColorsLength, i)
    {
      FallingFactorialStep(inputColorsLength, i);
      result := result * (inputColorsLength - i);
    }
  }

  // ---------------------------------------------------------------------------
  // formatBigInt
  // ---------------------------------------------------------------------------

  predicate IsDigit(c: char) { '0' <= c <= '9' }

  function DigitChar(d: nat): (c: char)
    requires d < 10
    ensures IsDigit(c)
  {
    ('0' as int + d) as char
  }

  /** Decimal notation of a natural number without leading zeros (JavaScript's `toString()`). */
  function DecimalDigits(n: nat): (s: string)
    ensures |s| >= 1
    ensures forall i :: 0 <= i < |s| ==> IsDigit(s[i])
  {
    if n < 10 then [DigitChar(n)] else DecimalDigits(n / 10) + [DigitChar(n % 10)]
  }

  /** `num.toString()` for an integer. */
  function IntToString(num: int): string {
    if num < 0 then "-" + DecimalDigits(-num) else DecimalDigits(num)
  }

  /**
   * The replacement `/\B(?=(\d{3})+(?!\d))/g -> ","` on a run of digits `t`:
   * a comma goes after a digit exactly when a positive multiple of three
   * digits follows it.
   */
  function InsertCommas(t: string): (r: string)
  {
    if t == [] then []
    else [t[0]] + (if |t| - 1 > 0 && (|t| - 1) % 3 == 0 then "," else "") + InsertCommas(t[1..])
  }

  /**
   * `formatBigInt`. A leading '-' is followed by a word boundary, so the regex
   * never puts a comma right after it; the digits are grouped as above.
   */
  function FormatBigInt(num: int): string {
    if num < 0 then "-" + InsertCommas(DecimalDigits(-num)) else InsertCommas(DecimalDigits(num))
  }

  function StripCommas(s: string): (r: string)
    ensures |r| <= |s|
  {
    if s == [] then [] else (if s[0] == ',' then [] else [s[0]]) + StripCommas(s[1..])
  }

  /** `r` opens with a group of h digits, 1 <= h <= 3, followed only by ",ddd" groups. */
  predicate GroupedAfter(r: string, h: int) {
    && 1 <= h <= 3 && h <= |r|
    && (forall i :: 0 <= i < h ==> IsDigit(r[i]))
    && ThreeDigitGroups(r[h..])
  }

  /** `r` is a sequence of ",ddd" groups. */
  predicate ThreeDigitGroups(r: string)
    decreases |r|
  {
    r == [] || (|r| >= 4 && r[0] == ',' && IsDigit(r[1]) && IsDigit(r[2]) && IsDigit(r[3]) && ThreeDigitGroups(r[4..]))
  }

  lemma StripCommasAppend(a: string, b: string)
    ensures StripCommas(a + b) == StripCommas(a) + StripCommas(b)
  {
    if a == [] {
      assert a + b == b;
    } else {
      assert (a + b)[0] == a[0] && (a + b)[1..] == a[1..] + b;
      StripCommasAppend(a[1..], b);
    }
  }

  lemma {:induction false} StripInsertCommas(t: string)
    requires forall i :: 0 <= i < |t| ==> IsDigit(t[i])
    ensures StripCommas(InsertCommas(t)) == t
  {
    if t != [] {
      var c: string := if |t| - 1 > 0 && (|t| - 1) % 3 == 0 then "," else "";
      StripInsertCommas(t[1..]);
      StripCommasAppend([t[0]] + c, InsertCommas(t[1..]));
      StripCommasAppend([t[0]], c);
      assert StripCommas([t[0]]) == [t[0]];
      assert StripCommas(c) == [];
      assert t == [t[0]] + t[1..];
    }
  }

  /** The first group holds h = ((|t| - 1) % 3) + 1 digits; a comma follows it when more digits remain. */
  lemma {:induction false} InsertCommasHead(t: string, h: nat)
    requires |t| >= 1 && 1 <= h <= 3 && h == (|t| - 1) % 3 + 1
    ensures InsertCommas(t) == t[..h] + (if |t| > h then "," + InsertCommas(t[h..]) else [])
    decreases h
  {
    if h == 1 {
      InsertCommasSingle(t);
    } else {
      var rest := t[1..];
      assert (|t| - 1) % 3 != 0;
      assert InsertCommas(t) == [t[0]] + InsertCommas(rest);
      InsertCommasHead(rest, h - 1);
      assert rest[h - 1..] == t[h..];
      GroupShift(t, h, InsertCommas(t[h..]));
    }
  }

  /** A one-digit first group: the digit, then a comma when more digits follow. */
  lemma InsertCommasSingle(t: string)
    requires |t| >= 1 && (|t| - 1) % 3 == 0
    ensures InsertCommas(t) == t[..1] + (if |t| > 1 then "," + InsertCommas(t[1..]) else [])
  {
    assert t[..1] == [t[0]];
    if |t| == 1 {
      assert t[1..] == [];
    }
  }

  /** Re-reads the first group of `t[1..]`, one digit shorter, as a group of `t`; `more` stands for the rest. */
  lemma GroupShift(t: string, h: nat, more: string)
    requires 2 <= h <= |t|
    ensures [t[0]] + (t[1..][..h - 1] + (if |t| - 1 > h - 1 then "," + more else []))
         == t[..h] + (if |t| > h then "," + more else [])
  {
    assert [t[0]] + t[1..][..h - 1] == t[..h];
  }

  lemma {:induction false} InsertCommasGroups(u: string)
    requires |u| % 3 == 0 && |u| > 0
    requires forall i :: 0 <= i < |u| ==> IsDigit(u[i])
    ensures ThreeDigitGroups("," + InsertCommas(u))
    decreases |u|
  {
    InsertCommasHead(u, 3);
    var r := "," + InsertCommas(u);
    if |u| > 3 {
      InsertCommasGroups(u[3..]);
      assert r[4..] == "," + InsertCommas(u[3..]);
    } else {
      assert r[4..] == [];
    }
  }

  /** Deleting the commas of `formatBigInt(num)` gives back `num.toString()`. */
  lemma FormatBigIntRoundTrip(num: int)
    ensures StripCommas(FormatBigInt(num)) == IntToString(num)
  {
    var d := DecimalDigits(if num < 0 then -num else num);
    StripInsertCommas(d);
    if num < 0 {
      StripCommasAppend("-", InsertCommas(d));
    }
  }

  /**
   * For a non-negative number, the output is a first group of one to three
   * digits followed by groups of exactly three digits, each after a comma.
   */
  lemma FormatBigIntGroups(num: nat)
    ensures exists h :: GroupedAfter(FormatBigInt(num), h)
  {
    var d := DecimalDigits(num);
    var h := (|d| - 1) % 3 + 1;
    InsertCommasHead(d, h);
    var r := FormatBigInt(num);
    assert r[..h] == d[..h];
    if |d| > h {
      InsertCommasGroups(d[h..]);
      assert r[h..] == "," + InsertCommas(d[h..]);
    } else {
      assert r[h..] == [];
    }
    assert GroupedAfter(r, h);
  }

  // ---------------------------------------------------------------------------
  // generatePalettes and shuffleColors
  // ---------------------------------------------------------------------------

  /** The palettes pushed for colour lists `cs`, the j-th taking the (start + j)-th generated id. */
  function MakePalettes(cs: seq<seq<Color>>, ids: nat -> string, start: nat, now: int): (r: seq<Palette>)
    ensures |r| == |cs|
    ensures forall j :: 0 <= j < |cs| ==> r[j] == Palette(ids(start + j), cs[j], false, now)
  {
    seq(|cs|, j requires 0 <= j < |cs| => Palette(ids(start + j), cs[j], false, now))
  }

  lemma MakePalettesAppend(a: seq<seq<Color>>, b: seq<seq<Color>>, ids: nat -> string, start: nat, now: int)
    ensures MakePalettes(a + b, ids, start, now) == MakePalettes(a, ids, start, now) + MakePalettes(b, ids, start + |a|, now)
  {
  }

  /** The colour lists of branch i, then those of the later branches, are those of branches i onwards. */
  lemma ExtendBranch(current: seq<Color>, available: seq<Color>, remaining: nat, i: nat)
    requires remaining > 0 && i < |available|
    ensures Extend(current, ArrangeFrom(available, remaining, i))
         == Extend(current + [available[i]], Arrangements(RemoveAt(available, i), remaining - 1))
            + Extend(current, ArrangeFrom(available, remaining, i + 1))
  {
    var sub := Arrangements(RemoveAt(available, i), remaining - 1);
    var rest := ArrangeFrom(available, remaining, i + 1);
    assert ArrangeFrom(available, remaining, i) == Prefixed(available[i], sub) + rest;
    ExtendAppend(current, Prefixed(available[i], sub), rest);
    ExtendPrefixed(current, available[i], sub);
  }

  /** The palettes of branch i, then those of the later branches, are those of branches i onwards. */
  lemma HelperStep(current: seq<Color>, available: seq<Color>, remaining: nat, i: nat,
                   before: seq<Palette>, ids: nat -> string, now: int)
    requires remaining > 0 && i < |available|
    ensures
      var here := Extend(current + [available[i]], Arrangements(RemoveAt(available, i), remaining - 1));
      var after := before + MakePalettes(here, ids, |before|, now);
      after + MakePalettes(Extend(current, ArrangeFrom(available, remaining, i + 1)), ids, |after|, now)
        == before + MakePalettes(Extend(current, ArrangeFrom(available, remaining, i)), ids, |before|, now)
  {
    var here := Extend(current + [available[i]], Arrangements(RemoveAt(available, i), remaining - 1));
    var later := Extend(current, ArrangeFrom(available, remaining, i + 1));
    ExtendBranch(current, available, remaining, i);
    MakePalettesAppend(here, later, ids, |before|, now);
    var made := MakePalettes(here, ids, |before|, now);
    JoinParts(before, made, MakePalettes(later, ids, |before| + |here|, now), MakePalettes(here + later, ids, |before|, now));
  }

  lemma JoinParts(before: seq<Palette>, made: seq<Palette>, tail: seq<Palette>, whole: seq<Palette>)
    requires whole == made + tail
    ensures (before + made) + tail == before + whole
  {
  }

  /**
   * `generateHelper`: with `current` chosen so far, pushes one palette per
   * ordered selection of `remaining` more colours from `available`, in order.
   * Removing a chosen colour (`filter(c => c !== color)`, a reference test)
   * is removal of that position.
   */
  method GenerateHelper(current: seq<Color>, remaining: nat, available: seq<Color>,
                        combinations: seq<Palette>, ids: nat -> string, now: int)
    returns (out: seq<Palette>)
    ensures out == combinations + MakePalettes(Extend(current, Arrangements(available, remaining)), ids, |combinations|, now)
    decreases remaining
  {
    if remaining == 0 {
      out := combinations + [Palette(ids(|combinations|), current, false, now)];
      var e := Extend(current, Arrangements(available, 0));
      assert e[0] == current + [] == current;
      assert MakePalettes(e, ids, |combinations|, now) == [Palette(ids(|combinations|), current, false, now)];
      return;
    }
    out := combinations;
    for i := 0 to |available|
      invariant out + MakePalettes(Extend(current, ArrangeFrom(available, remaining, i)), ids, |out|, now)
             == combinations + MakePalettes(Extend(current, Arrangements(available, remaining)), ids, |combinations|, now)
    {
      var color := available[i];
      var nextAvailable := RemoveAt(available, i);
      HelperStep(current, available, remaining, i, out, ids, now);
      out := GenerateHelper(current + [color], remaining - 1, nextAvailable, out, ids, now);
    }
  }

  /** `shuffleColors`: used palettes first in their order, then the unused ones in a shuffled order. */
  function ShuffleColors(palettes: seq<Palette>, picks: seq<nat>): seq<Palette> {
    UsedOf(palettes) + Shuffled(UnusedOf(palettes), picks)
  }

  /** The shuffle keeps every palette. */
  lemma ShuffleColorsMultiset(palettes: seq<Palette>, picks: seq<nat>)
    ensures |ShuffleColors(palettes, picks)| == |palettes|
    ensures multiset(ShuffleColors(palettes, picks)) == multiset(palettes)
  {
    ShuffledMultiset(UnusedOf(palettes), picks);
    UsedUnusedMultiset(palettes);
    var r := ShuffleColors(palettes, picks);
    assert multiset(r) == multiset(UsedOf(palettes)) + multiset(Shuffled(UnusedOf(palettes), picks));
    assert |r| == |multiset(r)|;
  }

  /** The used palettes come first, in their original order; only unused ones follow. */
  lemma ShuffleColorsUsedFirst(palettes: seq<Palette>, picks: seq<nat>)
    ensures ShuffleColors(palettes, picks)[..|UsedOf(palettes)|] == UsedOf(palettes)
    ensures forall j :: |UsedOf(palettes)| <= j < |ShuffleColors(palettes, picks)| ==> !ShuffleColors(palettes, picks)[j].used
  {
    var u := UsedOf(palettes);
    var n := UnusedOf(palettes);
    var sh := Shuffled(n, picks);
    var r := u + sh;
    assert r[..|u|] == u;
    ShuffledMultiset(n, picks);
    forall j | |u| <= j < |r| ensures !r[j].used {
      assert r[j] == sh[j - |u|];
      assert sh[j - |u|] in sh;
      assert sh[j - |u|] in multiset(n);
      assert r[j] in n;
    }
  }

  /** The colour lists of a palette list. */
  function ColorLists(ps: seq<Palette>): (r: seq<seq<Color>>)
    ensures |r| == |ps|
    ensures forall j :: 0 <= j < |ps| ==> r[j] == ps[j].colors
  {
    seq(|ps|, j requires 0 <= j < |ps| => ps[j].colors)
  }

  lemma ColorListsRemoveAt(ps: seq<Palette>, p: nat)
    requires p < |ps|
    ensures ColorLists(RemoveAt(ps, p)) == RemoveAt(ColorLists(ps), p)
  {
  }

  lemma ColorListsShuffled(ps: seq<Palette>, picks: seq<nat>)
    ensures ColorLists(Shuffled(ps, picks)) == Shuffled(ColorLists(ps), picks)
    decreases |ps|
  {
    if ps != [] {
      var p := PickIndex(picks, |ps|);
      ColorListsRemoveAt(ps, p);
      ColorListsShuffled(RemoveAt(ps, p), Drop1(picks));
      assert ColorLists(Shuffled(ps, picks)) == [ps[p].colors] + ColorLists(Shuffled(RemoveAt(ps, p), Drop1(picks)));
    }
  }

  lemma MakePalettesUnused(cs: seq<seq<Color>>, ids: nat -> string, now: int)
    ensures UsedOf(MakePalettes(cs, ids, 0, now)) == []
    ensures UnusedOf(MakePalettes(cs, ids, 0, now)) == MakePalettes(cs, ids, 0, now)
  {
    var ps := MakePalettes(cs, ids, 0, now);
    AllUnused(ps);
  }

  lemma AllUnused(ps: seq<Palette>)
    requires forall j :: 0 <= j < |ps| ==> !ps[j].used
    ensures UsedOf(ps) == [] && UnusedOf(ps) == ps
  {
    if ps != [] {
      AllUnused(ps[1..]);
      assert ps == [ps[0]] + ps[1..];
    }
  }

  /**
   * `generatePalettes` of the Redux version: every ordered selection of
   * `paletteSize` input colours, each pushed as an unused palette with a fresh
   * id, then passed through `shuffleColors`.
   */
  method GeneratePalettes(colors: seq<Color>, paletteSize: int, ids: nat -> string, now: int, picks: seq<nat>)
    returns (r: seq<Palette>)
    ensures |colors| == 0 || paletteSize <= 0 ==> r == []
    ensures |colors| > 0 && paletteSize > 0 ==>
      r == ShuffleColors(MakePalettes(Arrangements(colors, paletteSize), ids, 0, now), picks)
    ensures |r| == PermutationCount(|colors|, paletteSize)
    ensures forall j :: 0 <= j < |r| ==>
      |r[j].colors| == paletteSize && !r[j].used && r[j].createdAt == now && multiset(r[j].colors) <= multiset(colors)
    ensures Distinct(colors) ==> Distinct(ColorLists(r))
  {
    if |colors| == 0 || paletteSize <= 0 {
      return [];
    }
    var combinations := GenerateHelper([], paletteSize, colors, [], ids, now);
    ExtendEmpty(Arrangements(colors, paletteSize));
    assert combinations == MakePalettes(Arrangements(colors, paletteSize), ids, 0, now);
    r := ShuffleColors(combinations, picks);
    GeneratedSpec(colors, paletteSize, ids, now, picks);
  }

  /** The properties `generatePalettes` promises, about its result for non-empty input. */
  lemma GeneratedSpec(colors: seq<Color>, k: nat, ids: nat -> string, now: int, picks: seq<nat>)
    requires |colors| > 0 && k > 0
    ensures var r := ShuffleColors(MakePalettes(Arrangements(colors, k), ids, 0, now), picks);
      && |r| == PermutationCount(|colors|, k)
      && (forall j :: 0 <= j < |r| ==>
           |r[j].colors| == k && !r[j].used && r[j].createdAt == now && multiset(r[j].colors) <= multiset(colors))
      && (Distinct(colors) ==> Distinct(ColorLists(r)))
  {
    var arr := Arrangements(colors, k);
    var made := MakePalettes(arr, ids, 0, now);
    MakePalettesUnused(arr, ids, now);
    var r := ShuffleColors(made, picks);
    assert r == Shuffled(made, picks);
    ArrangementsCount(colors, k);
    if |colors| < k { FallingFactorialZero(|colors|, k); }
    ArrangementsShape(colors, k);
    ShuffledShape(made, arr, colors, k, ids, now, picks);
    if Distinct(colors) {
      ArrangementsDistinct(colors, k);
      assert ColorLists(made) == arr;
      ColorListsShuffled(made, picks);
      ShuffledDistinct(arr, picks);
    }
  }

  /** Every shuffled palette is one of those made from `arr`. */
  lemma ShuffledShape(made: seq<Palette>, arr: seq<seq<Color>>, colors: seq<Color>, k: nat,
                      ids: nat -> string, now: int, picks: seq<nat>)
    requires made == MakePalettes(arr, ids, 0, now)
    requires Shaped(arr, k, colors)
    ensures forall j :: 0 <= j < |Shuffled(made, picks)| ==>
      var p := Shuffled(made, picks)[j];
      |p.colors| == k && !p.used && p.createdAt == now && multiset(p.colors) <= multiset(colors)
  {
    var r := Shuffled(made, picks);
    ShuffledMultiset(made, picks);
    forall j | 0 <= j < |r|
      ensures |r[j].colors| == k && !r[j].used && r[j].createdAt == now && multiset(r[j].colors) <= multiset(colors)
    {
      assert r[j] in multiset(made);
      var m :| 0 <= m < |made| && made[m] == r[j];
    }
  }

  // ---------------------------------------------------------------------------
  // hexToRgb
  // ---------------------------------------------------------------------------

  /** `[a-f\d]` under the `i` flag. */
  predicate IsHexDigit(c: char) {
    ('0' <= c <= '9') || ('a' <= c <= 'f') || ('A' <= c <= 'F')
  }

  function HexValue(c: char): (v: nat)
    requires IsHexDigit(c)
    ensures v < 16
  {
    if '0' <= c <= '9' then c as nat - '0' as nat
    else if 'a' <= c <= 'f' then c as nat - 'a' as nat + 10
    else c as nat - 'A' as nat + 10
  }

  /** The six characters after an optional '#', when the length allows a match at all. */
  function HexBody(hex: string): Option<string> {
    if |hex| == 7 && hex[0] == '#' then Some(hex[1..])
    else if |hex| == 6 then Some(hex)
    else None
  }

  /** `hex` matches `/^#?([a-f\d]{2})([a-f\d]{2})([a-f\d]{2})$/i`. */
  predicate MatchesHexPattern(hex: string) {
    HexBody(hex).Some? && forall i :: 0 <= i < 6 ==> IsHexDigit(HexBody(hex).value[i])
  }

  /** `parseInt` of a two-digit hex group. */
  function ParsePair(a: char, b: char): int
    requires IsHexDigit(a) && IsHexDigit(b)
  {
    16 * HexValue(a) + HexValue(b)
  }

  /** `hexToRgb` (identical in helpers.ts and colorUtils.ts). */
  function HexToRgb(hex: string): (r: Option<(int, int, int)>)
    ensures r.Some? <==> MatchesHexPattern(hex)
    ensures r.Some? ==> 0 <= r.value.0 <= 255 && 0 <= r.value.1 <= 255 && 0 <= r.value.2 <= 255
  {
    if !MatchesHexPattern(hex) then None
    else
      var b := HexBody(hex).value;
      Some((ParsePair(b[0], b[1]), ParsePair(b[2], b[3]), ParsePair(b[4], b[5])))
  }

  function HexChar(d: nat): (c: char)
    requires d < 16
    ensures IsHexDigit(c) && HexValue(c) == d
  {
    if d < 10 then ('0' as int + d) as char else ('a' as int + d - 10) as char
  }

  /** The "#rrggbb" notation of a colour whose components are bytes. */
  function RgbToHex(r: int, g: int, b: int): string
    requires 0 <= r <= 255 && 0 <= g <= 255 && 0 <= b <= 255
  {
    ['#', HexChar(r / 16), HexChar(r % 16), HexChar(g / 16), HexChar(g % 16), HexChar(b / 16), HexChar(b % 16)]
  }

  /** Parsing is the inverse of formatting. */
  lemma HexToRgbRoundTrip(r: int, g: int, b: int)
    requires 0 <= r <= 255 && 0 <= g <= 255 && 0 <= b <= 255
    ensures HexToRgb(RgbToHex(r, g, b)) == Some((r, g, b))
  {
    var h := RgbToHex(r, g, b);
    assert HexBody(h) == Some(h[1..]);
    assert MatchesHexPattern(h);
  }

  /** Upper-casing the input never changes the result (the `i` flag). */
  lemma HexToRgbCaseInsensitive(hex: string)
    ensures HexToRgb(Upper(hex)) == HexToRgb(hex)
  {
    UpperBody(hex);
    if HexBody(hex).Some? {
      var b := HexBody(hex).value;
      var ub := HexBody(Upper(hex)).value;
      forall i | 0 <= i < 6
        ensures ub[i] == UpperChar(b[i])
        ensures IsHexDigit(ub[i]) <==> IsHexDigit(b[i])
        ensures IsHexDigit(b[i]) ==> HexValue(ub[i]) == HexValue(b[i])
      {
        UpperHexDigit(b[i]);
      }
      assert MatchesHexPattern(Upper(hex)) <==> MatchesHexPattern(hex);
      if MatchesHexPattern(hex) {
        assert ParsePair(ub[0], ub[1]) == ParsePair(b[0], b[1]);
        assert ParsePair(ub[2], ub[3]) == ParsePair(b[2], b[3]);
        assert ParsePair(ub[4], ub[5]) == ParsePair(b[4], b[5]);
      }
    }
  }

  /** Upper-casing keeps the optional '#' and upper-cases the six characters after it. */
  lemma UpperBody(hex: string)
    ensures HexBody(Upper(hex)).Some? <==> HexBody(hex).Some?
    ensures HexBody(hex).Some? ==> HexBody(Upper(hex)).value == Upper(HexBody(hex).value)
  {
    var u := Upper(hex);
    if |hex| == 7 && hex[0] == '#' {
      assert u[0] == '#';
      assert u[1..] == Upper(hex[1..]);
    } else if |hex| == 7 {
      assert u[0] != '#';
    }
  }

  lemma UpperHexDigit(c: char)
    ensures IsHexDigit(UpperChar(c)) <==> IsHexDigit(c)
    ensures IsHexDigit(c) ==> HexValue(UpperChar(c)) == HexValue(c)
  {
  }

  // ---------------------------------------------------------------------------
  // calculateColorStatistics (dense variant)
  // ---------------------------------------------------------------------------

  /** How many of `ps` have colour value `v` at (1-based) position `p`. */
  function CountAt(ps: seq<Palette>, p: int, v: string): nat
  {
    if ps == [] then 0
    else
      CountAt(ps[..|ps| - 1], p, v) + Hit(ps[|ps| - 1], p, v)
  }

  lemma CountAtStep(ps: seq<Palette>, u: nat, p: int, v: string, before: int, after: int)
    requires u < |ps| && before == CountAt(ps[..u], p, v) && after == before + Hit(ps[u], p, v)
    ensures after == CountAt(ps[..u + 1], p, v)
  {
    assert ps[..u + 1][..u] == ps[..u];
  }

  function ValueSet(cs: seq<Color>): set<string> {
    set c | c in cs :: c.value
  }

  /** The positions 1..k. */
  function Positions(k: int): (r: set<int>)
    ensures forall p :: p in r <==> 1 <= p <= k
    decreases k
  {
    if k < 1 then {} else Positions(k - 1) + {k}
  }

  /** `stats` counts, for positions 1..k and every input value, the palettes of `used`. */
  ghost predicate CountsOf(stats: Statistics, used: seq<Palette>, paletteSize: int, inputColors: seq<Color>) {
    && stats.Keys == Positions(paletteSize)
    && (forall p :: p in stats ==> stats[p].Keys == ValueSet(inputColors))
    && (forall p, v :: p in stats && v in stats[p] ==> stats[p][v] == CountAt(used, p, v))
  }

  /** The statistics over used palettes: positions 1..k, every input value, counts of used palettes. */
  ghost predicate DenseStatistics(stats: Statistics, palettes: seq<Palette>, paletteSize: int, inputColors: seq<Color>) {
    CountsOf(stats, UsedOf(palettes), paletteSize, inputColors)
  }

  /** Counting one more palette extends the counted prefix by one. */
  lemma TallyStep(counts: Statistics, stats: Statistics, ps: seq<Palette>, u: nat, paletteSize: int, inputColors: seq<Color>)
    requires u < |ps|
    requires CountsOf(counts, ps[..u], paletteSize, inputColors)
    requires stats.Keys == counts.Keys
    requires forall p :: p in stats ==> stats[p].Keys == counts[p].Keys
    requires forall p, v :: p in stats && v in stats[p] ==> stats[p][v] == counts[p][v] + Hit(ps[u], p, v)
    ensures CountsOf(stats, ps[..u + 1], paletteSize, inputColors)
  {
    forall p, v | p in stats && v in stats[p]
      ensures stats[p][v] == CountAt(ps[..u + 1], p, v)
    {
      assert v in counts[p];
      CountAtStep(ps, u, p, v, counts[p][v], stats[p][v]);
    }
  }

  /** Whether `palette` has value `v` at position `p`, as a count. */
  function Hit(palette: Palette, p: int, v: string): nat {
    if 1 <= p <= |palette.colors| && palette.colors[p - 1].value == v then 1 else 0
  }

  /** The inner `forEach` initialising one position: every input colour value with count 0. */
  method ZeroCounts(inputColors: seq<Color>) returns (zeros: map<string, int>)
    ensures zeros.Keys == ValueSet(inputColors)
    ensures forall v :: v in zeros ==> zeros[v] == 0
  {
    zeros := map[];
    for c := 0 to |inputColors|
      invariant zeros.Keys == ValueSet(inputColors[..c])
      invariant forall v :: v in zeros ==> zeros[v] == 0
    {
      assert inputColors[..c + 1] == inputColors[..c] + [inputColors[c]];
      zeros := zeros[inputColors[c].value := 0];
    }
    assert inputColors[..|inputColors|] == inputColors;
  }

  /** The first loop of `calculateColorStatistics`: positions 1..k, each with every input value at 0. */
  method InitStatistics(paletteSize: int, inputColors: seq<Color>) returns (stats: Statistics)
    ensures stats.Keys == Positions(paletteSize)
    ensures forall p :: p in stats ==> stats[p].Keys == ValueSet(inputColors)
    ensures forall p, v :: p in stats && v in stats[p] ==> stats[p][v] == 0
  {
    stats := map[];
    var i := 1;
    while i <= paletteSize
      invariant 1 <= i <= (if paletteSize >= 1 then paletteSize + 1 else 1)
      invariant stats.Keys == Positions(i - 1)
      invariant forall p :: p in stats ==> stats[p].Keys == ValueSet(inputColors)
      invariant forall p, v :: p in stats && v in stats[p] ==> stats[p][v] == 0
    {
      var zeros := ZeroCounts(inputColors);
      stats := stats[i := zeros];
      i := i + 1;
    }
  }

  /** The inner `forEach` over one used palette: each known (position, value) it holds is counted once more. */
  method TallyPalette(counts: Statistics, palette: Palette) returns (stats: Statistics)
    ensures stats.Keys == counts.Keys
    ensures forall p :: p in stats ==> stats[p].Keys == counts[p].Keys
    ensures forall p, v :: p in stats && v in stats[p] ==> stats[p][v] == counts[p][v] + Hit(palette, p, v)
  {
    stats := counts;
    for index := 0 to |palette.colors|
      invariant stats.Keys == counts.Keys
      invariant forall p :: p in stats ==> stats[p].Keys == counts[p].Keys
      invariant forall p, v :: p in stats && v in stats[p] ==>
        stats[p][v] == counts[p][v] + (if 1 <= p <= index && palette.colors[p - 1].value == v then 1 else 0)
    {
      var position := index + 1;
      var value := palette.colors[index].value;
      if position in stats && value in stats[position] {
        var row := stats[position];
        stats := stats[position := row[value := row[value] + 1]];
      }
    }
  }

  /**
   * `calculateColorStatistics` of helpers.ts. The final descending sort of
   * every position's entries reorders object keys only; as a map it is the
   * identity and is not modelled.
   */
  method CalculateColorStatistics(palettes: seq<Palette>, paletteSize: int, inputColors: seq<Color>)
    returns (stats: Statistics)
    ensures DenseStatistics(stats, palettes, paletteSize, inputColors)
  {
    var usedPalettes := UsedOf(palettes);
    stats := InitStatistics(paletteSize, inputColors);
    assert CountsOf(stats, usedPalettes[..0], paletteSize, inputColors);
    for u := 0 to |usedPalettes|
      invariant CountsOf(stats, usedPalettes[..u], paletteSize, inputColors)
    {
      var counts := stats;
      stats := TallyPalette(stats, usedPalettes[u]);
      TallyStep(counts, stats, usedPalettes, u, paletteSize, inputColors);
    }
    assert usedPalettes[..|usedPalettes|] == usedPalettes;
  }

  /** With no used palette every position still lists every input colour, with count 0. */
  lemma NoUsedAllZero(stats: Statistics, palettes: seq<Palette>, paletteSize: int, inputColors: seq<Color>)
    requires DenseStatistics(stats, palettes, paletteSize, inputColors)
    requires forall j :: 0 <= j < |palettes| ==> !palettes[j].used
    ensures forall p, v :: p in stats && v in stats[p] ==> stats[p][v] == 0
  {
    AllUnused(palettes);
  }
}
