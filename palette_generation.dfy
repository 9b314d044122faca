/**
 * The `generate` callback of the `usePaletteGeneration` hook: keep the used
 * palettes, draw new ones from the colorUtils generator round after round
 * until the sample budget is met, cut to the budget and re-mark every palette
 * by the list of used signatures. The signature of a palette is its colour
 * list (`JSON.stringify` of a string list is injective).
 */
module PaletteGeneration {
  import opened Types
  import opened Combinatorics
  import opened ColorUtils

  /** `palettes.filter(p => p.used)`. */
  function KeptUsed(palettes: seq<StrPalette>): (r: seq<StrPalette>)
    ensures |r| <= |palettes|
    ensures forall p :: p in r <==> p in palettes && p.used
  {
    Filter(palettes, (p: StrPalette) => p.used)
  }

  /** The signatures of a palette list, in order. */
  function Signatures(ps: seq<StrPalette>): (r: seq<seq<string>>)
    ensures |r| == |ps|
    ensures forall i :: 0 <= i < |ps| ==> r[i] == ps[i].colors
  {
    seq(|ps|, i requires 0 <= i < |ps| => ps[i].colors)
  }

  /** What one call of colorUtils' `generatePalettes` yields, the random sort drawing on `picks`. */
  function Drawn(validColors: seq<string>, paletteSize: int, numSamples: int, picks: seq<nat>): (r: seq<StrPalette>)
    ensures numSamples > 0 ==> |r| <= numSamples
  {
    if |validColors| == 0 || paletteSize <= 0 || numSamples <= 0 then []
    else
      SampleSpec(Unused(ValueArrangements(validColors, paletteSize)), numSamples, picks);
      Sample(Unused(ValueArrangements(validColors, paletteSize)), numSamples, picks)
  }

  /** JavaScript's `s.slice(0, end)`: a negative end counts back from the end of `s`. */
  function JsSlice<T>(s: seq<T>, end: int): (r: seq<T>)
    ensures end >= 0 ==> |r| == if end < |s| then end else |s|
    ensures end < 0 ==> |r| == if |s| + end > 0 then |s| + end else 0
    ensures r == s[..|r|]
  {
    if end >= |s| then s
    else if end >= 0 then s[..end]
    else if |s| + end > 0 then s[..|s| + end]
    else []
  }

  /** Each palette marked used exactly when its signature is listed in `usedPalettes`. */
  function Marked(ps: seq<StrPalette>, usedPalettes: seq<seq<string>>): (r: seq<StrPalette>)
    ensures |r| == |ps|
    ensures forall i :: 0 <= i < |ps| ==> r[i].colors == ps[i].colors && (r[i].used <==> ps[i].colors in usedPalettes)
  {
    seq(|ps|, i requires 0 <= i < |ps| => ps[i].(used := ps[i].colors in usedPalettes))
  }

  /**
   * The new palettes are fresh: no two share a signature, and none shares one
   * with a kept used palette.
   */
  predicate Fresh(kept: seq<StrPalette>, added: seq<StrPalette>) {
    && Distinct(Signatures(added))
    && forall i :: 0 <= i < |added| ==> added[i].colors !in Signatures(kept)
  }

  /** Every new palette is an unused selection of `paletteSize` different valid colours. */
  predicate Drawable(added: seq<StrPalette>, validColors: seq<string>, paletteSize: int) {
    forall i :: 0 <= i < |added| ==>
      && |added[i].colors| == paletteSize && Distinct(added[i].colors) && !added[i].used
      && forall x :: x in added[i].colors ==> x in validColors
  }

  // ---------------------------------------------------------------------------
  // The loop as written
  // ---------------------------------------------------------------------------

  /** One round's filter as written: it compares with the kept palettes and the earlier rounds only. */
  function FilterAsWritten(generated: seq<StrPalette>, kept: seq<StrPalette>, newPalettes: seq<StrPalette>): (r: seq<StrPalette>)
    ensures |r| <= |generated|
    ensures forall g :: g in r <==> g in generated && g.colors !in Signatures(kept) && g.colors !in Signatures(newPalettes)
  {
    if generated == [] then []
    else
      var g := generated[0];
      var rest := FilterAsWritten(generated[1..], kept, newPalettes);
      assert forall h :: h in generated <==> h == g || h in generated[1..];
      if g.colors !in Signatures(kept) && g.colors !in Signatures(newPalettes) then [g] + rest else rest
  }

  /**
   * The `while (numPalettesToGenerate > 0)` loop as written, round `round`
   * drawing on `picks(round)`. The loop has no exit but the budget, so the
   * model runs at most `fuel` rounds and yields None when they do not suffice.
   */
  function RoundsAsWritten(validColors: seq<string>, paletteSize: int, numSamples: int, kept: seq<StrPalette>,
                           newPalettes: seq<StrPalette>, round: nat, picks: nat -> seq<nat>, fuel: nat)
    : (r: Option<seq<StrPalette>>)
    ensures r.Some? ==> numSamples - |kept| - |r.value| <= 0
    ensures r.Some? ==> newPalettes <= r.value
    decreases fuel
  {
    var toGenerate := numSamples - |kept| - |newPalettes|;
    if toGenerate <= 0 then Some(newPalettes)
    else if fuel == 0 then None
    else
      var generated := Drawn(validColors, paletteSize, toGenerate, picks(round));
      RoundsAsWritten(validColors, paletteSize, numSamples, kept,
                      newPalettes + FilterAsWritten(generated, kept, newPalettes), round + 1, picks, fuel - 1)
  }

  /** `generate` as written, within `fuel` rounds. */
  function GenerateAsWritten(palettes: seq<StrPalette>, validColors: seq<string>, paletteSize: int, numSamples: int,
                             usedPalettes: seq<seq<string>>, picks: nat -> seq<nat>, fuel: nat)
    : (r: Option<seq<StrPalette>>)
    ensures r.Some? && numSamples >= 0 ==> |r.value| <= numSamples
    ensures r.Some? ==> forall i :: 0 <= i < |r.value| ==> (r.value[i].used <==> r.value[i].colors in usedPalettes)
  {
    var kept := KeptUsed(palettes);
    match RoundsAsWritten(validColors, paletteSize, numSamples, kept, [], 0, picks, fuel)
    case None => None
    case Some(newPalettes) => Some(Marked(JsSlice(kept + newPalettes, numSamples), usedPalettes))
  }

  /**
   * With fewer valid colours than the palette size every round draws nothing,
   * so whenever the budget is not already met by used palettes the loop never
   * ends, however many rounds it is given.
   */
  lemma {:induction false} SpinsWhenTooFewColors(validColors: seq<string>, paletteSize: int, numSamples: int,
                                                 kept: seq<StrPalette>, round: nat, picks: nat -> seq<nat>, fuel: nat)
    requires 0 <= |validColors| < paletteSize && numSamples > |kept|
    ensures RoundsAsWritten(validColors, paletteSize, numSamples, kept, [], round, picks, fuel) == None
    decreases fuel
  {
    if fuel > 0 {
      ValueArrangementsTooFew(validColors, paletteSize);
      var generated := Drawn(validColors, paletteSize, numSamples - |kept|, picks(round));
      assert generated == [];
      assert [] + FilterAsWritten(generated, kept, []) == [];
      SpinsWhenTooFewColors(validColors, paletteSize, numSamples, kept, round + 1, picks, fuel - 1);
    }
  }

  /** Two valid colours, palettes of three, five samples, nothing used: `generate` never returns. */
  lemma NeverReturns(picks: nat -> seq<nat>, fuel: nat)
    ensures GenerateAsWritten([], ["#a", "#b"], 3, 5, [], picks, fuel) == None
  {
    SpinsWhenTooFewColors(["#a", "#b"], 3, 5, KeptUsed([]), 0, picks, fuel);
  }

  /**
   * A repeated valid colour makes the generator yield each selection twice,
   * and the filter as written lets both copies of a batch through.
   */
  lemma BatchKeepsDuplicates(validColors: seq<string>, picks: nat -> seq<nat>, fuel: nat)
    requires validColors == ["a", "a", "b"] && fuel >= 1
    ensures var r := GenerateAsWritten([], validColors, 2, 4, [], picks, fuel);
      r.Some? && |r.value| == 4 && r.value[0] == r.value[1] && r.value[0].colors == ["a", "b"]
  {
    var drawn := Drawn(validColors, 2, 4, picks(0));
    DrawnRepeated(validColors, picks(0));
    OneRound(validColors, drawn, picks, fuel);
    assert KeptUsed([]) == [];
    assert [] + drawn == drawn;
    assert JsSlice(drawn, 4) == drawn;
  }

  /** With nothing kept, a first round that draws four palettes keeps them all and meets a budget of four. */
  lemma OneRound(validColors: seq<string>, drawn: seq<StrPalette>, picks: nat -> seq<nat>, fuel: nat)
    requires fuel >= 1 && |drawn| == 4
    requires Drawn(validColors, 2, 4, picks(0)) == drawn
    ensures RoundsAsWritten(validColors, 2, 4, [], [], 0, picks, fuel) == Some(drawn)
  {
    FilterKeepsAll(drawn, [], []);
    assert RoundsAsWritten(validColors, 2, 4, [], [], 0, picks, fuel)
        == RoundsAsWritten(validColors, 2, 4, [], [] + FilterAsWritten(drawn, [], []), 1, picks, fuel - 1);
    assert [] + FilterAsWritten(drawn, [], []) == drawn;
  }

  /** Over ["a", "a", "b"] a draw of up to four pairs is the whole enumeration, each pair twice. */
  lemma DrawnRepeated(validColors: seq<string>, p: seq<nat>)
    requires validColors == ["a", "a", "b"]
    ensures var d := Drawn(validColors, 2, 4, p);
      |d| == 4 && d[0] == d[1] && d[0].colors == ["a", "b"]
  {
    RepeatedColorEnumeration(validColors);
  }

  /** Choosing "a" removes both copies, so each two-colour selection of ["a", "a", "b"] comes out twice. */
  lemma RepeatedColorEnumeration(s: seq<string>)
    requires s == ["a", "a", "b"]
    ensures ValueArrangements(s, 2) == [["a", "b"], ["a", "b"], ["b", "a"], ["b", "a"]]
  {
    var ab, ba := ["a", "b"], ["b", "a"];
    assert RemoveValue(s, "a") == ["b"];
    assert RemoveValue(s, "b") == ["a", "a"];
    SingleB();
    DoubleA();
    assert Prefixed("a", [["b"]]) == [ab] by {
      assert Prefixed("a", [["b"]])[0] == ["a"] + ["b"] == ab;
    }
    assert Prefixed("b", [["a"], ["a"]]) == [ba, ba] by {
      assert Prefixed("b", [["a"], ["a"]])[0] == ["b"] + ["a"] == ba;
      assert Prefixed("b", [["a"], ["a"]])[1] == ["b"] + ["a"] == ba;
    }
    assert ValueArrangeFrom(s, 2, 2) == [ba, ba] by {
      assert ValueArrangeFrom(s, 2, 2) == Prefixed("b", [["a"], ["a"]]) + ValueArrangeFrom(s, 2, 3);
    }
    assert ValueArrangeFrom(s, 2, 1) == [ab, ba, ba];
  }

  lemma SingleB()
    ensures ValueArrangements(["b"], 1) == [["b"]]
  {
    assert RemoveValue(["b"], "b") == [];
    assert ValueArrangeFrom(["b"], 1, 0) == Prefixed("b", [[]]) + ValueArrangeFrom(["b"], 1, 1);
    assert Prefixed("b", [[]])[0] == ["b"];
  }

  lemma DoubleA()
    ensures ValueArrangements(["a", "a"], 1) == [["a"], ["a"]]
  {
    assert RemoveValue(["a", "a"], "a") == [];
    assert Prefixed("a", [[]]) == [["a"]] by { assert Prefixed("a", [[]])[0] == ["a"]; }
    assert ValueArrangeFrom(["a", "a"], 1, 1) == Prefixed("a", [[]]) + ValueArrangeFrom(["a", "a"], 1, 2);
    assert ValueArrangeFrom(["a", "a"], 1, 0) == Prefixed("a", [[]]) + ValueArrangeFrom(["a", "a"], 1, 1);
  }

  /** Nothing to compare against: the round's filter keeps the whole batch. */
  lemma {:induction false} FilterKeepsAll(generated: seq<StrPalette>, kept: seq<StrPalette>, newPalettes: seq<StrPalette>)
    requires kept == [] && newPalettes == []
    ensures FilterAsWritten(generated, kept, newPalettes) == generated
  {
    if generated != [] { FilterKeepsAll(generated[1..], kept, newPalettes); }
  }

  // ---------------------------------------------------------------------------
  // The loop as intended
  // ---------------------------------------------------------------------------

  /**
   * `generate` with the two evident intentions made good: a palette is
   * admitted only if its signature is new to the kept palettes and to every
   * palette admitted before it, the same batch included; and the loop always
   * ends. Once a round admits nothing, one last round draws the whole
   * enumeration, admits what is fresh up to the budget and stops; so a result
   * short of the budget means every selection of the valid colours is there
   * already. `picks(n)` is the random source of round n and `added` are the
   * admitted palettes.
   */
  method Generate(palettes: seq<StrPalette>, validColors: seq<string>, paletteSize: int, numSamples: int,
                  usedPalettes: seq<seq<string>>, picks: nat -> seq<nat>)
    returns (r: seq<StrPalette>, ghost added: seq<StrPalette>)
    ensures r == Marked(JsSlice(KeptUsed(palettes) + added, numSamples), usedPalettes)
    ensures Fresh(KeptUsed(palettes), added) && Drawable(added, validColors, paletteSize)
    ensures numSamples <= |KeptUsed(palettes)| ==> added == []
    ensures |KeptUsed(palettes)| + |added| <= numSamples || added == []
    ensures numSamples >= 0 ==> |r| <= numSamples
    ensures forall i :: 0 <= i < |r| ==> (r[i].used <==> r[i].colors in usedPalettes)
    ensures paletteSize > 0 && |KeptUsed(palettes)| + |added| < numSamples ==>
      forall a :: a in ValueArrangements(validColors, paletteSize) ==>
        a in Signatures(KeptUsed(palettes)) + Signatures(added)
  {
    var kept := KeptUsed(palettes);
    var numPalettesToGenerate := numSamples - |kept|;
    var newPalettes: seq<StrPalette> := [];
    var round := 0;
    while numPalettesToGenerate > 0
      invariant numPalettesToGenerate == numSamples - |kept| - |newPalettes|
      invariant newPalettes != [] ==> numPalettesToGenerate >= 0
      invariant Fresh(kept, newPalettes) && Drawable(newPalettes, validColors, paletteSize)
      decreases numPalettesToGenerate
    {
      var generated := GeneratePalettes(validColors, paletteSize, numPalettesToGenerate, picks(round));
      var before := newPalettes;
      newPalettes := Admit(kept, newPalettes, generated, validColors, paletteSize);
      round := round + 1;
      if newPalettes == before {
        newPalettes := LastRound(kept, newPalettes, validColors, paletteSize, numSamples - |kept|, picks(round));
        break;
      }
      numPalettesToGenerate := numSamples - |kept| - |newPalettes|;
    }
    added := newPalettes;
    var combinedPalettes := kept + newPalettes;
    var finalPalettes := JsSlice(combinedPalettes, numSamples);
    r := Marked(finalPalettes, usedPalettes);
  }

  /**
   * The round after one that admitted nothing: draws the whole enumeration
   * and admits what is fresh, at most `room` palettes in all. When fewer fit
   * than there is room for, every selection has been seen.
   */
  method LastRound(kept: seq<StrPalette>, newPalettes: seq<StrPalette>, validColors: seq<string>, paletteSize: int,
                   room: int, p: seq<nat>)
    returns (next: seq<StrPalette>)
    requires Fresh(kept, newPalettes) && Drawable(newPalettes, validColors, paletteSize)
    requires |newPalettes| <= room
    ensures Fresh(kept, next) && Drawable(next, validColors, paletteSize)
    ensures newPalettes <= next && |next| <= room
    ensures paletteSize > 0 && |next| < room ==>
      forall a :: a in ValueArrangements(validColors, paletteSize) ==> a in Signatures(kept) + Signatures(next)
  {
    var everything := if paletteSize > 0 then |ValueArrangements(validColors, paletteSize)| else 0;
    var all := GeneratePalettes(validColors, paletteSize, everything, p);
    var fuller := Admit(kept, newPalettes, all, validColors, paletteSize);
    next := if |fuller| <= room then fuller else fuller[..room];
    FreshPrefix(kept, fuller, |next|, validColors, paletteSize);
    if paletteSize > 0 && |next| < room {
      WholeDraw(validColors, paletteSize, all, p);
      forall a | a in ValueArrangements(validColors, paletteSize) ensures a in Signatures(kept) + Signatures(next) {
        assert StrPalette(a, false) in all;
      }
    }
  }

  /** A draw as large as the enumeration holds every selection. */
  lemma WholeDraw(validColors: seq<string>, paletteSize: int, all: seq<StrPalette>, p: seq<nat>)
    requires paletteSize > 0
    requires |validColors| == 0 || |ValueArrangements(validColors, paletteSize)| == 0 ==> all == []
    requires |validColors| > 0 && |ValueArrangements(validColors, paletteSize)| > 0 ==>
      all == Sample(Unused(ValueArrangements(validColors, paletteSize)), |ValueArrangements(validColors, paletteSize)|, p)
    ensures forall a :: a in ValueArrangements(validColors, paletteSize) ==> StrPalette(a, false) in all
  {
    var va := ValueArrangements(validColors, paletteSize);
    if |validColors| == 0 {
      ValueArrangementsTooFew(validColors, paletteSize);
    } else if |va| > 0 {
      forall a | a in va ensures StrPalette(a, false) in all {
        var m :| 0 <= m < |va| && va[m] == a;
        assert Unused(va)[m] == StrPalette(a, false);
      }
    }
  }

  /** A prefix of fresh, drawable palettes is fresh and drawable. */
  lemma FreshPrefix(kept: seq<StrPalette>, added: seq<StrPalette>, k: nat, validColors: seq<string>, paletteSize: int)
    requires Fresh(kept, added) && Drawable(added, validColors, paletteSize) && k <= |added|
    ensures Fresh(kept, added[..k]) && Drawable(added[..k], validColors, paletteSize)
  {
    assert Signatures(added[..k]) == Signatures(added)[..k];
  }

  /**
   * One round's filter, sequential: each palette of the batch is admitted
   * when its signature is new to the kept palettes and to all admitted so
   * far. The result extends `newPalettes` by at most the batch, and every
   * palette of the batch ends up with its signature seen.
   */
  method Admit(kept: seq<StrPalette>, newPalettes: seq<StrPalette>, generated: seq<StrPalette>,
               validColors: seq<string>, paletteSize: int)
    returns (next: seq<StrPalette>)
    requires Fresh(kept, newPalettes) && Drawable(newPalettes, validColors, paletteSize)
    requires Drawable(generated, validColors, paletteSize)
    ensures Fresh(kept, next) && Drawable(next, validColors, paletteSize)
    ensures newPalettes <= next && |next| <= |newPalettes| + |generated|
    ensures forall g :: g in generated ==> g.colors in Signatures(kept) + Signatures(next)
  {
    next := newPalettes;
    for j := 0 to |generated|
      invariant Fresh(kept, next) && Drawable(next, validColors, paletteSize)
      invariant newPalettes <= next && |next| <= |newPalettes| + j
      invariant forall g :: g in generated[..j] ==> g.colors in Signatures(kept) + Signatures(next)
    {
      var g := generated[j];
      if g.colors !in Signatures(kept) && g.colors !in Signatures(next) {
        AdmitOne(kept, next, g);
        next := next + [g];
      }
      assert generated[..j + 1] == generated[..j] + [g];
    }
    assert generated[..|generated|] == generated;
  }

  lemma AdmitOne(kept: seq<StrPalette>, admitted: seq<StrPalette>, g: StrPalette)
    requires Fresh(kept, admitted)
    requires g.colors !in Signatures(kept) && g.colors !in Signatures(admitted)
    ensures Fresh(kept, admitted + [g])
    ensures Signatures(admitted + [g]) == Signatures(admitted) + [g.colors]
  {
    var s := Signatures(admitted + [g]);
    assert s == Signatures(admitted) + [g.colors];
    forall p, q | 0 <= p < q < |s| ensures s[p] != s[q] {
      if q == |admitted| { assert s[p] in Signatures(admitted); }
    }
  }
}
