/**
 * The older single-page generator component: its persisted state (input hex
 * strings, palette size, sample count, string palettes and the list of used
 * signatures) and the handlers that replace it.
 */
module GeneratorComponent {
  import opened Types
  import opened Combinatorics
  import opened ColorUtils
  import opened PaletteGeneration

  /** The characters `String.prototype.trim` removes: white space and line terminators. */
  predicate IsJsSpace(c: char) {
    || c == ' ' || c == '\t' || c == '\n' || c == '\r' || c == '\U{000B}' || c == '\U{000C}'
    || c == '\U{00A0}' || c == '\U{FEFF}' || c == '\U{1680}' || ('\U{2000}' <= c <= '\U{200A}')
    || c == '\U{2028}' || c == '\U{2029}' || c == '\U{202F}' || c == '\U{205F}' || c == '\U{3000}'
  }

  /** `s.trim() === ""`. */
  predicate IsBlank(s: string) {
    forall i :: 0 <= i < |s| ==> IsJsSpace(s[i])
  }

  /** `colors.filter(color => color.trim() !== "")`. */
  function NonBlank(colors: seq<string>): (r: seq<string>)
    ensures |r| <= |colors|
    ensures forall c :: c in r <==> c in colors && !IsBlank(c)
  {
    if colors == [] then []
    else
      var rest := NonBlank(colors[1..]);
      assert forall c :: c in colors <==> c == colors[0] || c in colors[1..];
      if IsBlank(colors[0]) then rest else [colors[0]] + rest
  }

  /** The used palettes, in order. */
  function UsedStr(ps: seq<StrPalette>): (r: seq<StrPalette>)
    ensures forall p :: p in r <==> p in ps && p.used
  {
    if ps == [] then []
    else
      assert forall p :: p in ps <==> p == ps[0] || p in ps[1..];
      (if ps[0].used then [ps[0]] else []) + UsedStr(ps[1..])
  }

  /** The unused palettes, in order. */
  function UnusedStr(ps: seq<StrPalette>): (r: seq<StrPalette>)
    ensures forall p :: p in r <==> p in ps && !p.used
  {
    if ps == [] then []
    else
      assert forall p :: p in ps <==> p == ps[0] || p in ps[1..];
      (if ps[0].used then [] else [ps[0]]) + UnusedStr(ps[1..])
  }

  lemma {:induction false} UsedUnusedStrMultiset(ps: seq<StrPalette>)
    ensures multiset(UsedStr(ps)) + multiset(UnusedStr(ps)) == multiset(ps)
  {
    if ps != [] {
      UsedUnusedStrMultiset(ps[1..]);
      assert ps == [ps[0]] + ps[1..];
    }
  }

  /** `palettes[index]` with `used` negated; every other palette as it was. */
  function ToggledAt(ps: seq<StrPalette>, index: nat): (r: seq<StrPalette>)
    requires index < |ps|
    ensures |r| == |ps| && r[index].colors == ps[index].colors && r[index].used == !ps[index].used
    ensures forall j :: 0 <= j < |ps| && j != index ==> r[j] == ps[j]
  {
    ps[index := ps[index].(used := !ps[index].used)]
  }

  /** The signature list after toggling a palette: every copy of its key removed if it was used, else the key appended. */
  function KeysAfterToggle(keys: seq<seq<string>>, p: StrPalette): (r: seq<seq<string>>)
    ensures p.used ==> p.colors !in r && forall k :: k in r <==> k in keys && k != p.colors
    ensures !p.used ==> r == keys + [p.colors]
  {
    if p.used then RemoveValue(keys, p.colors) else keys + [p.colors]
  }

  /** Every palette is marked used exactly when its signature is in the key list. */
  predicate Consistent(ps: seq<StrPalette>, keys: seq<seq<string>>) {
    forall j :: 0 <= j < |ps| ==> (ps[j].used <==> ps[j].colors in keys)
  }

  /** The handler's defaults before anything is stored. */
  const DefaultColors: seq<string> := ["#dbdbd9", "#000000", "#a82b3d", "#465e7a", "#92a14f", "#fac403"]

  class PaletteGenerator {
    var inputColors: seq<string>
    var paletteSize: int
    var numSamples: int
    var palettes: seq<StrPalette>
    var usedPalettes: seq<seq<string>>
    var isShuffling: bool

    /** The state on first use: six default colours, size 3, 50 samples, no palettes, nothing used. */
    constructor ()
      ensures inputColors == DefaultColors && paletteSize == 3 && numSamples == 50
      ensures palettes == [] && usedPalettes == [] && !isShuffling
    {
      inputColors, paletteSize, numSamples := DefaultColors, 3, 50;
      palettes, usedPalettes, isShuffling := [], [], false;
    }

    /**
     * `handleGeneratePalettes`: generate from the non-blank colours (`picks`
     * drives the random sample) and mark each palette by the key list.
     */
    method HandleGeneratePalettes(picks: seq<nat>)
      modifies this
      ensures palettes == Marked(Drawn(NonBlank(inputColors), paletteSize, numSamples, picks), usedPalettes)
      ensures numSamples > 0 ==> |palettes| <= numSamples
      ensures Consistent(palettes, usedPalettes)
      ensures forall j, x :: 0 <= j < |palettes| && x in palettes[j].colors ==> x in inputColors && !IsBlank(x)
      ensures inputColors == old(inputColors) && paletteSize == old(paletteSize) && numSamples == old(numSamples)
      ensures usedPalettes == old(usedPalettes) && isShuffling == old(isShuffling)
    {
      var validColors := NonBlank(inputColors);
      var newPalettes := GeneratePalettes(validColors, paletteSize, numSamples, picks);
      palettes := Marked(newPalettes, usedPalettes);
      forall j, x | 0 <= j < |palettes| && x in palettes[j].colors ensures x in inputColors && !IsBlank(x) {
        assert palettes[j].colors == newPalettes[j].colors;
      }
    }

    /** `handleColorChange`: the colour at `index` replaced; the rest as they were. */
    method HandleColorChange(index: nat, color: string)
      requires index < |inputColors|
      modifies this
      ensures inputColors == old(inputColors)[index := color]
      ensures |inputColors| == old(|inputColors|) && inputColors[index] == color
      ensures forall j :: 0 <= j < |inputColors| && j != index ==> inputColors[j] == old(inputColors[j])
      ensures paletteSize == old(paletteSize) && numSamples == old(numSamples) && palettes == old(palettes)
      ensures usedPalettes == old(usedPalettes) && isShuffling == old(isShuffling)
    {
      var newColors := inputColors;
      newColors := newColors[index := color];
      inputColors := newColors;
    }

    method HandlePaletteSizeChange(size: int)
      modifies this
      ensures paletteSize == size
      ensures inputColors == old(inputColors) && numSamples == old(numSamples) && palettes == old(palettes)
      ensures usedPalettes == old(usedPalettes) && isShuffling == old(isShuffling)
    {
      paletteSize := size;
    }

    method HandleNumSamplesChange(samples: int)
      modifies this
      ensures numSamples == samples
      ensures inputColors == old(inputColors) && paletteSize == old(paletteSize) && palettes == old(palettes)
      ensures usedPalettes == old(usedPalettes) && isShuffling == old(isShuffling)
    {
      numSamples := samples;
    }

    /**
     * `handlePaletteToggle`: the key list loses every copy of the palette's key
     * if it was used and gains it otherwise; the palette's flag flips.
     */
    method HandlePaletteToggle(index: nat)
      requires index < |palettes|
      modifies this
      ensures usedPalettes == KeysAfterToggle(old(usedPalettes), old(palettes[index]))
      ensures palettes == ToggledAt(old(palettes), index)
      ensures inputColors == old(inputColors) && paletteSize == old(paletteSize) && numSamples == old(numSamples)
      ensures isShuffling == old(isShuffling)
    {
      var palette := palettes[index];
      var paletteKey := palette.colors;
      var newUsedPalettes := if palette.used then RemoveValue(usedPalettes, paletteKey) else usedPalettes + [paletteKey];
      usedPalettes := newUsedPalettes;
      var newPalettes := palettes;
      newPalettes := newPalettes[index := newPalettes[index].(used := !newPalettes[index].used)];
      palettes := newPalettes;
    }

    /** `handleShuffle`: used palettes first in their order, then the unused ones in the order `picks` draws. */
    method HandleShuffle(picks: seq<nat>)
      modifies this
      ensures palettes == UsedStr(old(palettes)) + Shuffled(UnusedStr(old(palettes)), picks)
      ensures isShuffling
      ensures inputColors == old(inputColors) && paletteSize == old(paletteSize) && numSamples == old(numSamples)
      ensures usedPalettes == old(usedPalettes)
    {
      isShuffling := true;
      var used := UsedStr(palettes);
      var unused := UnusedStr(palettes);
      var shuffledUnused := Shuffled(unused, picks);
      palettes := used + shuffledUnused;
    }

    /** The timer callback after a shuffle. */
    method ShuffleSettled()
      modifies this
      ensures !isShuffling
      ensures inputColors == old(inputColors) && paletteSize == old(paletteSize) && numSamples == old(numSamples)
      ensures palettes == old(palettes) && usedPalettes == old(usedPalettes)
    {
      isShuffling := false;
    }

    /** `handleClearUsed`: no keys, every palette unused, colours and order kept. */
    method HandleClearUsed()
      modifies this
      ensures usedPalettes == []
      ensures |palettes| == old(|palettes|)
      ensures forall j :: 0 <= j < |palettes| ==> palettes[j] == old(palettes[j]).(used := false)
      ensures Consistent(palettes, usedPalettes)
      ensures inputColors == old(inputColors) && paletteSize == old(paletteSize) && numSamples == old(numSamples)
      ensures isShuffling == old(isShuffling)
    {
      usedPalettes := [];
      palettes := Marked(palettes, []);
    }
  }

  /** Toggling the same palette twice restores the palette list. */
  lemma ToggledAtTwice(ps: seq<StrPalette>, index: nat)
    requires index < |ps|
    ensures ToggledAt(ToggledAt(ps, index), index) == ps
  {
  }

  /**
   * When no two palettes share a signature, a toggle keeps the flags and the
   * key list in agreement.
   */
  lemma ToggleKeepsConsistent(ps: seq<StrPalette>, keys: seq<seq<string>>, index: nat)
    requires index < |ps| && Consistent(ps, keys) && Distinct(Signatures(ps))
    ensures Consistent(ToggledAt(ps, index), KeysAfterToggle(keys, ps[index]))
  {
    var r := ToggledAt(ps, index);
    var k := KeysAfterToggle(keys, ps[index]);
    forall j | 0 <= j < |r| ensures r[j].used <==> r[j].colors in k {
      if j != index {
        assert Signatures(ps)[j] != Signatures(ps)[index] || j == index;
        assert ps[j].colors != ps[index].colors;
      }
    }
  }

  /** Two palettes with the same colours: un-using one leaves the other marked used while its key is gone. */
  lemma ToggleWithSharedKey(ps: seq<StrPalette>, keys: seq<seq<string>>)
    requires ps == [StrPalette(["#a"], true), StrPalette(["#a"], true)] && keys == [["#a"]]
    ensures Consistent(ps, keys) && !Consistent(ToggledAt(ps, 0), KeysAfterToggle(keys, ps[0]))
  {
    assert ToggledAt(ps, 0)[1] == ps[1];
  }

  /** A shuffle keeps every palette, used ones first and in order, then only unused ones. */
  lemma ShuffleSpec(ps: seq<StrPalette>, picks: seq<nat>)
    ensures multiset(UsedStr(ps) + Shuffled(UnusedStr(ps), picks)) == multiset(ps)
    ensures |UsedStr(ps) + Shuffled(UnusedStr(ps), picks)| == |ps|
    ensures forall j :: |UsedStr(ps)| <= j < |ps| ==> !(UsedStr(ps) + Shuffled(UnusedStr(ps), picks))[j].used
  {
    var u: seq<StrPalette> := UsedStr(ps);
    var sh: seq<StrPalette> := Shuffled(UnusedStr(ps), picks);
    ShuffledMultiset(UnusedStr(ps), picks);
    UsedUnusedStrMultiset(ps);
    assert multiset(u + sh) == multiset(u) + multiset(sh);
    assert |u + sh| == |multiset(u + sh)|;
    forall j | |u| <= j < |ps| ensures !(u + sh)[j].used {
      assert (u + sh)[j] == sh[j - |u|];
      assert sh[j - |u|] in multiset(UnusedStr(ps));
    }
  }
}
