/**
 * The one-off migration from the string-based local-storage format to the
 * store's state: hex strings become `Color` records (upper-cased values,
 * fresh ids), old palettes become store palettes that share the input
 * colours' records, and the UI flags are carried over.
 */
module Migration {
  import opened Types
  import opened UiStore
  import opened PaletteStore

  /** A palette of the old format; `colors` is None when the stored value is not an array. */
  datatype OldPalette = OldPalette(colors: Option<seq<string>>, used: bool)

  /**
   * The old local-storage record. A missing or non-array list is None; a
   * missing number is None (JavaScript's falsy 0 is Some(0)); a missing flag
   * is false. `usedPalettes` is carried but never read.
   */
  datatype OldData = OldData(
    colorInputsOpen: bool,
    colorStatisticsOpen: bool,
    inputColors: Option<seq<string>>,
    paletteSize: Option<int>,
    numSamples: Option<int>,
    palettes: Option<seq<OldPalette>>,
    settingsOpen: bool,
    usedPalettes: seq<string>)

  /** The name table of `getColorLabel`. */
  const KnownColors: map<string, string> := map[
    "#FFFFFF" := "White", "#000000" := "Black", "#a82b3d" := "Red",
    "#465e7a" := "Blue", "#92a14f" := "Green", "#fac403" := "Yellow"]

  /**
   * `getColorLabel`: the name listed for the upper-cased hex, else the
   * upper-cased hex. The table's last four keys hold lower-case letters, which
   * an upper-cased string never does, so only white and black are ever named.
   */
  function GetColorLabel(hex: string): (r: string)
    ensures r == if Upper(hex) == "#FFFFFF" then "White" else if Upper(hex) == "#000000" then "Black" else Upper(hex)
  {
    var key := Upper(hex);
    NoLowerCase(hex);
    if key in KnownColors && KnownColors[key] != "" then KnownColors[key] else key
  }

  lemma NoLowerCase(hex: string)
    ensures Upper(hex) != "#a82b3d" && Upper(hex) != "#465e7a" && Upper(hex) != "#92a14f" && Upper(hex) != "#fac403"
  {
    var u := Upper(hex);
    if |u| == 7 {
      assert u[1] != 'a' && u[6] != 'a' && u[1] != 'f' && u[6] != 'f';
      assert u[5] != 'f' && u[4] != 'e';
    }
  }

  /** `x || d` on a stored number: a missing value or 0 falls back to `d`. */
  function OrNumber(x: Option<int>, d: int): (r: int)
    ensures x.Some? && x.value != 0 ==> r == x.value
    ensures x.None? || x.value == 0 ==> r == d
  {
    if x.Some? && x.value != 0 then x.value else d
  }

  /** The input colours: one record per hex, id `ids(i)`, value upper-cased, no label. */
  function NewInputColors(hexes: seq<string>, ids: nat -> string): (r: seq<Color>)
    ensures |r| == |hexes|
    ensures forall i :: 0 <= i < |hexes| ==> r[i] == Color(ids(i), Upper(hexes[i]), None)
  {
    seq(|hexes|, i requires 0 <= i < |hexes| => Color(ids(i), Upper(hexes[i]), None))
  }

  /** `colorMap` after `set(value, color)` for each colour in order: a later equal value overwrites. */
  function ColorMapOf(cs: seq<Color>): (m: map<string, Color>)
    ensures forall v :: v in m <==> exists i :: 0 <= i < |cs| && cs[i].value == v
  {
    if cs == [] then map[]
    else
      var m := ColorMapOf(cs[..|cs| - 1]);
      var last := cs[|cs| - 1];
      assert forall i :: 0 <= i < |cs| - 1 ==> cs[..|cs| - 1][i] == cs[i];
      m[last.value := last]
  }

  /** The record a value maps to is the last input colour with that value. */
  lemma {:induction false} ColorMapLast(cs: seq<Color>, v: string)
    requires v in ColorMapOf(cs)
    ensures exists i :: 0 <= i < |cs| && cs[i] == ColorMapOf(cs)[v] && cs[i].value == v &&
                        forall j :: i < j < |cs| ==> cs[j].value != v
  {
    var last := cs[|cs| - 1];
    var pre := cs[..|cs| - 1];
    if last.value != v {
      ColorMapLast(pre, v);
      var i :| 0 <= i < |pre| && pre[i] == ColorMapOf(pre)[v] && pre[i].value == v &&
               forall j :: i < j < |pre| ==> pre[j].value != v;
      assert cs[i] == pre[i];
      forall j | i < j < |cs| ensures cs[j].value != v {
        if j < |cs| - 1 { assert cs[j] == pre[j]; }
      }
    }
  }

  /** The migrated colour of one hex: the input record of that value, else a new labelled record with id `ids(next)`. */
  function MigrateColor(hex: string, colorMap: map<string, Color>, ids: nat -> string, next: nat): (Color, nat) {
    var key := Upper(hex);
    if key in colorMap then (colorMap[key], next)
    else (Color(ids(next), key, Some(GetColorLabel(hex))), next + 1)
  }

  /**
   * `palette.colors.map(...)` with ids drawn from `next` on: one colour per
   * hex, in order, with the upper-cased value; an input colour of that value
   * is reused as is, any other gets a label.
   */
  function MigrateColors(hexes: seq<string>, colorMap: map<string, Color>, ids: nat -> string, next: nat)
    : (r: (seq<Color>, nat))
    requires KeyedByValue(colorMap)
    ensures |r.0| == |hexes| && next <= r.1
    ensures forall i :: 0 <= i < |hexes| ==>
      && r.0[i].value == Upper(hexes[i])
      && (Upper(hexes[i]) in colorMap ==> r.0[i] == colorMap[Upper(hexes[i])])
      && (Upper(hexes[i]) !in colorMap ==> r.0[i].displayLabel == Some(GetColorLabel(hexes[i])))
  {
    if hexes == [] then ([], next)
    else
      var (pre, n) := MigrateColors(hexes[..|hexes| - 1], colorMap, ids, next);
      var (c, n') := MigrateColor(hexes[|hexes| - 1], colorMap, ids, n);
      ColorMapValues(colorMap, Upper(hexes[|hexes| - 1]));
      (pre + [c], n')
  }

  /** Every record of the colour map carries its key as value. */
  ghost predicate KeyedByValue(colorMap: map<string, Color>) {
    forall v :: v in colorMap ==> colorMap[v].value == v
  }

  lemma ColorMapValues(colorMap: map<string, Color>, key: string)
    requires KeyedByValue(colorMap)
    ensures key in colorMap ==> colorMap[key].value == key
  {
  }

  lemma {:induction false} ColorMapKeyed(cs: seq<Color>)
    ensures KeyedByValue(ColorMapOf(cs))
  {
    if cs != [] { ColorMapKeyed(cs[..|cs| - 1]); }
  }

  /** The old palettes whose colours are an array, in order. */
  function WithColors(olds: seq<OldPalette>): (r: seq<OldPalette>)
    ensures |r| <= |olds|
    ensures forall j :: 0 <= j < |r| ==> r[j].colors.Some?
  {
    if olds == [] then []
    else WithColors(olds[..|olds| - 1]) + (if olds[|olds| - 1].colors.Some? then [olds[|olds| - 1]] else [])
  }

  /**
   * The migrated palettes with ids drawn from `next` on: one per old palette
   * with an array of colours, in order, each with as many colours as before,
   * the same upper-cased values, the old `used` flag and the clock reading.
   */
  function MigratePalettes(olds: seq<OldPalette>, colorMap: map<string, Color>, ids: nat -> string, next: nat, now: int)
    : (r: (seq<Palette>, nat))
    requires KeyedByValue(colorMap)
    ensures |r.0| == |WithColors(olds)| && next <= r.1
    ensures forall j :: 0 <= j < |r.0| ==>
      var o := WithColors(olds)[j].colors.value;
      && |r.0[j].colors| == |o|
      && (forall i :: 0 <= i < |o| ==> r.0[j].colors[i].value == Upper(o[i]))
      && r.0[j].used == WithColors(olds)[j].used
      && r.0[j].createdAt == now
  {
    if olds == [] then ([], next)
    else
      var (pre, n) := MigratePalettes(olds[..|olds| - 1], colorMap, ids, next, now);
      var last := olds[|olds| - 1];
      if last.colors.None? then (pre, n)
      else
        var (cs, n') := MigrateColors(last.colors.value, colorMap, ids, n);
        (pre + [Palette(ids(n'), cs, last.used, now)], n' + 1)
  }

  /** A row of zero counts for every input value. */
  function ZeroRow(cs: seq<Color>): (row: map<string, int>)
    ensures row.Keys == set c | c in cs :: c.value
    ensures forall v :: v in row ==> row[v] == 0
  {
    if cs == [] then map[]
    else
      var pre := cs[..|cs| - 1];
      assert forall c :: c in cs <==> c in pre || c == cs[|cs| - 1];
      ZeroRow(pre)[cs[|cs| - 1].value := 0]
  }

  /**
   * `migrateData`. `ids(n)` is the n-th `generateId()` call and `now` the
   * clock. Returns the palette state and the UI state.
   */
  method MigrateData(oldData: OldData, ids: nat -> string, now: int) returns (state: Snapshot, ui: UiFlags)
    ensures ui == UiFlags(oldData.colorInputsOpen, oldData.settingsOpen, oldData.colorStatisticsOpen, false, false, false, "all")
    ensures state.paletteSize == OrNumber(oldData.paletteSize, 3)
    ensures state.totalCombinations == OrNumber(oldData.numSamples, 120)
    ensures state.addManualPaletteStatus == Idle
    ensures state.inputColors == NewInputColors(oldData.inputColors.GetOr([]), ids)
    ensures state.inputColors != [] ==>
      && (forall p :: p in state.statistics <==> 1 <= p <= 3)
      && (forall p :: p in state.statistics ==> state.statistics[p] == ZeroRow(state.inputColors))
    ensures state.inputColors == [] ==> state.statistics == map[]
    ensures KeyedByValue(ColorMapOf(state.inputColors))
    ensures state.generatedPalettes ==
      MigratePalettes(oldData.palettes.GetOr([]), ColorMapOf(state.inputColors), ids, |state.inputColors|, now).0
  {
    ui := UiFlags(oldData.colorInputsOpen, oldData.settingsOpen, oldData.colorStatisticsOpen, false, false, false, "all");
    var inputColors, colorMap := ConvertInputColors(oldData.inputColors.GetOr([]), ids);
    var statistics := SeedStatistics(inputColors);
    ColorMapKeyed(inputColors);
    var generatedPalettes := ConvertPalettes(oldData.palettes.GetOr([]), colorMap, ids, |inputColors|, now);
    state := Snapshot(inputColors, OrNumber(oldData.paletteSize, 3), generatedPalettes, statistics,
                      OrNumber(oldData.numSamples, 120), Idle);
  }

  /** The `inputColors.forEach`: push each new record and `colorMap.set` it under its value. */
  method ConvertInputColors(hexes: seq<string>, ids: nat -> string)
    returns (inputColors: seq<Color>, colorMap: map<string, Color>)
    ensures inputColors == NewInputColors(hexes, ids)
    ensures colorMap == ColorMapOf(inputColors)
  {
    var next: nat := 0;
    inputColors, colorMap := [], map[];
    for i := 0 to |hexes|
      invariant next == i
      invariant inputColors == NewInputColors(hexes[..i], ids)
      invariant colorMap == ColorMapOf(inputColors)
    {
      var newColor := Color(ids(next), Upper(hexes[i]), None);
      next := next + 1;
      assert inputColors + [newColor] == NewInputColors(hexes[..i + 1], ids);
      inputColors := inputColors + [newColor];
      assert inputColors[..|inputColors| - 1] == NewInputColors(hexes[..i], ids);
      colorMap := colorMap[Upper(hexes[i]) := newColor];
    }
    assert hexes[..|hexes|] == hexes;
  }

  /** Positions 1, 2 and 3, each with every input value at 0, when there are input colours. */
  method SeedStatistics(inputColors: seq<Color>) returns (statistics: Statistics)
    ensures inputColors != [] ==>
      && (forall p :: p in statistics <==> 1 <= p <= 3)
      && (forall p :: p in statistics ==> statistics[p] == ZeroRow(inputColors))
    ensures inputColors == [] ==> statistics == map[]
  {
    statistics := map[];
    if |inputColors| > 0 {
      for p := 1 to 4
        invariant forall q :: q in statistics <==> 1 <= q < p
        invariant forall q :: q in statistics ==> statistics[q] == ZeroRow(inputColors)
      {
        var row: map<string, int> := map[];
        for k := 0 to |inputColors|
          invariant row == ZeroRow(inputColors[..k])
        {
          assert inputColors[..k + 1][..k] == inputColors[..k];
          row := row[inputColors[k].value := 0];
        }
        assert inputColors[..|inputColors|] == inputColors;
        statistics := statistics[p := row];
      }
    }
  }

  /** The `palettes.forEach`: each palette with an array of colours is converted and pushed. */
  method ConvertPalettes(olds: seq<OldPalette>, colorMap: map<string, Color>, ids: nat -> string, start: nat, now: int)
    returns (generatedPalettes: seq<Palette>)
    requires KeyedByValue(colorMap)
    ensures generatedPalettes == MigratePalettes(olds, colorMap, ids, start, now).0
  {
    var next := start;
    generatedPalettes := [];
    for j := 0 to |olds|
      invariant (generatedPalettes, next) == MigratePalettes(olds[..j], colorMap, ids, start, now)
    {
      MigratePalettesStep(olds, colorMap, ids, start, now, j);
      var palette := olds[j];
      if palette.colors.Some? {
        var newPaletteColors: seq<Color>;
        newPaletteColors, next := MigrateColorList(palette.colors.value, colorMap, ids, next);
        var newGeneratedPalette := Palette(ids(next), newPaletteColors, palette.used, now);
        next := next + 1;
        generatedPalettes := generatedPalettes + [newGeneratedPalette];
      }
    }
    assert olds[..|olds|] == olds;
  }

  /** One more old palette adds its migrated palette, when its colours are an array. */
  lemma MigratePalettesStep(olds: seq<OldPalette>, colorMap: map<string, Color>, ids: nat -> string, start: nat, now: int, j: nat)
    requires KeyedByValue(colorMap) && j < |olds|
    ensures var (pre, n) := MigratePalettes(olds[..j], colorMap, ids, start, now);
      MigratePalettes(olds[..j + 1], colorMap, ids, start, now)
        == if olds[j].colors.None? then (pre, n)
           else var (cs, n') := MigrateColors(olds[j].colors.value, colorMap, ids, n);
             (pre + [Palette(ids(n'), cs, olds[j].used, now)], n' + 1)
  {
    assert olds[..j + 1][..j] == olds[..j];
  }

  /** The `colors.map(...)` of one old palette, one hex at a time. */
  method MigrateColorList(hexes: seq<string>, colorMap: map<string, Color>, ids: nat -> string, next: nat)
    returns (colors: seq<Color>, next': nat)
    requires KeyedByValue(colorMap)
    ensures (colors, next') == MigrateColors(hexes, colorMap, ids, next)
  {
    colors, next' := [], next;
    for i := 0 to |hexes|
      invariant (colors, next') == MigrateColors(hexes[..i], colorMap, ids, next)
    {
      MigrateColorsStep(hexes, colorMap, ids, next, i);
      var key := Upper(hexes[i]);
      if key in colorMap {
        colors := colors + [colorMap[key]];
      } else {
        colors := colors + [Color(ids(next'), key, Some(GetColorLabel(hexes[i])))];
        next' := next' + 1;
      }
    }
    assert hexes[..|hexes|] == hexes;
  }

  /** One more hex extends the migrated list by that hex's colour. */
  lemma MigrateColorsStep(hexes: seq<string>, colorMap: map<string, Color>, ids: nat -> string, next: nat, i: nat)
    requires KeyedByValue(colorMap) && i < |hexes|
    ensures var (pre, n) := MigrateColors(hexes[..i], colorMap, ids, next);
      MigrateColors(hexes[..i + 1], colorMap, ids, next)
        == (pre + [MigrateColor(hexes[i], colorMap, ids, n).0], MigrateColor(hexes[i], colorMap, ids, n).1)
  {
    assert hexes[..i + 1][..i] == hexes[..i];
  }

  /** A palette colour whose value matches an input colour is that input's record, the last one when values repeat. */
  lemma SharedRecords(inputColors: seq<Color>, hexes: seq<string>, ids: nat -> string, next: nat, i: nat)
    requires i < |hexes| && exists k :: 0 <= k < |inputColors| && inputColors[k].value == Upper(hexes[i])
    ensures KeyedByValue(ColorMapOf(inputColors))
    ensures var c := MigrateColors(hexes, ColorMapOf(inputColors), ids, next).0[i];
      exists k :: 0 <= k < |inputColors| && inputColors[k] == c &&
                  forall j :: k < j < |inputColors| ==> inputColors[j].value != c.value
  {
    ColorMapKeyed(inputColors);
    ColorMapLast(inputColors, Upper(hexes[i]));
  }
}
