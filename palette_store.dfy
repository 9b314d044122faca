/**
 * The palette slice of the Redux store: input colours, palette size, the
 * generated/used palettes, statistics, the stored palette count and the status
 * of the last hand-made palette, with its reducers and its two thunks.
 */
module PaletteStore {
  import opened Types
  import opened Combinatorics
  import opened Helpers
  import UiStore

  // ---------------------------------------------------------------------------
  // Resolving palette colours against the input colours
  // ---------------------------------------------------------------------------

  /** `inputs.find(c => c.id === id)`. */
  function FindById(inputs: seq<Color>, id: string): (r: Option<Color>)
    ensures r.None? <==> forall j :: 0 <= j < |inputs| ==> inputs[j].id != id
    ensures r.Some? ==> r.value in inputs && r.value.id == id
  {
    var k := FindIndex(inputs, (c: Color) => c.id == id);
    if k == -1 then None else Some(inputs[k])
  }

  /**
   * The `for … of palette.colors` loop of the validation: each colour replaced
   * by the input colour with its id; `None` as soon as one id has no input.
   */
  function Resolve(cs: seq<Color>, inputs: seq<Color>): (r: Option<seq<Color>>)
    ensures r.Some? <==> forall j :: 0 <= j < |cs| ==> FindById(inputs, cs[j].id).Some?
    ensures r.Some? ==> |r.value| == |cs|
    ensures r.Some? ==> forall j :: 0 <= j < |cs| ==> r.value[j] == FindById(inputs, cs[j].id).value
    decreases |cs|
  {
    if cs == [] then Some([])
    else
      var pre := Resolve(cs[..|cs| - 1], inputs);
      var last := FindById(inputs, cs[|cs| - 1].id);
      if pre.None? || last.None? then None else Some(pre.value + [last.value])
  }

  /**
   * The flag-driven loop of `addManualPalette`: looks up each colour's id
   * among the inputs, collecting the input colours, and stops at the first
   * unknown id.
   */
  method CollectValidColors(colors: seq<Color>, inputColors: seq<Color>) returns (isValid: bool, validColors: seq<Color>)
    ensures isValid <==> Resolve(colors, inputColors).Some?
    ensures isValid ==> validColors == Resolve(colors, inputColors).value
  {
    validColors := [];
    isValid := true;
    for i := 0 to |colors|
      invariant Resolve(colors[..i], inputColors) == Some(validColors)
    {
      var inputColor := FindById(inputColors, colors[i].id);
      if inputColor.Some? {
        assert colors[..i + 1][..i] == colors[..i];
        validColors := validColors + [inputColor.value];
      } else {
        ResolvePrefixNone(colors, i, inputColors);
        isValid := false;
        break;
      }
    }
    assert isValid ==> colors[..|colors|] == colors;
  }

  /** An unknown id anywhere makes the whole resolution fail. */
  lemma ResolvePrefixNone(cs: seq<Color>, i: nat, inputs: seq<Color>)
    requires i < |cs| && FindById(inputs, cs[i].id).None?
    ensures Resolve(cs, inputs).None?
  {
  }

  /** One palette through `filter(used)` and the validating `map`: kept, with refreshed colours, or dropped. */
  function Revalidate(q: Palette, inputs: seq<Color>, paletteSize: int): Option<Palette> {
    var cs := Resolve(q.colors, inputs);
    if q.used && cs.Some? && |cs.value| == paletteSize then Some(q.(colors := cs.value)) else None
  }

  /**
   * A palette survives iff it is used, has the palette size and every colour
   * id is an input's; the survivor keeps id, flag and timestamp and takes the
   * input colours with the same ids.
   */
  lemma RevalidateSpec(q: Palette, inputs: seq<Color>, paletteSize: int)
    ensures var r := Revalidate(q, inputs, paletteSize);
      && (r.Some? <==> q.used && |q.colors| == paletteSize
                       && forall j :: 0 <= j < |q.colors| ==> FindById(inputs, q.colors[j].id).Some?)
      && (r.Some? ==> r.value.id == q.id && r.value.used && r.value.createdAt == q.createdAt
                      && |r.value.colors| == |q.colors|
                      && forall j :: 0 <= j < |q.colors| ==>
                           r.value.colors[j] in inputs && r.value.colors[j].id == q.colors[j].id)
  {
  }

  /**
   * The validation shared by `setInputColors` and `importState`: the used
   * palettes, in order, whose colour ids all resolve and whose length is the
   * palette size, with their colours replaced by the input colours.
   */
  function ValidateUsed(ps: seq<Palette>, inputs: seq<Color>, paletteSize: int): (r: seq<Palette>)
    ensures |r| <= |ps|
  {
    if ps == [] then []
    else
      var head := Revalidate(ps[0], inputs, paletteSize);
      (if head.Some? then [head.value] else []) + ValidateUsed(ps[1..], inputs, paletteSize)
  }

  /** The survivors are exactly the revalidated palettes: all used, all of the palette size. */
  lemma {:induction false} ValidateUsedMembers(ps: seq<Palette>, inputs: seq<Color>, paletteSize: int)
    ensures forall p :: p in ValidateUsed(ps, inputs, paletteSize) <==>
      exists q :: q in ps && Revalidate(q, inputs, paletteSize) == Some(p)
    ensures forall p :: p in ValidateUsed(ps, inputs, paletteSize) ==> p.used && |p.colors| == paletteSize
  {
    if ps != [] {
      ValidateUsedMembers(ps[1..], inputs, paletteSize);
      RevalidateSpec(ps[0], inputs, paletteSize);
      assert ps == [ps[0]] + ps[1..];
    }
  }

  /** The validation keeps the palettes' relative order. */
  lemma {:induction false} ValidateUsedAppend(a: seq<Palette>, b: seq<Palette>, inputs: seq<Color>, paletteSize: int)
    ensures ValidateUsed(a + b, inputs, paletteSize) == ValidateUsed(a, inputs, paletteSize) + ValidateUsed(b, inputs, paletteSize)
  {
    if a == [] {
      assert a + b == b;
    } else {
      assert (a + b)[0] == a[0] && (a + b)[1..] == a[1..] + b;
      ValidateUsedAppend(a[1..], b, inputs, paletteSize);
    }
  }

  /** Validating again against the same inputs changes nothing. */
  lemma {:induction false} ValidateUsedIdempotent(ps: seq<Palette>, inputs: seq<Color>, paletteSize: int)
    ensures ValidateUsed(ValidateUsed(ps, inputs, paletteSize), inputs, paletteSize) == ValidateUsed(ps, inputs, paletteSize)
  {
    if ps != [] {
      var head := Revalidate(ps[0], inputs, paletteSize);
      var rest := ValidateUsed(ps[1..], inputs, paletteSize);
      ValidateUsedIdempotent(ps[1..], inputs, paletteSize);
      assert ValidateUsed(ps, inputs, paletteSize) == (if head.Some? then [head.value] else []) + rest;
      if head.Some? {
        RevalidateIdempotent(ps[0], inputs, paletteSize);
        ValidateUsedAppend([head.value], rest, inputs, paletteSize);
        assert ValidateUsed([head.value], inputs, paletteSize) == [head.value] by {
          assert [head.value][1..] == [];
        }
        calc {
          ValidateUsed(ValidateUsed(ps, inputs, paletteSize), inputs, paletteSize);
          ValidateUsed([head.value] + rest, inputs, paletteSize);
          ValidateUsed([head.value], inputs, paletteSize) + ValidateUsed(rest, inputs, paletteSize);
          [head.value] + rest;
        }
      } else {
        assert ValidateUsed(ps, inputs, paletteSize) == rest;
      }
    }
  }

  lemma RevalidateIdempotent(q: Palette, inputs: seq<Color>, paletteSize: int)
    requires Revalidate(q, inputs, paletteSize).Some?
    ensures Revalidate(Revalidate(q, inputs, paletteSize).value, inputs, paletteSize) == Revalidate(q, inputs, paletteSize)
  {
    var p := Revalidate(q, inputs, paletteSize).value;
    var cs := Resolve(p.colors, inputs);
    assert cs.Some?;
    assert cs.value == p.colors;
  }

  // ---------------------------------------------------------------------------
  // Palette-list operations
  // ---------------------------------------------------------------------------

  /** `toggleUsedPalette`'s map: flip `used` on the palettes with that id. */
  function ToggleById(ps: seq<Palette>, id: string): seq<Palette> {
    seq(|ps|, j requires 0 <= j < |ps| => if ps[j].id == id then ps[j].(used := !ps[j].used) else ps[j])
  }

  /** Only `used` of the palettes with that id changes; length, order and every other field stay. */
  lemma ToggleByIdSpec(ps: seq<Palette>, id: string)
    ensures |ToggleById(ps, id)| == |ps|
    ensures forall j :: 0 <= j < |ps| ==>
      var r := ToggleById(ps, id)[j];
      r.id == ps[j].id && r.colors == ps[j].colors && r.createdAt == ps[j].createdAt
      && (r.used != ps[j].used <==> ps[j].id == id)
  {
  }

  /** Toggling the same id twice restores the list. */
  lemma ToggleByIdInvolution(ps: seq<Palette>, id: string)
    ensures ToggleById(ToggleById(ps, id), id) == ps
  {
    var t := ToggleById(ToggleById(ps, id), id);
    forall j | 0 <= j < |ps| ensures t[j] == ps[j] {
      if ps[j].id == id {
        assert t[j] == ps[j].(used := !!ps[j].used);
      }
    }
  }

  /** `splice(i, 1)` followed by `unshift`. */
  function MoveToFront(ps: seq<Palette>, i: nat): seq<Palette>
    requires i < |ps|
  {
    [ps[i]] + RemoveAt(ps, i)
  }

  /** Moving to the front keeps every palette and the relative order of the others. */
  lemma MoveToFrontSpec(ps: seq<Palette>, i: nat)
    requires i < |ps|
    ensures |MoveToFront(ps, i)| == |ps|
    ensures multiset(MoveToFront(ps, i)) == multiset(ps)
    ensures MoveToFront(ps, i)[0] == ps[i]
    ensures forall a, b :: 0 <= a < b < |ps| && a != i && b != i ==>
      exists a', b' :: 1 <= a' < b' < |ps| && MoveToFront(ps, i)[a'] == ps[a] && MoveToFront(ps, i)[b'] == ps[b]
  {
    RemoveAtMultiset(ps, i);
    var r := MoveToFront(ps, i);
    forall a, b | 0 <= a < b < |ps| && a != i && b != i
      ensures exists a', b' :: 1 <= a' < b' < |ps| && r[a'] == ps[a] && r[b'] == ps[b]
    {
      var a' := if a < i then a + 1 else a;
      var b' := if b < i then b + 1 else b;
      assert r[a'] == ps[a] && r[b'] == ps[b];
    }
  }

  /** `arePalettesEqual`: the same colour values in the same order. */
  predicate PalettesEqual(a: Palette, b: Palette) {
    Values(a.colors) == Values(b.colors)
  }

  /** The `findIndex` of `addManualPalette`: the first palette equal to `added`, or -1. */
  function FindMatch(ps: seq<Palette>, added: Palette): int {
    FindIndex(ps, (p: Palette) => PalettesEqual(p, added))
  }

  /**
   * Where a valid hand-made palette goes: a new palette in front (`Added`),
   * or its first equal moved to the front, marked used (`Exist` if it was
   * unused, `AlreadyUsed` if not).
   */
  function Placed(ps: seq<Palette>, added: Palette): (seq<Palette>, ManualStatus) {
    var i := FindMatch(ps, added);
    if i == -1 then ([added] + ps, Added)
    else if !ps[i].used then (MoveToFront(ps[i := ps[i].(used := true)], i), Exist)
    else (MoveToFront(ps, i), AlreadyUsed)
  }

  /**
   * After placing, the front palette is used and equal to the added one;
   * `Added` exactly when no palette was equal, and then the list grew by it;
   * otherwise the length is unchanged and the others keep their order, and
   * `AlreadyUsed` exactly when the first equal palette was already used.
   */
  lemma PlacedSpec(ps: seq<Palette>, added: Palette)
    requires added.used
    ensures var (r, status) := Placed(ps, added);
      && |r| > 0 && r[0].used && PalettesEqual(r[0], added)
      && (status == Added <==> forall p :: p in ps ==> !PalettesEqual(p, added))
      && (status == Added ==> r == [added] + ps)
      && (status != Added ==> var i := FindMatch(ps, added);
            && 0 <= i < |ps| && |r| == |ps| && r[1..] == RemoveAt(ps, i)
            && r[0] == ps[i].(used := true)
            && (status == AlreadyUsed <==> ps[i].used))
  {
    var i := FindMatch(ps, added);
    if i >= 0 {
      assert PalettesEqual(ps[i], added);
      if !ps[i].used {
        var q := ps[i := ps[i].(used := true)];
        assert RemoveAt(q, i) == RemoveAt(ps, i);
      }
    } else {
      forall p | p in ps ensures !PalettesEqual(p, added) {
        var j :| 0 <= j < |ps| && ps[j] == p;
      }
    }
  }

  /** The freshly generated palettes not equal to any used one. */
  function WithoutMatches(generated: seq<Palette>, used: seq<Palette>): seq<Palette> {
    Filter(generated, (q: Palette) => forall u :: u in used ==> !PalettesEqual(u, q))
  }

  /**
   * Appending the generated palettes that match no used one keeps the used
   * palettes in front and adds only unused palettes of the size, none equal
   * to a used palette.
   */
  lemma FreshAfterUsed(used: seq<Palette>, generated: seq<Palette>, paletteSize: int)
    requires forall j :: 0 <= j < |generated| ==> |generated[j].colors| == paletteSize && !generated[j].used
    ensures var r := used + WithoutMatches(generated, used);
      && r[..|used|] == used
      && forall j :: |used| <= j < |r| ==>
           !r[j].used && |r[j].colors| == paletteSize && forall u :: u in used ==> !PalettesEqual(u, r[j])
  {
    var novel := WithoutMatches(generated, used);
    var r := used + novel;
    forall j | |used| <= j < |r|
      ensures !r[j].used && |r[j].colors| == paletteSize && forall u :: u in used ==> !PalettesEqual(u, r[j])
    {
      assert r[j] == novel[j - |used|];
      assert novel[j - |used|] in novel;
      var m :| 0 <= m < |generated| && generated[m] == r[j];
    }
  }

  /**
   * The palette list `generatePalettesForPage` leaves: the used palettes, then,
   * when generation is possible, the shuffled enumeration without the palettes
   * equal to a used one.
   */
  function ForPage(s: Snapshot, ids: nat -> string, now: int, picks: seq<nat>): seq<Palette> {
    var used := UsedOf(s.generatedPalettes);
    if |s.inputColors| < s.paletteSize || s.paletteSize <= 0 || s.totalCombinations == 0 then used
    else used + WithoutMatches(ShuffleColors(MakePalettes(Arrangements(s.inputColors, s.paletteSize), ids, 0, now), picks), used)
  }

  /**
   * After `generatePalettesForPage` the used palettes come first, unchanged,
   * and every later palette is an unused palette of the current size equal to
   * no used palette.
   */
  lemma ForPageSpec(s: Snapshot, ids: nat -> string, now: int, picks: seq<nat>)
    ensures var r := ForPage(s, ids, now, picks);
      var used := UsedOf(s.generatedPalettes);
      && r[..|used|] == used
      && forall j :: |used| <= j < |r| ==>
           !r[j].used && |r[j].colors| == s.paletteSize && forall u :: u in used ==> !PalettesEqual(u, r[j])
  {
    var used := UsedOf(s.generatedPalettes);
    if !(|s.inputColors| < s.paletteSize || s.paletteSize <= 0 || s.totalCombinations == 0) {
      GeneratedSpec(s.inputColors, s.paletteSize, ids, now, picks);
      FreshAfterUsed(used, ShuffleColors(MakePalettes(Arrangements(s.inputColors, s.paletteSize), ids, 0, now), picks), s.paletteSize);
    }
  }

  /**
   * The state `addManualPalette` leaves: `Invalid` when a colour id is
   * unknown or the size is wrong, otherwise the resolved palette, marked
   * used, placed as `Placed` says.
   */
  function AddedManually(s: Snapshot, palette: Palette): Snapshot {
    var resolved := Resolve(palette.colors, s.inputColors);
    if resolved.None? || |resolved.value| != s.paletteSize then s.(addManualPaletteStatus := Invalid)
    else
      var placed := Placed(s.generatedPalettes, palette.(used := true, colors := resolved.value));
      s.(generatedPalettes := placed.0, addManualPaletteStatus := placed.1)
  }

  /** The six default colours, each with a generated id. */
  function DefaultInputColors(ids: nat -> string): seq<Color> {
    [Color(ids(0), "#FFFFFF", None), Color(ids(1), "#000000", None), Color(ids(2), "#a82b3d", None),
     Color(ids(3), "#465e7a", None), Color(ids(4), "#92a14f", None), Color(ids(5), "#fac403", None)]
  }

  /** The payload of `importState`: a whole palette state. */
  datatype Snapshot = Snapshot(
    inputColors: seq<Color>,
    paletteSize: int,
    generatedPalettes: seq<Palette>,
    statistics: Statistics,
    totalCombinations: int,
    addManualPaletteStatus: ManualStatus)

  /**
   * The state after `setInputColors(inputs)`: the inputs replaced, the
   * palettes revalidated against them and the count recomputed.
   */
  function WithInputs(s: Snapshot, inputs: seq<Color>): Snapshot {
    s.(inputColors := inputs,
       generatedPalettes := ValidateUsed(s.generatedPalettes, inputs, s.paletteSize),
       totalCombinations := PermutationCount(|inputs|, s.paletteSize))
  }

  /** The state after `setPaletteSize(size)`: every palette dropped and the count recomputed. */
  function WithSize(s: Snapshot, size: int): Snapshot {
    s.(paletteSize := size, generatedPalettes := [],
       totalCombinations := PermutationCount(|s.inputColors|, size))
  }

  class PaletteState {
    var inputColors: seq<Color>
    var paletteSize: int
    var generatedPalettes: seq<Palette>
    var statistics: Statistics
    var totalCombinations: int
    var addManualPaletteStatus: ManualStatus

    function State(): Snapshot
      reads this
    {
      Snapshot(inputColors, paletteSize, generatedPalettes, statistics, totalCombinations, addManualPaletteStatus)
    }

    /** The initial state; `ids` stands for the six `generateId()` calls. */
    constructor (ids: nat -> string)
      ensures State() == Snapshot(DefaultInputColors(ids), 3, [], map[], 0, Idle)
    {
      inputColors := DefaultInputColors(ids);
      paletteSize := 3;
      generatedPalettes := [];
      statistics := map[];
      totalCombinations := 0;
      addManualPaletteStatus := Idle;
    }

    /** Replaces the inputs; only validated used palettes survive; the count is recomputed. */
    method SetInputColors(newInputColors: seq<Color>)
      modifies this
      ensures generatedPalettes == ValidateUsed(old(generatedPalettes), newInputColors, old(paletteSize))
      ensures inputColors == newInputColors
      ensures totalCombinations == PermutationCount(|newInputColors|, paletteSize)
      ensures paletteSize == old(paletteSize) && statistics == old(statistics)
      ensures addManualPaletteStatus == old(addManualPaletteStatus)
      ensures State() == WithInputs(old(State()), newInputColors)
    {
      generatedPalettes := ValidateUsed(generatedPalettes, newInputColors, paletteSize);
      inputColors := newInputColors;
      totalCombinations := CalculateTotalPossiblePermutations(|inputColors|, paletteSize);
    }

    /** A new size discards every palette, used ones included. */
    method SetPaletteSize(size: int)
      modifies this
      ensures paletteSize == size && generatedPalettes == []
      ensures totalCombinations == PermutationCount(|inputColors|, size)
      ensures inputColors == old(inputColors) && statistics == old(statistics)
      ensures addManualPaletteStatus == old(addManualPaletteStatus)
      ensures State() == WithSize(old(State()), size)
    {
      paletteSize := size;
      totalCombinations := CalculateTotalPossiblePermutations(|inputColors|, paletteSize);
      generatedPalettes := [];
    }

    method SetGeneratedPalettes(palettes: seq<Palette>)
      modifies this
      ensures State() == old(State()).(generatedPalettes := palettes)
    {
      generatedPalettes := palettes;
    }

    method ToggleUsedPalette(id: string)
      modifies this
      ensures State() == old(State()).(generatedPalettes := ToggleById(old(generatedPalettes), id))
    {
      generatedPalettes := ToggleById(generatedPalettes, id);
    }

    method ClearAllPalettes()
      modifies this
      ensures State() == old(State()).(generatedPalettes := [])
    {
      generatedPalettes := [];
    }

    /** Removes the used palettes (it does not unmark them); the unused keep their order. */
    method ClearUsedPalettes()
      modifies this
      ensures State() == old(State()).(generatedPalettes := UnusedOf(old(generatedPalettes)))
      ensures forall p :: p in generatedPalettes <==> p in old(generatedPalettes) && !p.used
    {
      generatedPalettes := UnusedOf(generatedPalettes);
    }

    method UpdateStatistics(stats: Statistics)
      modifies this
      ensures State() == old(State()).(statistics := stats)
    {
      statistics := stats;
    }

    /** Takes the imported state, with its palettes validated as in `setInputColors` and the count recomputed. */
    method ImportState(newState: Snapshot)
      modifies this
      ensures State() == newState.(
        generatedPalettes := ValidateUsed(newState.generatedPalettes, newState.inputColors, newState.paletteSize),
        totalCombinations := PermutationCount(|newState.inputColors|, newState.paletteSize))
    {
      var validated := ValidateUsed(newState.generatedPalettes, newState.inputColors, newState.paletteSize);
      var total := CalculateTotalPossiblePermutations(|newState.inputColors|, newState.paletteSize);
      inputColors, paletteSize, generatedPalettes := newState.inputColors, newState.paletteSize, validated;
      statistics, totalCombinations, addManualPaletteStatus := newState.statistics, total, newState.addManualPaletteStatus;
    }

    /**
     * Adds a hand-made palette as used. An unknown colour id or a wrong length
     * is `Invalid` and changes no palette; otherwise a palette with the same
     * ordered colour values is moved to the front (marked used if it was not),
     * or the new palette is put in front.
     */
    method AddManualPalette(palette: Palette)
      modifies this
      ensures State() == AddedManually(old(State()), palette)
    {
      var newPalette := palette.(used := true);
      var isValid, validColors := CollectValidColors(newPalette.colors, inputColors);
      if !isValid || |validColors| != paletteSize {
        addManualPaletteStatus := Invalid;
        return;
      }
      var paletteToAdd := newPalette.(colors := validColors);
      assert paletteToAdd == palette.(used := true, colors := Resolve(palette.colors, inputColors).value);
      ghost var placed := Placed(generatedPalettes, paletteToAdd);
      var existingIndex := FindMatch(generatedPalettes, paletteToAdd);
      if existingIndex == -1 {
        generatedPalettes := [paletteToAdd] + generatedPalettes;
        addManualPaletteStatus := Added;
      } else if !generatedPalettes[existingIndex].used {
        generatedPalettes := generatedPalettes[existingIndex := generatedPalettes[existingIndex].(used := true)];
        generatedPalettes := MoveToFront(generatedPalettes, existingIndex);
        addManualPaletteStatus := Exist;
      } else {
        generatedPalettes := MoveToFront(generatedPalettes, existingIndex);
        addManualPaletteStatus := AlreadyUsed;
      }
      assert (generatedPalettes, addManualPaletteStatus) == placed;
    }

    method ResetAddManualPaletteStatus()
      modifies this
      ensures State() == old(State()).(addManualPaletteStatus := Idle)
    {
      addManualPaletteStatus := Idle;
    }

    /**
     * The `generatePalettesForPage` thunk: sets the list filter to "all", then
     * keeps the used palettes and, when a palette can be formed and the stored
     * count is not 0, appends every freshly generated palette that equals none
     * of them. `ids`, `now` and `picks` stand for `generateId`, `Date.now` and
     * the shuffle's random choices.
     */
    method GeneratePalettesForPage(ui: UiStore.UiState, ids: nat -> string, now: int, picks: seq<nat>)
      modifies this, ui
      ensures ui.Flags() == old(ui.Flags()).(paletteListFilter := "all")
      ensures State() == old(State()).(generatedPalettes := ForPage(old(State()), ids, now, picks))
    {
      ghost var s0 := State();
      ui.SetPaletteListFilter("all");
      var usedPalettes := UsedOf(generatedPalettes);
      if |inputColors| < paletteSize || paletteSize <= 0 || totalCombinations == 0 {
        generatedPalettes := usedPalettes;
        return;
      }
      var generated := GeneratePalettes(inputColors, paletteSize, ids, now, picks);
      assert generated == ShuffleColors(MakePalettes(Arrangements(s0.inputColors, s0.paletteSize), ids, 0, now), picks);
      var newlyGenerated := WithoutMatches(generated, usedPalettes);
      generatedPalettes := usedPalettes + newlyGenerated;
      assert generatedPalettes == ForPage(s0, ids, now, picks);
    }

    /** The `calculateAndUpdateStatistics` thunk: the dense statistics of the current palettes. */
    method CalculateAndUpdateStatistics()
      modifies this
      ensures State() == old(State()).(statistics := statistics)
      ensures DenseStatistics(statistics, generatedPalettes, paletteSize, inputColors)
    {
      var stats := CalculateColorStatistics(generatedPalettes, paletteSize, inputColors);
      statistics := stats;
    }
  }
}
