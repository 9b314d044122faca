/**
 * The dialog that records a palette made by hand as used: the user picks up
 * to `paletteSize` input colours, in order, and submits them to the store's
 * `addManualPalette`; the store's verdict then closes the dialog or not.
 */
module AddUsedPalette {
  import opened Types
  import PaletteStore
  import UiStore

  /** `cs.find(c => c.id === id)` finds something. */
  predicate HasId(cs: seq<Color>, id: string) {
    exists j :: 0 <= j < |cs| && cs[j].id == id
  }

  /** No two colours of `cs` share an id. */
  predicate DistinctIds(cs: seq<Color>) {
    forall i, j :: 0 <= i < j < |cs| ==> cs[i].id != cs[j].id
  }

  /** `cs.filter(c => c.id !== id)`. */
  function WithoutId(cs: seq<Color>, id: string): (r: seq<Color>)
    ensures |r| <= |cs|
  {
    if cs == [] then []
    else if cs[0].id != id then [cs[0]] + WithoutId(cs[1..], id)
    else WithoutId(cs[1..], id)
  }

  /**
   * What clicking an input colour does to the selection: an already picked
   * colour (same id) is unpicked, a new one is appended while there is room,
   * and otherwise the selection stays as it is.
   */
  function Selected(cs: seq<Color>, color: Color, paletteSize: int): seq<Color> {
    if HasId(cs, color.id) then WithoutId(cs, color.id)
    else if |cs| < paletteSize then cs + [color]
    else cs
  }

  class AddUsedPaletteDialog {
    var selectedColors: seq<Color>

    constructor ()
      ensures selectedColors == []
    {
      selectedColors := [];
    }

    /** The effect on `isOpen`: opening the dialog clears the selection. */
    method OnOpenChange(isOpen: bool)
      modifies this
      ensures selectedColors == if isOpen then [] else old(selectedColors)
    {
      if isOpen {
        selectedColors := [];
      }
    }

    /** `handleColorSelect`; the toast shown when the selection is full is left out. */
    method HandleColorSelect(color: Color, paletteSize: int)
      modifies this
      ensures selectedColors == Selected(old(selectedColors), color, paletteSize)
    {
      var k := FindIndex(selectedColors, (c: Color) => c.id == color.id);
      if k != -1 {
        selectedColors := WithoutId(selectedColors, color.id);
      } else if |selectedColors| < paletteSize {
        selectedColors := selectedColors + [color];
      } else {
      }
    }

    /** `handleRemoveColor`: drops every picked colour with that id. */
    method HandleRemoveColor(colorToRemove: Color)
      modifies this
      ensures selectedColors == WithoutId(old(selectedColors), colorToRemove.id)
    {
      selectedColors := WithoutId(selectedColors, colorToRemove.id);
    }

    /** `handleRemoveColorByIndex`: an index outside the selection finds no colour and does nothing. */
    method HandleRemoveColorByIndex(index: int)
      modifies this
      ensures 0 <= index < |old(selectedColors)| ==>
        selectedColors == WithoutId(old(selectedColors), old(selectedColors)[index].id)
      ensures !(0 <= index < |old(selectedColors)|) ==> selectedColors == old(selectedColors)
    {
      if 0 <= index < |selectedColors| {
        HandleRemoveColor(selectedColors[index]);
      }
    }

    /**
     * `handleAddPalette`: only a selection of exactly `paletteSize` colours is
     * submitted, as a used palette; `id` and `now` stand for `generateId()`
     * and `Date.now()`.
     */
    method HandleAddPalette(store: PaletteStore.PaletteState, id: string, now: int)
      modifies store
      ensures |selectedColors| != old(store.paletteSize) ==> store.State() == old(store.State())
      ensures |selectedColors| == old(store.paletteSize) ==>
        store.State() == PaletteStore.AddedManually(old(store.State()), Palette(id, selectedColors, true, now))
    {
      if |selectedColors| != store.paletteSize {
        return;
      }
      var newPalette := Palette(id, selectedColors, true, now);
      store.AddManualPalette(newPalette);
    }
  }

  /**
   * The effect on the store's `addManualPaletteStatus`: a palette that was
   * added, marked or already used closes the dialog, and every verdict but
   * `Idle` is reset to `Idle`; the toasts are left out.
   */
  method OnStatusChange(store: PaletteStore.PaletteState, ui: UiStore.UiState)
    modifies store, ui
    ensures old(store.addManualPaletteStatus) in {Added, Exist, AlreadyUsed} ==>
      ui.Flags() == old(ui.Flags()).(addUsedPaletteDialogOpen := false)
    ensures old(store.addManualPaletteStatus) in {Idle, Invalid} ==> ui.Flags() == old(ui.Flags())
    ensures store.State() == old(store.State()).(addManualPaletteStatus := Idle)
  {
    match store.addManualPaletteStatus {
      case Added =>
        ui.SetAddUsedPaletteDialogOpen(false);
        store.ResetAddManualPaletteStatus();
      case Exist =>
        ui.SetAddUsedPaletteDialogOpen(false);
        store.ResetAddManualPaletteStatus();
      case AlreadyUsed =>
        ui.SetAddUsedPaletteDialogOpen(false);
        store.ResetAddManualPaletteStatus();
      case Invalid =>
        store.ResetAddManualPaletteStatus();
      case Idle =>
    }
  }

  // ---------------------------------------------------------------------------
  // What the selection keeps
  // ---------------------------------------------------------------------------

  /** Filtering keeps exactly the colours with another id. */
  lemma {:induction false} WithoutIdKeeps(cs: seq<Color>, id: string)
    ensures forall c :: c in WithoutId(cs, id) <==> c in cs && c.id != id
  {
    if cs != [] {
      WithoutIdKeeps(cs[1..], id);
      assert cs == [cs[0]] + cs[1..];
    }
  }

  /** Filtering out an id that no colour has changes nothing. */
  lemma {:induction false} WithoutAbsentId(cs: seq<Color>, id: string)
    requires !HasId(cs, id)
    ensures WithoutId(cs, id) == cs
  {
    if cs != [] {
      assert cs[0].id != id;
      assert !HasId(cs[1..], id) by {
        forall j | 0 <= j < |cs| - 1 ensures cs[1..][j].id != id { assert cs[1..][j] == cs[j + 1]; }
      }
      WithoutAbsentId(cs[1..], id);
      assert cs == [cs[0]] + cs[1..];
    }
  }

  /** Dropping an id keeps the other colours in their order, so distinct ids stay distinct. */
  lemma {:induction false} WithoutIdDistinct(cs: seq<Color>, id: string)
    requires DistinctIds(cs)
    ensures DistinctIds(WithoutId(cs, id))
  {
    if cs != [] {
      var rest := cs[1..];
      DistinctTail(cs);
      WithoutIdDistinct(rest, id);
      if cs[0].id != id {
        var tail := WithoutId(rest, id);
        var r := [cs[0]] + tail;
        forall j | 0 <= j < |tail|
          ensures tail[j].id != cs[0].id
        {
          WithoutIdKeeps(rest, id);
          assert tail[j] in rest;
          var k :| 0 <= k < |rest| && rest[k] == tail[j];
          assert cs[k + 1] == tail[j];
        }
        forall i, j | 0 <= i < j < |r| ensures r[i].id != r[j].id {
          assert r[j] == tail[j - 1];
          if i > 0 { assert r[i] == tail[i - 1]; }
        }
      }
    }
  }

  /** With distinct ids, removing the id of the colour at `i` removes exactly that colour. */
  lemma {:induction false} WithoutIdAt(cs: seq<Color>, i: int)
    requires DistinctIds(cs) && 0 <= i < |cs|
    ensures WithoutId(cs, cs[i].id) == cs[..i] + cs[i + 1..]
  {
    var rest := cs[1..];
    var id := cs[i].id;
    DistinctTail(cs);
    if i == 0 {
      assert WithoutId(cs, id) == WithoutId(rest, id);
      assert !HasId(rest, id) by {
        forall k | 0 <= k < |rest| ensures rest[k].id != id { assert rest[k] == cs[k + 1]; }
      }
      WithoutAbsentId(rest, id);
      assert cs[..0] + cs[1..] == rest;
    } else {
      assert cs[0].id != id;
      assert WithoutId(cs, id) == [cs[0]] + WithoutId(rest, id);
      assert rest[i - 1] == cs[i];
      WithoutIdAt(rest, i - 1);
      assert cs[..i] == [cs[0]] + rest[..i - 1];
      assert cs[i + 1..] == rest[i..];
    }
  }

  /** Distinct ids stay distinct without the first colour. */
  lemma DistinctTail(cs: seq<Color>)
    requires DistinctIds(cs) && cs != []
    ensures DistinctIds(cs[1..])
  {
    var rest := cs[1..];
    forall a, b | 0 <= a < b < |rest| ensures rest[a].id != rest[b].id {
      assert rest[a] == cs[a + 1] && rest[b] == cs[b + 1];
    }
  }

  /**
   * Clicking keeps the selection within `paletteSize` and its ids distinct,
   * and only ever adds the clicked colour or removes picked ones.
   */
  lemma SelectedKeepsShape(cs: seq<Color>, color: Color, paletteSize: int)
    requires |cs| <= paletteSize && DistinctIds(cs)
    ensures |Selected(cs, color, paletteSize)| <= paletteSize
    ensures DistinctIds(Selected(cs, color, paletteSize))
    ensures forall c :: c in Selected(cs, color, paletteSize) ==> c in cs || c == color
  {
    if HasId(cs, color.id) {
      WithoutIdDistinct(cs, color.id);
      WithoutIdKeeps(cs, color.id);
    } else if |cs| < paletteSize {
      var r := cs + [color];
      forall i, j | 0 <= i < j < |r| ensures r[i].id != r[j].id {
        if j == |cs| { assert r[i] == cs[i]; }
      }
    }
  }

  /**
   * Clicking a colour that is not picked, while there is room, and clicking
   * it again restores the selection.
   */
  lemma SelectTwice(cs: seq<Color>, color: Color, paletteSize: int)
    requires !HasId(cs, color.id) && |cs| < paletteSize
    ensures Selected(Selected(cs, color, paletteSize), color, paletteSize) == cs
  {
    var once := cs + [color];
    assert once[|cs|] == color;
    WithoutIdAppend(cs, color);
  }

  lemma {:induction false} WithoutIdAppend(cs: seq<Color>, color: Color)
    requires !HasId(cs, color.id)
    ensures WithoutId(cs + [color], color.id) == cs
  {
    if cs == [] {
      assert [color][1..] == [];
    } else {
      assert !HasId(cs[1..], color.id) by {
        forall j | 0 <= j < |cs| - 1 ensures cs[1..][j].id != color.id { assert cs[1..][j] == cs[j + 1]; }
      }
      WithoutIdAppend(cs[1..], color);
      assert (cs + [color])[1..] == cs[1..] + [color];
      assert cs[0].id != color.id;
      assert cs == [cs[0]] + cs[1..];
    }
  }

  /** Clicking a picked colour removes exactly that colour when the ids are distinct. */
  lemma UnselectAt(cs: seq<Color>, i: int, paletteSize: int)
    requires DistinctIds(cs) && 0 <= i < |cs|
    ensures Selected(cs, cs[i], paletteSize) == cs[..i] + cs[i + 1..]
  {
    assert HasId(cs, cs[i].id);
    WithoutIdAt(cs, i);
  }

  /**
   * A selection drawn from the current input colours, whose ids are
   * distinct, resolves to itself: the store then judges it by its length and
   * never as holding an unknown colour.
   */
  lemma SelectionResolves(cs: seq<Color>, inputs: seq<Color>)
    requires DistinctIds(inputs)
    requires forall j :: 0 <= j < |cs| ==> cs[j] in inputs
    ensures PaletteStore.Resolve(cs, inputs) == Some(cs)
  {
    forall j | 0 <= j < |cs| ensures PaletteStore.FindById(inputs, cs[j].id) == Some(cs[j]) {
      FindDistinct(inputs, cs[j]);
    }
    var r := PaletteStore.Resolve(cs, inputs);
    assert r.value == cs;
  }

  /** With distinct ids, looking up an input colour's id finds that colour. */
  lemma FindDistinct(inputs: seq<Color>, c: Color)
    requires DistinctIds(inputs) && c in inputs
    ensures PaletteStore.FindById(inputs, c.id) == Some(c)
  {
    var k :| 0 <= k < |inputs| && inputs[k] == c;
    var found := PaletteStore.FindById(inputs, c.id);
    var m :| 0 <= m < |inputs| && inputs[m] == found.value;
    assert m == k;
  }

}
