/**
 * The input-colour editor: recolouring, adding and removing input colours.
 * Every edit hands the whole new list to the store's `setInputColors`, so
 * the used palettes are revalidated on each change.
 */
module ColorInput {
  import opened Types
  import opened AddUsedPalette
  import PaletteStore

  /** The colour a new input starts with, and is reset to after each addition. */
  const DefaultNewColor: string := "#7B68EE"

  /** `inputColors.map(color => color.id === id ? { ...color, value } : color)`. */
  function WithValue(cs: seq<Color>, id: string, value: string): (r: seq<Color>)
    ensures |r| == |cs|
    ensures forall j :: 0 <= j < |cs| ==> r[j].id == cs[j].id && r[j].displayLabel == cs[j].displayLabel
    ensures forall j :: 0 <= j < |cs| && cs[j].id != id ==> r[j] == cs[j]
    ensures forall j :: 0 <= j < |cs| && cs[j].id == id ==> r[j].value == value
  {
    if cs == [] then []
    else [if cs[0].id == id then cs[0].(value := value) else cs[0]] + WithValue(cs[1..], id, value)
  }

  /**
   * The list `handleRemoveColor` leaves: the colours without that id, or the
   * list as it is when it holds a single colour (the store is then not told).
   */
  function Removed(cs: seq<Color>, id: string): seq<Color> {
    if |cs| > 1 then WithoutId(cs, id) else cs
  }

  class ColorInputPanel {
    var newColor: string

    constructor ()
      ensures newColor == DefaultNewColor
    {
      newColor := DefaultNewColor;
    }

    /** `handleColorChange`: the colour with that id takes the new value. */
    method HandleColorChange(store: PaletteStore.PaletteState, id: string, value: string)
      modifies store
      ensures store.State() == PaletteStore.WithInputs(old(store.State()), WithValue(old(store.inputColors), id, value))
    {
      var updatedColors := WithValue(store.inputColors, id, value);
      store.SetInputColors(updatedColors);
    }

    /** `handleAddColor`; `id` stands for `generateId()`. */
    method HandleAddColor(store: PaletteStore.PaletteState, id: string)
      modifies this, store
      ensures store.State() == PaletteStore.WithInputs(old(store.State()), old(store.inputColors) + [Color(id, old(newColor), None)])
      ensures newColor == DefaultNewColor
    {
      var color := Color(id, newColor, None);
      store.SetInputColors(store.inputColors + [color]);
      newColor := DefaultNewColor;
    }

    /** `handleRemoveColor`: with one colour left nothing is dispatched. */
    method HandleRemoveColor(store: PaletteStore.PaletteState, id: string)
      modifies store
      ensures |old(store.inputColors)| > 1 ==>
        store.State() == PaletteStore.WithInputs(old(store.State()), WithoutId(old(store.inputColors), id))
      ensures |old(store.inputColors)| <= 1 ==> store.State() == old(store.State())
      ensures store.inputColors == Removed(old(store.inputColors), id)
    {
      if |store.inputColors| > 1 {
        var updatedColors := WithoutId(store.inputColors, id);
        store.SetInputColors(updatedColors);
      }
    }
  }

  // ---------------------------------------------------------------------------
  // What the edits keep
  // ---------------------------------------------------------------------------

  /** Recolouring keeps every id, so the ids present and their distinctness stay as they were. */
  lemma WithValueKeepsIds(cs: seq<Color>, id: string, value: string)
    requires DistinctIds(cs)
    ensures DistinctIds(WithValue(cs, id, value))
    ensures forall other :: HasId(WithValue(cs, id, value), other) <==> HasId(cs, other)
  {
    var r := WithValue(cs, id, value);
    forall other ensures HasId(r, other) <==> HasId(cs, other) {
      if HasId(cs, other) {
        var j :| 0 <= j < |cs| && cs[j].id == other;
        assert r[j].id == other;
      }
    }
  }

  /** Recolouring the same id twice keeps only the second value. */
  lemma WithValueLastWins(cs: seq<Color>, id: string, v: string, w: string)
    ensures WithValue(WithValue(cs, id, v), id, w) == WithValue(cs, id, w)
  {
    var once := WithValue(cs, id, v);
    var a := WithValue(once, id, w);
    var b := WithValue(cs, id, w);
    forall j | 0 <= j < |cs| ensures a[j] == b[j] {
      if cs[j].id == id {
        assert a[j].value == w == b[j].value;
      }
    }
  }

  /**
   * With distinct ids, removing never empties a non-empty list: one colour
   * is removed when it is present and none otherwise.
   */
  lemma RemovedKeepsOne(cs: seq<Color>, id: string)
    requires DistinctIds(cs) && |cs| >= 1
    ensures |Removed(cs, id)| >= 1
    ensures |Removed(cs, id)| == if |cs| > 1 && HasId(cs, id) then |cs| - 1 else |cs|
  {
    if |cs| > 1 {
      if HasId(cs, id) {
        var j :| 0 <= j < |cs| && cs[j].id == id;
        WithoutIdAt(cs, j);
      } else {
        WithoutAbsentId(cs, id);
      }
    }
  }

  /** Two colours sharing an id are both removed, which empties the list. */
  lemma SharedIdEmpties(a: Color, b: Color)
    requires a.id == b.id
    ensures Removed([a, b], a.id) == []
  {
    assert [a, b][1..] == [b] && [b][1..] == [];
    assert WithoutId([b], a.id) == WithoutId([], a.id);
  }
}
