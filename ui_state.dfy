/** The UI slice of the store: panel and dialog flags and the palette-list filter. */
module UiStore {
  import opened Types

  /** The seven fields of the UI slice, as one value. */
  datatype UiFlags = UiFlags(
    colorInputsOpen: bool,
    paletteSizeSelectorOpen: bool,
    colorStatisticsOpen: bool,
    addUsedPaletteDialogOpen: bool,
    paletteSizeConfirmDialogOpen: bool,
    importExportOpen: bool,
    paletteListFilter: string)

  /**
   * A payload of `loadUiState`. `Object.assign` copies only the keys the
   * payload carries (a state saved by an older version lacks some), so each
   * field is optional.
   */
  datatype UiPatch = UiPatch(
    colorInputsOpen: Option<bool>,
    paletteSizeSelectorOpen: Option<bool>,
    colorStatisticsOpen: Option<bool>,
    addUsedPaletteDialogOpen: Option<bool>,
    paletteSizeConfirmDialogOpen: Option<bool>,
    importExportOpen: Option<bool>,
    paletteListFilter: Option<string>)

  function Or<T>(o: Option<T>, keep: T): T {
    if o.Some? then o.value else keep
  }

  /** The slice's initial state. */
  const InitialFlags := UiFlags(true, true, true, false, false, false, "all")

  /** The six open/closed flags, by name. */
  datatype Panel = ColorInputs | PaletteSizeSelector | ColorStatistics
                 | AddUsedPaletteDialog | PaletteSizeConfirmDialog | ImportExport

  function IsOpen(f: UiFlags, p: Panel): bool {
    match p
    case ColorInputs => f.colorInputsOpen
    case PaletteSizeSelector => f.paletteSizeSelectorOpen
    case ColorStatistics => f.colorStatisticsOpen
    case AddUsedPaletteDialog => f.addUsedPaletteDialogOpen
    case PaletteSizeConfirmDialog => f.paletteSizeConfirmDialogOpen
    case ImportExport => f.importExportOpen
  }

  /** The flags with `p` set to `b`: that flag reads `b`, every other flag and the filter are as before. */
  function WithOpen(f: UiFlags, p: Panel, b: bool): (r: UiFlags)
    ensures IsOpen(r, p) == b
    ensures forall q :: q != p ==> IsOpen(r, q) == IsOpen(f, q)
    ensures r.paletteListFilter == f.paletteListFilter
  {
    match p
    case ColorInputs => f.(colorInputsOpen := b)
    case PaletteSizeSelector => f.(paletteSizeSelectorOpen := b)
    case ColorStatistics => f.(colorStatisticsOpen := b)
    case AddUsedPaletteDialog => f.(addUsedPaletteDialogOpen := b)
    case PaletteSizeConfirmDialog => f.(paletteSizeConfirmDialogOpen := b)
    case ImportExport => f.(importExportOpen := b)
  }

  /** The flags after the `toggleX` reducer of `p`. */
  function Toggled(f: UiFlags, p: Panel): UiFlags {
    WithOpen(f, p, !IsOpen(f, p))
  }

  class UiState {
    var colorInputsOpen: bool
    var paletteSizeSelectorOpen: bool
    var colorStatisticsOpen: bool
    var addUsedPaletteDialogOpen: bool
    var paletteSizeConfirmDialogOpen: bool
    var importExportOpen: bool
    var paletteListFilter: string

    function Flags(): UiFlags
      reads this
    {
      UiFlags(colorInputsOpen, paletteSizeSelectorOpen, colorStatisticsOpen, addUsedPaletteDialogOpen,
              paletteSizeConfirmDialogOpen, importExportOpen, paletteListFilter)
    }

    /** Input, size-selector and statistics panels open; the three dialogs closed; filter "all". */
    constructor ()
      ensures Flags() == InitialFlags
    {
      colorInputsOpen, paletteSizeSelectorOpen, colorStatisticsOpen := true, true, true;
      addUsedPaletteDialogOpen, paletteSizeConfirmDialogOpen, importExportOpen := false, false, false;
      paletteListFilter := "all";
    }

    method ToggleColorInputsOpen()
      modifies this
      ensures Flags() == old(Flags()).(colorInputsOpen := !old(colorInputsOpen))
      ensures Flags() == Toggled(old(Flags()), ColorInputs)
    {
      colorInputsOpen := !colorInputsOpen;
    }

    method SetColorInputsOpen(payload: bool)
      modifies this
      ensures Flags() == old(Flags()).(colorInputsOpen := payload)
      ensures Flags() == WithOpen(old(Flags()), ColorInputs, payload)
    {
      colorInputsOpen := payload;
    }

    method TogglePaletteSizeSelectorOpen()
      modifies this
      ensures Flags() == old(Flags()).(paletteSizeSelectorOpen := !old(paletteSizeSelectorOpen))
      ensures Flags() == Toggled(old(Flags()), PaletteSizeSelector)
    {
      paletteSizeSelectorOpen := !paletteSizeSelectorOpen;
    }

    method SetPaletteSizeSelectorOpen(payload: bool)
      modifies this
      ensures Flags() == old(Flags()).(paletteSizeSelectorOpen := payload)
      ensures Flags() == WithOpen(old(Flags()), PaletteSizeSelector, payload)
    {
      paletteSizeSelectorOpen := payload;
    }

    method ToggleColorStatisticsOpen()
      modifies this
      ensures Flags() == old(Flags()).(colorStatisticsOpen := !old(colorStatisticsOpen))
      ensures Flags() == Toggled(old(Flags()), ColorStatistics)
    {
      colorStatisticsOpen := !colorStatisticsOpen;
    }

    method SetColorStatisticsOpen(payload: bool)
      modifies this
      ensures Flags() == old(Flags()).(colorStatisticsOpen := payload)
      ensures Flags() == WithOpen(old(Flags()), ColorStatistics, payload)
    {
      colorStatisticsOpen := payload;
    }

    method ToggleAddUsedPaletteDialogOpen()
      modifies this
      ensures Flags() == old(Flags()).(addUsedPaletteDialogOpen := !old(addUsedPaletteDialogOpen))
      ensures Flags() == Toggled(old(Flags()), AddUsedPaletteDialog)
    {
      addUsedPaletteDialogOpen := !addUsedPaletteDialogOpen;
    }

    method SetAddUsedPaletteDialogOpen(payload: bool)
      modifies this
      ensures Flags() == old(Flags()).(addUsedPaletteDialogOpen := payload)
      ensures Flags() == WithOpen(old(Flags()), AddUsedPaletteDialog, payload)
    {
      addUsedPaletteDialogOpen := payload;
    }

    method SetPaletteSizeConfirmDialogOpen(payload: bool)
      modifies this
      ensures Flags() == old(Flags()).(paletteSizeConfirmDialogOpen := payload)
      ensures Flags() == WithOpen(old(Flags()), PaletteSizeConfirmDialog, payload)
    {
      paletteSizeConfirmDialogOpen := payload;
    }

    method TogglePaletteSizeConfirmDialogOpen()
      modifies this
      ensures Flags() == old(Flags()).(paletteSizeConfirmDialogOpen := !old(paletteSizeConfirmDialogOpen))
      ensures Flags() == Toggled(old(Flags()), PaletteSizeConfirmDialog)
    {
      paletteSizeConfirmDialogOpen := !paletteSizeConfirmDialogOpen;
    }

    method SetImportExportOpen(payload: bool)
      modifies this
      ensures Flags() == old(Flags()).(importExportOpen := payload)
      ensures Flags() == WithOpen(old(Flags()), ImportExport, payload)
    {
      importExportOpen := payload;
    }

    method ToggleImportExportOpen()
      modifies this
      ensures Flags() == old(Flags()).(importExportOpen := !old(importExportOpen))
      ensures Flags() == Toggled(old(Flags()), ImportExport)
    {
      importExportOpen := !importExportOpen;
    }

    method SetPaletteListFilter(payload: string)
      modifies this
      ensures Flags() == old(Flags()).(paletteListFilter := payload)
    {
      paletteListFilter := payload;
    }

    /** `Object.assign(state, payload)`: every key the payload carries overwrites its field; the rest stay. */
    method LoadUiState(payload: UiPatch)
      modifies this
      ensures Flags() == Patched(old(Flags()), payload)
    {
      var f := Patched(Flags(), payload);
      colorInputsOpen, paletteSizeSelectorOpen, colorStatisticsOpen := f.colorInputsOpen, f.paletteSizeSelectorOpen, f.colorStatisticsOpen;
      addUsedPaletteDialogOpen, paletteSizeConfirmDialogOpen := f.addUsedPaletteDialogOpen, f.paletteSizeConfirmDialogOpen;
      importExportOpen, paletteListFilter := f.importExportOpen, f.paletteListFilter;
    }
  }

  /** The flags after `Object.assign(flags, patch)`. */
  function Patched(f: UiFlags, p: UiPatch): UiFlags {
    UiFlags(Or(p.colorInputsOpen, f.colorInputsOpen),
            Or(p.paletteSizeSelectorOpen, f.paletteSizeSelectorOpen),
            Or(p.colorStatisticsOpen, f.colorStatisticsOpen),
            Or(p.addUsedPaletteDialogOpen, f.addUsedPaletteDialogOpen),
            Or(p.paletteSizeConfirmDialogOpen, f.paletteSizeConfirmDialogOpen),
            Or(p.importExportOpen, f.importExportOpen),
            Or(p.paletteListFilter, f.paletteListFilter))
  }

  /** The patch that carries every field of `f`. */
  function Full(f: UiFlags): UiPatch {
    UiPatch(Some(f.colorInputsOpen), Some(f.paletteSizeSelectorOpen), Some(f.colorStatisticsOpen),
            Some(f.addUsedPaletteDialogOpen), Some(f.paletteSizeConfirmDialogOpen), Some(f.importExportOpen),
            Some(f.paletteListFilter))
  }

  /** A complete payload replaces the whole state; loading the same payload twice is loading it once. */
  lemma LoadFullAndIdempotent(g: UiFlags, f: UiFlags, p: UiPatch)
    ensures Patched(g, Full(f)) == f
    ensures Patched(Patched(g, p), p) == Patched(g, p)
  {
  }

  /** Toggling the same flag twice restores the flags. */
  lemma ToggleTwice(f: UiFlags, p: Panel)
    ensures Toggled(Toggled(f, p), p) == f
  {
  }

  /** Setting a flag to the value it already has, or setting it twice, changes nothing more. */
  lemma SetIdempotent(f: UiFlags, p: Panel, b: bool)
    ensures WithOpen(WithOpen(f, p, b), p, b) == WithOpen(f, p, b)
    ensures WithOpen(f, p, IsOpen(f, p)) == f
  {
  }
}
