/**
 * The palette-size slider. Moving it to a new size commits the size at once
 * when no palette is used; when some palette is used the size is only held
 * as pending and a confirmation dialog opens, since a new size discards
 * every palette, used ones included.
 */
module PaletteSizeSelector {
  import opened Types
  import PaletteStore
  import UiStore

  /** The slider's range. */
  const MinPaletteSize: int := 2
  const MaxPaletteSize: int := 6

  /** `generatedPalettes.some(p => p.used)`. */
  predicate HasUsed(ps: seq<Palette>) {
    exists j :: 0 <= j < |ps| && ps[j].used
  }

  class SizeSelector {
    var sliderValue: int
    var pendingSize: Option<int>

    /**
     * A pending size waits behind the open confirmation dialog and is what
     * the slider shows.
     */
    predicate Consistent(ui: UiStore.UiState)
      reads this, ui
    {
      pendingSize.Some? ==> ui.paletteSizeConfirmDialogOpen && sliderValue == pendingSize.value
    }

    constructor (currentPaletteSize: int)
      ensures sliderValue == currentPaletteSize && pendingSize == None
    {
      sliderValue := currentPaletteSize;
      pendingSize := None;
    }

    /** The effect on the store's size: the slider follows it. */
    method OnPaletteSizeChange(currentPaletteSize: int)
      modifies this
      ensures sliderValue == currentPaletteSize && pendingSize == old(pendingSize)
    {
      sliderValue := currentPaletteSize;
    }

    /**
     * `handleSliderChange`; the slider only reports sizes in its range, and
     * only while no size is pending (the confirmation dialog is modal).
     */
    method HandleSliderChange(store: PaletteStore.PaletteState, ui: UiStore.UiState, newSize: int)
      requires MinPaletteSize <= newSize <= MaxPaletteSize
      modifies this, store, ui
      ensures sliderValue == newSize
      ensures old(pendingSize).None? ==> Consistent(ui)
      ensures newSize != old(store.paletteSize) && HasUsed(old(store.generatedPalettes)) ==>
        && pendingSize == Some(newSize)
        && store.State() == old(store.State())
        && ui.Flags() == old(ui.Flags()).(paletteSizeConfirmDialogOpen := true)
      ensures newSize != old(store.paletteSize) && !HasUsed(old(store.generatedPalettes)) ==>
        && pendingSize == old(pendingSize)
        && store.State() == PaletteStore.WithSize(old(store.State()), newSize)
        && ui.Flags() == old(ui.Flags())
      ensures newSize == old(store.paletteSize) ==>
        && pendingSize == old(pendingSize)
        && store.State() == old(store.State())
        && ui.Flags() == old(ui.Flags())
    {
      if newSize != store.paletteSize {
        var hasUsedPalettes := exists j :: 0 <= j < |store.generatedPalettes| && store.generatedPalettes[j].used;
        if hasUsedPalettes {
          sliderValue := newSize;
          pendingSize := Some(newSize);
          ui.SetPaletteSizeConfirmDialogOpen(true);
        } else {
          store.SetPaletteSize(newSize);
          sliderValue := newSize;
        }
      } else {
        sliderValue := newSize;
      }
    }

    /** `handleConfirmChange`: commits the pending size, if any, and closes the dialog. */
    method HandleConfirmChange(store: PaletteStore.PaletteState, ui: UiStore.UiState)
      modifies this, store, ui
      ensures old(pendingSize).Some? ==> store.State() == PaletteStore.WithSize(old(store.State()), old(pendingSize).value)
      ensures old(pendingSize).None? ==> store.State() == old(store.State())
      ensures ui.Flags() == old(ui.Flags()).(paletteSizeConfirmDialogOpen := false)
      ensures pendingSize == None && sliderValue == old(sliderValue)
      ensures Consistent(ui)
    {
      if pendingSize.Some? {
        store.SetPaletteSize(pendingSize.value);
      }
      ui.SetPaletteSizeConfirmDialogOpen(false);
      pendingSize := None;
    }

    /** `handleCancelChange`: closes the dialog, forgets the pending size and puts the slider back. */
    method HandleCancelChange(store: PaletteStore.PaletteState, ui: UiStore.UiState)
      modifies this, ui
      ensures ui.Flags() == old(ui.Flags()).(paletteSizeConfirmDialogOpen := false)
      ensures pendingSize == None && sliderValue == store.paletteSize
      ensures Consistent(ui)
    {
      ui.SetPaletteSizeConfirmDialogOpen(false);
      pendingSize := None;
      sliderValue := store.paletteSize;
    }

    /** `handleConfirmDialogStateChange`: closing the open dialog is a cancel. */
    method HandleConfirmDialogStateChange(store: PaletteStore.PaletteState, ui: UiStore.UiState, open: bool)
      modifies this, ui
      ensures !open && old(ui.paletteSizeConfirmDialogOpen) ==>
        && ui.Flags() == old(ui.Flags()).(paletteSizeConfirmDialogOpen := false)
        && pendingSize == None && sliderValue == store.paletteSize
      ensures !(!open && old(ui.paletteSizeConfirmDialogOpen)) ==>
        ui.Flags() == old(ui.Flags()) && pendingSize == old(pendingSize) && sliderValue == old(sliderValue)
    {
      if !open && ui.paletteSizeConfirmDialogOpen {
        HandleCancelChange(store, ui);
      }
    }
  }
}
