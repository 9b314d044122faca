# Palette generator — a verified model

The application is a browser tool that builds colour palettes. The user keeps
a list of input colours and picks a palette size. The tool enumerates every
ordered selection of that many distinct input colours, shuffles them and shows
them. Palettes the user has already used can be marked, so that they survive
regeneration and feed per-position colour statistics.

This project models the core of that tool in Dafny:

- the palette store and its reducers (`palette_store.dfy`), and the UI-flags store (`ui_state.dfy`);
- the two palette utility modules, with objects in `helpers.dfy` and with plain strings in `color_utils.dfy`;
- both colour-statistics calculations: the dense one in `helpers.dfy` and the lazy one in `lazy_statistics.dfy`;
- the generation hook that tops up the palette list (`palette_generation.dfy`);
- the migration from the old storage format (`migration.dfy`);
- the state logic of the stand-alone generator page (`palette_generator.dfy`);
- the add-used-palette dialog (`add_used_palette.dfy`), the input-colour editor (`color_input.dfy`), the palette-size slider (`palette_size_selector.dfy`) and the pagination bar (`pagination.dfy`).

Shared datatypes are in `types.dfy`. Arrangements, factorials and the shuffle are in `combinatorics.dfy`.

How things are modelled:

- The stores are classes whose fields the reducers update in place. Each class has a `State()`/`Flags()` snapshot function.
- Components that hold local state (selection, slider value, pending size) are classes too. Each handler is a method that states the store's new state in terms of its old one.
- Randomness is an explicit parameter. `Math.random()` in a shuffle is a sequence of picks: each pick chooses the next element among those left, and every permutation can be reached (`Combinatorics.ShuffledReachesAll`).
- `generateId()` is a function `ids: nat -> string`, and `Date.now()` is a parameter `now`.
- Numbers are mathematical integers.

## Model

| member | source | states |
|---|---|---|
| Helpers.CalculateTotalPossiblePermutations | src/utils/helpers.ts:12-49 | The result is P(n, k) = n!/(n-k)!. It is 0 when the size is not positive or exceeds the number of colours, and positive exactly when 0 < k <= n. |
| Helpers.PermutationCountPositive | src/utils/helpers.ts:16-18 | P(n, k) is never negative, and is positive iff 0 < k <= n. |
| Helpers.FormatBigIntRoundTrip | src/utils/helpers.ts:51-53 | Removing the thousands separators from the formatted number gives back its decimal text. |
| Helpers.FormatBigIntGroups | src/utils/helpers.ts:51-53 | A formatted non-negative number is 1–3 leading digits followed by groups of "," and three digits. |
| Helpers.FormatBigInt | src/utils/helpers.ts:51-53 | A minus sign for a negative number, then the decimal digits with a comma before every group of three counted from the right. Its properties are `FormatBigIntRoundTrip` and `FormatBigIntGroups`. |
| Helpers.GenerateHelper | src/utils/helpers.ts:64-85 | The recursive enumeration appends, in order, one fresh unused palette per arrangement of `remaining` available colours, each prefixed by `current`. Ids are taken in sequence. |
| Helpers.GeneratePalettes | src/utils/helpers.ts:55-90 | No colours or a non-positive size give []. Otherwise the result is the shuffle of all arrangements, and there are exactly P(n, k) of them. Each palette holds k input colours, in a distinct arrangement when the inputs are distinct. |
| Helpers.GeneratedSpec | src/utils/helpers.ts:64-89 | For non-empty inputs and k > 0, the shuffled enumeration has length P(n, k). Its palettes are unused k-arrangements of the input and pairwise distinct for distinct input. |
| Helpers.ShuffleColorsMultiset | src/utils/helpers.ts:92-101 | Shuffling is a permutation of the palettes. |
| Helpers.ShuffleColorsUsedFirst | src/utils/helpers.ts:92-101 | After shuffling, the used palettes come first in their original order, and only unused ones follow. |
| Helpers.ShuffleColors | src/utils/helpers.ts:92-101 | The used palettes in order, then the unused ones in the order the picks give. Its properties are `ShuffleColorsMultiset` and `ShuffleColorsUsedFirst`. |
| Helpers.HexToRgb | src/utils/helpers.ts:103-112 | A result exists iff the text matches `#?` plus three hex pairs, in either case. Each component is then in 0..255. |
| Helpers.HexToRgbRoundTrip | src/utils/helpers.ts:103-112 | Parsing the hex text of any 0..255 triple gives that triple back. |
| Helpers.HexToRgbCaseInsensitive | src/utils/helpers.ts:103-112 | Upper-casing the text does not change the parse. |
| Helpers.ZeroCounts | src/utils/helpers.ts:132-137 | A row holds a zero for every input colour value and nothing else. |
| Helpers.InitStatistics | src/utils/helpers.ts:132-137 | Positions 1..paletteSize each get a zero row over the input values, and no other positions exist. |
| Helpers.TallyPalette | src/utils/helpers.ts:139-149 | Each known (position, value) count grows by one exactly when the palette has that value at that position. Keys stay as they are. |
| Helpers.CalculateColorStatistics | src/utils/helpers.ts:124-166 | Every count is the number of used palettes that hold that value at that position, over the dense key space. |
| Helpers.NoUsedAllZero | src/utils/helpers.ts:129-149 | With no used palette, every count is zero. |
| Combinatorics.ArrangementsCount | src/utils/helpers.ts:64-85 | The enumeration has exactly P(n, k) entries. |
| Combinatorics.ArrangementsShape | src/utils/helpers.ts:64-85 | Every enumerated entry is k positions of the input, none used twice. |
| Combinatorics.ArrangementsDistinct | src/utils/helpers.ts:64-85 | Distinct inputs give distinct arrangements. |
| Combinatorics.ArrangementsComplete | src/utils/helpers.ts:64-85 | Every duplicate-free k-list of input colours is enumerated. |
| Combinatorics.ShuffledMultiset | src/utils/helpers.ts:96 | The pick-driven shuffle is a permutation. |
| Combinatorics.ShuffledReachesAll | src/utils/helpers.ts:96 | Every permutation is produced by some sequence of picks. |
| Combinatorics.ValueArrangementsShape | src/utils/colorUtils.ts:38-56 | Removal by value yields k distinct input strings per palette. |
| Combinatorics.ValueArrangementsOfDistinct | src/utils/colorUtils.ts:38-56 | For distinct strings, removal by value enumerates the same arrangements as removal by position. |
| Combinatorics.ValueArrangementsTooFew | src/utils/colorUtils.ts:38-56 | With fewer colours than the size, nothing is enumerated. |
| ColorUtils.Factorial | src/utils/colorUtils.ts:17-26 | The loop computes n! (1 for n <= 1), which is always at least 1. |
| ColorUtils.CalculateTotalPossiblePalettes | src/utils/colorUtils.ts:3-15 | n!/(n-k)! computed with two factorials equals P(n, k), 0 included. |
| ColorUtils.GenerateHelper | src/utils/colorUtils.ts:38-56 | The string enumeration appends one unused palette per value-arrangement, prefixed by `current`. |
| ColorUtils.SampleSpec | src/utils/colorUtils.ts:58-63 | The sample has min(all, numSamples) palettes and is the whole list when it fits. It is a sub-multiset and keeps distinctness. |
| ColorUtils.GeneratePalettes | src/utils/colorUtils.ts:28-64 | Empty input or a non-positive size or count gives []. Otherwise at most numSamples unused palettes of k distinct input colours. |
| ColorUtils.SampleShape | src/utils/colorUtils.ts:58-63 | Every sampled palette is an unused k-list of distinct input colours. |
| ColorUtils.Sample | src/utils/colorUtils.ts:58-63 | The first numSamples palettes of the shuffle when there are more than numSamples, else all of them in order. Its properties are `SampleSpec` and `SampleShape`. |
| ColorUtils.EnumerationOfDistinct | src/utils/colorUtils.ts:38-56 | With distinct inputs the enumeration has P(n, k) pairwise distinct palettes. |
| LazyStatistics.CalculateColorStatistics | src/utils/calculateColorStatistics.ts:8-61 | Positions run from 1 to the longest used palette. Each row is seeded with zeros for the input colours and "absent" and extended by unseen colours. Each count equals the occurrences in that column of used palettes. |
| LazyStatistics.SeedRow | src/utils/calculateColorStatistics.ts:16-35 | A new row is zero for exactly the input colours and "absent". |
| LazyStatistics.Counted | src/utils/calculateColorStatistics.ts:37-43 | Counting a colour adds it with count 1 when it is new, or increments it. |
| LazyStatistics.CountColor | src/utils/calculateColorStatistics.ts:22-44 | One step of the loop keeps the statistics exact for the palettes seen so far. |
| LazyStatistics.CountsAddUp | src/utils/calculateColorStatistics.ts:15-45 | A row's counts sum to the number of used palettes long enough to reach that position. The row covers every colour seen there and every input colour. |
| LazyStatistics.ColumnSize | src/utils/calculateColorStatistics.ts:15-45 | A column holds one entry per palette reaching that position. |
| LazyStatistics.MaxLenReached | src/utils/calculateColorStatistics.ts:15-45 | A position has a row iff some used palette reaches it. |
| LazyStatistics.NoUsedEmpty | src/utils/calculateColorStatistics.ts:12 | With no used palette, the statistics are empty. |
| LazyStatistics.AbsentStaysZero | src/utils/calculateColorStatistics.ts:15-45 | A colour in no used palette counts zero at every position. |
| PaletteStore.FindById | src/store/paletteSlice.ts:150-152 | Finds an input colour with that id, and finds none iff no colour has it. |
| PaletteStore.Resolve | src/store/paletteSlice.ts:147-159 | Resolves every colour by id to the current input colour, and fails iff some id is unknown. |
| PaletteStore.CollectValidColors | src/store/paletteSlice.ts:147-159 | The loop reports validity iff every id resolves, and then returns the resolved list. |
| PaletteStore.ResolvePrefixNone | src/store/paletteSlice.ts:147-159 | One unknown id anywhere fails the whole palette. |
| PaletteStore.RevalidateSpec | src/store/paletteSlice.ts:44-68 | A palette survives an input change iff it is used, has the palette size and all its ids resolve. It then keeps id, flag and timestamp, and takes the current colour records. |
| PaletteStore.Revalidate | src/store/paletteSlice.ts:44-68 | One used palette with every colour id resolved and the current size survives with the input records; anything else is dropped. Its property is `RevalidateSpec`. |
| PaletteStore.ValidateUsed | src/store/paletteSlice.ts:40-68 | The used palettes that survive revalidation, in order; never longer than the input. Its properties are `ValidateUsedMembers`, `ValidateUsedAppend` and `ValidateUsedIdempotent`. |
| PaletteStore.ValidateUsedMembers | src/store/paletteSlice.ts:45-71 | After an input change, only revalidated used palettes of the current size remain. |
| PaletteStore.ValidateUsedAppend | src/store/paletteSlice.ts:45-71 | Revalidation works palette by palette. |
| PaletteStore.ValidateUsedIdempotent | src/store/paletteSlice.ts:45-71 | Revalidating twice against the same inputs equals revalidating once. |
| PaletteStore.RevalidateIdempotent | src/store/paletteSlice.ts:45-71 | A surviving palette survives again unchanged. |
| PaletteStore.ToggleByIdSpec | src/store/paletteSlice.ts:90-96 | Exactly the palettes with that id flip their used flag, and nothing else changes. |
| PaletteStore.ToggleByIdInvolution | src/store/paletteSlice.ts:90-96 | Toggling twice restores the list. |
| PaletteStore.ToggleById | src/store/paletteSlice.ts:90-96 | Flips the used flag of the palettes with that id. Its properties are `ToggleByIdSpec` and `ToggleByIdInvolution`. |
| PaletteStore.MoveToFrontSpec | src/store/paletteSlice.ts:183-199 | Moving an entry to the front permutes the list and puts that entry first. The others keep their relative order. |
| PaletteStore.MoveToFront | src/store/paletteSlice.ts:187-191 | The splice at the index followed by the unshift. Its property is `MoveToFrontSpec`. |
| PaletteStore.PlacedSpec | src/store/paletteSlice.ts:169-201 | A new colour sequence is prepended with status added. An existing unused one is marked used and moved first (exist). An existing used one is moved first (alreadyUsed). The first palette then always matches the added one. |
| PaletteStore.PaletteState.constructor | src/store/paletteSlice.ts:13-31 | Default input colours, size 3, no palettes, empty statistics, 0 combinations, idle status. |
| PaletteStore.PaletteState.SetInputColors | src/store/paletteSlice.ts:37-77 | Stores the colours, keeps only revalidated used palettes, and recounts the combinations. Nothing else changes. |
| PaletteStore.PaletteState.SetPaletteSize | src/store/paletteSlice.ts:78-86 | Stores the size, clears every palette and recounts the combinations. |
| PaletteStore.PaletteState.SetGeneratedPalettes | src/store/paletteSlice.ts:87-89 | Replaces the palettes only. |
| PaletteStore.PaletteState.ToggleUsedPalette | src/store/paletteSlice.ts:90-96 | Flips the used flag of the palettes with that id. |
| PaletteStore.PaletteState.ClearAllPalettes | src/store/paletteSlice.ts:97-99 | Empties the palette list only. |
| PaletteStore.PaletteState.ClearUsedPalettes | src/store/paletteSlice.ts:100-102 | Keeps exactly the unused palettes. |
| PaletteStore.PaletteState.UpdateStatistics | src/store/paletteSlice.ts:103-105 | Replaces the statistics only. |
| PaletteStore.PaletteState.ImportState | src/store/paletteSlice.ts:106-143 | Takes every imported field, the manual-add status included. The used palettes are revalidated against the imported inputs and size, and the combination count is recomputed. |
| PaletteStore.PaletteState.AddManualPalette | src/store/paletteSlice.ts:144-202 | Only the palettes and the status change. Unknown ids or a wrong size set status invalid and leave the palettes. Otherwise the resolved palette, marked used, is placed as `PlacedSpec` states. |
| PaletteStore.PaletteState.ResetAddManualPaletteStatus | src/store/paletteSlice.ts:203-205 | Only the status returns to idle. |
| PaletteStore.PaletteState.GeneratePalettesForPage | src/store/paletteSlice.ts:209-242 | Sets the list filter to "all". Only the palette list changes, to the one `ForPageSpec` describes: used palettes first, unchanged, then shuffled fresh ones. |
| PaletteStore.ForPageSpec | src/store/paletteSlice.ts:209-242 | The used palettes come first and unchanged. Every later palette is unused, has the palette size and equals no used palette. |
| PaletteStore.FreshAfterUsed | src/store/paletteSlice.ts:230-239 | Appending the generated palettes that match no used one, after the used ones, keeps the used prefix. Everything after it is unused, of the palette size, and matches no used palette. |
| PaletteStore.WithoutMatches | src/store/paletteSlice.ts:232-237 | The generated palettes equal to no used palette, in order. Its properties are stated through `FreshAfterUsed` and `ForPageSpec`. |
| PaletteStore.PaletteState.CalculateAndUpdateStatistics | src/store/paletteSlice.ts:244-253 | Stores statistics that count used palettes per position and value over the dense key space. |
| UiStore.UiState.constructor | src/store/uiSlice.ts:4-12 | The three panels are open, the dialogs closed, and the filter is "all". |
| UiStore.UiState.ToggleColorInputsOpen | src/store/uiSlice.ts:18-20 | Flips that flag only. |
| UiStore.UiState.SetColorInputsOpen | src/store/uiSlice.ts:21-23 | Sets that flag only. |
| UiStore.UiState.TogglePaletteSizeSelectorOpen | src/store/uiSlice.ts:24-26 | Flips that flag only. |
| UiStore.UiState.SetPaletteSizeSelectorOpen | src/store/uiSlice.ts:27-29 | Sets that flag only. |
| UiStore.UiState.ToggleColorStatisticsOpen | src/store/uiSlice.ts:30-32 | Flips that flag only. |
| UiStore.UiState.SetColorStatisticsOpen | src/store/uiSlice.ts:33-35 | Sets that flag only. |
| UiStore.UiState.ToggleAddUsedPaletteDialogOpen | src/store/uiSlice.ts:36-38 | Flips that flag only. |
| UiStore.UiState.SetAddUsedPaletteDialogOpen | src/store/uiSlice.ts:39-41 | Sets that flag only. |
| UiStore.UiState.SetPaletteSizeConfirmDialogOpen | src/store/uiSlice.ts:42-47 | Sets that flag only. |
| UiStore.UiState.TogglePaletteSizeConfirmDialogOpen | src/store/uiSlice.ts:48-50 | Flips that flag only. |
| UiStore.UiState.SetImportExportOpen | src/store/uiSlice.ts:51-53 | Sets that flag only. |
| UiStore.UiState.ToggleImportExportOpen | src/store/uiSlice.ts:54-56 | Flips that flag only. |
| UiStore.UiState.SetPaletteListFilter | src/store/uiSlice.ts:57-59 | Sets the filter only. |
| UiStore.UiState.LoadUiState | src/store/uiSlice.ts:60-62 | Every key present in the payload overwrites its field, and the others stay. |
| UiStore.WithOpen | src/store/uiSlice.ts:18-56 | Setting one panel's flag sets exactly that flag. |
| UiStore.LoadFullAndIdempotent | src/store/uiSlice.ts:60-62 | A complete payload replaces the state, and loading a payload twice equals loading it once. |
| UiStore.ToggleTwice | src/store/uiSlice.ts:18-56 | Toggling a flag twice restores the flags. |
| UiStore.SetIdempotent | src/store/uiSlice.ts:18-56 | Setting a flag twice equals setting it once, and setting it to its value changes nothing. |
| PaletteGeneration.Generate | src/hooks/usePaletteGeneration.ts:15-58 | Corrected generation. Used palettes are kept first, and only fresh, drawable, pairwise-new palettes are added, at most up to numSamples. The loop always ends. When it returns fewer palettes than numSamples, every selection of the valid colours is already among the kept or added ones. Flags follow the used-key list. |
| PaletteGeneration.LastRound | src/hooks/usePaletteGeneration.ts:21-45 | The corrected round after one that admitted nothing: the whole enumeration is drawn and the fresh palettes are admitted up to the room left. When less than the room is filled, every selection has been seen. |
| PaletteGeneration.WholeDraw | src/utils/colorUtils.ts:58-63 | A draw that asks for as many palettes as the enumeration holds returns every selection. |
| PaletteGeneration.Admit | src/hooks/usePaletteGeneration.ts:28-42 | The corrected filter, one palette at a time: the admitted list stays fresh and drawable and only grows, by at most the batch. Afterwards every palette of the batch has its colours among the kept or admitted ones. |
| PaletteGeneration.Marked | src/hooks/usePaletteGeneration.ts:47-53 | Same length and colours; each palette is used iff its colour list is a used key. |
| PaletteGeneration.GenerateAsWritten | src/hooks/usePaletteGeneration.ts:15-58 | The loop as written, within a number of rounds: when it returns, there are at most numSamples palettes, with flags from the used keys. |
| PaletteGeneration.SpinsWhenTooFewColors | src/hooks/usePaletteGeneration.ts:21-45 | With fewer valid colours than the palette size and a budget not met by used palettes, no number of rounds ends the loop. |
| PaletteGeneration.NeverReturns | src/hooks/usePaletteGeneration.ts:21-45 | Concrete case: two colours, size 3, five samples, nothing used; the as-written loop never returns. |
| PaletteGeneration.BatchKeepsDuplicates | src/hooks/usePaletteGeneration.ts:28-42 | Concrete case: a repeated input colour lets one round admit the same palette twice. |
| Migration.GetColorLabel | src/utils/migrationSript.ts:37-47 | Upper-cased white and black get their names, and any other colour is labelled by its upper-cased hex. |
| Migration.NoLowerCase | src/utils/migrationSript.ts:37-47 | The lower-case keys of the label table can never match an upper-cased hex, so those labels are unreachable. |
| Migration.ColorMapLast | src/utils/migrationSript.ts:72-82 | The value-to-colour map keeps the last input colour with each value. |
| Migration.MigrateColors | src/utils/migrationSript.ts:94-117 | Each old hex becomes its upper-cased value. It reuses the input record for that value when one exists, and otherwise gets a new id and label. |
| Migration.MigratePalettes | src/utils/migrationSript.ts:94-117 | Old palettes without colours are dropped. The rest keep their used flag, get the migration timestamp, and take migrated colours of the same length. |
| Migration.MigrateData | src/utils/migrationSript.ts:49-126 | Sizes default to 3 and 120 when missing or zero. The UI keeps the three panel flags and closes the dialogs. Inputs are upper-cased with new ids. Statistics are three zero rows (none without inputs). Palettes are migrated as above. |
| Migration.SharedRecords | src/utils/migrationSript.ts:94-117 | A palette colour whose value is an input colour is that input colour's record (the last one with the value). |
| Migration.ConvertInputColors | src/utils/migrationSript.ts:72-82 | The loop builds the upper-cased input records with fresh ids and the value-to-record map of exactly those records. |
| Migration.SeedStatistics | src/utils/migrationSript.ts:84-92 | With input colours, positions 1, 2 and 3 each get a zero count for every input value; without, no positions. |
| Migration.ConvertPalettes | src/utils/migrationSript.ts:94-117 | The loop yields the palette list `MigratePalettes` describes. |
| Migration.MigrateColorList | src/utils/migrationSript.ts:97-106 | The loop yields the colour list and the next id counter that `MigrateColors` describes. |
| GeneratorComponent.PaletteGenerator.constructor | src/components/PaletteGenerator.tsx:9-32 | Default colours, size 3, 50 samples, no palettes, no used keys, not shuffling. |
| GeneratorComponent.PaletteGenerator.HandleGeneratePalettes | src/components/PaletteGenerator.tsx:34-47 | Draws from the non-blank colours. The result has at most numSamples palettes, each used iff its colour list is a used key. |
| GeneratorComponent.NonBlank | src/components/PaletteGenerator.tsx:35 | Keeps exactly the colours that are not blank after trimming, never more than the input. |
| GeneratorComponent.PaletteGenerator.HandleColorChange | src/components/PaletteGenerator.tsx:49-53 | Replaces the colour at that index only. |
| GeneratorComponent.PaletteGenerator.HandlePaletteSizeChange | src/components/PaletteGenerator.tsx:55-57 | Sets the size only. |
| GeneratorComponent.PaletteGenerator.HandleNumSamplesChange | src/components/PaletteGenerator.tsx:59-61 | Sets the sample count only. |
| GeneratorComponent.PaletteGenerator.HandlePaletteToggle | src/components/PaletteGenerator.tsx:63-79 | Flips that palette's flag. Its key is removed from the used keys (all copies) or appended. |
| GeneratorComponent.PaletteGenerator.HandleShuffle | src/components/PaletteGenerator.tsx:81-92 | Used palettes stay first and the unused ones are shuffled. The shuffling flag is raised. |
| GeneratorComponent.PaletteGenerator.ShuffleSettled | src/components/PaletteGenerator.tsx:91 | Lowers the shuffling flag only. |
| GeneratorComponent.PaletteGenerator.HandleClearUsed | src/components/PaletteGenerator.tsx:94-97 | Every palette becomes unused and the used keys are emptied, which keeps flags and keys consistent. |
| GeneratorComponent.ToggledAtTwice | src/components/PaletteGenerator.tsx:63-79 | Toggling a palette twice restores the list. |
| GeneratorComponent.ToggleKeepsConsistent | src/components/PaletteGenerator.tsx:63-79 | When palettes have distinct colour lists, a toggle keeps "used iff key listed". |
| GeneratorComponent.ToggleWithSharedKey | src/components/PaletteGenerator.tsx:63-79 | Two used palettes with the same colours: un-using one drops the key for both, and consistency breaks. |
| GeneratorComponent.ShuffleSpec | src/components/PaletteGenerator.tsx:81-92 | The shuffle permutes the palettes and keeps the used ones in front. |
| AddUsedPalette.AddUsedPaletteDialog.constructor | src/components/AddUsedPalette.tsx:41 | The selection starts empty. |
| AddUsedPalette.AddUsedPaletteDialog.OnOpenChange | src/components/AddUsedPalette.tsx:49-53 | Opening clears the selection, and closing keeps it. |
| AddUsedPalette.AddUsedPaletteDialog.HandleColorSelect | src/components/AddUsedPalette.tsx:81-92 | A picked colour is unpicked. Otherwise the colour is appended while there is room, and the selection is unchanged when full. |
| AddUsedPalette.AddUsedPaletteDialog.HandleRemoveColor | src/components/AddUsedPalette.tsx:110-114 | Drops the picked colours with that id. |
| AddUsedPalette.AddUsedPaletteDialog.HandleRemoveColorByIndex | src/components/AddUsedPalette.tsx:216-225 | In range it drops the colour at that index (by id). Out of range it does nothing. |
| AddUsedPalette.AddUsedPaletteDialog.HandleAddPalette | src/components/AddUsedPalette.tsx:94-108 | A selection of the wrong size leaves the store as it was. Otherwise the store takes the state `addManualPalette` leaves for that selection, as a used palette. |
| AddUsedPalette.OnStatusChange | src/components/AddUsedPalette.tsx:55-79 | Added, exist and already-used close the dialog. Every verdict returns the status to idle. |
| AddUsedPalette.WithoutIdKeeps | src/components/AddUsedPalette.tsx:110-114 | Keeps exactly the colours with another id. |
| AddUsedPalette.WithoutIdAt | src/components/AddUsedPalette.tsx:216-225 | With distinct ids, removing by the id at an index removes just that entry. |
| AddUsedPalette.SelectedKeepsShape | src/components/AddUsedPalette.tsx:81-92 | A selection within the size with distinct ids stays so, and holds only picked or clicked colours. |
| AddUsedPalette.SelectTwice | src/components/AddUsedPalette.tsx:81-92 | Clicking a new colour twice (with room) restores the selection. |
| AddUsedPalette.UnselectAt | src/components/AddUsedPalette.tsx:81-92 | Clicking a picked colour removes exactly it. |
| AddUsedPalette.SelectionResolves | src/components/AddUsedPalette.tsx:94-108 | A selection drawn from distinct-id inputs resolves to itself in the store. |
| ColorInput.ColorInputPanel.constructor | src/components/ColorInput.tsx:31 | The new-colour picker starts at #7B68EE. |
| ColorInput.ColorInputPanel.HandleColorChange | src/components/ColorInput.tsx:33-38 | Sends the inputs with that id recoloured to the store's `setInputColors`. |
| ColorInput.ColorInputPanel.HandleAddColor | src/components/ColorInput.tsx:40-47 | Appends a colour with a new id and the picker's value, then resets the picker. |
| ColorInput.ColorInputPanel.HandleRemoveColor | src/components/ColorInput.tsx:49-54 | With more than one colour, sends the inputs without that id. Otherwise it does nothing. |
| ColorInput.WithValue | src/components/ColorInput.tsx:33-38 | Same ids and labels in the same order, and only the matching colours take the new value. |
| ColorInput.WithValueKeepsIds | src/components/ColorInput.tsx:33-38 | Recolouring keeps the id set and its distinctness. |
| ColorInput.WithValueLastWins | src/components/ColorInput.tsx:33-38 | Recolouring twice keeps the later value. |
| ColorInput.RemovedKeepsOne | src/components/ColorInput.tsx:49-54 | With distinct ids a non-empty list never becomes empty: exactly one colour goes when present. |
| ColorInput.SharedIdEmpties | src/components/ColorInput.tsx:49-54 | Two colours sharing an id are both removed, emptying the list. |
| PaletteSizeSelector.SizeSelector.constructor | src/components/PaletteSizeSelector.tsx:41-43 | The slider shows the store's size and nothing is pending. |
| PaletteSizeSelector.SizeSelector.OnPaletteSizeChange | src/components/PaletteSizeSelector.tsx:45-47 | The slider follows the store's size. |
| PaletteSizeSelector.SizeSelector.HandleSliderChange | src/components/PaletteSizeSelector.tsx:49-67 | A new size with used palettes becomes pending and opens the confirmation. Without used palettes it is committed at once. The same size changes nothing in the stores. |
| PaletteSizeSelector.SizeSelector.HandleConfirmChange | src/components/PaletteSizeSelector.tsx:69-75 | Commits the pending size, if any, clears it and closes the dialog. |
| PaletteSizeSelector.SizeSelector.HandleCancelChange | src/components/PaletteSizeSelector.tsx:77-81 | Closes the dialog, drops the pending size and puts the slider back to the store's size. |
| PaletteSizeSelector.SizeSelector.HandleConfirmDialogStateChange | src/components/PaletteSizeSelector.tsx:83-90 | Closing the open dialog cancels, and anything else changes nothing. |
| Pagination.TotalPageCount | src/components/PaginationWithLinks.tsx:45 | The page count is the ceiling of count / size. |
| Pagination.RenderPageNumbers | src/components/PaginationWithLinks.tsx:79-157 | The loops build exactly the item list of `PageItems`, with the corrected target in the small branch. |
| Pagination.PageNumbersShown | src/components/PaginationWithLinks.tsx:79-157 | Up to 5 pages: all of 1..total. More: 1, the window around the page clipped to 2..total-1, and the last page. The numbers are strictly increasing and within 1..total. |
| Pagination.EllipsesShown | src/components/PaginationWithLinks.tsx:110-141 | No ellipsis up to 5 pages. Beyond that, the leading one appears iff page > 3 and the trailing one iff page < total-2. |
| Pagination.LinksReportTheirPage | src/components/PaginationWithLinks.tsx:118-153 | In the corrected list every link targets its own number and is active iff it is the current page. |
| Pagination.PageItemsAsWritten | src/components/PaginationWithLinks.tsx:79-157 | The list as written agrees with the corrected one whenever there are more than 5 pages. |
| Pagination.PageItems | src/components/PaginationWithLinks.tsx:79-157 | The corrected item list. Its properties are `PageNumbersShown`, `EllipsesShown` and `LinksReportTheirPage`, and `RenderPageNumbers` is proved to build it. |
| Pagination.SmallBranchReportsCurrentPage | src/components/PaginationWithLinks.tsx:83-96 | On page 1 of 3, the link labelled 2 reports page 1 as written, and page 2 when corrected. |
| Pagination.PrevTarget | src/components/PaginationWithLinks.tsx:174-175 | The previous link stays at least 1, and stays put iff on page 1. |
| Pagination.NextTarget | src/components/PaginationWithLinks.tsx:186-188 | The next link stays at most the last page, and stays put iff on the last page. |
| Types.FindIndex | src/components/AddUsedPalette.tsx:83-85 | Returns the first index passing the test, or -1 iff none does. |
| Types.UsedUnusedMultiset | src/utils/helpers.ts:93-94 | Splitting by the used flag loses and adds nothing. |

## Left out

- Randomness, ids and time are not modelled as effects. `Math.random()` is replaced by explicit picks, `generateId()` by an id function, and `Date.now()` by a single `now` parameter, so every palette made in one call shares one timestamp.
- The BigInt arithmetic and JavaScript numbers are mathematical integers. Float precision loss past 2^53 (`factorial` in `colorUtils.ts`) is not captured.
- `Helpers.CalculateTotalPossiblePermutations` returns the count as an integer rather than a BigInt, and its formatting is modelled by `FormatBigInt` on that integer.
- `getContrastColor` (src/utils/helpers.ts:114-122) is left out, because it is float arithmetic on luminance.
- The `hexToRgb` copy in src/utils/colorUtils.ts:66-75 is identical to the one in helpers.ts and is modelled once, as `Helpers.HexToRgb`.
- The statistics sort (src/utils/helpers.ts:151-163, src/utils/calculateColorStatistics.ts:47-58) rebuilds each row in descending order of count. Dafny maps are unordered, so the sort is the identity on the model.
- `toUpperCase` is modelled on ASCII letters only, with no Unicode case mapping.
- `arePalettesEqual` (imported by src/store/paletteSlice.ts:8) is not part of this model. It is taken to mean equal ordered colour values, the same key `addManualPalette` compares.
- `JSON.stringify` of a colour list is taken to be the list itself, which is injective.
- Storage is not modelled: localStorage persistence (`useLocalStorage`), the zip/JSON import-export files, and the migration script's file reading and writing. Only the data transformations are.
- UI effects are not modelled: `useMemo`, `useCallback`, the lodash `debounce` around generation, the shuffle animation's `setTimeout` (only its end, `ShuffleSettled`), toasts, media queries and the JSX rendering.
- URL building in the pagination bar (`buildLink`, `navToPageSize`) and the page-size selector are left out. Items carry page numbers instead of hrefs.
- Object-key lookups that can hit inherited properties (`colorMap["constructor"]`) are not modelled, because maps have no prototype.
- GeneratorComponent.PaletteGenerator.HandleColorChange requires an index inside the list. JavaScript would grow the array with holes for a larger index, which the UI never produces.
- GeneratorComponent.PaletteGenerator.HandlePaletteToggle requires an index inside the list, which is what the rendered list passes.
- PaletteSizeSelector.SizeSelector.HandleSliderChange requires a size within the slider range 2..6. Its consistency guarantee holds only when no size is pending, since the dialog is modal.
- Pagination.TotalPageCount requires a page size of at least 1 and a whole, non-negative count. `Math.ceil` on other values is not modelled.
- Helpers.GenerateHelper removes the chosen colour by its position, where the source filters out every element identical to the chosen object (src/utils/helpers.ts:81). The two agree only when no `Color` object occurs twice in the input array; the model does not capture an input array that holds the same object twice.
- GeneratorComponent.ToggledAtTwice, ColorInput.WithValueKeepsIds and ColorInput.WithValueLastWins follow directly from the definitions' own contracts; they record the edits' algebra rather than a deep property.
- PaletteGeneration.GenerateAsWritten is bounded by a round count (fuel), since the loop as written need not terminate. `Generate` is the version the rest of the model would use.
- The initial store has `totalCombinations` 0, as src/store/paletteSlice.ts:29 says, although the default colours would give a positive count. The model keeps the 0.
- UiStore.ToggleTwice, UiStore.SetIdempotent and UiStore.LoadFullAndIdempotent are immediate from the definitions; they record the reducers' algebra rather than a deep property.

## Findings

| source | as written | input that shows it | evidently intended | confidence | as-written member | corrected member |
|---|---|---|---|---|---|---|
| src/hooks/usePaletteGeneration.ts:21-45 | The loop repeats until enough new palettes are found, even when a round can add none | valid colours ["#a","#b"], palette size 3, 5 samples, no used palettes: every round draws nothing, so the loop never ends | once a round adds nothing, draw the whole enumeration once, keep what is fresh and stop, so fewer palettes than asked only when every selection is present | not executed | PaletteGeneration.NeverReturns | PaletteGeneration.Generate |
| src/hooks/usePaletteGeneration.ts:28-42 | The filter compares each palette only with those kept from earlier rounds, not with others of the same batch | valid colours ["a","a","b"], palette size 2, 4 samples: one round admits ["a","b"] twice | admit a palette only if its colours are new to the kept palettes and to those already admitted | not executed | PaletteGeneration.BatchKeepsDuplicates | PaletteGeneration.Generate |
| src/components/PaginationWithLinks.tsx:89 | In the branch for at most 5 pages, each link's click reports the current `page` instead of its own number `i`, after the default navigation is prevented | page 1 of 3: clicking the link labelled 2 reports page 1, so the page does not change | report `i`, as the other branches do | not executed | Pagination.SmallBranchReportsCurrentPage | Pagination.RenderPageNumbers |
