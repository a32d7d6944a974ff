# VreauSaVorbesc board core, modelled in Dafny

VreauSaVorbesc is a Romanian AAC (augmentative and alternative
communication) board app. A child taps tiles on a board to speak words. The
words can also be collected on a sentence strip. A caregiver edits the board
behind an optional PIN.

This project models the app's core as immutable values and pure functions:

- the board data model with its categories and tiles;
- the store's mutations, startup decisions and queries;
- the IndexedDB persistence layer as a key-ordered record list plus one snapshot record;
- the full-state and single-board JSON export and import;
- the seeded demo board;
- the small decision helpers of the board screen, the tile cell, the sentence strip and the editor;
- the choice of speech engine and voice.

Three things become parameters:

- the clock (`now`);
- the ids that `newId()` would draw (`newId`, or a list of 56 seed ids);
- the `aac_data_version` marker kept in localStorage.

A guarded store operation that the source abandons with an early `return`
yields `None`.

Modules, in dependency order:

- `Common`: options, results, trim, join and substring helpers.
- `Moves`: the splice-based drag move.
- `Sorting`: a stable sort by an integer key.
- `Types`: the board model and referential integrity.
- `Mutations` and `TileOrder`: the board mutation API.
- `JsonValue`: abstract JSON and the typed encoding and decoding.
- `Storage`: the schema, the records and `loadState`/`saveState`.
- `Exchange`: export and import.
- `Seed`: the demo board.
- `Session`: the store state, startup and queries.
- `TileCell`, `SentenceStrip`, `BoardView` and `BoardEditor`: the UI helpers.
- `Piper`, `Voices`, `PickVoice` and `Speech`: speech.

Where the code and its written description disagree, the model follows the code:

- A present but empty `speechText` is spoken as empty: `??` does not fall back to the label.
- The stale-board heuristic looks at `icon` only, never at `imageUrl`, and it never fires for a board without tiles.
- A tile listed by two categories has one `order` field. Reordering one category therefore renumbers that tile in the other category too.

## Model

| member | source | states |
|---|---|---|
| Common.RemoveAll | src/store/useBoardStore.ts:264 | `filter(id => id !== x)` removes every occurrence and keeps every other element, in order, and leaves a list without `x` as it was |
| Common.RemoveAllDistinct | src/store/useBoardStore.ts:264 | filtering a list without repetitions leaves one without repetitions |
| Common.ContainsMeansInfix | src/hooks/useSpeech.ts:42-45 | `includes` holds exactly when the word occurs at some position of the name |
| Common.TrimIsInfix | src/hooks/useSpeech.ts:87 | `trim()` returns a contiguous piece of the input with no white space at either end |
| Common.TrimEmptyIffBlank | src/hooks/useSpeech.ts:87-88 | the trimmed text is empty exactly when every character is ECMAScript white space |
| Common.TrimIdempotent | src/components/BoardEditor.tsx:64 | trimming a trimmed name changes nothing |
| Common.JoinEmptyIff | src/components/SentenceStrip.tsx:25-28 | joining with a space is empty exactly when there is no piece or one empty piece |
| Common.JoinAppend | src/components/SentenceStrip.tsx:25 | joining one more piece appends the separator and that piece, or is the piece alone after no pieces |
| Common.ToLowerAscii | src/hooks/useSpeech.ts:41 | lower-casing keeps the length and maps every character through the letter mapping |
| Moves.SpliceStart | src/store/useBoardStore.ts:215 | the index `splice` starts at: negative indices count from the end and stop at 0, large ones stop at the length |
| Moves.Move | src/store/useBoardStore.ts:214-217 | a remove-then-reinsert keeps the length |
| Moves.MoveSpec | src/store/useBoardStore.ts:214-217 | the removed element lands at `min(to, n-1)` for `to >= 0`, and taking it out of both sides leaves the same list |
| Moves.MovePermutes | src/store/useBoardStore.ts:214-217 | a move is a permutation |
| Moves.MoveSameElements | src/store/useBoardStore.ts:214-217 | a move neither adds nor loses an element |
| Moves.MoveToSelf | src/components/BoardEditor.tsx:111 | moving an element onto its own index changes nothing |
| Moves.MoveCompose | src/components/BoardEditor.tsx:108-114 | two successive drag moves of the same element equal one move from the first source to the last target |
| Moves.MoveInverse | src/store/useBoardStore.ts:214-217 | `move(i, j)` followed by `move(j, i)` restores the list |
| Moves.MoveKeepsDistinct | src/store/useBoardStore.ts:214-217 | a move of a list without repetitions has none |
| Sorting.SortBy | src/store/useBoardStore.ts:236 | the comparator sort returns a permutation sorted by key, equal keys in input order (stability of ECMA-262 10th edition, section 22.1.3.27) |
| Sorting.InsertSorted | src/store/useBoardStore.ts:236 | inserting into a sorted list keeps it sorted |
| Sorting.InsertStable | src/store/useBoardStore.ts:236 | inserting keeps each key's elements in input order |
| Sorting.SortUnique | src/store/useBoardStore.ts:428 | any sorted, stable rearrangement is the sort's result |
| Sorting.SortSortedIsIdentity | src/store/useBoardStore.ts:428 | sorting an already sorted list leaves it unchanged |
| Sorting.SortIdempotent | src/hooks/useSpeech.ts:48 | sorting twice is sorting once |
| Types.FirstCategory | src/store/useBoardStore.ts:127 | `categoryIds[0] ?? null` is present exactly when the list is non-empty, and is listed |
| Types.Resolve | src/store/useBoardStore.ts:233-235 | `map` then `filter(t != null)` yields at most one tile per id, each a stored tile |
| Types.Resolving | src/components/SentenceStrip.tsx:18-20 | the ids that resolve are stored ids taken from the list |
| Types.ResolveIsLookup | src/store/useBoardStore.ts:233-235 | the resolved tiles are the lookups of the resolving ids, position by position |
| Types.ResolveAll | src/store/useBoardStore.ts:233-235 | when every id resolves, nothing is skipped |
| Types.ResolveIds | src/store/useBoardStore.ts:233-235 | under matching keys, the resolved tiles carry the ids they were resolved from |
| Mutations.PatchCategory | src/store/useBoardStore.ts:194 | the merge keeps the id because no caller patches it, each patched field is replaced, and an empty patch changes nothing |
| Mutations.PatchTile | src/store/useBoardStore.ts:204 | the merge keeps the id because no caller patches it, each patched field is replaced, and an empty patch changes nothing |
| Mutations.PatchIdempotent | src/store/useBoardStore.ts:194-204 | merging the same patch twice is merging it once |
| Mutations.UpdateBoard | src/store/useBoardStore.ts:183-189 | the patched name, columns and rows are replaced, the rest kept, the timestamp refreshed; integrity is kept because the editor patches no id, category or tile |
| Mutations.UpdateCategory | src/store/useBoardStore.ts:191-199 | ignored exactly when the id is not a key; otherwise only that entry is merged, and `categoryIds` and the tiles are untouched |
| Mutations.UpdateTile | src/store/useBoardStore.ts:201-209 | ignored exactly when the id is not a key; otherwise only that entry is merged, and the categories are untouched |
| Mutations.LastIndexOf | src/store/useBoardStore.ts:219-222 | the index of the last occurrence, -1 exactly when absent |
| Mutations.RenumberCategories | src/store/useBoardStore.ts:219-222 | every listed category takes its last index as `order`; the keys and the unlisted categories are kept |
| Mutations.ReorderCategories | src/store/useBoardStore.ts:211-226 | ignored exactly when `splice(from, 1)` removes nothing; otherwise `categoryIds` is the moved list |
| Mutations.ReorderCategoriesEffect | src/store/useBoardStore.ts:211-226 | `categoryIds` is permuted, only `order` fields change, the tiles are untouched, integrity is kept |
| Mutations.ReorderCategoriesOrders | src/store/useBoardStore.ts:214-222 | with distinct ids, the moved id lands at its target and every listed category's order is its new index |
| Mutations.ReorderedOrderAt | src/store/useBoardStore.ts:219-222 | with distinct ids, the category at index `i` has order `i` |
| Mutations.RenumberTwice | src/store/useBoardStore.ts:219-222 | renumbering along a list with the same ids overwrites an earlier renumbering |
| Mutations.ReorderCategoriesCompose | src/store/useBoardStore.ts:211-226 | two successive category drags equal one drag from the first source to the last target |
| Mutations.TilesInOrder | src/store/useBoardStore.ts:233-236 | the category's resolved tiles, permuted into `order` order |
| Mutations.WriteOrders | src/store/useBoardStore.ts:240-243 | the key set grows by exactly the listed tiles' ids |
| Mutations.WriteOrdersSpec | src/store/useBoardStore.ts:240-243 | an unlisted id keeps its tile; a listed id holds its last listed tile, renumbered to that index |
| Mutations.ReorderTilesInCategory | src/store/useBoardStore.ts:228-247 | ignored exactly when the category is absent or nothing is removed; `categoryIds` and every category (so every `tileIds`) are untouched; integrity is kept |
| Mutations.ReorderTileEntry | src/store/useBoardStore.ts:240-243 | a tile entry changes at most in `order`, and not at all if the category does not list it |
| Mutations.ReorderTilesEffect | src/store/useBoardStore.ts:228-247 | with matching keys, the key set is kept, only `order` fields change, and unlisted tiles are untouched |
| Mutations.ReorderTilesOrders | src/store/useBoardStore.ts:237-243 | when the moved list repeats no id, its tiles are numbered 0..k-1 along it |
| Mutations.AddCategory | src/store/useBoardStore.ts:249-259 | one new empty category ordered after the rest, its id appended; nothing else changes; integrity and distinct ids kept |
| Mutations.DeleteCategory | src/store/useBoardStore.ts:261-271 | ignored exactly when the id is not a key; otherwise the key and every occurrence go, and all tiles stay |
| Mutations.AddTile | src/store/useBoardStore.ts:273-292 | ignored exactly when the category is absent; otherwise a new tile speaking `speechText ?? label`, ordered after the category's tiles, is appended to that category only |
| Mutations.StripTile | src/store/useBoardStore.ts:300-303 | every category loses every occurrence of the id and nothing else |
| Mutations.DeleteTile | src/store/useBoardStore.ts:294-307 | ignored exactly when the id is not a key; otherwise only that tile goes, every category loses exactly that id from `tileIds` and nothing else, and integrity is kept |
| Common.DistinctPermutation | src/store/useBoardStore.ts:236 | a permutation of a list without repetitions has none |
| TileOrder.ResolvingDistinct | src/store/useBoardStore.ts:233-235 | the resolving ids of a list without repetitions repeat nothing |
| TileOrder.SortedDistinct | src/store/useBoardStore.ts:233-236 | a category listing no id twice yields a sorted list without repeated tiles |
| TileOrder.MovedIdsDistinct | src/store/useBoardStore.ts:233-239 | the moved list of such a category has pairwise distinct ids |
| TileOrder.ReorderTilesNumbering | src/store/useBoardStore.ts:228-247 | when the category lists no id twice, its tiles get orders 0..k-1 along the moved list, and no other tile changes |
| JsonValue.Get | src/storage/state.ts:131 | a property exists exactly on an object that has the key |
| JsonValue.OptStr | src/types/index.ts:13-26 | an optional string field reads as absent for a missing key or `null`, and as a string for a string |
| JsonValue.OptBool | src/types/index.ts:21-24 | an absent flag reads as `false` |
| JsonValue.DecodeIds | src/types/index.ts:37 | an id array decodes exactly when every item is a string, item by item |
| JsonValue.DecodeTile | src/types/index.ts:9-29 | a decoded tile's id is the object's string `id` |
| JsonValue.TileRoundTrip | src/types/index.ts:9-29 | encoding then decoding a tile gives it back |
| JsonValue.CategoryRoundTrip | src/types/index.ts:32-42 | encoding then decoding a category gives it back |
| JsonValue.IdsRoundTrip | src/types/index.ts:37 | encoding then decoding an id list gives it back |
| JsonValue.DecodeTileMap | src/types/index.ts:58 | a tile map decodes exactly when every value decodes, key by key |
| JsonValue.DecodeCategoryMap | src/types/index.ts:56 | a category map decodes exactly when every value decodes, key by key |
| JsonValue.TileMapRoundTrip | src/types/index.ts:58 | encoding then decoding a tile map gives it back |
| JsonValue.CategoryMapRoundTrip | src/types/index.ts:56 | encoding then decoding a category map gives it back |
| JsonValue.DecodeBoard | src/types/index.ts:45-61 | a decoded board's id is the object's string `id` |
| JsonValue.BoardRoundTrip | src/types/index.ts:45-61 | encoding then decoding a board gives it back |
| JsonValue.SnapshotRecord | src/storage/state.ts:102-105 | the stored row carries the key `default` |
| JsonValue.IdOrNull | src/storage/state.ts:80-81 | `?? null` turns a missing or `null` id into none and keeps a string |
| JsonValue.SnapshotFromJson | src/storage/state.ts:79-85 | missing ids become null, and a strip that is not an array becomes `[]` |
| JsonValue.SnapshotRoundTrip | src/storage/state.ts:74-86 | a stored snapshot, with or without its row key, reads back as itself |
| Storage.SchemaAt | src/storage/state.ts:44-56 | a database at version 2 has the three stores |
| Storage.Upgrade | src/storage/state.ts:45-56 | the upgrade only adds stores, and from version 2 it does nothing |
| Storage.UpgradeReachesCurrent | src/storage/state.ts:45-56 | from versions 0..2 it reaches the same three stores and the index, adds only `app_state` from version 1, and is idempotent |
| Storage.Lookup | src/storage/state.ts:203-206 | a lookup finds a record with that key, none exactly when no record has it |
| Storage.Put | src/storage/state.ts:99 | a put keeps key order, stores the board under its key, and leaves every other key's record as it was |
| Storage.Remove | src/storage/state.ts:213-216 | a delete keeps key order, removes that key only, and adds nothing |
| Storage.PutNew | src/storage/state.ts:99 | a put under a new key adds exactly that record |
| Storage.PutAllNew | src/storage/state.ts:96-100 | putting boards with distinct new keys adds exactly those boards |
| Storage.LoadSnapshot | src/storage/state.ts:74-86 | no stored record gives the default snapshot |
| Storage.LoadedIdsDistinct | src/storage/state.ts:69-72 | the boards loaded from a key-ordered store have distinct ids |
| Storage.LoadState | src/storage/state.ts:69-89 | the loaded boards are the stored ones, newest first, ties in key order |
| Storage.GetAllBoards | src/storage/state.ts:208-211 | the stored boards with `updatedAt` non-increasing |
| Storage.SaveState | src/storage/state.ts:92-108 | the store holds only saved boards, in key order, and the snapshot row is overwritten |
| Storage.LastWithId | src/storage/state.ts:97-100 | the board a run of puts leaves under an id: the last one carrying it, none exactly when no board carries it |
| Storage.PutAllLookup | src/storage/state.ts:97-100 | putting boards in turn leaves under each key the last board with that key, or what was stored before |
| Storage.SaveStateLookup | src/storage/state.ts:92-108 | after a save each id holds the last board saved with it, and an id never saved holds nothing, so repeated ids keep only their last board |
| Storage.SaveThenLoad | src/storage/state.ts:92-108 | a save then a load returns exactly the saved boards (distinct ids), newest first, and the saved snapshot |
| Storage.SavedSnapshotLoads | src/storage/state.ts:102-105 | whatever boards are saved, the snapshot saved with them loads back |
| Storage.SaveBoard | src/storage/state.ts:197-201 | the board is upserted with `updatedAt` set to the clock, and every other key and the snapshot are kept |
| Storage.GetBoard | src/storage/state.ts:203-206 | a board with that id, none exactly when none is stored |
| Storage.DeleteBoard | src/storage/state.ts:213-216 | only that id is gone; the other ids and the snapshot are kept |
| Exchange.IsValidBoard | src/storage/state.ts:167-180 | valid exactly for an object with string `id` and `name`, an array `categoryIds`, and object-like (array or object) `categories` and `tiles`; nothing below that level is checked; every well-typed board is valid |
| Exchange.NumOr | src/storage/state.ts:186 | a number is kept, anything else becomes the fallback |
| Exchange.NormalizeBoard | src/storage/state.ts:182-193 | id, name, categoryIds, categories and tiles are kept; `columns` defaults to 3; a non-numeric `rows` is dropped; `updatedAt` defaults to the clock; nothing else is kept |
| Exchange.NormalizeIdentityIff | src/storage/state.ts:182-193 | normalisation yields a normal board, is the identity exactly on normal boards, and is idempotent |
| Exchange.TypedBoardsAreValid | src/storage/state.ts:167-180 | every board of the typed model passes `isValidBoard` |
| Exchange.ExportJson | src/storage/state.ts:111-120 | the export is a version-1 object whose `boards` array has one item per stored board |
| Exchange.ImportSnapshot | src/storage/state.ts:152-160 | an absent `appState` gives the default snapshot |
| Exchange.SnapshotNormalisedAlike | src/storage/state.ts:79-85 | `loadState` and `importJSON` normalise a snapshot object alike (also lines 152-160) |
| Exchange.AllValid | src/storage/state.ts:145-148 | the loop passes exactly when every board passes `isValidBoard` |
| Exchange.NormalizeAll | src/storage/state.ts:145-150 | each board is normalised in place |
| Exchange.ImportShallow | src/storage/state.ts:123-165 | the first failing check decides the error: not JSON, then missing version or boards, then version other than 1, then boards not an array, then an invalid board; on success every board is normalised |
| Exchange.DecodeAll | src/storage/state.ts:144-150 | the list decodes exactly when every board does, item by item |
| Exchange.ImportJson | src/storage/state.ts:123-165 | the typed import fails with the ladder's error, and otherwise only with `InvalidBoard`, exactly when a normalised board is not well typed |
| Exchange.ShallowAdmitsMalformedCategory | src/storage/state.ts:167-180 | a board whose category is the number 5 passes the shape check, and the typed import refuses it |
| Exchange.ImportInto | src/storage/state.ts:162-164 | the typed import against the database: a failed import writes nothing; a successful one stores only returned boards, under each id the last returned board with that id, and its snapshot loads back |
| Exchange.ImportThenLoad | src/storage/state.ts:162-164 | the persisted state equals the returned state: with distinct ids a load gives back exactly the returned boards, newest first, and the returned snapshot; with repeated ids the store keeps only the last board per id while `importJSON` returns them all |
| Exchange.NormalizeClockFree | src/storage/state.ts:182-193 | normalisation reads the clock only for a missing `updatedAt` |
| Exchange.ImportClockFree | src/storage/state.ts:123-165 | an envelope whose boards all carry `updatedAt` imports alike at any two clocks |
| Exchange.ImportIdempotent | src/storage/state.ts:123-165 | importing such an envelope again, at a later clock, leaves the state of the first import |
| Exchange.NormalizeEncoded | src/storage/state.ts:182-193 | an encoded board passes the shape check and normalises back to itself |
| Exchange.DecodeNormalizedAll | src/storage/state.ts:145-150 | every exported board imports back to itself |
| Exchange.ExportThenImport | src/storage/state.ts:111-165 | importing an export gives back exactly what `loadState` returned: the boards in order and the snapshot |
| Exchange.LadderPassed | src/storage/state.ts:131-150 | an envelope passing every check imports as its normalised boards |
| Exchange.ExportEnvelope | src/storage/state.ts:113-118 | an export says version 1 and carries the loaded boards and snapshot |
| Exchange.ExportPassesLadder | src/storage/state.ts:131-150 | an export passes every step of the ladder |
| Exchange.ExportBoard | src/types/exportImport.ts:9-16 | version 1, and the board with only `updatedAt` replaced by the clock |
| Exchange.ImportBoard | src/types/exportImport.ts:18-24 | a parse error or `null` throws; success exactly for version 1 with a truthy `board`, which is returned as it is |
| Exchange.ExportBoardThenImport | src/types/exportImport.ts:9-24 | a board export imports as the stamped board, which decodes to the board |
| Exchange.ImportBoardUnchecked | src/types/exportImport.ts:20-23 | any truthy `board` value, a number included, is accepted unchecked |
| Seed.MakeTile | src/data/seedBoards.ts:97-105 | a seeded tile has its drawn id and row order, and is neither hidden nor locked (line 128) |
| Seed.TilesUpTo | src/data/seedBoards.ts:97-108 | the tile map holds the drawn ids of the rows so far |
| Seed.CategoriesUpTo | src/data/seedBoards.ts:114-124 | the category map holds the drawn category ids so far |
| Seed.BuildSeed | src/data/seedBoards.ts:136-145 | name "Tabloul meu", 4 columns, 5 rows, board id and category ids drawn last |
| Seed.BlockFits | src/data/seedBoards.ts:30-86 | each category's ten rows are numbered 0..9, with non-empty texts |
| Seed.TableInPlace | src/data/seedBoards.ts:30-86 | the table is five runs of ten in category order, each numbered 0..9 |
| Seed.TileAt | src/data/seedBoards.ts:97-105 | with distinct ids, row `i`'s tile is stored under the `i`-th id |
| Seed.IdsForBlock | src/data/seedBoards.ts:106-107 | category `k` collects exactly the ids of rows `10k..10k+9`, in order |
| Seed.CategoryAt | src/data/seedBoards.ts:114-124 | category `j` sits under the `j`-th category id with its name, tiles, order and icon |
| Seed.SeededTile | src/data/seedBoards.ts:97-129 | every seeded tile has a non-empty label, speech and icon, its position in its category, and is neither hidden nor locked |
| Seed.SeededCategory | src/data/seedBoards.ts:110-124 | category `k` has order `k`, its name and icon, and the ten tile ids of its run |
| Seed.SeedFirstCategory | src/data/seedBoards.ts:9-10 | the first listed category is "Nevoi" |
| Seed.SeedIntegrity | src/data/seedBoards.ts:96-145 | the seed has referential integrity, keys matching ids, and five distinct category ids |
| Seed.SeedInDisplayOrder | src/data/seedBoards.ts:32-85 | sorting each category's tiles by `order` leaves them in list order |
| Session.Initial | src/store/useBoardStore.ts:111-125 | the store starts with no board, no category, an empty strip, unloaded, in child mode |
| Session.FirstOf | src/store/useBoardStore.ts:127 | `board?.categoryIds[0] ?? null` is present exactly for a board with categories, and is listed |
| Session.SetBoard | src/store/useBoardStore.ts:127 | the board and its first category are set, and nothing else changes |
| Session.AppendToSentence | src/store/useBoardStore.ts:131-132 | the id goes on the end of the strip, and nothing else changes |
| Session.ClearSentence | src/store/useBoardStore.ts:134 | the strip is emptied, and nothing else changes |
| Session.EnterCaregiverMode | src/store/useBoardStore.ts:170-177 | entry succeeds exactly with no PIN set or the same PIN, closing the dialog; a refusal changes nothing |
| Session.ExitCaregiverMode | src/store/useBoardStore.ts:179 | caregiver mode ends, and nothing else changes |
| Session.CaregiverGate | src/store/useBoardStore.ts:170-179 | from child mode the gate opens exactly on the right PIN; no PIN given with a PIN set is refused; leaving restores child mode |
| Session.Commit | src/store/useBoardStore.ts:185-187 | an ignored mutation leaves the store, and a done one sets only the board |
| Session.DeleteCategoryIn | src/store/useBoardStore.ts:261-271 | the current category moves to the first remaining one, or none, only when it was deleted |
| Session.DeleteCategoryKeepsCurrentValid | src/store/useBoardStore.ts:268 | after a delete, the current category is none or is listed |
| Session.AddTileIn | src/store/useBoardStore.ts:273-292 | no board or no category returns no id and changes nothing; otherwise it returns the new id |
| Session.GetCurrentCategory | src/store/useBoardStore.ts:413-417 | found exactly with a board, a truthy current id and a category under it |
| Session.CurrentCategoryFound | src/store/useBoardStore.ts:413-417 | with a valid current id and integrity, the current category is found |
| Session.Unhidden | src/store/useBoardStore.ts:426 | exactly the tiles that are not hidden, from the list |
| Session.VisibleTiles | src/store/useBoardStore.ts:419-430 | the current category's resolving, unhidden tiles, stably sorted by `order`; empty without a category |
| Session.VisibleIsReorderList | src/store/useBoardStore.ts:233-236 | without hidden tiles, the visible list is the list the tile reorder indexes |
| Session.HiddenTileShiftsIndices | src/components/BoardEditor.tsx:218-224 | with a hidden tile first, the editor's index 0 and the store's index 0 name different tiles |
| Session.SeedSnapshot | src/store/useBoardStore.ts:346-350 | the reseed snapshot: the seed, its first category, an empty strip |
| Session.Stale | src/store/useBoardStore.ts:375-377 | stale exactly when the board has tiles and no tile has a truthy `icon` |
| Session.StaleIgnoresImages | src/store/useBoardStore.ts:376-377 | changing a tile's `imageUrl` never changes whether the board looks stale |
| Session.StartupDecision | src/store/useBoardStore.ts:340-385 | forced reseed exactly on a version other than "2"; an empty reseed exactly with no board; a stale reseed exactly when the newest board has tiles and no non-empty icon |
| Session.Reseeded | src/store/useBoardStore.ts:355-360 | after a reseed the current category is listed |
| Session.LoadOrCreateSeed | src/store/useBoardStore.ts:339-393 | a reseed saves the seed alone with an empty strip; a normal load keeps the database, shows the newest board and the saved strip, and restores the saved category exactly when it is truthy, listed and saved for this board, else the first category; the version is recorded |
| Session.SavedSeedLoads | src/store/useBoardStore.ts:351 | a seed saved alone loads back as the only board, with its snapshot |
| Session.SeedNotStale | src/store/useBoardStore.ts:375-377 | a fresh seed never trips the stale check |
| Session.RerunDoesNotReseed | src/store/useBoardStore.ts:339-393 | running startup again on what it left takes the normal path and changes nothing |
| Session.SavedBoardReloads | src/store/useBoardStore.ts:364-392 | a saved board that is not stale reloads as itself with its first category |
| Session.LoadBoards | src/store/useBoardStore.ts:324-337 | the newest board and the saved strip; the saved category exactly when it is truthy and listed, otherwise `categoryIds[0] ?? null`; the current category is always listed |
| Session.ResetToDefaultDemo | src/store/useBoardStore.ts:309-322 | the seed replaces every board and the snapshot, and becomes current with an empty strip |
| Session.ResetThenLoad | src/store/useBoardStore.ts:309-337 | after a reset, `loadBoards` shows what the reset showed |
| Session.ReplaceById | src/store/useBoardStore.ts:404 | each stored board with the current board's id is replaced by it |
| Session.SnapshotOf | src/store/useBoardStore.ts:405-409 | the snapshot of the current board id, category and strip |
| Session.PersistedBoards | src/store/useBoardStore.ts:404 | the written boards keep their ids, and none but the current board is new |
| Session.PersistAppState | src/store/useBoardStore.ts:400-411 | only stored boards or the current board are written, with the store's snapshot |
| Session.PersistAppStateEffect | src/store/useBoardStore.ts:400-411 | persisting adds no board under a new id, and a later load returns the store's snapshot |
| Session.PersistThenLoad | src/store/useBoardStore.ts:400-411 | on a well-formed store, a later load returns every stored board once, with the one sharing the current board's id replaced by it, newest first, and the store's snapshot |
| TileCell.SpokenText | src/components/TileCell.tsx:23 | `speechText ?? label`: a present speech text is spoken even when empty |
| TileCell.VisualOf | src/components/TileCell.tsx:25 | the image when `imageUrl` is truthy, else the icon when truthy, else the default |
| TileCell.Background | src/components/TileCell.tsx:24 | a tint exactly when the colour is truthy (line 48) |
| TileCell.Click | src/components/TileCell.tsx:27-33 | add to the sentence exactly in sentence mode with a handler, otherwise tap; either way the clicked tile |
| TileCell.FallbacksAgree | src/components/TileCell.tsx:23-25 | a cleared speech text speaks the label, and an image hides any icon |
| SentenceStrip.Compose | src/components/SentenceStrip.tsx:16-24 | one label and one piece per resolving id |
| SentenceStrip.ComposeReadsResolved | src/components/SentenceStrip.tsx:16-24 | the `i`-th label and piece are the `i`-th resolved tile's label and spoken text |
| SentenceStrip.ComposeAppend | src/components/SentenceStrip.tsx:18-23 | appending an unresolved id changes nothing; a resolved one adds its label and piece at the end |
| SentenceStrip.SentenceText | src/components/SentenceStrip.tsx:25 | the pieces joined by single spaces: empty without pieces, otherwise their lengths plus one space between each two |
| SentenceStrip.SentenceAppend | src/components/SentenceStrip.tsx:18-25 | one more tile on the strip: an unresolved id leaves the sentence as it was; a resolved one appends a space and its spoken text, or is the whole sentence |
| SentenceStrip.SpeakSentence | src/components/SentenceStrip.tsx:27-29 | the sentence is handed over exactly when non-empty |
| SentenceStrip.DanglingStripIsSilent | src/components/SentenceStrip.tsx:18-31 | a strip of ids that do not resolve is drawn but speaks nothing |
| SentenceStrip.NothingResolves | src/components/SentenceStrip.tsx:18-24 | unresolved ids are skipped, not errors |
| SentenceStrip.SingleTileSentence | src/components/SentenceStrip.tsx:22-25 | a one-tile strip speaks what tapping the tile speaks |
| BoardView.DisplayColumns | src/components/BoardView.tsx:62 | always 2..4: 3 when unset, the value inside 2..4, clamped outside |
| BoardView.EditorColumnsClamped | src/components/BoardView.tsx:62 | of the editor's 1..6 columns, exactly 2, 3 and 4 are drawn as set; 1 is drawn as 2 and 5 or 6 as 4 (also src/components/BoardEditor.tsx:149) |
| BoardView.NavList | src/components/BoardView.tsx:40-41 | one entry per listed id, in order, none where the id has no category |
| BoardView.NavListComplete | src/components/BoardView.tsx:40-41 | with integrity, the list has no gaps |
| BoardView.CaregiverUnlocksNav | src/components/BoardView.tsx:78 | entering caregiver mode unlocks navigation; leaving relocks it exactly with lock-nav on |
| BoardView.TapTile | src/components/BoardView.tsx:43-47 | a tap speaks `speechText ?? label` and records that text as the last utterance |
| BoardView.SpeakSentenceIn | src/components/BoardView.tsx:49-52 | the spoken sentence becomes the last utterance |
| BoardView.ClickTile | src/components/TileCell.tsx:27-33 | in sentence mode the tile goes on the strip, otherwise it is tapped |
| BoardEditor.ImageAccepted | src/components/BoardEditor.tsx:11-18 | a file is read exactly when twice its size is at most 3 MiB, that is 1.5 MiB |
| BoardEditor.ClampInput | src/components/BoardEditor.tsx:149 | always 1..hi: values inside are kept, 0 or not a number become 1 |
| BoardEditor.ClampColumns | src/components/BoardEditor.tsx:149 | columns are clamped to 1..6 |
| BoardEditor.ClampRows | src/components/BoardEditor.tsx:160 | rows are clamped to 1..8 |
| BoardEditor.ClampIdempotent | src/components/BoardEditor.tsx:149 | clamping a clamped value changes nothing |
| BoardEditor.AddCategoryIn | src/store/useBoardStore.ts:249-251 | without a board the store ignores the add |
| BoardEditor.HandleAddCategory | src/components/BoardEditor.tsx:63-69 | a blank name does nothing; otherwise the trimmed name is added and the field cleared |
| BoardEditor.AddedCategoryNameTrimmed | src/components/BoardEditor.tsx:63-66 | the stored name is the trimmed input, with no surrounding white space |
| BoardEditor.SpeechFor | src/components/BoardEditor.tsx:74 | the trimmed speech input, or the label when it is blank |
| BoardEditor.HandleAddTile | src/components/BoardEditor.tsx:71-77 | nothing without a trimmed label and a truthy current category; otherwise the trimmed label is added with its speech and the fields are cleared |
| BoardEditor.AddedTileSpeaks | src/components/BoardEditor.tsx:71-75 | the tile has the trimmed label and speaks the trimmed speech, or the label |
| BoardEditor.SpeechEdit | src/components/BoardEditor.tsx:239 | an emptied speech field writes `null` and touches no other field |
| BoardEditor.ClearedSpeechSpeaksLabel | src/components/BoardEditor.tsx:239 | after the field is emptied the tile speaks its label |
| BoardEditor.ReorderCategoriesIn | src/store/useBoardStore.ts:211-213 | without a board the store ignores the reorder |
| BoardEditor.CategoryDragOver | src/components/BoardEditor.tsx:108-114 | no drag or the same index does nothing; otherwise one move and the drag index follows |
| BoardEditor.CategoryDragChain | src/components/BoardEditor.tsx:108-114 | hovering a, then b, then c leaves the board of a single move from a to c |
| BoardEditor.ReorderTilesIn | src/store/useBoardStore.ts:228-232 | without a board the store ignores the reorder |
| BoardEditor.TileDragOver | src/components/BoardEditor.tsx:118-124 | as for categories, and nothing without a truthy current category |
| BoardEditor.DragOverSelfIsIdle | src/components/BoardEditor.tsx:110-111 | a hover with no drag or over the dragged row changes nothing |
| Piper.IsPiperVoiceId | src/lib/piperTts.ts:14-16 | holds exactly for a present id starting with `piper:` |
| Piper.SliceFrom | src/lib/piperTts.ts:20 | `slice(n)`: what follows the first `n` characters, or nothing |
| Piper.GetPiperVoiceIdFromPreferred | src/lib/piperTts.ts:18-21 | present exactly for Piper ids, never empty; drops seven characters, falling back to the default voice |
| Piper.PreferredIdLosesFirstLetter | src/lib/piperTts.ts:8-9 | the default preferred id parses to "o_RO-mihai-medium", not the default voice (line 20) |
| Piper.VoiceIdFromPreferred | src/lib/piperTts.ts:18-21 | present exactly for Piper ids, never empty; the prefix followed by the result is the input |
| Piper.VoiceIdRoundTrip | src/lib/piperTts.ts:8-21 | the corrected parse inverts prefixing of every voice name; the default preferred id gives the default voice |
| Piper.ParsesAgreeOnAcceptance | src/lib/piperTts.ts:18-21 | both parses accept the same ids |
| Voices.FindIndex | src/hooks/useSpeech.ts:116 | the first index with that URI, or -1 exactly when there is none |
| Voices.FindByUri | src/lib/pickVoice.ts:17 | `find` returns the first voice with the URI, none exactly when there is none |
| Voices.NameBonus | src/hooks/useSpeech.ts:42-45 | the bonus is given exactly when the name contains one of the words |
| Voices.Score | src/hooks/useSpeech.ts:36-47 | the score is in 0..2080, at least 1000 for Romanian, at most 1080 otherwise |
| Voices.SortVoices | src/hooks/useSpeech.ts:48 | a permutation of the input, scores non-increasing, equal scores in input order |
| Voices.RomanianRanksFirst | src/hooks/useSpeech.ts:35-48 | the language adds exactly 1000, so of two voices differing only in language the Romanian one ranks first |
| Voices.SortVoicesIdempotent | src/hooks/useSpeech.ts:48 | ranking a ranked list changes nothing |
| PickVoice.PickVoiceForUtterance | src/lib/pickVoice.ts:14-23 | the result is from `allVoices`; none without ranked voices; a wanted and present preferred voice is chosen; otherwise the match of the best-ranked voice |
| PickVoice.MissingPreferredFallsBack | src/lib/pickVoice.ts:16-22 | a missing preferred voice falls back to the best-ranked installed voice |
| Speech.VoiceUnavailable | src/hooks/useSpeech.ts:68-72 | the notice condition holds exactly for a truthy non-Piper id, a non-empty list, and no voice with that id |
| Speech.RefreshVoices | src/hooks/useSpeech.ts:62-74 | the list is ranked, ready exactly when non-empty, and the handler gets the preferred id exactly when it is unavailable |
| Speech.WebVoice | src/hooks/useSpeech.ts:114-122 | the installed preferred voice when wanted (none if missing), otherwise the match of the best-ranked voice |
| Speech.Speak | src/hooks/useSpeech.ts:85-126 | blank text or no engine is silent; Piper is used exactly on a non-touch device with a Piper id when it succeeds, and gets the `slice(7)` voice id; otherwise Web Speech with the trimmed text |
| Speech.SpeakCorrected | src/hooks/useSpeech.ts:93-107 | as `speak`, but Piper gets the voice named after the `piper:` prefix |
| Speech.SpeakDefaultPiperVoice | src/hooks/useSpeech.ts:98-101 | with the store's default preferred id, `speak` asks Piper for "o_RO-mihai-medium" and the corrected one for "ro_RO-mihai-medium" (also src/store/useBoardStore.ts:120) |
| Speech.SpeakDiffersOnlyInPiperVoice | src/hooks/useSpeech.ts:93-107 | the two choose the same engine and text, and differ only in the Piper voice id |
| Speech.SpeakIgnoresBlank | src/hooks/useSpeech.ts:87-88 | `speak` is silent exactly without an engine or for all-white-space text |
| Speech.NoFallbackForMissingPreferred | src/hooks/useSpeech.ts:115-117 | a wanted preferred voice that is missing leaves the utterance without a voice |
| Speech.SpeakAndPickVoiceDiffer | src/lib/pickVoice.ts:14-23 | the two voice rules agree except for a missing preferred voice (also src/hooks/useSpeech.ts:115-122) |

## Left out

- IndexedDB mechanics are not modelled: `getDB`, the connection cache, transactions and `tx.done`. The stores are values and every transaction is one function.
- Media blobs are not modelled: `saveMedia` and `getMedia`, and the `FileReader` in the editor. Only the image size guard, `BoardEditor.ImageAccepted`, is kept.
- The localStorage settings are not modelled: lock, dark, low stimulation, voice and PIN persistence. The PIN, the lock-nav flag and the data-version marker are plain inputs and outputs.
- Zustand `create`/`set`/`get` and asynchrony are not modelled. Every operation is synchronous, and the fire-and-forget `db.saveBoard` calls are not modelled.
- JSON text is not parsed or stringified. A parse is an `Option<Json>`. Numbers are integers, so floating point, `NaN` and fractional `updatedAt` values are outside the model. The same holds for the editor's number inputs: `Number(e.target.value)` of "2.5" would store 2.5 columns, while `BoardEditor.ClampInput` takes an integer or no number.
- `LoadState` orders keys by character code. IndexedDB compares strings by UTF-16 code units, which differs only for characters outside the Basic Multilingual Plane.
- Storage.SaveState: does not model the `?? Date.now()` fill of a missing `updatedAt`, because a typed board always has one.
- JsonValue.SnapshotFromJson: a non-string id that is not `null` is read as absent, and non-string strip items are dropped, whereas the source passes both through. A typed snapshot can hold neither.
- `deleteTile` mutates category objects shared with the previous state. A value model cannot observe that aliasing.
- The `CategoryNav` component's null filter is rendering only.
- Exchange.ImportInto: the database holds typed boards, so the write of a board that passes the shape check but is not well typed is not modelled. `importJSON` saves such a board; the model refuses it with `InvalidBoard` (see Findings).
- Exchange.ImportIdempotent: stated for envelopes whose boards carry `updatedAt`; a board without one takes the clock on each import.
- Mutations.PatchCategory: the patch has no `id` field, because the source's only call sites never pass one (`updateCategory` has no caller). A patched id would break the key-to-id match.
- Mutations.PatchTile: the patch has no `id` field, because every editor call site (src/components/BoardEditor.tsx:82, 94, 100, 233, 239) patches other fields.
- Mutations.UpdateBoard: the patch carries only `name`, `columns` and `rows`, the fields the editor passes (src/components/BoardEditor.tsx:137, 149, 160). A spread of any `Partial<Board>` could replace ids, categories or tiles.
- TileCell.Background: applies a colour when it is truthy, which is what `style={bg ? …}` does. A non-null but empty colour gives no tint.
- Speech and audio playback are not modelled: `loadPiper`, `speakPiper`, the audio unlock and the Web Speech engine. Whether Piper speaks is the parameter `piperOk`, and `synth.cancel()` is not modelled.
- The utterance `rate` and `pitch` are floating point and are not modelled.
- The `piperReady` flag is not modelled, and neither is the `stop` callback.
- `refreshVoices` without a speech engine, and the `voiceschanged` listener, are not modelled. The list is an input.
- `isMobileOrTouch` is the parameter `mobile`.
- `getVoicesList` is not modelled. It copies five fields, and `Voice` holds exactly those fields.
- Voices.Score: lower-cases ASCII letters only, because `toLowerCase` on other scripts needs Unicode tables. The scoring words are ASCII, so only names with non-ASCII capitals could differ.
- Session.LoadOrCreateSeed: a reseed from an empty or stale store keeps any other snapshot fields the stored row had. A typed snapshot has none, so this cannot be seen.

## Findings

| source | as written | input that shows it | evidently intended | confidence | as-written member | corrected member |
|---|---|---|---|---|---|---|
| src/lib/piperTts.ts:20 | `preferred.slice(7)` drops seven characters, but the prefix `piper:` has six | the store's own default `"piper:ro_RO-mihai-medium"` gives the voice `"o_RO-mihai-medium"` | drop exactly the prefix, giving `"ro_RO-mihai-medium"` | high; not executed | Piper.GetPiperVoiceIdFromPreferred, Piper.PreferredIdLosesFirstLetter, Speech.Speak, Speech.SpeakDefaultPiperVoice | Piper.VoiceIdFromPreferred, Piper.VoiceIdRoundTrip, Speech.SpeakCorrected |
| src/storage/state.ts:146-149 | `isValidBoard` checks only the top-level fields, so any value under `categories` is accepted | `{"version":1,"boards":[{"id":"b","name":"n","categoryIds":["c"],"categories":{"c":5},"tiles":{}}]}` is imported, and `getTilesForCurrentCategory` then reads `tileIds` of a number | a board whose categories or tiles do not have the declared shape is refused as an invalid board | medium; not executed | Exchange.ImportShallow, Exchange.ShallowAdmitsMalformedCategory | Exchange.ImportJson, Exchange.ExportThenImport, Exchange.ImportInto, Exchange.ImportIdempotent |
