# A verified model of the music player's library indexer and its stores

This project models, in Dafny, the logic at the heart of a React Native music
player: the local media indexer that fingerprints the device's audio files,
rebuilds the records of new or changed ones and keeps the track table and the
in-memory track list up to date; the SQLite layer it writes to; the
minimum-duration and folder filters that decide what is indexed; the labels
shown for a track's audio; the saved playback session and the two player
stores; the playlist form and playlist creation; the search and album
queries; and the small string and progress utilities they share.

Each source file becomes one module. Code that changes state in place
becomes a class whose methods state the new state (`MediaIndexer.Indexer`,
`Database.TrackDatabase`, `TrackDurationFilter.FilterStore`,
`FolderFilters.FolderFilterScreen`, `UiStore.UiState`, `PlayerStore.Player`,
`LegacyPlayerStore.LegacyPlayer`); code built from expressions becomes
functions with lemmas about them. The loops of the source (the indexer's
batches, the table inserts, the folder and album grouping, the search merge,
the preview images, `mergeUniqueById`, the legacy library scan) are methods
with loop invariants, each proved to compute a specification function whose
properties are proved separately.

What the program cannot know in advance is a parameter: the device (its
permission answer, the enumerator's pages, the metadata decoder, the
artwork directory), the clock, the random ids of new rows, what the native
audio player reports, the rows a database query returns, and whether a
call threw. `localeCompare` is a collation passed in, assumed to be a total
preorder only where sortedness is claimed.

Where the code and its documentation differ, the model follows the code.
The exception is the four defects listed under "## Findings": each is
modelled twice, once as written and once corrected. The operations that
use it (the search merge, the album grouping by genre, the legacy
`playPrevious` and the indexer's fingerprint) follow the corrected
version, as the lines that start with their names under "## Left out"
say. The code and its documentation differ here:

- The indexer leaves a track's artist and album unset when the metadata
  has none (`src/utils/media-indexer.ts:127-128`). The `Unknown Artist` and
  `Unknown Album` fallbacks belong to the legacy store only
  (`src/store/player-store.ts:133-134`).
- The fingerprint's third input, named `size`, is the asset's duration
  (`src/utils/media-indexer.ts:104-108`).
- In the legacy store's `loadTracks`, the branch that reuses an unmodified
  record can never run. The existing records are read either after the
  early return for a non-empty cache or after a forced load has cleared
  the table, so that map is always empty
  (`LegacyPlayerStore.LoadedTracksFresh`).

## Model

| member | source | states |
|---|---|---|
| Format.DurationRoundTrip | src/utils/format.ts:1-5 | reading the `m:ss` text of `formatDuration` back (minutes before the colon, seconds after it) gives the seconds it was made from |
| Format.FormatDurationShape | src/utils/format.ts:1-5 | the text is whole minutes, a colon, and exactly two digits holding the seconds within the minute (below 60) |
| Format.PaddedDigits | src/utils/format.ts:4 | the seconds field below 100 is two digits whose value is the seconds: the leading zero is added only below 10 |
| Format.CountLabels | src/utils/format.ts:7-11 | `formatTrackCount` and `formatSongCount` end in the plural `s` exactly when the count is not 1, and no two counts share a label |
| Format.CountTextPlural | src/utils/format.ts:7-11 | for a noun not ending in `s`, the label ends in `s` exactly when the count is not 1 |
| Format.CountTextInjective | src/utils/format.ts:7-11 | different counts never give the same label |
| MergeText.PiecesTrimmed | src/utils/merge-text.ts:3-14 | every kept piece is trimmed text |
| MergeText.PiecesEmpty | src/utils/merge-text.ts:5-12 | no piece is left exactly when every value renders as empty (`null`, `undefined`, `false`, or blank text) |
| MergeText.PiecesAppend | src/utils/merge-text.ts:5-12 | the map-and-filter acts value by value: the pieces of a concatenation are the concatenated pieces |
| MergeText.MergeEmpty | src/utils/merge-text.ts:3-14 | the merged text is empty exactly when every value renders as empty |
| MergeText.MergeAppend | src/utils/merge-text.ts:3-14 | merging two lists is merging each and joining the two with the separator, unless one side has no pieces |
| MergeText.WhatIsDropped | src/utils/merge-text.ts:6-10 | `null`, `undefined` and `false` are dropped, the number 0 is kept as "0", and text is trimmed |
| MergeText.NumberTextTrimmed | src/utils/merge-text.ts:10 | trimming a number's text changes nothing |
| FilePath.ToFileUriShape | src/utils/file-path.ts:3-5 | the result starts with `file://`, the scheme is never added twice (idempotent), and an added scheme is followed by the path unchanged |
| FilePath.ResolveShape | src/utils/file-path.ts:7-29 | the result is empty exactly when the input is; it is the input itself or a `file://` URI; a plain path gets the `file://` scheme |
| FilePath.ResolveIdempotent | src/utils/file-path.ts:7-29 | resolving a resolved URI again returns it unchanged |
| FilePath.FileUriHasScheme | src/utils/file-path.ts:12-26 | a `file://` URI takes neither the content-URI branch nor the scheme-less branch |
| FilePath.FolderShape | src/utils/file-path.ts:31-42 | a folder found is a `file://` URI longer than the scheme, a proper prefix of the input followed by a slash and a last segment without slashes |
| FilePath.FolderOfChild | src/utils/file-path.ts:31-42 | the folder of `folder/name` is `folder` when `name` has no slash |
| FilePath.NoFolder | src/utils/file-path.ts:32-39 | non-`file://` URIs and files directly under the root have no folder (`null`) |
| UiStore.ClampProgressRange | src/store/ui-store.ts:38 | the clamp lands in [0, 100], keeps in-range values, sends others to the nearer bound and lets NaN through |
| UiStore.ClampProgressIdempotent | src/store/ui-store.ts:38 | clamping twice is clamping once |
| UiStore.UiState.constructor | src/store/ui-store.ts:3-4 | bars visible, player collapsed, overlay hidden at 0 with no message |
| UiStore.UiState.HandleScrollStart | src/store/ui-store.ts:8-11 | the bars are hidden |
| UiStore.UiState.ScrollSettled | src/store/ui-store.ts:15-17 | when the scroll-stop timer fires, the bars come back |
| UiStore.UiState.ShowProgress | src/store/ui-store.ts:30-32 | the overlay is visible at progress 0 with the message, and the progress invariant holds |
| UiStore.UiState.UpdateProgress | src/store/ui-store.ts:34-41 | the progress is the clamped value, the message is replaced only when one is given, and the progress invariant holds |
| UiStore.UiState.HideProgress | src/store/ui-store.ts:43-45 | back to the hidden overlay at 0 with no message |
| MediaIndexer.FileHashAsWritten | src/utils/media-indexer.ts:58-60 | the fingerprint as written is at most 64 characters, all ASCII letters, digits or `_` |
| MediaIndexer.FileHashAsWrittenIgnoresChanges | src/utils/media-indexer.ts:58-60 | once the uri fills the 64 characters, the fingerprint as written no longer depends on the modification time or the size |
| MediaIndexer.FileHashAsWrittenCollision | src/utils/media-indexer.ts:58-60 | a concrete 64-character uri whose modification time and size both change keeps the same fingerprint as written |
| MediaIndexer.FileHashChars | src/utils/media-indexer.ts:59 | the fingerprint the model uses holds only ASCII letters, digits and `_` |
| MediaIndexer.FileHashShape | src/utils/media-indexer.ts:59 | the fingerprint is the sanitised uri, `_`, the modification time, `_`, the size |
| MediaIndexer.FileHashDetectsChanges | src/utils/media-indexer.ts:58-60 | for one uri, equal fingerprints mean equal modification time and size, so a changed file is always re-read (also line 110) |
| MediaIndexer.ReplaceNonAlnum | src/utils/media-indexer.ts:59-70 | each character is kept when it is an ASCII letter or digit and becomes `_` otherwise; the length is unchanged |
| MediaIndexer.SaveArtworkEffect | src/utils/media-indexer.ts:62-96 | at most the track's own cache file is written, and only with the payload; an image exists only for a truthy payload when the directory can be made, and it is the payload or the cache file |
| MediaIndexer.SaveArtworkNothing | src/utils/media-indexer.ts:66-95 | no payload, or a failure to make the cache directory, gives no image and writes nothing |
| MediaIndexer.SaveArtworkCached | src/utils/media-indexer.ts:73-75 | an existing cache file is returned whatever the payload, and nothing is written |
| MediaIndexer.SaveArtworkPath | src/utils/media-indexer.ts:77-79 | a `file://` or `/` payload is returned unchanged when nothing is cached |
| MediaIndexer.SaveArtworkDataUri | src/utils/media-indexer.ts:81-91 | a `data:` payload has the part after its comma written to the cache file, whose uri is returned |
| MediaIndexer.SaveArtworkEmptyPayload | src/utils/media-indexer.ts:82-91 | a `data:` uri without a comma writes nothing but still returns the cache file's uri |
| MediaIndexer.SaveArtworkTwice | src/utils/media-indexer.ts:73-75 | a second save for the same track finds the first save's file and changes nothing |
| MediaIndexer.StripExtensionShape | src/utils/media-indexer.ts:126 | the result is a prefix of the file name; what is stripped is a final `.` and at least one character with no `.` or `/` |
| MediaIndexer.TitleOf | src/utils/media-indexer.ts:126 | a title is never empty: the tag, else the name without extension, else `Untitled` |
| MediaIndexer.ProcessTrack | src/utils/media-indexer.ts:98-142 | a record always carries the asset's id, and no record means no artwork file was written; the unchanged-record return comes before anything that can fail |
| MediaIndexer.ProcessTrackSkipsUnchanged | src/utils/media-indexer.ts:104-112 | a stored record with the same fingerprint, when not forced, is returned as it is and nothing is read or written, whether or not the asset could be read |
| MediaIndexer.ProcessTrackRebuilds | src/utils/media-indexer.ts:113-137 | a new, changed or forced asset gets a record with its id, uri, duration, fresh fingerprint and scan time, not deleted, with the title fallbacks, artist and album only when truthy, and the saved artwork |
| MediaIndexer.ProcessTrackWithoutMetadata | src/utils/media-indexer.ts:114-126 | a failed metadata read still gives a record, titled from the file name, with no artist, album or image |
| MediaIndexer.ProcessTrackUnreadable | src/utils/media-indexer.ts:110-141 | an asset that has to be rebuilt (no record, forced, or a changed fingerprint) and whose record cannot be built yields `null` and writes nothing |
| MediaIndexer.IndexOfIdFirst | src/utils/media-indexer.ts:165 | `findIndex` finds the first entry with the id, and -1 exactly when none has it |
| MediaIndexer.LookupFinds | src/utils/media-indexer.ts:157 | the map lookup finds an entry of the list with that id, and nothing exactly when no entry has it (also lines 246-247) |
| MediaIndexer.UpsertProperties | src/utils/media-indexer.ts:164-172 | the record is in the result; an existing id is replaced in place with the length unchanged, otherwise the record is appended; other entries keep their place |
| MediaIndexer.UpsertUnique | src/utils/media-indexer.ts:164-172 | upserting keeps ids unique |
| MediaIndexer.UpsertMembers | src/utils/media-indexer.ts:164-172 | upserting brings in nothing but the record |
| MediaIndexer.UpsertIds | src/utils/media-indexer.ts:164-172 | the ids after an upsert are the old ids plus the record's |
| MediaIndexer.LookupUpsert | src/utils/media-indexer.ts:162-172 | after an upsert the record's id finds the record and every other id finds what it found before |
| MediaIndexer.UpsertAllUnique | src/utils/media-indexer.ts:160-172 | upserting a run of records keeps ids unique |
| MediaIndexer.UpsertAllIds | src/utils/media-indexer.ts:160-172 | after a run of upserts the ids are the old ones and the records' |
| MediaIndexer.UpsertAllKeeps | src/utils/media-indexer.ts:160-172 | upserts never remove an entry, and entries whose id no record carries keep their place and value |
| MediaIndexer.UpsertAllMembers | src/utils/media-indexer.ts:160-172 | upserts bring in nothing but the records |
| MediaIndexer.LookupUpsertAll | src/utils/media-indexer.ts:160-172 | after a run of upserts an id finds the last record with it, or what it found before |
| MediaIndexer.WithoutMembers | src/utils/media-indexer.ts:261-266 | the filter keeps an entry exactly when its id is not among the removed ids |
| MediaIndexer.WithoutWithout | src/utils/media-indexer.ts:261-266 | filtering id by id is filtering by all the ids at once |
| MediaIndexer.WithoutUnique | src/utils/media-indexer.ts:261-266 | filtering keeps ids unique |
| MediaIndexer.NotDeletedMembers | src/utils/media-indexer.ts:217 | `filter(t => !t.isDeleted)` keeps exactly the rows not marked deleted (also line 303) |
| MediaIndexer.NotDeletedUnique | src/utils/media-indexer.ts:217 | that filter keeps ids unique (also line 303) |
| MediaIndexer.MarkDeleted | src/utils/media-indexer.ts:263 | `markTrackDeleted` keeps every row in place with all but its deletion flag; a row is deleted afterwards exactly when it was before or has that id |
| MediaIndexer.ProcessFirstUpserts | src/utils/media-indexer.ts:152-172 | after processing assets in order, `$tracks` and the table are the start values with exactly the run's records upserted in order (also lines 250-254) |
| MediaIndexer.ProcessFirstUnique | src/utils/media-indexer.ts:160-172 | a run keeps the table keyed by id (also lines 250-254) |
| MediaIndexer.IndexingFaithful | src/utils/media-indexer.ts:98-142 | every readable asset gets a record, always with its own id (also lines 157-158) |
| MediaIndexer.ProcessFirstLast | src/utils/media-indexer.ts:152-173 | one more asset adds at most its own record, and adds it when the asset is readable |
| MediaIndexer.ProcessFirstIdsWithin | src/utils/media-indexer.ts:152-173 | a run adds records only for its own assets, at most one per asset |
| MediaIndexer.ProcessFirstCovers | src/utils/media-indexer.ts:152-173 | every readable asset processed has a record (also lines 250-254) |
| MediaIndexer.IndexingLive | src/utils/media-indexer.ts:110-134 | against stored rows that are not deleted, no record produced is deleted |
| MediaIndexer.ProcessFirstLive | src/utils/media-indexer.ts:152-173 | a run produces no deleted record |
| MediaIndexer.ScanGoesOn | src/utils/media-indexer.ts:227-237 | while every page fetched announced another one, the paging loop goes on |
| MediaIndexer.ScanEndsAt | src/utils/media-indexer.ts:227-237 | the first page without a next one ends the paging loop |
| MediaIndexer.ApplyOverlay | src/utils/media-indexer.ts:40-42 | two updates in turn are one update with the later fields winning; an empty update changes nothing; an update is idempotent |
| MediaIndexer.VisitInTwoUpdates | src/utils/media-indexer.ts:155-180 | the current-file update and the counts update together count the asset once, recompute the progress and name the file (`Unknown` without a name) |
| MediaIndexer.AfterVisits | src/utils/media-indexer.ts:152-181 | visiting `k` assets adds exactly `k` to `processedFiles`, whether or not they gave records, and changes neither the total, the phase nor `isIndexing` |
| MediaIndexer.AfterVisitsStep | src/utils/media-indexer.ts:175-180 | each visit adds one to `processedFiles` and recomputes the progress from it |
| MediaIndexer.MarkAbsent | src/utils/media-indexer.ts:260-267 | every row keeps its place with all but its deletion flag; a row is deleted afterwards exactly when it was before or its id was not enumerated |
| MediaIndexer.MarkAbsentStep | src/utils/media-indexer.ts:261-267 | checking one more stored id marks it deleted exactly when it was not enumerated, touching no other row |
| MediaIndexer.MarkAbsentDone | src/utils/media-indexer.ts:260-267 | the cleanup loop over all stored ids marks exactly the ids not enumerated and keeps ids unique |
| MediaIndexer.ReconciledRows | src/utils/media-indexer.ts:260-269 | after the cleanup a row is kept exactly when it was stored, was not deleted, and its id was enumerated |
| MediaIndexer.ReconciledKeyed | src/utils/media-indexer.ts:260-269 | the cleanup keeps the table keyed by id and leaves only live rows of enumerated ids |
| MediaIndexer.ReconciledCovers | src/utils/media-indexer.ts:260-269 | an enumerated id with a live row keeps its row |
| MediaIndexer.RunTable | src/utils/media-indexer.ts:246-254 | after processing every asset, the table is keyed by id, has no deleted row, and holds a row for every readable asset |
| MediaIndexer.CompletedRun | src/utils/media-indexer.ts:246-269 | after processing and cleanup, the table is keyed by id, holds only live rows of enumerated assets, and a row for every readable one |
| MediaIndexer.RunEnds | src/utils/media-indexer.ts:186-290 | a call during a run changes nothing; any other call ends with `isIndexing` false, in `complete` exactly when it had the permission, the scan neither failed nor was stopped and no stop came while processing, and `idle` otherwise |
| MediaIndexer.RunEndsBeforeProcessing | src/utils/media-indexer.ts:211-214 | a run denied the permission, failing in the scan or stopped in it leaves the table and the artwork files as they were (also lines 239, 281-286) |
| MediaIndexer.StoppedRunKeepsProgress | src/utils/media-indexer.ts:250-256 | a run stopped while processing keeps the table keyed, with a row for every readable asset it processed before the stop |
| MediaIndexer.CompletedRunTable | src/utils/media-indexer.ts:241-275 | a completed run counts every asset, ends at progress 100, and leaves a keyed table of live rows of enumerated assets with a row for every readable one |
| MediaIndexer.IndexingStamped | src/utils/media-indexer.ts:104-135 | a record processTrack yields, kept at line 110 or rebuilt, carries the asset's id and its current fingerprint |
| MediaIndexer.ProcessFirstStamped | src/utils/media-indexer.ts:144-172 | with distinct asset ids, every record of a run carries the fingerprint of the asset with its id |
| MediaIndexer.LookupUnique | src/utils/media-indexer.ts:246-249 | in a table keyed by id, the Map built from its rows finds each row under its own id |
| MediaIndexer.UpsertPresent | src/utils/media-indexer.ts:162-172 | upserting a row the keyed list already holds leaves the list as it was |
| MediaIndexer.UpsertAllPresent | src/utils/media-indexer.ts:144-172 | upserting only rows the keyed list already holds leaves the list as it was |
| MediaIndexer.NotDeletedLive | src/utils/media-indexer.ts:217 | filtering out deleted rows keeps a list with no deleted row as it is |
| MediaIndexer.ReconciledLive | src/utils/media-indexer.ts:258-269 | the cleanup leaves a live table whose ids were all enumerated as it was |
| MediaIndexer.WithoutIsReconciled | src/utils/media-indexer.ts:258-269 | on live rows, the $tracks filter of line 265 drops exactly the rows the table cleanup drops |
| MediaIndexer.SettledRunKeeps | src/utils/media-indexer.ts:144-172 | over a settled table a non-forced run writes no artwork, leaves the table as it was and upserts only stored rows, whether or not each asset can be read |
| MediaIndexer.SettledSkips | src/utils/media-indexer.ts:104-141 | over a settled table every asset with a current stored row, readable or not, takes line 110's early return and nothing is written; every readable asset has one, and any other asset yields `null` |
| MediaIndexer.CompletedRunSettled | src/utils/media-indexer.ts:241-275 | a completed run over assets with distinct ids leaves a settled table: keyed, live, of enumerated assets, with each readable asset's current fingerprint |
| MediaIndexer.SettledRerun | src/utils/media-indexer.ts:186-290 | a non-forced run over a settled table leaves the table and the artwork files as they were, and $tracks holds the stored rows |
| MediaIndexer.ReindexUnchanged | src/utils/media-indexer.ts:186-290 | idempotent re-indexing: after a completed run, a second non-forced run on the unchanged device at any later time keeps every row (fingerprint and scan time included), the artwork files and the reported state, re-reads no asset (each asset with a current row gets it back, readable or not, and every readable one has one), and leaves $tracks holding the stored rows; after a non-forced first run from stored rows it changes nothing at all |
| MediaIndexer.FirstRunTracks | src/utils/media-indexer.ts:216-269 | a non-forced completed run from a non-empty live table leaves $tracks equal to the table |
| MediaIndexer.Indexer.constructor | src/utils/media-indexer.ts:27-38 | the initial state: not indexing, idle, nothing counted, no run in progress |
| MediaIndexer.Indexer.UpdateIndexerState | src/utils/media-indexer.ts:40-42 | the state becomes the old state with the update's fields overriding |
| MediaIndexer.Indexer.StopIndexing | src/utils/media-indexer.ts:292-300 | with a run in progress, the abort is requested and the state is not indexing and idle; otherwise nothing changes |
| MediaIndexer.Indexer.Checkpoint | src/utils/media-indexer.ts:153 | the abort is seen exactly at the checkpoint where the stop request lands, and it leaves the state idle (also lines 227, 239, 250, 256) |
| MediaIndexer.Indexer.LoadTracksFromCache | src/utils/media-indexer.ts:302-305 | `$tracks` becomes exactly the stored rows not marked deleted, ids unique |
| MediaIndexer.Indexer.IndexAsset | src/utils/media-indexer.ts:155-180 | the produced record is upserted into `$tracks` and the table, the artwork files are those processing left, and the state counts one visit |
| MediaIndexer.Indexer.VisitNext | src/utils/media-indexer.ts:152-181 | one loop step of `processBatch` moves the holdings and the state from `k` processed assets to `k + 1` |
| MediaIndexer.Indexer.ProcessBatch | src/utils/media-indexer.ts:144-184 | a batch processes assets until its end or the stop, whichever comes first; the results are the records produced, the holdings are those of the assets processed, and a stop leaves the state idle |
| MediaIndexer.Indexer.Enumerate | src/utils/media-indexer.ts:223-239 | the paging loop fails exactly when every page announces a next one, is stopped exactly when the stop lands during the scan, and otherwise collects the assets of the pages up to the last |
| MediaIndexer.Indexer.RunBatches | src/utils/media-indexer.ts:250-254 | the batch loop processes the assets in order until the end or the stop, and leaves exactly the holdings and counts of the assets processed |
| MediaIndexer.Indexer.Reconcile | src/utils/media-indexer.ts:258-269 | the table is the reconciled table and `$tracks` loses exactly the stored ids that were not enumerated |
| MediaIndexer.Indexer.IndexScanned | src/utils/media-indexer.ts:241-275 | what follows the scan: totals set, batches run, and cleanup and completion unless stopped |
| MediaIndexer.Indexer.ScanAndIndex | src/utils/media-indexer.ts:216-275 | seeding `$tracks` from the cache unless forced, then the scan, then processing; a failed or stopped scan ends idle |
| MediaIndexer.Indexer.StartIndexing | src/utils/media-indexer.ts:186-290 | the whole call: the new holdings are those `IndexingRun` gives, and no run is left in progress; ReindexUnchanged proves of `IndexingRun` that a second non-forced call on an unchanged device keeps the table, the artwork and the state |
| Database.StoredTrackReadsBack | src/utils/database.ts:68-99 | a stored track reads back as itself (lyrics through JSON and back), with a missing or zero scan time filled with the current time |
| Database.InsertAllKeys | src/utils/database.ts:76-102 | after inserting, the table's ids are the old ids and the inserted tracks' ids |
| Database.InsertAllLast | src/utils/database.ts:85-100 | each inserted id holds the row of its last occurrence in the list (insert-or-replace) |
| Database.InsertAllOthers | src/utils/database.ts:85-100 | rows whose id is not inserted are unchanged |
| Database.InsertAllKeyed | src/utils/database.ts:85-100 | inserting keeps every row under its own id, the primary key (also lines 7-8) |
| Database.HistoryIdRoundTrip | src/utils/database.ts:48 | a history id splits back at its last dash into the track id and the timestamp |
| Database.HistoryIdInjective | src/utils/database.ts:48 | different (track id, timestamp) pairs never share a history id |
| Database.OldestExists | src/utils/database.ts:51-56 | a non-empty history has an oldest row, so the trim always has a row to drop |
| Database.ListingEmpty | src/utils/database.ts:68-74 | reading the table gives no track exactly when the table is empty |
| Database.InitIdempotent | src/utils/database.ts:5-42 | the start-up always leaves the migrated columns, keeps the existing ones, and a second start-up changes nothing |
| Database.TrackDatabase.constructor | src/utils/database.ts:3 | a fresh database: no tracks, no history, no tables yet |
| Database.TrackDatabase.InitDatabase | src/utils/database.ts:5-42 | the columns become those the create-and-migrate steps give |
| Database.TrackDatabase.InsertTracksToDB | src/utils/database.ts:76-102 | the table becomes the tracks inserted one by one, each replacing the row with its id |
| Database.TrackDatabase.GetTracksFromDB | src/utils/database.ts:68-74 | the result lists every row once, each read back from the row stored under its id |
| Database.TrackDatabase.ClearTracksDB | src/utils/database.ts:104-106 | the table becomes empty |
| Database.TrackDatabase.ClearTrackById | src/utils/database.ts:108-110 | exactly the row with that id is removed |
| Database.TrackDatabase.AddToHistory | src/utils/database.ts:44-57 | the history is the old one with the new row, trimmed to the 50 newest: rows kept unchanged, the count capped at 50, and every dropped row no newer than any kept row |
| TrackDurationFilter.ParseModeName | src/modules/indexer/track-duration-filter.ts:43-49 | every mode's stored name is read back as that mode |
| TrackDurationFilter.ClampCustomSecondsSpec | src/modules/indexer/track-duration-filter.ts:32-38 | non-finite input gives 180; otherwise the rounded value clamped to [0, 1200]; a clamped value clamps to itself |
| TrackDurationFilter.SanitizeIdempotent | src/modules/indexer/track-duration-filter.ts:40-58 | the result is a whole custom minimum in [0, 1200], and sanitising it again after a JSON round trip changes nothing |
| TrackDurationFilter.SanitizedRoundTrip | src/modules/indexer/track-duration-filter.ts:40-58 | a sanitised config written to JSON and read back is unchanged (also lines 68-70, 90-92) |
| TrackDurationFilter.OverlayKeeps | src/modules/indexer/track-duration-filter.ts:113-114 | an update changes only the fields it names: a missing mode or custom value keeps the current one |
| TrackDurationFilter.MinimumSecondsRange | src/modules/indexer/track-duration-filter.ts:121-141 | the minimum is at most 1200 and is 0 exactly for `off` or a custom value clamped to 0 |
| TrackDurationFilter.AllowedMonotone | src/modules/indexer/track-duration-filter.ts:143-157 | with no minimum every asset passes; otherwise exactly finite durations of at least the minimum; longer durations and lower minimums never exclude more |
| TrackDurationFilter.CustomLabelRoundTrip | src/modules/indexer/track-duration-filter.ts:174-182 | a custom label starts with `Custom ` and its `Ns`, `Mm` or `Mm Ss` part reads back as the seconds |
| TrackDurationFilter.CustomLabelsDiffer | src/modules/indexer/track-duration-filter.ts:159-185 | two custom configs with the same label have the same minimum |
| TrackDurationFilter.LoadedSanitized | src/modules/indexer/track-duration-filter.ts:82-101 | what loading yields is always sanitised, and a missing or unreadable file gives the default |
| TrackDurationFilter.FilterStore.constructor | src/modules/indexer/track-duration-filter.ts:25-30 | the atom holds the default and nothing is loaded yet |
| TrackDurationFilter.FilterStore.EnsureLoaded | src/modules/indexer/track-duration-filter.ts:73-107 | once loaded, the current value is returned without reading; otherwise the loaded config is set and returned |
| TrackDurationFilter.FilterStore.SetConfig | src/modules/indexer/track-duration-filter.ts:109-119 | the new config is the sanitised overlay of the update on the loaded config, it is returned, and the file stores it so that loading reads it back |
| FolderFilters.BuildFolderEntries | src/app/settings/folder-filters.tsx:33-61 | the loop over the tracks, the map of entries and the final sort give exactly the grouped folders sorted by name, whose properties follow |
| FolderFilters.FolderEntriesMembers | src/app/settings/folder-filters.tsx:33-61 | each entry is a folder some track lives in, named by its path, counting exactly the tracks in it |
| FolderFilters.FolderEntriesCover | src/app/settings/folder-filters.tsx:38-56 | every non-empty folder path of a track has an entry |
| FolderFilters.FolderEntriesDistinct | src/app/settings/folder-filters.tsx:45-55 | no two entries share a path |
| FolderFilters.FolderEntriesTotal | src/app/settings/folder-filters.tsx:38-56 | the track counts sum to the number of tracks with a non-empty folder path |
| FolderFilters.FolderEntriesSorted | src/app/settings/folder-filters.tsx:58-60 | for a total collation, the entries are in name order |
| FolderFilters.EntriesOfMembers | src/app/settings/folder-filters.tsx:45-58 | each entry of the map's values is a track folder with its name and its track count |
| FolderFilters.FindEntry | src/app/settings/folder-filters.tsx:80 | `find` returns an entry of the list with that path, and nothing only when no entry has it |
| FolderFilters.RowMatchesTracks | src/app/settings/folder-filters.tsx:80-82 | a folder row shows the folder's own name and its number of tracks, 0 for a folder no track lives in |
| FolderFilters.WithoutCounts | src/app/settings/folder-filters.tsx:182-200 | filtering a path out keeps every other path as often as before |
| FolderFilters.WithoutNoDuplicates | src/app/settings/folder-filters.tsx:182-200 | filtering keeps a list without repeats |
| FolderFilters.InitialModeShowsFolders | src/app/settings/folder-filters.tsx:139-145 | the initial mode is the whitelist when it has folders, the blacklist exactly when only it has folders, and the list shown holds folders when there are any |
| FolderFilters.PickedSpec | src/app/settings/folder-filters.tsx:181-190 | after a pick the path is in the selected list exactly once, last, and not in the other; every other path is kept as often as before in each list |
| FolderFilters.PickedIdempotent | src/app/settings/folder-filters.tsx:181-190 | picking the same folder twice is picking it once |
| FolderFilters.PickedWellFormed | src/app/settings/folder-filters.tsx:181-190 | a pick keeps the lists without repeats and disjoint |
| FolderFilters.RemovedSpec | src/app/settings/folder-filters.tsx:197-203 | removing takes the path out of both lists and keeps every other path as often as before |
| FolderFilters.RemovedUndoesPicked | src/app/settings/folder-filters.tsx:181-203 | removing a folder just picked gives the same lists as removing it without the pick |
| FolderFilters.RemovedWellFormed | src/app/settings/folder-filters.tsx:197-203 | removing keeps the lists without repeats and disjoint |
| FolderFilters.UnifiedSpec | src/app/settings/folder-filters.tsx:220-227 | after unifying, the chosen list holds each folder of either list exactly once and the other list is empty |
| FolderFilters.UnifiedIdempotent | src/app/settings/folder-filters.tsx:220-227 | unifying twice in the same mode is unifying once |
| FolderFilters.UnifiedKeepsFolders | src/app/settings/folder-filters.tsx:220-227 | unifying neither loses nor adds a folder |
| FolderFilters.UnifiedWellFormed | src/app/settings/folder-filters.tsx:205-227 | the empty configuration and every unified configuration have lists without repeats that are disjoint (also line 119) |
| FolderFilters.FolderPathsMembers | src/app/settings/folder-filters.tsx:156-166 | the folder list shows every filtered folder exactly once |
| FolderFilters.FolderPathsEmpty | src/app/settings/folder-filters.tsx:156-167 | there are folders to show exactly when either list is non-empty |
| FolderFilters.FolderPathsSorted | src/app/settings/folder-filters.tsx:158-166 | for a total collation, the folder list is in folder-name order |
| FolderFilters.FolderFilterScreen.constructor | src/app/settings/folder-filters.tsx:126-131 | empty pending lists, whitelist mode, no pending change, not loaded, nothing committed |
| FolderFilters.FolderFilterScreen.ConfigLoaded | src/app/settings/folder-filters.tsx:136-147 | the loaded configuration becomes pending, with the initial mode, and the screen is loaded |
| FolderFilters.FolderFilterScreen.PickFolder | src/app/settings/folder-filters.tsx:169-195 | no choice or an empty normalised path changes nothing; otherwise the lists are the pick's and a change is pending |
| FolderFilters.FolderFilterScreen.RemoveFolder | src/app/settings/folder-filters.tsx:197-203 | the lists are the removal's and a change is pending |
| FolderFilters.FolderFilterScreen.ClearAllFolders | src/app/settings/folder-filters.tsx:205-208 | both lists are emptied and a change is pending |
| FolderFilters.FolderFilterScreen.SetUnifiedMode | src/app/settings/folder-filters.tsx:210-229 | the same mode changes nothing; with no filters only the mode changes; otherwise the lists are unified into the new mode and a change is pending |
| FolderFilters.FolderFilterScreen.ApplyFilter | src/app/settings/folder-filters.tsx:231-239 | with no pending change nothing is committed; otherwise the pending lists are committed once; afterwards no change is pending |
| TrackMetadata.FirstMatchWins | src/modules/tracks/track-metadata.utils.ts:7-34 | the codec table is tried in order: the label is that of the first matching rule, and there is none exactly when no rule matches |
| TrackMetadata.MatchedIsRuleLabel | src/modules/tracks/track-metadata.utils.ts:7-34 | a matched label is one of the table's labels |
| TrackMetadata.CodecLabelsUpper | src/modules/tracks/track-metadata.utils.ts:7-34 | every label of the table is non-empty and has no lower-case letter |
| TrackMetadata.NormalizeCodecLabelShape | src/modules/tracks/track-metadata.utils.ts:1-38 | an absent or empty codec gives `undefined`; any label given is non-empty with no lower-case letter |
| TrackMetadata.NormalizeCaseInsensitive | src/modules/tracks/track-metadata.utils.ts:6-37 | codecs that differ only in letter case get the same label |
| TrackMetadata.FallbackEmpty | src/modules/tracks/track-metadata.utils.ts:36-37 | the fallback is empty exactly when the first comma-separated part is blank |
| TrackMetadata.FallbackCaseInsensitive | src/modules/tracks/track-metadata.utils.ts:36-37 | the fallback label does not depend on letter case |
| TrackMetadata.FallbackSlice | src/modules/tracks/track-metadata.utils.ts:36-37 | the fallback is a slice of the codec upper-cased, without a comma and trimmed |
| TrackMetadata.NormalizeFallbackIdempotent | src/modules/tracks/track-metadata.utils.ts:36-37 | a label that came from the fallback normalises to itself |
| TrackMetadata.KnownMime | src/modules/tracks/track-metadata.utils.ts:46-63 | a MIME type the function names itself gives one of AAC, MP3, FLAC, OPUS, OGG, WAV or MP4 |
| TrackMetadata.ResolveAudioFormatShape | src/modules/tracks/track-metadata.utils.ts:40-77 | the format is never empty and is either `Unknown` or has no lower-case letter |
| TrackMetadata.MimeOrExtensionShape | src/modules/tracks/track-metadata.utils.ts:64-76 | the MIME subtype or extension label is never empty and is `Unknown` or has no lower-case letter |
| TrackMetadata.ResolveOgg | src/modules/tracks/track-metadata.utils.ts:55-57 | `audio/ogg` is `OPUS` exactly when the codec label contains `OPUS`, and `OGG` otherwise |
| TrackMetadata.NoMimeType | src/modules/tracks/track-metadata.utils.ts:45-76 | without a MIME type the format is the file extension's label |
| TrackMetadata.ResolveFromExtension | src/modules/tracks/track-metadata.utils.ts:71-74 | without a MIME type, a file `name.ext` is labelled with `ext` upper-cased |
| TrackMetadata.FormatQualityLabelShape | src/modules/tracks/track-metadata.utils.ts:79-101 | `Unknown` exactly when neither segment exists; otherwise the sample-rate segment, then the bitrate segment, joined by a space |
| TrackMetadata.SegmentsNotUnknown | src/modules/tracks/track-metadata.utils.ts:85-100 | no segment, and no pair of segments, reads `Unknown` |
| TrackMetadata.KbpsUnits | src/modules/tracks/track-metadata.utils.ts:92-98 | a bitrate of at least 10000 is read as bps and divided by 1000, a smaller one is read as kbps, and a value that rounds to 0 gives no segment |
| TrackMetadata.RateOfTenths | src/modules/tracks/track-metadata.utils.ts:85-89 | a sample rate in whole tenths of a kHz is shown as whole kHz, or with one decimal |
| PlayerSession.SanitizeTrackSpec | src/modules/player/player-session.ts:17-43 | only the duration and the unlisted properties change: a non-finite duration becomes 0, listed properties are copied, the rest dropped; sanitising again changes nothing |
| PlayerSession.SanitizeQueue | src/modules/player/player-session.ts:52-54 | the sanitised queue is never longer than the stored one |
| PlayerSession.SanitizeQueueThrows | src/modules/player/player-session.ts:52-54 | the map throws exactly when an entry of the queue is `null` |
| PlayerSession.SanitizeQueueAppend | src/modules/player/player-session.ts:52-54 | the queue is sanitised entry by entry, in order |
| PlayerSession.SanitizeQueueMembers | src/modules/player/player-session.ts:52-54 | a track is in the result exactly when it is a stored entry, sanitised, with a non-empty id, uri and title |
| PlayerSession.SanitizeQueueClean | src/modules/player/player-session.ts:52-54 | every track kept is playable and sanitised |
| PlayerSession.SanitizeSessionSpec | src/modules/player/player-session.ts:45-80 | `null` exactly when the queue is not an array; a throw exactly when an entry is `null`; otherwise a clean session with the position kept when finite and not negative and 0 otherwise, `off` unless `track` or `queue`, the current id `null` unless a non-empty string, and the truthiness of `wasPlaying` |
| PlayerSession.RepeatOfName | src/modules/player/player-session.ts:60-65 | each repeat mode's name is read back as that mode |
| PlayerSession.SanitizeCleanQueue | src/modules/player/player-session.ts:52-54 | a queue of clean tracks goes through unchanged |
| PlayerSession.EncodeRoundTrip | src/modules/player/player-session.ts:45-80 | a clean session written to JSON and sanitised again is unchanged (also line 97) |
| PlayerSession.SanitizeSessionIdempotent | src/modules/player/player-session.ts:45-80 | sanitising what the sanitiser returned gives it back |
| PlayerSession.SaveThenLoad | src/modules/player/player-session.ts:82-114 | a session the sanitiser refuses leaves the file untouched; otherwise loading after the save gives back the sanitised session |
| PlayerSession.LoadClean | src/modules/player/player-session.ts:102-114 | a missing or unusable file gives `null`, and anything loaded is a clean session |
| PlayerStore.RepeatModeRoundTrip | src/modules/player/player.store.ts:66-88 | mapping a repeat mode to the native value and back gives the mode; a native value other than track or queue comes back as off |
| PlayerStore.RepeatCycle | src/modules/player/player.store.ts:413-418 | toggling always changes the mode, three toggles come back to the start, and the cycle visits all three modes |
| PlayerStore.FromNativeSpec | src/modules/player/player.store.ts:38-52 | a mapped track takes id, uri, artist, album and artwork from the native track, falls back to `Unknown Track` and 0, and keeps the rest of the library track with that id, or has nothing more when there is none |
| PlayerStore.NativeRoundTrip | src/modules/player/player.store.ts:38-64 | a library track handed to the native player and mapped back is the same track |
| PlayerStore.FirstWithId | src/modules/player/player.store.ts:40 | the lookup by id finds the first track with that id |
| PlayerStore.MappedQueueSpec | src/modules/player/player.store.ts:108-110 | the mapped queue is no longer than the native one and every track in it has an id and a uri |
| PlayerStore.MappedQueueAppend | src/modules/player/player.store.ts:140-142 | the queue is mapped and filtered entry by entry, in order |
| PlayerStore.StartIndex | src/modules/player/player.store.ts:306-307 | the start index lies within the list |
| PlayerStore.RotationSpec | src/modules/player/player.store.ts:309-311 | the queue has the list's length and elements, and entry `i` is the list's entry `i + k`, wrapping round |
| PlayerStore.StartIndexSpec | src/modules/player/player.store.ts:305-311 | the queue starts with the selected track when the list has it, and is the list itself otherwise |
| PlayerStore.PersistedSessionLoads | src/modules/player/player.store.ts:107-127 | a saved session loads back with the mapped queue, a current id exactly when one was chosen and non-empty, the position when valid, the repeat mode, the playing flag and the save time |
| PlayerStore.TargetIndex | src/modules/player/player.store.ts:180-184 | the restored index lies within the saved queue |
| PlayerStore.RestoreTarget | src/modules/player/player.store.ts:180-185 | the restored index holds the saved current track when the queue has it and is 0 otherwise; the restored position is never negative and is the saved one for a clean session |
| PlayerStore.FavoriteToggledSpec | src/modules/player/player.store.ts:420-436 | an unknown id changes nothing; otherwise only the first track with that id has its flag flipped, every other entry stays, and the current track follows when it has that id |
| PlayerStore.FavoriteToggledTwice | src/modules/player/player.store.ts:420-436 | toggling the same favourite twice restores the library and the current track |
| PlayerStore.NativePlayer.constructor | src/modules/player/player.store.ts:9-15 | the native player starts with an empty queue, repeat off and paused |
| PlayerStore.NativePlayer.Reset | src/modules/player/player.store.ts:177 | reset empties the native queue and stops playback |
| PlayerStore.NativePlayer.Add | src/modules/player/player.store.ts:178 | adding appends the tracks to the native queue |
| PlayerStore.NativePlayer.Skip | src/modules/player/player.store.ts:187 | skipping sets the native index and position |
| PlayerStore.NativePlayer.SetRepeatMode | src/modules/player/player.store.ts:188 | sets the native repeat mode |
| PlayerStore.NativePlayer.SetPlaying | src/modules/player/player.store.ts:197-203 | play and pause set the native playing flag |
| PlayerStore.Player.constructor | src/modules/player/player.store.ts:25-36 | the store starts empty, paused, at 0, repeat off, not ready and never saved |
| PlayerStore.Player.SetupPlayer | src/modules/player/player.store.ts:209-244 | the store is ready afterwards exactly when it was ready before, or the native setup succeeded, or it failed saying the player was already initialised; any other error leaves it not ready, so the guarded operations then do nothing |
| PlayerStore.Player.PersistPlaybackSession | src/modules/player/player.store.ts:95-129 | nothing is saved before the player is ready or, unless forced, within 2000 ms of the last save; otherwise the session is written and the last-save time moves to now only when the save did not throw |
| PlayerStore.Player.PlayTrack | src/modules/player/player.store.ts:297-325 | before the player is ready nothing changes; otherwise the queue is the rotation of the list starting at the track, the native player holds and plays it, the current track, position and duration are set and the session is saved with a forced save, whose time becomes the last-saved time unless writing threw |
| PlayerStore.Player.StartPlayback | src/modules/player/player.store.ts:313-322 | the queue goes to the queue store and the native player, which plays, with the track current at position 0 |
| PlayerStore.Player.SetRepeatMode | src/modules/player/player.store.ts:405-411 | the store and the native player take the mode, and the session is saved once the player is ready, and the last-saved time becomes now unless writing threw |
| PlayerStore.Player.ToggleRepeatMode | src/modules/player/player.store.ts:413-418 | the mode moves to the next in the cycle, which differs from the old one, and the native player reports the same mode; once the player is ready the session is saved and the last-saved time becomes now unless writing threw |
| PlayerStore.Player.ToggleFavorite | src/modules/player/player.store.ts:420-436 | the library and current track become what the favourite toggle specifies |
| PlayerStore.Player.RestorePlaybackSession | src/modules/player/player.store.ts:131-207 | before the player is ready nothing changes; a non-empty native queue is taken over without touching the native player; otherwise the saved session is restored |
| PlayerStore.Player.RestoreFromNative | src/modules/player/player.store.ts:139-170 | the store takes over the native queue and then saves the session |
| PlayerStore.Player.TakeOverNativeQueue | src/modules/player/player.store.ts:140-167 | the mapped native queue replaces the queue store when non-empty; the current track is the entry at the reported index when in range, else the first; position, duration, playing flag and repeat mode follow the native player |
| PlayerStore.Player.RestoreFromSession | src/modules/player/player.store.ts:172-205 | a missing or empty saved session changes nothing; otherwise it is applied and the session saved |
| PlayerStore.Player.ApplySnapshot | src/modules/player/player.store.ts:177-203 | the native player holds the saved queue at the target index and position, repeat mode and playing flag; the store's queue, current track, position, duration, repeat mode and playing flag match |
| LegacyPlayerStore.IndexOfId | src/store/player-store.ts:191 | the index of the first track with that id, or -1 exactly when no track has it |
| LegacyPlayerStore.IndexOfOwnId | src/store/player-store.ts:191 | in a list with distinct ids, each track is found at its own index |
| LegacyPlayerStore.NextIndex | src/store/player-store.ts:244-245 | the next index is the one after the current, wrapping to 0 past the end, and always within the list |
| LegacyPlayerStore.PreviousIndexAsWritten | src/store/player-store.ts:254-255 | the index as written is never negative, and lies within the list exactly when the current index is at most the list's length |
| LegacyPlayerStore.PreviousIndexAsWrittenStale | src/store/player-store.ts:254-257 | with a stale current index 4 in a list of two tracks the index as written is 3, outside the list |
| LegacyPlayerStore.PreviousIndex | src/store/player-store.ts:254-255 | the corrected index of the second Findings row: the one before the current when that lies in the list, and the last index otherwise |
| LegacyPlayerStore.PreviousIndexAgrees | src/store/player-store.ts:254-255 | whenever the current index is within the list or just past it, the corrected index is the one the source computes |
| LegacyPlayerStore.NextPreviousInverse | src/store/player-store.ts:240-258 | next then previous, and previous then next, come back to the same track |
| LegacyPlayerStore.NextIndexCycle | src/store/player-store.ts:240-248 | repeated next steps advance round the list, so `n` steps return to the start |
| LegacyPlayerStore.Advance | src/store/player-store.ts:240-248 | any number of next steps stays within the list |
| LegacyPlayerStore.TitleOf | src/store/player-store.ts:132 | the title is never empty: the tag's name when present, else the file name without its extension, else `Untitled Song` |
| LegacyPlayerStore.LoadedTrack | src/store/player-store.ts:110-149 | a track not modified since its scan and not forced is reused as is; otherwise it is rebuilt from the asset with the scan time now, non-empty title, artist and album, the tag artwork and the existing lyrics or the default line |
| LegacyPlayerStore.LoadedTrackWithoutTags | src/store/player-store.ts:122-148 | with no tags and no usable file name the track is `Untitled Song` by `Unknown Artist` on `Unknown Album`, with no artwork and the default lyrics |
| LegacyPlayerStore.ById | src/store/player-store.ts:108 | the map holds every track under its own id |
| LegacyPlayerStore.Existing | src/store/player-store.ts:111 | the existing track is found exactly when the map has the asset's id |
| LegacyPlayerStore.LoadedTracks | src/store/player-store.ts:110-155 | one track per asset, in order, each loaded as a single asset is |
| LegacyPlayerStore.LoadedTracksFresh | src/store/player-store.ts:83-155 | with nothing cached every asset is rebuilt, with the scan time now and the default lyrics |
| LegacyPlayerStore.LegacyPlayer.constructor | src/store/player-store.ts:26-33 | the store starts empty, paused, at 0, with no player and the current index -1 |
| LegacyPlayerStore.LegacyPlayer.PlayTrack | src/store/player-store.ts:182-213 | the player loads and plays the track's uri, the track becomes current, the index is its position in the list or -1, and the history records it |
| LegacyPlayerStore.LegacyPlayer.PlayNext | src/store/player-store.ts:240-248 | an empty list changes nothing; otherwise the track at the next index plays, the player holds its uri, the play is recorded in the history, and with distinct ids the index advances |
| LegacyPlayerStore.LegacyPlayer.PlayPrevious | src/store/player-store.ts:250-258 | an empty list changes nothing; otherwise the track at the corrected previous index of the second Findings row plays, the player holds its uri, the play is recorded in the history, and with distinct ids the index moves back |
| LegacyPlayerStore.LegacyPlayer.PauseTrack | src/store/player-store.ts:215-221 | with a player, playback stops; without one nothing changes |
| LegacyPlayerStore.LegacyPlayer.ResumeTrack | src/store/player-store.ts:223-229 | with a player, playback resumes; without one nothing changes |
| LegacyPlayerStore.LegacyPlayer.TogglePlayback | src/store/player-store.ts:231-238 | with a player, the playing flag flips; without one nothing changes |
| LegacyPlayerStore.LegacyPlayer.PlaybackStatusUpdate | src/store/player-store.ts:165-179 | time and duration follow the status; a finished track moves on to the next one (the player holds its uri, the play is recorded, and with distinct ids the index advances); otherwise both the store's playing flag and the player's own flag, which togglePlayback reads, follow the status, and the current track, index, player source and history stay |
| LegacyPlayerStore.LegacyPlayer.LoadTracks | src/store/player-store.ts:83-160 | a non-forced load with a non-empty cache lists the cache and scans nothing; without permission or assets nothing is loaded; otherwise the loaded tracks replace the list and the table and the progress is hidden |
| LegacyPlayerStore.LegacyPlayer.ScanLibrary | src/store/player-store.ts:94-159 | the scan loads every asset, stores the tracks in the table and in the list, and hides the progress |
| LegacyPlayerStore.LegacyPlayer.LoadEach | src/store/player-store.ts:105-155 | the loop yields the tracks the loaded-tracks function specifies and keeps the progress state valid |
| PlaylistForm.Filter | src/modules/playlist/hooks/use-playlist-form.ts:217-220 | keeps exactly the entries that pass the test, and no more entries than the input has |
| PlaylistForm.FilterNoDuplicates | src/modules/playlist/hooks/use-playlist-form.ts:217-220 | filtering a list without repeats gives a list without repeats |
| PlaylistForm.Take | src/modules/playlist/hooks/use-playlist-form.ts:308-318 | a prefix of the list of at most `n` entries, and the whole list when it is no longer than `n` |
| PlaylistForm.MovedSpec | src/modules/playlist/hooks/use-playlist-form.ts:38-45 | moving keeps the length and the entries, puts the moved id at the target, and leaves the others in their order |
| PlaylistForm.MovedBack | src/modules/playlist/hooks/use-playlist-form.ts:38-45 | moving an id back to where it came from restores the list |
| PlaylistForm.ReorderIds | src/modules/playlist/hooks/use-playlist-form.ts:27-46 | an index out of range or equal indices leave the list alone, as does an empty moved id; otherwise the id is moved |
| PlaylistForm.ToggleSelected | src/modules/playlist/hooks/use-playlist-form.ts:182-189 | the id is selected afterwards exactly when it was not before, and every other id keeps its count |
| PlaylistForm.WithoutAbsent | src/modules/playlist/hooks/use-playlist-form.ts:185 | removing an id the list does not hold leaves the list alone |
| PlaylistForm.ToggleSelectedTwice | src/modules/playlist/hooks/use-playlist-form.ts:182-189 | selecting and then deselecting an id restores the selection |
| PlaylistForm.WithoutAppend | src/modules/playlist/hooks/use-playlist-form.ts:185-187 | removing an id just appended gives the list before it |
| PlaylistForm.ApplySelectionSpec | src/modules/playlist/hooks/use-playlist-form.ts:213-223 | the applied selection holds exactly the drafted ids that were selected or are in the library, and repeats none when neither input does |
| PlaylistForm.UnseenSpec | src/modules/playlist/hooks/use-playlist-form.ts:289-295 | the appended tracks come from the secondary list, have ids not seen before and no two alike, and every id of the secondary list ends up seen |
| PlaylistForm.MergeUniqueSpec | src/modules/playlist/hooks/use-playlist-form.ts:286-297 | the merge starts with the primary list unchanged, appends only secondary tracks whose id the primary lacks, and covers every secondary id |
| PlaylistForm.MergeUniqueById | src/modules/playlist/hooks/use-playlist-form.ts:286-297 | the loop builds the merge that function specifies |
| PlaylistForm.TrackIds | src/modules/playlist/hooks/use-playlist-form.ts:273-274 | the ids of the tracks, in order |
| PlaylistForm.TracksById | src/modules/playlist/hooks/use-playlist-form.ts:268 | the map holds only tracks of the list, each under its own id |
| PlaylistForm.LookUpAll | src/modules/playlist/hooks/use-playlist-form.ts:278-280 | the looked-up tracks are the map's tracks for ids of the list, no more of them than ids |
| PlaylistForm.Suggested | src/modules/playlist/hooks/use-playlist-form.ts:300-314 | at most 20 suggestions, all from the sorted library |
| PlaylistForm.SortedMembers | src/modules/playlist/hooks/use-playlist-form.ts:257-267 | sorting keeps exactly the library's tracks |
| PlaylistForm.SelectedTopSpec | src/modules/playlist/hooks/use-playlist-form.ts:268-280 | the selected tracks shown first are library tracks whose ids are drafted |
| PlaylistForm.BrowseShape | src/modules/playlist/hooks/use-playlist-form.ts:281-320 | without a query the list starts with the selected tracks and holds at most `max(20, #selected)` |
| PlaylistForm.BrowseMembers | src/modules/playlist/hooks/use-playlist-form.ts:299-320 | without a query every listed track is a library track |
| PlaylistForm.FilteredTracksBrowse | src/modules/playlist/hooks/use-playlist-form.ts:255-320 | for a blank query the visible list begins with the drafted selection, holds at most `max(20, #selected)` entries, all from the library |
| PlaylistForm.FilteredTracksSearch | src/modules/playlist/hooks/use-playlist-form.ts:322-333 | for a query at most 20 library tracks, each with the lower-cased query in its title, artist or album (also line 255) |
| PlaylistForm.SavePayloadSpec | src/modules/playlist/hooks/use-playlist-form.ts:233-248 | a payload exactly when saving is allowed; it carries the name and selection, an id exactly in edit mode and never empty, and no description exactly when the description is blank (also lines 52-53, 365-368) |
| LibraryQueries.NormalizeLookup | src/modules/library/library.queries.ts:23-25 | a missing value gives the empty string, and every result is trimmed and lower-case |
| LibraryQueries.NormalizeLookupIdempotent | src/modules/library/library.queries.ts:23-25 | normalising a normalised value changes nothing |
| LibraryQueries.NormalizeLookupIgnoresSpace | src/modules/library/library.queries.ts:23-25 | whitespace added before and after a name does not change its lookup key |
| LibraryQueries.NormalizeLookupIgnoresCase | src/modules/library/library.queries.ts:23-25 | names whose ASCII letters differ only in case have the same lookup key |
| LibraryQueries.ArtistSortKey | src/modules/library/library.queries.ts:167-168 | the artist's sort name when non-empty, else the artist's name, else the empty string |
| LibraryQueries.CompareAlbumsDescending | src/modules/library/library.queries.ts:165-181 | descending order compares every pair the opposite way to ascending |
| LibraryQueries.CompareAlbumsArtistFirst | src/modules/library/library.queries.ts:166-181 | albums compare by artist key first, in the chosen direction, and only on equal keys by title |
| LibraryQueries.CompareAlbumsAntisymmetric | src/modules/library/library.queries.ts:166-181 | with an antisymmetric collator, swapping two albums negates their comparison |
| LibraryQueries.OrderAlbums | src/modules/library/library.queries.ts:161-182 | the albums keep their entries, and any order but by artist keeps the query's order |
| LibraryQueries.OrderAlbumsSorted | src/modules/library/library.queries.ts:165-182 | ordered by artist, each album compares at most equal to the next |
| LibraryQueries.RelationTrackFilter | src/modules/library/library.queries.ts:435-445 | there is no filter exactly when no artist and no album matched |
| LibraryQueries.RelationTrackFilterSelects | src/modules/library/library.queries.ts:435-445 | the filter selects a track exactly when its artist or its album matched |
| LibraryQueries.MergedAsWrittenOverflows | src/modules/library/library.queries.ts:457-469 | twenty title matches and one new relation match give 21 results, one over the limit |
| LibraryQueries.AppendUnseenAgrees | src/modules/library/library.queries.ts:460-469 | below the limit the corrected merge step is the one written |
| LibraryQueries.MergedAgreesAsWritten | src/modules/library/library.queries.ts:457-469 | with fewer than twenty title matches the corrected merge returns what the code as written returns |
| LibraryQueries.AppendUnseenPrefix | src/modules/library/library.queries.ts:460-469 | the merge keeps what it has so far, in front, and stops growing at the limit |
| LibraryQueries.AppendUnseenFresh | src/modules/library/library.queries.ts:460-465 | every appended track is a relation match with an id not seen before, and no two appended tracks share an id |
| LibraryQueries.AppendUnseenComplete | src/modules/library/library.queries.ts:460-469 | a merge below the limit has seen every relation match's id |
| LibraryQueries.MergedSpec | src/modules/library/library.queries.ts:457-469 | the title matches come first unchanged; then only relation matches with new, distinct ids, up to twenty in all; a merge below twenty leaves out no relation match |
| LibraryQueries.MergeTrackResults | src/modules/library/library.queries.ts:457-469 | the loop builds the corrected merge of the first Findings row, capped at 20; the source's merge, which can return 21, is MergedAsWritten |
| LibraryQueries.TrackImage | src/modules/library/library.queries.ts:495-498 | a track's image, when it has one, is never empty |
| LibraryQueries.CollectImagesSpec | src/modules/library/library.queries.ts:494-505 | the collected images repeat none, stop at four, keep those collected before in front, and come from the playlist's tracks |
| LibraryQueries.CollectImagesComplete | src/modules/library/library.queries.ts:494-505 | fewer than four images means every track image was collected, and none collected before is lost |
| LibraryQueries.PreviewImagesSpec | src/modules/library/library.queries.ts:489-505 | the preview images repeat none, number at most four, start with the playlist's artwork when it has one, otherwise come from its tracks, and below four miss no track image |
| LibraryQueries.PlaylistImages | src/modules/library/library.queries.ts:489-505 | the loop builds the preview images that function specifies |
| LibraryQueries.ArtistImage | src/modules/library/library.queries.ts:479 | the artist's artwork when set, else the first album's artwork when set, else none |
| LibraryQueries.AlbumArtistName | src/modules/library/library.queries.ts:484 | an album's artist name is never empty: the artist's name or `Unknown Artist` |
| LibraryQueries.Search | src/modules/library/library.queries.ts:357-523 | a blank query or a failed query gives empty results; otherwise the merged tracks (the corrected merge of the first Findings row), every artist, album and playlist hit in query order, each playlist with its preview images |
| GenresApi.AlbumName | src/modules/genres/genres.api.ts:117 | the album name is never empty: the album's title when set, else `Unknown Album` |
| GenresApi.ArtistIdText | src/modules/genres/genres.api.ts:118 | the artist part of the key is empty exactly when the album has no artist id |
| GenresApi.YearOr | src/modules/genres/genres.api.ts:126 | the album's year when set and non-zero, else the track's, else none; never 0 |
| GenresApi.AlbumKey | src/modules/genres/genres.api.ts:116-118 | a track has an album key exactly when it has an album id and an album; the key is the pair of album name and artist id, the corrected key of the third Findings row; the string key the source builds is WrittenKey |
| GenresApi.WrittenKey | src/modules/genres/genres.api.ts:116-118 | the string key exists exactly when the album key does |
| GenresApi.WrittenKeyMergesAlbums | src/modules/genres/genres.api.ts:118 | album `A-B` by artist `C` and album `A` by artist `B-C` are different albums but share the string key, so they are counted as one album with two tracks |
| GenresApi.Albums | src/modules/genres/genres.api.ts:113-132 | one entry per distinct corrected album key (third Findings row), in order of first appearance |
| GenresApi.GetAlbumsByGenre | src/modules/genres/genres.api.ts:89-138 | no matching genre or a failed query gives no albums; otherwise the albums of the tracks, grouped by the corrected key of the third Findings row and sorted by count |
| GenresApi.CollectAlbums | src/modules/genres/genres.api.ts:113-132 | the loop's map, keyed by the corrected pair key of the third Findings row, holds, for each album, the entry built from its first track with its track count, and its order is the albums' first appearance |
| GenresApi.AlbumsByGenreSorted | src/modules/genres/genres.api.ts:134 | the albums come largest first |
| GenresApi.AlbumsByGenrePermutation | src/modules/genres/genres.api.ts:134 | sorting keeps exactly the entries of the map |
| GenresApi.AlbumsByGenreOnePerAlbum | src/modules/genres/genres.api.ts:113-134 | one entry per album, and each album's entry is built from its first track and counts all its tracks |
| GenresApi.AlbumsByGenreMembers | src/modules/genres/genres.api.ts:113-134 | every entry is some album's entry built from its first track, counting all its tracks |
| GenresApi.AlbumsCounts | src/modules/genres/genres.api.ts:120-130 | each entry's count is the number of tracks with that album's key |
| GenresApi.AlbumsTotal | src/modules/genres/genres.api.ts:115-131 | the counts add up to the number of tracks with an album |
| GenresApi.AlbumsByGenreTotal | src/modules/genres/genres.api.ts:115-134 | after sorting the counts still add up to the number of tracks with an album |
| PlaylistApi.TrackRows | src/modules/playlist/playlist.api.ts:31-39 | one row per track id, with its own row id, the playlist's id, the track id, its index as position and the time |
| PlaylistApi.CreatePlaylist | src/modules/playlist/playlist.api.ts:12-44 | a failed playlist insert writes nothing; otherwise the playlist row carries the name, description, the number of tracks and one time for both timestamps; track rows exist exactly for a non-empty list and no failure, each belongs to the playlist at its index; the description is always passed, so the default `""` is the caller's to supply |
| PlaylistApi.CreatePlaylistReadsBack | src/modules/playlist/playlist.api.ts:18-39 | read back by position, a created playlist lists exactly the given track ids, in order, even when an id repeats |
| Text.TrimIdempotent | src/modules/library/library.queries.ts:24 | trimming a trimmed string changes nothing |
| Text.TrimBlankPrefix | src/modules/library/library.queries.ts:24 | `trim` drops any run of whitespace in front of the text |
| Text.TrimBlankSuffix | src/modules/library/library.queries.ts:24 | `trim` drops any run of whitespace after the text |
| Text.ToLowerIdempotent | src/modules/library/library.queries.ts:24 | lower-casing a lower-cased string changes nothing |
| Text.Includes | src/modules/playlist/hooks/use-playlist-form.ts:328-330 | true exactly when the text occurs somewhere in the string |
| Text.LastIndexOf | src/utils/file-path.ts:36 | the last index of the character, or -1 exactly when the string lacks it |
| Text.DigitsOfNatToString | src/utils/database.ts:45-47 | the decimal digits of a number read back as that number |
| Text.NatToStringInjective | src/utils/database.ts:45-47 | different numbers have different decimal texts |
| Numbers.Round | src/modules/indexer/track-duration-filter.ts:37 | the rounded value lies within a half of the real value |
| Ordering.SortBySorted | src/modules/playlist/hooks/use-playlist-form.ts:257-267 | under a total order the sorted list is in order |
| Grouping.Distinct | src/app/settings/folder-filters.tsx:156-157 | each element once, with exactly the elements of the input |


## Left out

- MediaIndexer.FileHash: the corrected fingerprint drops the source's 64-character cap (see Findings), so it is not bounded in length.
- MediaIndexer.ProcessTrack: uses the corrected fingerprint `FileHash` of the fourth Findings row, not the as-written `FileHashAsWritten`, so a changed file with a long uri is re-read here, where the source skips it.
- LibraryQueries.MergeTrackResults: computes the corrected merge of the first Findings row, capped at 20 tracks. The source's merge, which can return 21, is modelled as written by `LibraryQueries.MergedAsWritten`, and `LibraryQueries.MergedAgreesAsWritten` proves the two agree whenever there are fewer than 20 title matches.
- LibraryQueries.Search: its merged track list is the corrected merge of the first Findings row, not the as-written `LibraryQueries.MergedAsWritten`.
- GenresApi.AlbumKey: the corrected key of the third Findings row, the (title, artist id) pair. The string key the source builds at `src/modules/genres/genres.api.ts:118` is `GenresApi.WrittenKey`.
- GenresApi.Albums: groups by the corrected pair key `GenresApi.AlbumKey`, not by the as-written `GenresApi.WrittenKey`, so two albums whose string keys collide stay apart here.
- GenresApi.CollectAlbums: the grouping loop keyed by the corrected `GenresApi.AlbumKey`, not by the as-written `GenresApi.WrittenKey`.
- GenresApi.GetAlbumsByGenre: its grouping uses the corrected `GenresApi.AlbumKey`, not the as-written `GenresApi.WrittenKey`.
- LegacyPlayerStore.PreviousIndex: the corrected index of the second Findings row, always within the list. The source's index, which a stale current index can put past the end, is `LegacyPlayerStore.PreviousIndexAsWritten`, and `LegacyPlayerStore.PreviousIndexAgrees` proves the two agree whenever the current index lies between -1 and the list's length.
- LegacyPlayerStore.LegacyPlayer.PlayPrevious: plays the track at the corrected `LegacyPlayerStore.PreviousIndex`, not at the as-written `LegacyPlayerStore.PreviousIndexAsWritten`, so a stale index plays the last track where the source reads past the end of the list.
- TrackMetadata.NormalizeFallbackIdempotent: idempotence of `normalizeCodecLabel` is proved only for labels that came from the comma-segment fallback. For the fixed labels of the rule table it would need a substring search of every label against every rule, which is too costly to prove.
- FolderFilters.FolderFilterScreen.ApplyFilter: assumes `commitFolderFilterConfig` and the re-index it starts never throw. If one did, the source would leave the pending flag set, which the model does not capture; the commit itself belongs to the indexer package, which is not part of this model.
- MergeText: numeric pieces are whole numbers. Fractional values such as `2.5` and the `NaN` and `Infinity` texts of `String` are not modelled.
- PlaylistApi.CreatePlaylist: `description` is a required argument. The source's default of `""` is not modelled; a caller leaving it out corresponds to passing `""`.
- Format.FormatDurationShape: durations are whole, non-negative numbers of seconds. Fractional and negative inputs, which JavaScript also accepts, are not modelled.
- Asset durations and modification times are whole numbers. The fractional seconds the device reports are not modelled.
- Floating point: progress percentages are exact reals, and the `toFixed(1)` of the kHz label is modelled on tenths of a kHz, so rounding error is not modelled.
- JSON: the session file, the duration-filter config file and the stored lyrics hold the structured value. Reading what was written gives it back, and malformed text is a separate "unparsable" case.
- Timers: the 3000 ms idle timeout after indexing, the scroll timeout of the UI store and the search debounces are not modelled. Only the scroll timer's callback is (`UiStore.UiState.ScrollSettled`).
- Concurrency: `Promise.all`, the shared `loadPromise` of the duration filter and the `AbortController` are not modelled. A stop request is a parameter checked at the points where the code checks it.
- The native audio player (`TrackPlayer`) keeps only its queue, index, position, repeat mode and playing flag. `pauseTrack`, `resumeTrack`, `togglePlayback`, `playNext`, `playPrevious`, `seekTo`, the event handlers of `PlaybackService`, `setQueue` and `loadTracks` of `src/modules/player/player.store.ts` only forward to it and are not modelled.
- The system media controls (`MediaControl`) of the legacy store are not modelled: `setupPlayer`, `seekTo` and the metadata and state updates sent to them.
- `toggleFavorite` in the player store: the database write and the query invalidations after it are not modelled.
- `setQueueStore` loads the queue store lazily. It is modelled as a direct write of the `queueStore` field.
- Database queries: the SQL text, `LIKE` matching and the row limits (10, 20, 40, 4) are the database's work. The rows are inputs, and the limit of 20 matters only in the search merge, where it is modelled.
- `transformDBTrackToTrack` is not part of this model. The search results keep the database rows.
- `getHistory` and `clearArtworkCache` are not modelled: one reads the history table and the other deletes a directory.
- `getAllGenres`, `getTopTracksByGenre` and `getAllTracksByGenre` in the genres module, and the other hooks of the library queries, only wrap database queries and are not modelled.
- `generateId` is random. The ids it yields are parameters.
- `localeCompare` with `sensitivity: "base"` is an abstract collation. Case mapping covers ASCII letters only, and `trim` uses the JavaScript whitespace set.
- The folder-path helpers `getFolderPathFromUri`, `getFolderNameFromPath` and `normalizeFolderPath` come from the indexer package, which is not part of this model. They are parameters of the folder-filter functions.
- The `content://` path lookup of `resolvePlayableFileUri` is a native call and is a parameter.
- React rendering, navigation and toasts are not modelled. `src/modules/indexer/auto-scan.ts`, `src/modules/bootstrap/*`, `src/features/library/api/use-library.ts` and `playlist.utils` are not part of this model.

## Findings

| source | as written | input that shows it | evidently intended | confidence | as-written member | corrected member |
|---|---|---|---|---|---|---|
| src/modules/library/library.queries.ts:457-469 | the merge checks the length after pushing, and never checks the title matches alone | twenty title matches and one relation match with a new id: the merge returns 21 tracks | at most 20 merged tracks, like the title query's limit | medium, not executed | LibraryQueries.MergedAsWrittenOverflows | LibraryQueries.MergedSpec |
| src/store/player-store.ts:250-258 | `playPrevious` wraps only a negative index, so an index past the end of the list stays out of range | two tracks and a stale current index of 4 (the list shrank after a reload): the index is 3 and `tracks[3]` is undefined | a previous index always within the list | medium, not executed | LegacyPlayerStore.PreviousIndexAsWrittenStale | LegacyPlayerStore.PreviousIndex |
| src/modules/genres/genres.api.ts:118 | albums are keyed by the string `${name}-${artistId}` | album `A-B` by artist `C` and album `A` by artist `B-C` share the key `A-B-C` and are counted as one album | one entry per (title, artist id) pair | low, not executed | GenresApi.WrittenKeyMergesAlbums | GenresApi.AlbumsByGenreOnePerAlbum |
| src/utils/media-indexer.ts:58-60 | the fingerprint is cut to its first 64 characters, so for a long uri the modification time and duration are cut off | any uri of 64 or more characters: a changed modification time and duration give the same fingerprint, and the changed file is never re-read | a fingerprint that changes when the file does | medium, not executed | MediaIndexer.FileHashAsWrittenIgnoresChanges | MediaIndexer.FileHashDetectsChanges |
