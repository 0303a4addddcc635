# keep-yeet in Dafny

A model of the core of keep-yeet, a desktop photo-culling tool. The user
opens a folder of images and sorts each one into *keep*, *maybe* or *yeet*
("triage"). The sorting can then be revised on a three-column review
screen. Accepting the review moves or copies the files into a project's
output directories.

The model covers the front end's logic (TypeScript/React):

- the application store (`useAppStore`): loaded images, triage cursor,
  mode, classification ledger, recent folders;
- the review screen's columns, click selection, drag-and-drop and commit
  (`ReviewView`);
- its keyboard navigation and batch shortcuts (`useReviewKeys`);
- the per-tab sessions of the project screen (`useGallerySession`,
  `useFolderSession`);
- the tab shortcuts (`useTabNavKeys`);
- the last-classification indicator (`useLastClassification`);
- the project card's text helpers (`ProjectCard`).

It also covers the Rust backend's pure and bookkeeping logic:

- name sanitising;
- the image-extension test and the MIME mapping;
- collision-free file names;
- the project registry and the per-project folder list;
- project statistics;
- image listing with its case-insensitive sort.

Each module follows the form of its source:

- State that the source updates in place is a `class` whose methods
  reassign its fields: the store, the review screen's state, the gallery and
  folder tabs, the last-classification tracker, the registry, a project's
  configuration.
- Loops in the source are `method`s with loop invariants:
  - the arrow-key column search;
  - the first-non-empty-column search;
  - the filename-conflict loop;
  - the duplicate-folder scan;
  - the statistics accumulation;
  - the directory scan;
  - the changed-entry search.
- Pure derivations are functions with named results, and lemmas relate them.

Two kinds of JavaScript collection are sequences, so that iteration order
is part of the model:

- A JavaScript object used as a dictionary is a sequence of key/value pairs
  in insertion order (`JsRecord.Record`).
- A `Set` is a duplicate-free sequence in insertion order.

Some inputs come from I/O, the clock, randomness or code not shown. These
are parameters:

- the existing names in a directory;
- per-directory image counts;
- directory entries with their metadata;
- new ids and timestamps;
- the outcome of the executor call;
- the folder cache and the classification order lists.

## Model

| member | source | states |
|---|---|---|
| AppStore.RecentAfterAdd | src/stores/useAppStore.ts:66-70 | the folder is first and occurs once; the rest is a prefix of the old list without the folder; the length is ten or one more than those remaining entries, whichever is smaller |
| AppStore.RecentKeepsOrder | src/stores/useAppStore.ts:66-70 | the entries after the folder keep their old relative order; a list without duplicates stays without duplicates |
| AppStore.WithThumbnail | src/stores/useAppStore.ts:74-81 | same length and order; images with the id get the new thumbnail; nothing else about any image changes |
| AppStore.Bucket | src/stores/useAppStore.ts:200-202 | an image is in the bucket iff it is loaded and its ledger entry is that bucket; image order is kept (subsequence) |
| AppStore.BucketCounts | src/stores/useAppStore.ts:200-202 | the filter keeps every occurrence: an image occurs in its bucket as often as in the loaded list, and never in another bucket |
| AppStore.ClassifiedImages | src/stores/useAppStore.ts:196-204 | for every bucket, an image is in it iff it is loaded and classified into it |
| AppStore.ClassifiedImagesPartition | src/stores/useAppStore.ts:196-204 | the three buckets are pairwise disjoint; their lengths add up to the number of classified images, which is at most the number loaded |
| AppStore.Store.constructor | src/stores/useAppStore.ts:48-57 | the initial state: no folder, no images, landing mode, empty ledger, both indices 0 |
| AppStore.Store.CurrentImage | src/stores/useAppStore.ts:187-188 | the image at `selectedIndex`, absent exactly when the index is out of range |
| AppStore.Store.TriageProgress | src/stores/useAppStore.ts:190-194 | one-based cursor position and image count; within 1..total while the indices are in bounds |
| AppStore.Store.SetCurrentFolder | src/stores/useAppStore.ts:64 | sets the folder and nothing else |
| AppStore.Store.AddRecentFolder | src/stores/useAppStore.ts:66-70 | the list becomes `RecentAfterAdd` of the old list; nothing else changes |
| AppStore.Store.SetImages | src/stores/useAppStore.ts:72 | replaces the images and resets `selectedIndex` to 0; the triage cursor is not reset |
| AppStore.Store.UpdateImageThumbnail | src/stores/useAppStore.ts:74-81 | images become `WithThumbnail` of the old list; indices stay in bounds |
| AppStore.Store.SelectImage | src/stores/useAppStore.ts:83-88 | an in-range index is taken; an out-of-range index is ignored |
| AppStore.Store.NavigateNext | src/stores/useAppStore.ts:90-103 | in triage both indices advance together unless on the last image; otherwise `selectedIndex` advances unless on the last; bounds are kept |
| AppStore.Store.NavigatePrev | src/stores/useAppStore.ts:105-117 | the mirror image of `NavigateNext`, stopping at 0 |
| AppStore.Store.SetMode | src/stores/useAppStore.ts:119 | sets the mode and nothing else |
| AppStore.Store.StartTriage | src/stores/useAppStore.ts:121-129 | triage mode, the session name set, the ledger empty, both indices 0 |
| AppStore.Store.Classify | src/stores/useAppStore.ts:131-150 | no-op without a current triage image; else the new ledger is the old one with that image's entry put in place (an existing key keeps its position, a new key is appended), so only that entry changes; before the last image both indices advance and the mode stays triage; on the last they stay and the mode becomes review |
| AppStore.Store.Advance | src/stores/useAppStore.ts:141-149 | the cursor step of classify: both indices to the next image in triage mode, or both on the last image in review mode; the indices end in range and the ledger is unchanged |
| AppStore.Store.Reclassify | src/stores/useAppStore.ts:152-160 | the new ledger is the old one with that id's entry put in place (position kept, or appended), with no equality check; every other entry and field is unchanged |
| AppStore.Store.FinishTriage | src/stores/useAppStore.ts:162-164 | review mode, nothing else changes |
| AppStore.Store.ResetTriage | src/stores/useAppStore.ts:166-173 | browse mode, no session, empty ledger, cursor 0; `selectedIndex` and the images kept |
| AppStore.Store.Reset | src/stores/useAppStore.ts:175 | back to the initial state |
| JsRecord.Get | src/views/ReviewView.tsx:95 | absent iff the key is not in the object; a found value is stored under that key |
| JsRecord.Put | src/stores/useAppStore.ts:136-139 | the key maps to the new value, every other key is unchanged; an existing key keeps its place, a new one is appended |
| JsRecord.PutKeepsKeysDistinct | src/stores/useAppStore.ts:155-158 | a spread-and-set keeps the keys of an object distinct |
| JsRecord.GetAt | src/views/ReviewView.tsx:95 | with distinct keys, looking up a stored key finds its own value |
| JsRecord.KeyCount | src/hooks/useLastClassification.ts:26 | the number of distinct keys equals the number of entries |
| JsRecord.SetAdd | src/hooks/useReviewKeys.ts:87-91 | membership gains exactly the new id; old members keep their order; no duplicates introduced |
| JsRecord.SetDelete | src/views/ReviewView.tsx:105-106 | membership loses exactly the id; order kept; the size drops by one when it was there |
| JsRecord.Toggle | src/views/ReviewView.tsx:103-111 | the id's membership flips; every other id's membership is unchanged |
| JsRecord.ToggleTwice | src/views/ReviewView.tsx:103-111 | toggling a non-member twice gives back the same selection, order included |
| Seqs.RemoveAll | src/stores/useAppStore.ts:68 | the element is gone, all others stay in order, multiplicities are otherwise unchanged |
| ReviewKeys.ColumnIndex | src/hooks/useReviewKeys.ts:104 | the position of a column in keep, maybe, yeet order |
| ReviewKeys.FindIndex | src/hooks/useReviewKeys.ts:36 | the first index holding the id, absent iff no image has it |
| ReviewKeys.FindImageLocation | src/hooks/useReviewKeys.ts:31-42 | absent for a null or empty id and for an id in no column; otherwise the first column containing it and its first index there |
| ReviewKeys.FirstNonEmpty | src/hooks/useReviewKeys.ts:66-73 | the leftmost non-empty column, absent iff all are empty |
| ReviewKeys.SelectFirstImage | src/hooks/useReviewKeys.ts:64-75 | selects and focuses the first image of the first non-empty column; with all columns empty, nothing changes |
| ReviewKeys.Step | src/hooks/useReviewKeys.ts:138 | always a column index: `(c + k) mod 3` moving right and `(c - k) mod 3` moving left |
| ReviewKeys.NonEmptyStep | src/hooks/useReviewKeys.ts:137-148 | the least k in 1..3 whose column is non-empty, absent iff every column is empty; present whenever the starting column is non-empty |
| ReviewKeys.VerticalTarget | src/hooks/useReviewKeys.ts:78-80 | `max(0, i-1)` going up and `min(len-1, i+1)` going down, always in the column |
| ReviewKeys.ShortcutTarget | src/hooks/useReviewKeys.ts:162-181 | Cmd/Ctrl with Enter or Backspace gives maybe; plain Enter gives keep and plain Backspace gives yeet (each an iff); Shift+Enter gives nothing |
| ReviewKeys.MoveVertical | src/hooks/useReviewKeys.ts:61-98 | without a located focus, bootstrap; else the clamped row in the same column; an empty id changes nothing; Shift adds to the selection, a plain arrow replaces it; focus moves there |
| ReviewKeys.MoveHorizontal | src/hooks/useReviewKeys.ts:122-149 | without a located focus, bootstrap; else the first non-empty column stepping `(c + d·k) mod 3` for k = 1..3, at row `min(i, len-1)`, which becomes the only selection and the focus |
| ReviewKeys.HandleKeyDown | src/hooks/useReviewKeys.ts:48-182 | inactive or typing does nothing. After a batch call the selection is empty and focus null. Alt+Left/Right with a selection and located focus targets `c ± 1` and never wraps. Shortcuts need a selection and follow `ShortcutTarget`. Arrows otherwise never batch |
| ReviewKeys.HorizontalOnlyColumn | src/hooks/useReviewKeys.ts:137-148 | when only the focused column is non-empty, Left/Right land on the focused image itself |
| ReviewView.LastIndexOf | src/views/ReviewView.tsx:53 | the last position holding the id; no later image has it |
| ReviewView.ImageLookup | src/views/ReviewView.tsx:53 | the map lookup: absent iff no image has the id; otherwise a loaded image with that id (the last one) |
| ReviewView.Ids | src/views/ReviewView.tsx:58 | the ids of the images, position by position |
| ReviewView.Paths | src/views/ReviewView.tsx:137-139 | the paths of the images, position by position |
| ReviewView.OrderedImages | src/views/ReviewView.tsx:56-59 | every image in the column is the map's image for its id; every looked-up id in the order has its image in the column; the column's ids are a subsequence of the order list |
| ReviewView.OrderedImagesCounts | src/views/ReviewView.tsx:56-59 | map and filter keep every occurrence: an id with an image occurs in the column as often as in the order list, an id without one never |
| ReviewView.OrderedImagesComplete | src/views/ReviewView.tsx:56-59 | when every id has an image, the column's ids are exactly the order list |
| ReviewView.ClassifiedColumns | src/views/ReviewView.tsx:52-66 | each column follows its own order list (subsequence), holds only mapped images and is no longer than its list |
| ReviewView.Stats | src/views/ReviewView.tsx:167-171 | the counts are the three bucket lengths |
| ReviewView.AcceptCall | src/views/ReviewView.tsx:123-140 | no call iff the folder is missing or the project path is null or empty; else the folder's id, source and mode, and each bucket's paths in display order |
| ReviewView.ReviewState.constructor | src/views/ReviewView.tsx:31-35 | empty selection, no focus, no dragged image, no result |
| ReviewView.ReviewState.HandleSelectImage | src/views/ReviewView.tsx:101-116 | with the modifier the id's membership flips and others keep theirs; without it the selection is just the id; focus is always the id |
| ReviewView.ReviewState.HandleDragStart | src/views/ReviewView.tsx:80-83 | the first image with the dragged id, absent iff none has it |
| ReviewView.ReviewState.HandleDragEnd | src/views/ReviewView.tsx:85-99 | clears the dragged image; with no target or the same bucket the ledger is unchanged; otherwise only that entry becomes the target |
| ReviewView.ReviewState.HandleAccept | src/views/ReviewView.tsx:123-155 | the executor call is `AcceptCall`; on success the result is the three bucket lengths, otherwise it stays |
| RustPath.FileName | src-tauri/src/lib.rs:229-235 | the last component; absent iff there is none or it is `..`; never empty, `.`, `..` or containing `/` |
| RustPath.FileStem | src-tauri/src/lib.rs:303 | absent exactly when the file name is |
| RustPath.Extension | src-tauri/src/lib.rs:123-128 | stem, dot and extension rebuild the file name; the stem is non-empty and the extension has no dot; absent means stem = file name |
| RustPath.JoinPath | src-tauri/src/lib.rs:355 | an absolute name replaces the directory; else the name follows the directory, with one `/` between unless already there |
| RustPath.FileNameOfJoin | src-tauri/src/lib.rs:355 | joining a plain name to any directory gives a path whose file name is that name |
| RustPath.FileNameOfPlainName | src-tauri/src/lib.rs:229-235 | a plain name is its own file name |
| RustPath.LastDot | src-tauri/src/lib.rs:303-304 | the position of the last dot, absent iff there is none |
| Naming.RemoveForbidden | src-tauri/src/lib.rs:239-240 | the result is a subsequence of the name, and each character occurs in it as often as in the name when allowed and never when forbidden |
| Naming.TrimStart | src-tauri/src/lib.rs:242 | the longest suffix not starting with white space; everything dropped was white space |
| Naming.TrimEnd | src-tauri/src/lib.rs:242 | the longest prefix not ending with white space; everything dropped was white space |
| Naming.Trim | src-tauri/src/lib.rs:241-242 | a contiguous run of the input that neither starts nor ends with white space; everything cut from either end is white space |
| Naming.SanitizeName | src-tauri/src/lib.rs:238-244 | only characters of the name, none of `/ \ : * ? " < > \|` or NUL, no white space at either end; the result is a contiguous run of the filtered name, and everything cut from either end of it is white space |
| Naming.SanitizeIdempotent | src-tauri/src/lib.rs:238-244 | sanitising twice gives the same result as once |
| Naming.SanitizeKeepsCleanName | src-tauri/src/lib.rs:238-244 | a name with no forbidden character and no white space at either end is left unchanged |
| Naming.TrimKeepsChars | src-tauri/src/lib.rs:242 | trimming only drops characters: whatever remains was in the string |
| Naming.SanitizeEmpty | src-tauri/src/lib.rs:238-244 | a name of only forbidden and white-space characters sanitises to the empty string |
| Naming.IsImageFile | src-tauri/src/lib.rs:123-128 | true iff there is an extension whose lower-cased form is png, jpg, jpeg, webp, gif or bmp |
| Naming.MimeOfExtension | src-tauri/src/lib.rs:608-615 | always one of the five image types |
| Naming.MimeType | src-tauri/src/lib.rs:602-615 | a path without an extension is PNG |
| Naming.MimeOfSupported | src-tauri/src/lib.rs:608-615 | each supported extension maps to its own type (jpg to jpeg); every other string maps to PNG |
| Naming.MimeTypeOfImage | src-tauri/src/lib.rs:600-615 | an image file is reported under its own lower-cased type, anything else as PNG |
| Naming.GetFolderName | src-tauri/src/lib.rs:229-235 | the path's file name, or "unnamed"; always a plain name |
| Naming.CandidateForm | src-tauri/src/lib.rs:310-314 | the k-th alternative is the stem, `_`, the counter in decimal, then `.ext` only when there is an extension |
| Naming.CandidateInjective | src-tauri/src/lib.rs:310-314 | different counters give different candidate names |
| Naming.ExtOf | src-tauri/src/lib.rs:304 | the extension or "", never containing a dot |
| Naming.FirstFree | src-tauri/src/lib.rs:309-321 | the first counter from k whose candidate is free, every earlier one taken; 1000 is returned unchecked |
| Naming.ResolveFilenameConflict | src-tauri/src/lib.rs:301-324 | the result is `ResolvedName`: the original when free, else the first free candidate, capped at the thousandth |
| Naming.TryCandidates | src-tauri/src/lib.rs:306-321 | the loop computes `ResolvedWith` for the given stem and extension |
| Naming.ResolvedNameFree | src-tauri/src/lib.rs:306-323 | when some candidate below 1000 is free the result is free, and is a candidate no later than it |
| Projects.WithoutFolder | src-tauri/src/lib.rs:427 | exactly the folders with another id remain, in order; a missing id changes nothing |
| Projects.WithoutEntry | src-tauri/src/lib.rs:386 | exactly the entries with another id remain, in order; a missing id changes nothing |
| Projects.WithoutFolderDistinct | src-tauri/src/lib.rs:427 | removal keeps source paths distinct |
| Projects.ProjectNameAsWritten | src-tauri/src/lib.rs:346-349 | rejected iff the sanitised name is empty; otherwise the sanitised name |
| Projects.DotDotEscapesOutputDir | src-tauri/src/lib.rs:346-355 | `..` passes the check and its project directory has no file name: it is the output directory's parent |
| Projects.ProjectName | src-tauri/src/lib.rs:346-349 | rejected iff the sanitised name is empty, `.` or `..`; an accepted name is plain |
| Projects.ProjectDirIsChild | src-tauri/src/lib.rs:355 | an accepted project's directory is the output directory's child named after it |
| Projects.ProjectConfig.constructor | src-tauri/src/lib.rs:360-366 | the new configuration: given id, name and time, per-folder output, no folders |
| Projects.ProjectConfig.AddFolder | src-tauri/src/lib.rs:396-420 | a duplicate source path is an error and changes nothing; otherwise exactly one new folder is appended; distinct source paths are kept |
| Projects.ProjectConfig.RemoveFolder | src-tauri/src/lib.rs:423-429 | the folders become `WithoutFolder` of the old ones |
| Projects.Registry.CreateProject | src-tauri/src/lib.rs:340-381 | an invalid name is an error and leaves the registry; else one entry with the sanitised name and `output/name` is appended |
| Projects.Registry.DeleteProject | src-tauri/src/lib.rs:384-388 | exactly the entries with that id are dropped |
| ProjectStatsModel.AsU32 | src-tauri/src/lib.rs:224 | the cast `as u32` keeps a count modulo 2^32, so a count below 2^32 is unchanged |
| ProjectStatsModel.CountIn | src-tauri/src/lib.rs:215-227 | a missing directory counts 0; a listed one counts its images cast to `u32` |
| ProjectStatsModel.StatsOf | src-tauri/src/lib.rs:472-506 | folder id, folder name and source count; 0 and 0 in unified mode, else the counts of `project/name/keep` and `.../maybe` |
| ProjectStatsModel.GetProjectStats | src-tauri/src/lib.rs:460-515 | one entry per folder, in order. Unified: the totals are the counts of the project's own keep and maybe directories. Per-folder: the totals are the sums of the per-folder counts modulo 2^32 |
| ProjectStatsModel.UnifiedStats | src-tauri/src/lib.rs:469-486 | the unified branch: per-folder keep and maybe counts are 0 |
| ProjectStatsModel.AllStatsOf | src-tauri/src/lib.rs:489-506 | one `StatsOf` entry per folder, in the folders' order |
| ProjectStatsModel.PerFolderStats | src-tauri/src/lib.rs:487-508 | the per-folder branch: the entries are `AllStatsOf` the folders, and the totals are the exact sums of their keep and maybe counts modulo 2^32 |
| ProjectStatsModel.WrappingAdd | src-tauri/src/lib.rs:497-498 | `u32` addition: the sum, less 2^32 when it overflows |
| ProjectStatsModel.WrappedIsRemainder | src-tauri/src/lib.rs:497-498 | wrapping after each addition gives the exact sum modulo 2^32 |
| ImageListing.ToInfo | src-tauri/src/lib.rs:532-548 | the entry's id and path; its file name or ""; size 0 without metadata; both dimensions or neither |
| ImageListing.Scanned | src-tauri/src/lib.rs:526-550 | a record is listed iff it comes from a regular file with a supported extension |
| ImageListing.ScannedAreImages | src-tauri/src/lib.rs:528-536 | every listed record is an image file named by its file name |
| ImageListing.LexLeTotal | src-tauri/src/lib.rs:554 | the string order is total |
| ImageListing.LexLeTrans | src-tauri/src/lib.rs:554 | the string order is transitive |
| ImageListing.InsertByName | src-tauri/src/lib.rs:554 | inserting into a name-sorted list gives a sorted list with one more record |
| ImageListing.SortByName | src-tauri/src/lib.rs:554 | sorted by lower-cased name, and a permutation of the input |
| ImageListing.ScanEntries | src-tauri/src/lib.rs:526-551 | the loop builds `Scanned` of the entries |
| ImageListing.ListImages | src-tauri/src/lib.rs:518-557 | "Folder does not exist" when the folder is not a directory; `read_dir`'s error message when the directory cannot be read; Ok exactly otherwise, with the scanned images sorted by lower-cased name and a permutation of them |
| ImageListing.ScanDirectoryForImages | src-tauri/src/lib.rs:264-298 | Ok with no images for a missing directory; an error exactly when the directory cannot be read, carrying `read_dir`'s message; else Ok, sorted and a permutation of the scanned images |
| ImageListing.ListedAreImages | src-tauri/src/lib.rs:518-557 | every listed record names an image file, and its name is that path's file name |
| GallerySession.ToImageFile | src/hooks/useGallerySession.ts:59-69 | fields copied, no thumbnail; dimensions present iff width and height are both truthy |
| GallerySession.ToImageFiles | src/hooks/useGallerySession.ts:59-69 | the conversion position by position |
| GallerySession.SumSizesConcat | src/hooks/useGallerySession.ts:123 | the total size of two lists is the sum of their totals |
| GallerySession.PatchKeepsTotalSize | src/hooks/useGallerySession.ts:86-98 | a thumbnail patch leaves the total size alone |
| GallerySession.NextIndex | src/hooks/useGallerySession.ts:135 | `min(prev+1, len-1)`; in range for a non-empty list from any index ≥ -1 |
| GallerySession.PrevIndex | src/hooks/useGallerySession.ts:142 | `max(prev-1, 0)`; never negative |
| GallerySession.NavigationStaysInRange | src/hooks/useGallerySession.ts:132-144 | on a non-empty list, any sequence of next and previous presses from an in-range index stays in range |
| GallerySession.Gallery.constructor | src/hooks/useGallerySession.ts:27-36 | keep tab, no images, both indexes 0 |
| GallerySession.Gallery.Images | src/hooks/useGallerySession.ts:121 | the active tab's list |
| GallerySession.Gallery.SelectedIndex | src/hooks/useGallerySession.ts:122 | the active tab's index |
| GallerySession.Gallery.CurrentImage | src/hooks/useGallerySession.ts:150 | the image at the active index, absent when out of range |
| GallerySession.Gallery.TotalSize | src/hooks/useGallerySession.ts:123 | the sum of the sizes of the active tab's images |
| GallerySession.Gallery.SetTab | src/hooks/useGallerySession.ts:27 | switches the tab and nothing else |
| GallerySession.Gallery.SelectImage | src/hooks/useGallerySession.ts:125-130 | sets the active tab's index unchecked; the other tab's index is kept |
| GallerySession.Gallery.NavigateNext | src/hooks/useGallerySession.ts:132-137 | the active index becomes `NextIndex`; the other tab is untouched |
| GallerySession.Gallery.NavigatePrev | src/hooks/useGallerySession.ts:139-144 | the active index becomes `PrevIndex`; the other tab is untouched |
| GallerySession.Gallery.Refresh | src/hooks/useGallerySession.ts:146-148 | bumps the load key |
| GallerySession.Gallery.ClearForNoProject | src/hooks/useGallerySession.ts:40-44 | both tab lists become empty |
| GallerySession.Gallery.ApplyLoadedImages | src/hooks/useGallerySession.ts:72-76 | the converted list replaces the list of the tab it was loaded for only |
| GallerySession.Gallery.PatchThumbnail | src/hooks/useGallerySession.ts:86-98 | only that tab's list is patched, by `WithThumbnail`; both totals are unchanged |
| FolderSession.CacheEntryFor | src/hooks/useFolderSession.ts:32 | an entry iff the folder id is truthy and cached |
| FolderSession.FolderImages | src/hooks/useFolderSession.ts:47 | the entry's images, or none |
| FolderSession.IsLoading | src/hooks/useFolderSession.ts:48 | iff the entry is loading, or there is no entry and the folder id is truthy |
| FolderSession.ErrorText | src/hooks/useFolderSession.ts:49 | present iff the entry's status is error; its message, or "Failed to load" |
| FolderSession.ShouldLoad | src/hooks/useFolderSession.ts:40-44 | iff folder id and source path are truthy and there is no entry |
| FolderSession.DerivedStateConsistent | src/hooks/useFolderSession.ts:40-49 | never loading and failed at once; a requested load shows loading with no images; no folder shows nothing |
| FolderSession.FolderTab.constructor | src/hooks/useFolderSession.ts:29 | the index starts at 0 |
| FolderSession.FolderTab.SetFolder | src/hooks/useFolderSession.ts:35-37 | a different folder id resets the index to 0; the same one keeps it |
| FolderSession.FolderTab.SelectImage | src/hooks/useFolderSession.ts:52-54 | stores the index without a bounds check |
| FolderSession.FolderTab.NavigateNext | src/hooks/useFolderSession.ts:56-58 | `min(prev+1, len-1)`, in range for a non-empty list from any index ≥ -1 |
| FolderSession.FolderTab.NavigatePrev | src/hooks/useFolderSession.ts:60-62 | `max(prev-1, 0)`, never negative |
| FolderSession.FolderTab.CurrentImage | src/hooks/useFolderSession.ts:64 | the image at the index, absent when out of range |
| ProjectCard.LastParts | src/components/ProjectCard.tsx:91 | the last `segments` parts; `slice(-0)` is the whole list |
| ProjectCard.ShortenPath | src/components/ProjectCard.tsx:88-92 | a path of at most `segments+1` parts (split on `/` and `\`) is unchanged; else an ellipsis, `/` and the last parts joined with `/` |
| ProjectCard.ShortenedTailIsLastParts | src/components/ProjectCard.tsx:89-91 | what follows the ellipsis splits back into exactly the path's last parts |
| ProjectCard.FolderSummary.Text | src/components/ProjectCard.tsx:95-106 | "No folders" for no folders; else the names joined with ", ", followed by ` +n` only when n > 0 |
| ProjectCard.FormatFolders | src/components/ProjectCard.tsx:94-108 | "No folders" iff the count is 0; else the first names, at most three, and the count minus the names shown |
| ProjectCard.SuffixIffMoreFolders | src/components/ProjectCard.tsx:98-105 | the `+n` suffix appears iff the count exceeds the names shown, and the shown names plus n are the count |
| ProjectCard.ConsistentSummary | src/components/ProjectCard.tsx:98-105 | with one name per folder, the suffix counts exactly the names left out and appears iff there are more than three |
| Text.SplitPath | src/components/ProjectCard.tsx:89 | at least one part; no part holds a separator |
| Text.SplitJoin | src/components/ProjectCard.tsx:89-91 | joining separator-free parts with `/` and splitting again gives the parts back |
| Text.DecimalRoundTrip | src-tauri/src/lib.rs:311-313 | a printed counter reads back as itself |
| Text.LowerAscii | src-tauri/src/lib.rs:126 | each ASCII capital lowered, every other character kept |
| TabNavKeys.ParseIntSpec | src/hooks/useTabNavKeys.ts:63 | `parseInt(key, 10)` skips leading white space and one optional sign; a number exactly when a digit follows, valued as the digits that follow, negated after `-` |
| TabNavKeys.SkipJsWhitespace | src/hooks/useTabNavKeys.ts:63 | the longest suffix not starting with JavaScript white space; everything skipped is white space |
| TabNavKeys.DigitPrefix | src/hooks/useTabNavKeys.ts:63 | the longest run of leading digits |
| TabNavKeys.NonNumericKey | src/hooks/useTabNavKeys.ts:63-64 | a key starting with a letter (or anything but white space, a sign or a digit) is NaN |
| TabNavKeys.DigitKey | src/hooks/useTabNavKeys.ts:63 | a one-digit key parses as its digit |
| TabNavKeys.Decide | src/hooks/useTabNavKeys.ts:38-74 | nothing without Meta or Ctrl or while inactive, typing or in a dialog; start triage iff Enter with a triage to start; a tab switch only to `tabs[k-1]` for a parsed k in 1..9 |
| TabNavKeys.DigitSelectsTab | src/hooks/useTabNavKeys.ts:63-73 | Cmd/Ctrl+k for k in 1..9 switches to the k-th tab exactly when it exists; 0 does nothing |
| TabNavKeys.EnterWithoutTriage | src/hooks/useTabNavKeys.ts:56-64 | Enter without a triage to start falls through and does nothing |
| LastClassification.FirstChanged | src/hooks/useLastClassification.ts:16-21 | the first entry whose value differs from the snapshot's (absent counts), none iff every entry matches |
| LastClassification.SubledgerUnchanged | src/hooks/useLastClassification.ts:16-21 | removals alone change no entry |
| LastClassification.PutIsReported | src/hooks/useLastClassification.ts:16-21 | a single new or changed classification on top of the snapshot is the one reported |
| LastClassification.ClassificationTracker.constructor | src/hooks/useLastClassification.ts:13-14 | no last classification, empty snapshot |
| LastClassification.ClassificationTracker.Update | src/hooks/useLastClassification.ts:15-24 | the last classification becomes the first changed entry's value, or stays when none changed; the snapshot becomes the ledger |
| LastClassification.ClassifyThenUpdate | src/hooks/useLastClassification.ts:16-21 | classifying the image under the store's cursor with a new value, then running the indicator on the store's ledger, reports that value |
| LastClassification.ClassificationTracker.ClassificationCount | src/hooks/useLastClassification.ts:26 | the number of keys of the ledger |

## Left out

- Asynchronous work:
  - awaits, session tokens and `cancelled` flags;
  - `isAccepting`;
  - `refreshProjectStats` after a commit;
  - the thumbnail loop of the gallery.

  Only their synchronous state updates are modelled.
- File-system and OS calls. The directory contents (or `read_dir`'s error),
  counts, metadata and decoded dimensions are inputs. Not modelled:
  - JSON reading and writing, including read errors of a project file;
  - `create_dir_all`, `fs::rename`/`copy` and trash;
  - image decoding, thumbnails and base64.
- SHA-256 `hash_path`, UUIDs and the clock: they are parameters (the entry's id, `newId`, `now`).
- `reclassifyBatch`, `classificationOrder`, `folderCache`/`refreshFolderCache`, `clearFolder` and `view` are used but not defined by the store shown. The review keys return the batch call instead of performing it. The order lists, the folder cache and the current view are inputs.
- ReviewView.ReviewState.HandleAccept: the source reads `currentFolder.id`, `source_path` and `output_mode`, but the store shown declares `currentFolder` as a string. The model takes the folder as an optional `Folder` record.
- ReviewView.ReviewState.HandleDragEnd: the drop target's id is assumed to be one of the three column ids (`over.id as Classification`).
- Windows paths: the backend's `Path` operations are modelled for Unix separators only.
- Naming.IsImageFile and ImageListing.SortByName: `to_lowercase` is modelled for ASCII letters only. Non-ASCII case mapping is not captured.
- ImageListing.SortByName: stability is not stated. `read_dir` order is unspecified, so the relative order of names equal up to case is not fixed by the source either.
- ProjectStatsModel.GetProjectStats: a debug build panics on `u32` overflow; the model follows the release build's wrap-around.
- Projects.Registry.CreateProject: rejects the names `.` and `..`, which `create_project` accepts; it uses the corrected name check described under Findings.
- ReviewKeys.HandleKeyDown: for arrow keys with a located focus its contract only says that no batch call is made. The exact outcome is stated by MoveVertical and MoveHorizontal, which it calls.
- The gallery's `isLoading` and `error` flags, which only the asynchronous load sets.
- `formatBytes`, the progress-bar percentage and `formatDate` (floating point and locale formatting).
- DOM and UI plumbing: listeners, sensors, scroll animation, confirmation dialogs, presentation components.
- The gesture engine of the triage screen and undo: there is no implementation of them in the files modelled.

## Findings

| source | as written | input that shows it | evidently intended | confidence | as-written member | corrected member |
|---|---|---|---|---|---|---|
| src-tauri/src/lib.rs:346-355 | `create_project` rejects only a name that sanitises to the empty string, then uses `output_path.join(name)` as the project directory | name `..` (or `.`): it sanitises to itself, passes the check, and the project directory is the output directory's parent (or the output directory itself) | the sanitiser is documented as preventing path traversal; the project should live in a child directory named after it | not executed | Projects.DotDotEscapesOutputDir | Projects.ProjectDirIsChild |

Projects.Registry.CreateProject uses the corrected check, `Projects.ProjectName`, which also rejects `.` and `..`. The check as written is `Projects.ProjectNameAsWritten`.

Two behaviours of the front end are modelled as written and are harmless:

- `navigateNext` in the gallery and folder tabs sets the index to -1 on an empty list, and `currentImage` is then `undefined`.
- `navigatePrev` brings any negative index back to 0.
