# BitDream core, modelled in Dafny

BitDream is a Swift client for remote Transmission servers, for macOS and iOS.
This project models the parts of it that are plain logic and proves what they
promise:

- **The `.torrent` metainfo scanner** (`parseTorrentInfo` and its helpers in
  `Utilities.swift`). It does not decode bencoding. It searches the raw bytes:
  - `findPattern` is a naive substring search;
  - `parseBencodeString` and `parseBencodeInteger` read the value after the
    first `<len>:<key>`;
  - `parseMultiFileTorrent` sums every `6:lengthi…e` it finds.

  The bytes are a `string`, one character per byte, as the ISO Latin-1
  decoding the source uses makes them. Two Swift runtime traps are explicit
  outcomes (`Run.Trapped`):
  - a negative declared string length;
  - an `Int64` overflow of the running total.
- **Sorting** (`SortDescriptor.keyPath`, `sorted(using:order:)`,
  `sortTorrents` with its remaining-time rank). Swift's `sorted(by:)` is a
  stable sort, and stability is what lets the non-name sorts keep name order
  among ties. It is modelled as a stable insertion sort, `StableSort.SortBy`,
  which is proved to:
  - return a permutation of its input;
  - return it sorted under a strict weak order;
  - keep a previous order among ties.
- **The iOS app icon catalog** (`AppIconCatalog.presentations()`). It builds
  the default plus the alternates, then sorts by order, with `nil` keys
  first.
- **The macOS file-open queue** (`AppFileOpenDelegate`). This is a class:
  - `pendingOpenFiles` is a `seq` field;
  - the store's availability is two booleans: `configured` (a store
    provider is set) and `hostPresent`;
  - `process(_:with:)` appends the batch to a log of processed batches.

  The invariant is that only torrent files wait, and that processed plus
  waiting files are exactly the accepted ones. The order is not kept:
  - A `@Published` property announces a change before storing it. So the
    flush that `configure(with:)` subscribes to still sees the old `host`,
    and a file queued before the host arrived keeps waiting.
  - A file opened after that is processed at once, ahead of the waiting one.
  - `HostArrivalLeavesFileWaiting` and `LaterFileOvertakesWaitingOne`
    exhibit this.
- **`FilePriority`** (raw values, `init(rawValue:)`, `displayText`) and the
  priority label of the macOS file list.

Modules:
- `Outcomes` defines `Option` and `Run`.
- `SwiftText` holds the Swift library behaviour the core relies on:
  - `Int64(String)` parsing and decimal printing;
  - `String <` on code points;
  - ASCII `lowercased()`.
- `Orders` holds the strict weak and strict total order laws.
- `StableSort`, `SortDescriptors`, `TorrentSort`, `Metainfo`, `TorrentMetadata`,
  `AppIcons`, `FilePriorities` and `FileOpening` follow the source files.

## Model

| member | source | states |
|---|---|---|
| SwiftText.ParseInt64 | BitDream/Utilities.swift:428 | `Int64(text)` yields only 64-bit values, and nothing for the empty text |
| SwiftText.ParseInt64Accepts | BitDream/Utilities.swift:428 | an accepted text is non-empty and is digits with at most one leading sign |
| SwiftText.ParseSignedDecimal | BitDream/Utilities.swift:428 | parsing the decimal text of any 64-bit integer gives that integer back |
| SwiftText.DecimalString | BitDream/Utilities.swift:353 | string interpolation of a count is a non-empty run of digits whose value is the count, with no leading zero (`0` only for zero) |
| SwiftText.StrLessIsStrictTotalOrder | BitDream/Utilities.swift:22-31 | `String <` is a strict total order, as a `Comparable` key must be |
| SwiftText.IntLessIsStrictTotalOrder | BitDream/Utilities.swift:22-31 | `Int <` is a strict total order |
| SwiftText.Lowercased | BitDream/Delegates/AppFileOpenDelegate.swift:42 | lowercasing keeps the length, lowers `A`-`Z` and leaves every other character alone |
| StableSort.SortBy | BitDream/Utilities.swift:44 | `sorted(by:)` returns a permutation of its input |
| StableSort.SortByIsSorted | BitDream/Utilities.swift:44-65 | under a strict weak order, no later element precedes an earlier one |
| StableSort.SortByIsStable | BitDream/Utilities.swift:91-98 | sorting a list already ordered by another key keeps that order among ties |
| StableSort.SortBySortedIsIdentity | BitDream/AppIconCatalog.swift:33-34 | sorting an already sorted list returns it unchanged |
| SortDescriptors.KeyPathCompares | BitDream/Utilities.swift:22-33 | `keyPath` says same iff the keys are equal, ascending iff a's key is below b's, descending iff it is above |
| SortDescriptors.FirstNonSameDecides | BitDream/Utilities.swift:45-58 | the first descriptor that does not tie decides, true iff its answer matches the requested order |
| SortDescriptors.AllSameIsFalse | BitDream/Utilities.swift:61-64 | when every descriptor ties, the predicate is false |
| SortDescriptors.SortedUsing | BitDream/Utilities.swift:42-44 | `sorted(using:order:)` returns a permutation of its input |
| SortDescriptors.SingleKeyPath | BitDream/Utilities.swift:71-79 | with one key path, the predicate is the key's `<` (ascending) or its reverse (descending) |
| SortDescriptors.SingleKeyPathIsStrictWeak | BitDream/Utilities.swift:42-66 | the one-key predicate is a strict weak order in both directions |
| SortDescriptors.SortedUsingKeyPath | BitDream/Utilities.swift:42-66 | the result is ordered by the key in the requested direction, and equal keys keep the input's order |
| TorrentSort.EtaRank | BitDream/Utilities.swift:102-109 | the rank is 0-5: complete 5, seeding 4, paused 3, stalled 2 (5 only for complete; at least 2 iff one of those four); 1 iff none of those and `eta <= 0`, else 0 |
| TorrentSort.EtaPrecedesIsStrictWeak | BitDream/Utilities.swift:100-116 | the remaining-time closure is a strict weak order in both directions |
| TorrentSort.SortTorrents | BitDream/Utilities.swift:90-120 | the result is a permutation of the torrents |
| TorrentSort.NameSortedList | BitDream/Utilities.swift:91 | the name-sorted starting list is sorted by `String <` on names |
| TorrentSort.SortTorrentsIsOrdered | BitDream/Utilities.swift:90-120 | each pair is ordered by the chosen key and direction; the remaining-time sort compares rank, then `eta`, in the chosen direction; key ties of non-name sorts stay in ascending name order |
| Metainfo.FirstMatch | BitDream/Utilities.swift:473-476 | a found index leaves room for the whole pattern, and a pattern longer than the data is never found |
| Metainfo.FirstMatchIsLeast | BitDream/Utilities.swift:473-487 | the result is a match with no match before it, and it is nil iff the pattern occurs nowhere |
| Metainfo.FirstMatchAt | BitDream/Utilities.swift:473-487 | a match with none before it is the one found |
| Metainfo.FindPattern | BitDream/Utilities.swift:473-487 | the nested loops return exactly the least match |
| Metainfo.ReadStringValue | BitDream/Utilities.swift:401-410 | a value read after the key is shorter than the text it came from |
| Metainfo.ParseBencodeString | BitDream/Utilities.swift:393-411 | nil when the key pattern is absent; a value is shorter than the data |
| Metainfo.ReadStringValueNoColon | BitDream/Utilities.swift:401-403 | with no colon after the key, the result is nil |
| Metainfo.ReadStringValueAt | BitDream/Utilities.swift:401-410 | for any text `t` before the first colon: nil when `Int64(t)` fails; else, for its value `n` (also from non-canonical text such as `05`, `+5` or `007`), nil when fewer than `n` characters follow, a trap when `n` is negative, and otherwise the next `n` characters |
| Metainfo.ParseBencodeStringNoColon | BitDream/Utilities.swift:393-403 | with the key present and no colon after its first occurrence, the result is nil |
| Metainfo.ParseBencodeStringAt | BitDream/Utilities.swift:393-411 | the same case split as `ReadStringValueAt`, at the first occurrence of the key in any data |
| Metainfo.NegativeLengthTraps | BitDream/Utilities.swift:404-410 | `4:name-1:` makes the as-written reader trap |
| Metainfo.ParseBencodeStringChecked | BitDream/Utilities.swift:393-411 | agrees with the as-written reader wherever that one returns, and is nil when the key is absent |
| Metainfo.ParseBencodeStringCheckedAt | BitDream/Utilities.swift:393-411 | for any text `t` before the colon, the checked reader gives the next `n` characters when `Int64(t)` is `n`, `0 <= n` and they exist, and nil otherwise |
| Metainfo.ReadIntegerValue | BitDream/Utilities.swift:425-428 | an integer read up to the first `e` fits in 64 bits |
| Metainfo.ParseBencodeInteger | BitDream/Utilities.swift:418-429 | nil when `<len>:<key>i` is absent; any result fits in 64 bits |
| Metainfo.ReadIntegerValueAt | BitDream/Utilities.swift:425-428 | any text `t` without `e`, followed by `e`, reads as `Int64(t)`: nil when that fails, its value otherwise (also for `05`, `+5` or `007`) |
| Metainfo.ParseBencodeIntegerAt | BitDream/Utilities.swift:418-429 | at the first `<len>:<key>i`, any text `t` without `e` and then `e` gives `Int64(t)` |
| Metainfo.ParseBencodeIntegerUnterminated | BitDream/Utilities.swift:425 | with no `e` after the key, the result is nil |
| Metainfo.EndOfInteger | BitDream/Utilities.swift:447-450 | the inner loop stops at an `e` or at the end of the data, never before where it started |
| Metainfo.EndOfIntegerSkipsNoE | BitDream/Utilities.swift:447-450 | no `e` lies between the start and the stop |
| Metainfo.EndOfIntegerIsFirstE | BitDream/Utilities.swift:447-450 | the stop is the first `e` at or after the start, or the end |
| Metainfo.SkipToE | BitDream/Utilities.swift:447-450 | the `while` loop computes exactly that stop |
| Metainfo.StepAt | BitDream/Utilities.swift:443-459 | one outer iteration either ends the loop or strictly advances `searchIndex`; a counted length consumed the pattern, a digit and `e` |
| Metainfo.NextStep | BitDream/Utilities.swift:443-459 | the loop body computes exactly that step |
| Metainfo.ParseMultiFileTorrent | BitDream/Utilities.swift:434-466 | the `while` loop returns exactly the scan's totals, or traps exactly where the scan does |
| Metainfo.ScanFromBounds | BitDream/Utilities.swift:442-463 | a returned sum fits in 64 bits, the count only grows, and each counted file used at least eleven bytes |
| Metainfo.MultiFileTotalsBounds | BitDream/Utilities.swift:434-466 | a returned total fits in 64 bits, and the count is at most (bytes + 1) / 11 |
| Metainfo.AddLengths | BitDream/Utilities.swift:455-456 | when no trap occurs, the total grows by the lengths' sum and the count by their number |
| Metainfo.AddLengthsTraps | BitDream/Utilities.swift:455 | the additions return iff every running total fits in 64 bits |
| Metainfo.LengthPatternNoOverlap | BitDream/Utilities.swift:443-459 | two occurrences of `6:lengthi` never overlap |
| Metainfo.StepAtEntry | BitDream/Utilities.swift:443-459 | searching from any index before an entry `6:lengthi` + `t` + `e` (any `t` without `e`) with no `6:lengthi` in between, one iteration moves just past the `e`; it counts `Int64(t)` when that parses and skips the entry when it is nil |
| Metainfo.FilesTextSteps | BitDream/Utilities.swift:442-463 | over fillers free of `6:lengthi` with entries of any `e`-free text between them, the iterations are exactly one step per entry, in order, each counting or skipping that entry, and then the loop stops |
| Metainfo.ScanSteps | BitDream/Utilities.swift:442-463 | over consecutive counted steps, the scan adds exactly their lengths |
| Metainfo.MultiFileLengths | BitDream/Utilities.swift:434-466 | for any data made of arbitrary fillers that hold no `6:lengthi`, with an entry `6:lengthi` + `t` + `e` (any `t` without `e`) between each two, the scan sums and counts exactly the entries whose `t` parses (`007` and `+5` included), in order, skips the others, and traps iff a running sum overflows |
| Metainfo.ParsedLengths | BitDream/Utilities.swift:452-457 | the lengths counted from a list of entry texts: at most one per entry, each a 64-bit value |
| Metainfo.MultiFileSkipsUnparsed | BitDream/Utilities.swift:452-457 | entries `007`, `x` and `+5` give a total of 12 over 2 files: the unparsable middle entry is skipped |
| Metainfo.UnterminatedTail | BitDream/Utilities.swift:442-462 | from a point where only key-free text and a final `6:lengthi` with no `e` after it remain, the inner loop runs off the end, nothing is counted and the scan returns the totals it had |
| Metainfo.MultiFileUnterminated | BitDream/Utilities.swift:434-466 | data that is key-free text and an unterminated `6:lengthi` counts no file and totals 0 |
| Metainfo.MultiFileOverflowTraps | BitDream/Utilities.swift:455 | two entries holding the decimal text of 64-bit lengths whose sum leaves the 64-bit range (such as `Int64.max` and 1), between any key-free fillers, make the scan trap |
| Metainfo.ScanFromCount | BitDream/Utilities.swift:442-463 | the files counted from a search index are at most the occurrences of `6:lengthi` from there on |
| Metainfo.MultiFileCountBound | BitDream/Utilities.swift:434-466 | the file count is at most the number of occurrences of `6:lengthi` in the data |
| TorrentMetadata.FileCountText | BitDream/Utilities.swift:352-354 | the text is `1 file` iff the count is 1 |
| TorrentMetadata.FileCountTextReadsBack | BitDream/Utilities.swift:352-354 | the text is the count's digits, with no leading zero, followed by ` file` or ` files`, so the count can be read back |
| TorrentMetadata.FileCountTextInjective | BitDream/Utilities.swift:352-354 | different counts give different texts |
| TorrentMetadata.TorrentInfoOf | BitDream/Utilities.swift:360-379 | reads the name with the as-written reader: nil without a name; a result carries the name read; it traps iff the name read traps, or a name is read, `5:files` occurs and the scan traps |
| TorrentMetadata.NegativeNameLengthTraps | BitDream/Utilities.swift:360-362 | `4:name-1:` makes `parseTorrentInfo` trap as written, and the checked version return nil |
| TorrentMetadata.TorrentInfoOfChecked | BitDream/Utilities.swift:360-379 | with the checked name reader: a trap only from the multi-file scan, nil when no name is read, and the same result as the as-written version wherever its name read returns |
| TorrentMetadata.TorrentInfoBounds | BitDream/Utilities.swift:343-346 | a result's total fits the `Int64` field, and it has one file or at most (bytes + 1) / 11 files |
| TorrentMetadata.FilesAnywhereMeansMultiFile | BitDream/Utilities.swift:365-370 | `5:files` at any position, even inside another value, selects the multi-file scan |
| TorrentMetadata.LengthKeyPattern | BitDream/Utilities.swift:420 | the single-file key pattern for `length` is the scanner's `6:lengthi` |
| TorrentMetadata.MultiFileInfo | BitDream/Utilities.swift:360-370 | with a name and `5:files`, data of key-free fillers and entries of any `e`-free text give the name with the sum and the number of the entries whose text parses, or a trap iff a running sum overflows |
| TorrentMetadata.SingleFileInfo | BitDream/Utilities.swift:371-375 | without `5:files`, the first `6:lengthi` followed by any text `t` and `e` gives one file of size `Int64(t)`, or nil when that fails |
| TorrentMetadata.SingleFileNeedsLength | BitDream/Utilities.swift:361-378 | without `5:files` and without a readable length, the result is nil, or a trap exactly when reading the name traps |
| AppIcons.FirstDefault | BitDream/AppIconCatalog.swift:37 | a result is an entry with a `nil` key; none means every key is set |
| AppIcons.FirstDefaultIsFirst | BitDream/AppIconCatalog.swift:37 | the result is the first `nil`-key entry |
| AppIcons.DefaultOf | BitDream/AppIconCatalog.swift:37-41 | the default shown always has a `nil` key |
| AppIcons.Alternates | BitDream/AppIconCatalog.swift:44 | the filter keeps only entries with a key |
| AppIcons.AlternatesCount | BitDream/AppIconCatalog.swift:44 | each keyed entry is kept as often as it occurs, each `nil`-key entry dropped |
| AppIcons.IconPrecedesIsStrictWeak | BitDream/AppIconCatalog.swift:46-54 | the sort closure is a strict weak order |
| AppIcons.Presentations | BitDream/AppIconCatalog.swift:34-55 | appending the default and the alternates, then sorting, gives the specified list |
| AppIcons.PresentationsContents | BitDream/AppIconCatalog.swift:35-46 | the result has 1 + (keyed entries) elements: the default once and each keyed entry as often as defined |
| AppIcons.PresentationsSorted | BitDream/AppIconCatalog.swift:46-54 | the result is ordered by `order`; on equal orders a `nil` key first and keys by `String <` |
| AppIcons.DefaultShownFirst | BitDream/AppIconCatalog.swift:36-54 | when no alternate is ordered before it, the default comes first |
| AppIcons.FallbackShownFirst | BitDream/AppIconCatalog.swift:39-41 | without a `nil`-key entry, the synthesized default with order `Int.min` comes first |
| AppIcons.ShippedPresentations | BitDream/AppIconCatalog.swift:25-34 | with the shipped entries, the result is the entries exactly as defined |
| FilePriorities.FromRawValue | BitDream/Views/Shared/TorrentFileDetail.swift:6-9 | `init(rawValue:)` succeeds exactly for -1, 0 and 1, with that raw value |
| FilePriorities.RawValueRoundTrip | BitDream/Views/Shared/TorrentFileDetail.swift:6-9 | `FilePriority(rawValue: p.rawValue) == p` |
| FilePriorities.DisplayTextDistinct | BitDream/Views/Shared/TorrentFileDetail.swift:11-17 | two priorities have the same text iff they are the same |
| FilePriorities.PriorityLabel | BitDream/Views/macOS/macOSTorrentFileDetail.swift:43-44 | `Skip` iff the file is unwanted; an unknown raw value shows `Normal`; otherwise a priority's text |
| FilePriorities.PriorityLabelOfWanted | BitDream/Views/macOS/macOSTorrentFileDetail.swift:43-44 | a wanted file shows the text of the priority its raw value stands for |
| FileOpening.Torrents | BitDream/Delegates/AppFileOpenDelegate.swift:42 | the filter keeps only torrent files and never grows the list |
| FileOpening.TorrentsCount | BitDream/Delegates/AppFileOpenDelegate.swift:42 | each torrent file is kept as often as it occurs, and every other file is dropped |
| FileOpening.TorrentsOfTorrents | BitDream/Delegates/AppFileOpenDelegate.swift:42 | filtering a list of torrent files leaves it as it is |
| FileOpening.AppFileOpenDelegate.constructor | BitDream/Delegates/AppFileOpenDelegate.swift:7-9 | the queue starts empty with no store, and the invariant holds |
| FileOpening.AppFileOpenDelegate.Process | BitDream/Delegates/AppFileOpenDelegate.swift:57-80 | the batch is logged and nothing else changes |
| FileOpening.AppFileOpenDelegate.Enqueue | BitDream/Delegates/AppFileOpenDelegate.swift:41-49 | no torrent files: nothing changes; ready store: the torrent files are processed as one batch and the queue is untouched; otherwise they are appended to the queue in order; the invariant holds |
| FileOpening.AppFileOpenDelegate.Admit | BitDream/Delegates/AppFileOpenDelegate.swift:44-48 | a batch of torrent files is processed as one batch when the store is ready, else appended to the queue in order; the invariant holds |
| FileOpening.AppFileOpenDelegate.FlushIfPossible | BitDream/Delegates/AppFileOpenDelegate.swift:51-55 | empty queue or no ready store: nothing changes; otherwise exactly the queued files are processed as one batch, in order, and the queue is emptied |
| FileOpening.AppFileOpenDelegate.OpenFile | BitDream/Delegates/AppFileOpenDelegate.swift:11-14 | enqueues the one file, with its effect on queue and log, keeps "nothing waits while the store is ready", and returns true |
| FileOpening.AppFileOpenDelegate.OpenFiles | BitDream/Delegates/AppFileOpenDelegate.swift:16-23 | no torrent files: nothing changes; ready store: the torrent files are processed as one batch; otherwise they are appended to the queue in order; the invariant and "nothing waits while the store is ready" are kept |
| FileOpening.AppFileOpenDelegate.NotifyStoreAvailable | BitDream/Delegates/AppFileOpenDelegate.swift:90-92 | empty queue or no ready store: nothing changes; otherwise exactly the queued files are processed as one batch and the queue is emptied; afterwards nothing waits while the store is ready |
| FileOpening.AppFileOpenDelegate.Configure | BitDream/Delegates/AppFileOpenDelegate.swift:82-88 | the store is set with the given host; with a host and a non-empty queue exactly the queued files are processed as one batch and the queue is emptied, otherwise queue and log are unchanged |
| FileOpening.AppFileOpenDelegate.HostChanged | BitDream/Delegates/AppFileOpenDelegate.swift:84-86 | the flush runs against the old host, then the host is updated: the queue is flushed iff the store was already ready and the queue non-empty, otherwise queue and log are unchanged |
| FileOpening.AppFileOpenDelegate.HostChangedThenFlush | BitDream/Delegates/AppFileOpenDelegate.swift:84-87 | the host is stored first, then the flush runs: the queue is flushed as one batch iff the store is now ready and the queue non-empty, otherwise queue and log are unchanged; afterwards nothing waits while a configured store is ready |
| FileOpening.HostArrivalLeavesFileWaiting | BitDream/Delegates/AppFileOpenDelegate.swift:82-86 | a file opened before the host arrived still waits once the store is ready |
| FileOpening.HostArrivalProcessesFile | BitDream/Delegates/AppFileOpenDelegate.swift:82-87 | with the host stored before the flush, the same file is processed and nothing waits |
| FileOpening.LaterFileOvertakesWaitingOne | BitDream/Delegates/AppFileOpenDelegate.swift:41-49 | a file opened next is processed while the earlier one still waits |
| FileOpening.ShouldOpenUntitledFile | BitDream/Delegates/AppFileOpenDelegate.swift:29-31 | never opens an untitled window |
| FileOpening.ShouldHandleReopen | BitDream/Delegates/AppFileOpenDelegate.swift:33-35 | returns the `hasVisibleWindows` flag |
| FileOpening.OpenUntitledFile | BitDream/Delegates/AppFileOpenDelegate.swift:37-39 | reports that no untitled file was opened |

## Left out

- Network refresh and retry, Keychain access, CoreData, every SwiftUI view and every colour: they are I/O or presentation.
- `process(_:with:)`: reading each file, security-scoped access, the dispatch to background and main queues and `addTorrentFromFileData` are I/O and concurrency. `Process` records the batch in a log instead.
- `FileOpening.AppFileOpenDelegate.Configure`: the subscription to `store.$host` delivers the current value at once, which runs a first flush before the explicit one. The second flush then finds nothing to do. Only one flush is modelled, and the subscription's later deliveries are `HostChanged`.
- `FileOpening.AppFileOpenDelegate.OpenFiles`: the reply to the sender (`reply(toOpenOrPrint:)`) is left out. `application(_:open:)` is the same method, since it only enqueues.
- `FileOpening.AppFileOpenDelegate.NotifyStoreAvailable`: it stands for both `notifyStoreAvailable()` and `applicationDidFinishLaunching(_:)`, which only flush.
- `FileOpening.Url`: Foundation's computation of `pathExtension` from a path and `URL(fileURLWithPath:)` are not modelled. The extension is a field, and lowercasing covers ASCII only.
- `FileOpening.AppFileOpenDelegate.Valid`: it keeps the accepted files as a multiset, not in arrival order, because the source does not keep that order.
- `Metainfo.ParseBencodeString`: Swift counts `Character`s, in which CR LF is one grapheme. The model counts bytes, which differs only when the value or the text before it holds CR LF. Foundation's `range(of:)` is the same first-match search as `findPattern`.
- `Metainfo.StepAt`: `String(bytes:encoding: .utf8)` on the digits is not modelled separately. Any text it would reject also fails `Int64(_:)`, so the step skips it either way.
- `SwiftText.StrLessIsStrictTotalOrder`: `String <` is compared by code point. Swift compares by Unicode canonical equivalence, which differs for text that is not in NFC: combining sequences, and canonical singletons such as U+212B vs U+00C5 or U+2126 vs U+03A9. The same holds for the `valueA != valueB` guard of `keyPath` (`SortDescriptors.KeyPathCompares`), which Swift decides by canonical equivalence and the model by code-point equality.
- `TorrentMetadata.FileCountText`: the count is a `nat`. Swift's `Int` could be negative, but no count is.
- `TorrentInfo.formattedSize` (`ByteCountFormatter`) and other display formatting are locale- and floating-point-dependent.
- `parseTorrentName` is `parseBencodeString` with the key `name`, which `Metainfo.ParseBencodeString` covers.
- `sortedAscending(using:)` and `sortedDescending(using:)` are variadic wrappers that pass `Ascending` or `Descending` to `SortDescriptors.SortedUsing`. `SortProperty`'s display raw values are not modelled.
- `TorrentSort.Torrent`: the `Torrent` type and `TorrentStatusCalc` are not part of this model. A torrent holds only the five fields sorting reads, and the status raw strings for the four named cases are assumed.
- `AppIcons.Presentations`: it takes the entries as a parameter. `ShippedPresentations` covers the shipped `entries`.

## Findings

| source | as written | input that shows it | evidently intended | confidence | as-written member | corrected member |
|---|---|---|---|---|---|---|
| BitDream/Utilities.swift:404-410 | a negative declared length passes the `distance >= length` guard, and forming the value's range then traps | the bytes `4:name-1:` | a negative length yields nil, like every other malformed length | high, not executed | Metainfo.NegativeLengthTraps | Metainfo.ParseBencodeStringCheckedAt |
| BitDream/Delegates/AppFileOpenDelegate.swift:84-86 | the `store.$host` sink flushes in `willSet`, before the new host is stored, so the flush still sees no host | a file opened before the store has a host, then the host arrives | the flush sees the new host and processes the waiting file | medium, not executed | FileOpening.HostArrivalLeavesFileWaiting | FileOpening.HostArrivalProcessesFile |
