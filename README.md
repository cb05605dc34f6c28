# InterSoftwares.Torrent — activation and session layer, in Dafny

This project models the part of InterSoftwares.Torrent that sits around the
BitTorrent engine (MonoTorrent). It covers the following pieces.

- **Session store and engine facade** (`TorrentEngineService`):
  - the `_items` table from infoHash to (manager, `TorrentItemDto`);
  - adding a torrent with a per-file priority selection;
  - updating the selection;
  - pause, resume, stop and remove;
  - listing a torrent's files;
  - the atomic index persist (`index.json.tmp`, then replace or move);
  - loading and saving the fast-resume blob;
  - startup reconciliation from `index.json`.
- **Single-instance logic** (`App`, `SingleInstanceIpc`):
  - the mutex role decision with fallback promotion;
  - the newline wire format and its round trip;
  - the server loop's error policy;
  - the filter/unescape/trim/route pipeline for forwarded arguments.
- **Windows activation queue** (`Platforms/Windows/App`): the `_pending` FIFO gated by `_uiReady`, plus the classification of launch arguments and platform activations.
- **Supporting pieces**:
  - the deterministic artifact paths (`Paths`);
  - the one-shot ready signals (`UiReadyGate`, `DialogBridge`);
  - the persisted record `TorrentItemDto`.

## How the state is represented

- **File system.** It is a `Disk` object. Its `files` field is a `map<string, FileData>` and its `dirs` field is a `set<string>`. `FileData` is either raw bytes or an `IndexDocument`, which is the list a JSON index file encodes. A file whose bytes do not parse as an index is `Raw`.
- **MonoTorrent.** Its manager is a `Manager` value holding:
  - the infoHash;
  - the save path;
  - the file list `(path, length, priority)`;
  - the run state;
  - whether a fast-resume blob was taken.
- **Engine library.** `EngineLibrary` is a record of three total functions, one each for parsing a `.torrent` file, accepting a fast-resume blob and producing one. The set of infoHashes registered with `ClientEngine` is a field, because registering the same torrent twice is refused.
- **`_items` enumeration order.** `ConcurrentDictionary` has no defined enumeration order. The model fixes it as insertion order (`order`), so the index snapshot is a definite list.
- **Parameters for the outside world.** These are given as inputs:
  - every outcome the code catches: an index write that fails, a stop that throws, the mutex wait outcome, the pipe link;
  - `File.Exists` on the argument paths, as the set `existing`;
  - `Uri.UnescapeDataString`, as a function `unescape`.
- **Coordinator calls that throw.** Of the coordinator calls, only `OpenTorrentsAsync` can throw: `Torrent.LoadAsync` rejects a file that does not parse, and the engine refuses a torrent it already holds. `OpenMagnetAsync` completes at once. The number of the call that throws, if any, is an input (`failsAt`).
  - In `HandleExternalArgsAsync` the exception leaves the `foreach`, so the later items are not opened.
  - In `DrainPendingAsync` it ends the loop, and the actions not yet dequeued stay in `_pending` until the next drain.
- **Case-insensitive comparisons.** `OrdinalIgnoreCase` is modelled as ASCII upper-casing. `string.Trim()` uses the Unicode White_Space set that `char.IsWhiteSpace` uses.

Each state-changing operation is a method of a class (`TorrentEngineService`, `ActivationQueue`, `App`, `OneShot`, `UiReadyGate`, `DialogBridge`). Each is proved against a function of the old state.

- **`TorrentEngineService`.** Its methods are tied to the functions of module `Session` (`Persisted`, `LoadResume`, `Reconcile`, `Put`, `Remove`). Those functions carry the lemmas for the index round trip, orphan drop and auto-start.
- **Behaviours of the code worth noting:**
  - A stop whose engine call fails saves no fast-resume blob.
  - Each `.torrent` token opens in its own `OpenTorrentsAsync` call.
  - Reconciliation also skips an index entry whose torrent is already registered with the engine.
  - At startup an entry is stored before it is started, so one whose `StartAsync` throws stays in the table, stopped. The index hashes whose start throws are an input (`startFails`).
  - A secondary promoted to primary after a failed send does not own the mutex, so its `CleanUp` release throws and is swallowed.
  - Startup loads the fast-resume blob twice, once in `CreateManagerAsync` and once in `InitializeAsync`.
  - `DialogBridge.Initialize(null)` completes the ready signal while `Current` stays unset.
  - The Windows launch path opens any existing file as a torrent, whatever its extension. The root `App` requires the `.torrent` suffix.
  - A file selection entry with `Download = true` but the default `Priority` gives the file `DoNotDownload`.

## Model

Some members are definitions without contracts of their own, and the rows of the lemmas that use them state their properties:
- the path functions `Paths.AppDataRoot`, `MetadataCacheDir`, `FastResumePath`, `TorrentCopyPath`, `IndexPath` and `IndexTempPath` (Services/Paths.cs:5-11, TorrentEngineService.cs:62 and 303-304);
- the wire codec `SingleInstanceIpc.Encode` and `Decode` (SingleInstanceIpc.cs:27 and 62-63);
- the file maps `Session.Persisted`, `Added` and `Copied`, and the action lists `WindowsApp.Effects` and `LaunchActions`;
- the reconciliation of InitializeAsync: `Session.LoadIndex` (TorrentEngineService.cs:61-70), `TorrentOf` (line 79), `Admits` (lines 76-80), `ReconcileOne` (lines 74-87), `Reconcile` (lines 72-88) and `Restored` (line 85), stated by the `Reconcile*`, `ReconciledEntries`, `FailedEntryIsSkipped` and `AdmittedEntryIsRestored` rows;
- `Session.Snapshot` (TorrentEngineService.cs:38 and 306), stated by `SnapshotMatchesTable`;
- the selection rules `Selection.PathKey` (lines 109, 125 and 167), `IsWanted` (lines 116-118), `InitialPriority` (lines 111-130) and `EntryPriority` (line 170), stated by `PathKeyIff`, `SelectFiles`, `UpdatedPriority` and `DefaultEntryExcludes`;
- `SingleInstanceApp.Kept` (App.xaml.cs:76-77), stated by the `ExternalItems*` rows; `Faults` (lines 92-98), stated by `CallsMade`; `InitiallyPrimary` and `StartupArgs` (lines 17-35), stated by `Decide`;
- `SingleInstanceIpc.Deliveries` (SingleInstanceIpc.cs:44-76), stated by `RunServerLoop` and the lemmas after it;
- `TorrentEngine.TorrentEngineService.Discarded` (TorrentEngineService.cs:218-224), stated by `Remove` and `DeleteArtifacts`;
- the string operations of module `Text`:
  - `IsWhiteSpace` and `IsNullOrWhiteSpace` (App.xaml.cs:76);
  - `Trim` and `IsTrimmed` (App.xaml.cs:78, SingleInstanceIpc.cs:63);
  - `TrimQuotes` (Platforms/Windows/App.xaml.cs:37);
  - `FoldCase` and `EqualsIgnoreCase` (TorrentEngineService.cs:125 and 167), stated by `EqualsIgnoreCaseIff` and `Selection.PathKeyIff`;
  - `StartsWithIgnoreCase` and `EndsWithIgnoreCase` (App.xaml.cs:94-96);
  - the generic `IsTrimmedBy`, `IsMiddleSlice`, `UpperAscii`, `SameLetterIgnoringCase` and `IsPathSeparator` that they are built on.

| member | source | states |
|---|---|---|
| Models.NewTorrentItem | InterSoftwares.Torrent/Models/TorrentItemDto.cs:5-16 | a new dto has the given identity, empty save path, zero counters, status "Queued" and is not paused |
| Models.WithState | InterSoftwares.Torrent/Models/TorrentItemDto.cs:5-16 | setting (Paused, Status) keeps the init-only identity fields, the save path and the counters |
| Paths.RootShape | InterSoftwares.Torrent/Services/Paths.cs:5 | the application-data root is non-empty and does not end in a separator |
| Paths.ArtifactShapes | InterSoftwares.Torrent/Services/Paths.cs:9-11 | for a separator-free hash the blob path is `root\fastresume\h.bin` and the copy path `root\torrents\h.torrent` |
| Paths.FastResumePathInjective | InterSoftwares.Torrent/Services/Paths.cs:9 | distinct separator-free hashes give distinct fast-resume paths |
| Paths.TorrentCopyPathInjective | InterSoftwares.Torrent/Services/Paths.cs:11 | distinct separator-free hashes give distinct torrent-copy paths |
| Paths.FastResumeEnding | InterSoftwares.Torrent/Services/Paths.cs:9 | every fast-resume path ends in ".bin" |
| Paths.TorrentCopyEnding | InterSoftwares.Torrent/Services/Paths.cs:11 | every torrent-copy path ends in ".torrent" |
| Paths.TempPathAgrees | InterSoftwares.Torrent/Services/TorrentEngineService.cs:303-304 | `index.json` + ".tmp" is the same path as the `index.json.tmp` the failure handler deletes (line 320) |
| Paths.ArtifactsDistinct | InterSoftwares.Torrent/Services/Paths.cs:7-11 | for any hashes: blob, copy, index, temporary index and metadata cache paths are pairwise distinct |
| FileSystem.Disk.DeleteTree | InterSoftwares.Torrent/Services/TorrentEngineService.cs:220 | Directory.Delete recursive: the directory and everything under it are gone, everything else stays |
| FileSystem.Disk.CreateDirectory | InterSoftwares.Torrent/Services/TorrentEngineService.cs:42-45 | the directory exists; files unchanged |
| FileSystem.Disk.Replace | InterSoftwares.Torrent/Services/TorrentEngineService.cs:312 | File.Replace without backup: the destination takes the source's contents and the source is gone; nothing else changes |
| FileSystem.Disk.Move | InterSoftwares.Torrent/Services/TorrentEngineService.cs:314 | File.Move to an absent destination: the contents move and the source is gone; nothing else changes |
| FileSystem.Disk.Copy | InterSoftwares.Torrent/Services/TorrentEngineService.cs:294 | File.Copy with overwrite: the destination takes the source's contents; nothing else changes |
| FileSystem.Disk.DeleteIfExists | InterSoftwares.Torrent/Services/TorrentEngineService.cs:227 | the path is gone; nothing else changes (also lines 270, 275 and 321) |
| FileSystem.Disk.WriteFile | InterSoftwares.Torrent/Services/TorrentEngineService.cs:284 | the path holds the new contents; nothing else changes (also File.WriteAllTextAsync, line 309) |
| Text.TrimStartBy | InterSoftwares.Torrent/App.xaml.cs:78 | drops exactly the leading run of trimmed characters: a suffix of the input, starting with a kept character (also SingleInstanceIpc.cs:63) |
| Text.TrimEndBy | InterSoftwares.Torrent/App.xaml.cs:78 | drops exactly the trailing run of trimmed characters: a prefix of the input, ending with a kept character (also SingleInstanceIpc.cs:63) |
| Text.TrimBy | InterSoftwares.Torrent/App.xaml.cs:78 | string.Trim: no trimmed character at either end, only characters of the input, empty exactly when every character is trimmed; which slice it is: TrimByIsMiddleSlice (also SingleInstanceIpc.cs:63 and Platforms/Windows/App.xaml.cs:37) |
| Text.TrimByIsMiddleSlice | InterSoftwares.Torrent/App.xaml.cs:78 | the result is a contiguous slice of the input, and every character before it and after it is a trimmed one (also SingleInstanceIpc.cs:63 and Platforms/Windows/App.xaml.cs:37) |
| Text.UpperAsciiIff | InterSoftwares.Torrent/Services/TorrentEngineService.cs:125 | two characters fold alike exactly when they are equal or the same ASCII letter in the two cases |
| Text.EqualsIgnoreCaseIff | InterSoftwares.Torrent/Services/TorrentEngineService.cs:125 | OrdinalIgnoreCase equality holds exactly when the lengths agree and each pair of characters agrees up to ASCII letter case (also line 167) |
| Text.NormalizeSeparators | InterSoftwares.Torrent/Services/TorrentEngineService.cs:109 | N(p): same length, no backslash left; character by character: NormalizeSeparatorsAt (also line 156) |
| Text.NormalizeSeparatorsAt | InterSoftwares.Torrent/Services/TorrentEngineService.cs:109 | every backslash becomes a slash and every other character stays as it was (also line 156) |
| SingleInstanceIpc.Split | InterSoftwares.Torrent/Services/SingleInstanceIpc.cs:62-63 | splitting on '\n' yields at least one piece and no piece contains '\n' |
| SingleInstanceIpc.TrimAndDropEmpty | InterSoftwares.Torrent/Services/SingleInstanceIpc.cs:62-63 | no more tokens than pieces (per-piece behaviour and order: TrimAndDropEmptyOne, TrimAndDropEmptyAppend) |
| SingleInstanceIpc.SplitJoin | InterSoftwares.Torrent/Services/SingleInstanceIpc.cs:62 | splitting the '\n'-join of newline-free arguments gives the arguments back (the join is line 27) |
| SingleInstanceIpc.JoinSplit | InterSoftwares.Torrent/Services/SingleInstanceIpc.cs:62 | joining the pieces of a split gives the text back (the join is line 27) |
| SingleInstanceIpc.DecodedTokensAreWireSafe | InterSoftwares.Torrent/Services/SingleInstanceIpc.cs:62-63 | every decoded token is non-empty, trimmed and newline-free |
| SingleInstanceIpc.RoundTrip | InterSoftwares.Torrent/Services/SingleInstanceIpc.cs:62-63 | decode(encode(args)) == args when every argument is non-empty, trimmed and newline-free (the payload is built at line 27) |
| SingleInstanceIpc.DecodeReencode | InterSoftwares.Torrent/Services/SingleInstanceIpc.cs:62-63 | decoding is idempotent through a re-encode: decode(encode(decode(t))) == decode(t) (re-encoding as at line 27) |
| SingleInstanceIpc.TrySendToPrimary | InterSoftwares.Torrent/Services/SingleInstanceIpc.cs:12-38 | success exactly when the args are non-empty and the pipe delivered; no payload is sent otherwise; the payload sent is the encoding of the args (line 27) |
| SingleInstanceIpc.RunServerLoop | InterSoftwares.Torrent/Services/SingleInstanceIpc.cs:41-77 | the callback receives exactly the non-empty decodings of the received payloads in order; the loop stops only at cancellation |
| SingleInstanceIpc.FaultsDoNotStopTheLoop | InterSoftwares.Torrent/Services/SingleInstanceIpc.cs:72-75 | a failed connection contributes nothing and deliveries continue after it |
| SingleInstanceIpc.CancellationEndsTheLoop | InterSoftwares.Torrent/Services/SingleInstanceIpc.cs:68-71 | nothing after a cancellation is delivered |
| SingleInstanceIpc.DeliveriesAreNonEmptyAndClean | InterSoftwares.Torrent/Services/SingleInstanceIpc.cs:65-66 | the callback only ever receives a non-empty list of non-empty, trimmed, newline-free tokens |
| SingleInstanceIpc.Forwarding | InterSoftwares.Torrent/Services/SingleInstanceIpc.cs:12-77 | end to end: a delivered send of clean args reports true and the server's callback receives exactly those args |
| SingleInstanceIpc.TrimAndDropEmptyOne | InterSoftwares.Torrent/Services/SingleInstanceIpc.cs:62-63 | a single piece yields its trimmed text, or nothing when that is empty |
| SingleInstanceIpc.TrimAndDropEmptyAppend | InterSoftwares.Torrent/Services/SingleInstanceIpc.cs:62-63 | the tokens of concatenated pieces are the concatenated tokens, so their order is kept |
| SingleInstanceIpc.SplitNewlineFree | InterSoftwares.Torrent/Services/SingleInstanceIpc.cs:62 | a newline-free prefix becomes the start of the first piece |
| SingleInstanceIpc.TrimAndDropEmptyKeepsClean | InterSoftwares.Torrent/Services/SingleInstanceIpc.cs:62-63 | pieces that are non-empty, trimmed and newline-free pass unchanged |
| SingleInstanceIpc.TrimAndDropEmptyIsClean | InterSoftwares.Torrent/Services/SingleInstanceIpc.cs:62-63 | every token of newline-free pieces is non-empty, trimmed and newline-free |
| SingleInstanceIpc.DeliveriesStep | InterSoftwares.Torrent/Services/SingleInstanceIpc.cs:55-75 | a connection other than cancellation delivers its decoding when received and non-empty, and the loop goes on |
| SingleInstanceApp.ExternalItems | InterSoftwares.Torrent/App.xaml.cs:75-79 | at most one item per token, each item trimmed |
| SingleInstanceApp.ExternalItemsAppend | InterSoftwares.Torrent/App.xaml.cs:75-79 | the pipeline works token by token: items of a concatenation are the concatenated items |
| SingleInstanceApp.ExternalItemsFromKept | InterSoftwares.Torrent/App.xaml.cs:75-79 | every item is the trimmed unescaping of one token that is neither blank nor "__PING__" |
| SingleInstanceApp.AllKeptAllItems | InterSoftwares.Torrent/App.xaml.cs:75-79 | when no token is blank or a ping, every token yields an item |
| SingleInstanceApp.NoneKeptNoItems | InterSoftwares.Torrent/App.xaml.cs:75-82 | tokens that are all blank or pings yield no items, so nothing is handled |
| SingleInstanceApp.Route | InterSoftwares.Torrent/App.xaml.cs:94-97 | a magnet prefix (any case) opens a magnet; otherwise an existing file ending ".torrent" (any case) opens that one torrent; otherwise nothing, in both directions |
| SingleInstanceApp.RoutedRequestsAreWellFormed | InterSoftwares.Torrent/App.xaml.cs:92-98 | every request names a magnet link or exactly one existing ".torrent" file |
| SingleInstanceApp.HandleExternalArgs | InterSoftwares.Torrent/App.xaml.cs:73-100 | the coordinator calls are the routed items in order, ending with the call that throws when one does; none when the services are missing; `faulted` exactly when a call threw |
| SingleInstanceApp.ForwardedArgs | InterSoftwares.Torrent/App.xaml.cs:41-43 | a secondary always sends something: its startup args when it has any |
| SingleInstanceApp.Decide | InterSoftwares.Torrent/App.xaml.cs:17-70 | exit exactly when not initially primary and the send reached a primary; otherwise primary with the server loop; owns the mutex exactly when the wait succeeded or the mutex was abandoned; startup args handled once, only when non-empty |
| SingleInstanceApp.SecondaryPingIsIgnored | InterSoftwares.Torrent/App.xaml.cs:41-43 | an argument-less secondary delivers `["__PING__"]`, and the primary opens nothing for it (filtered at line 77) |
| SingleInstanceApp.App.constructor | InterSoftwares.Torrent/App.xaml.cs:12-71 | the fields after construction are those of Decide |
| SingleInstanceApp.App.CleanUp | InterSoftwares.Torrent/App.xaml.cs:102-116 | cancels the loop and disposes; the mutex is released only by a primary that owns it |
| SingleInstanceApp.Contribution | InterSoftwares.Torrent/App.xaml.cs:75-79 | one token gives at most one item, trimmed |
| SingleInstanceApp.Routed | InterSoftwares.Torrent/App.xaml.cs:92-98 | at most one request per item |
| SingleInstanceApp.RoutedPrefix | InterSoftwares.Torrent/App.xaml.cs:92-98 | the requests of the first items are a prefix of all the requests |
| SingleInstanceApp.CallsMade | InterSoftwares.Torrent/App.xaml.cs:92-99 | a prefix of the routed requests; shorter exactly when the throwing call is in range and is an OpenTorrents call, and then it ends with that call |
| SingleInstanceApp.OpenItems | InterSoftwares.Torrent/App.xaml.cs:92-98 | the foreach makes exactly the calls of CallsMade over Routed and reports whether one threw |
| SingleInstanceApp.StoppedAt | InterSoftwares.Torrent/App.xaml.cs:92-98 | when the call for item i throws, the calls made are those of the items before it, then that call |
| SingleInstanceApp.PingOpensNothing | InterSoftwares.Torrent/App.xaml.cs:77 | the ping token yields no item and no request |
| SingleInstanceApp.PingIsWireSafe | InterSoftwares.Torrent/App.xaml.cs:43 | the ping token survives the wire unchanged |
| WindowsApp.FilePaths | InterSoftwares.Torrent/Platforms/Windows/App.xaml.cs:70 | exactly the paths of the storage files, no more than the items (order: FilePathsOne, FilePathsAppend) |
| WindowsApp.DispatchActivation | InterSoftwares.Torrent/Platforms/Windows/App.xaml.cs:63-84 | a file activation opens its file paths; a protocol activation opens its absolute URI exactly when the scheme is "magnet" (any case); nothing else opens anything |
| WindowsApp.LaunchRequest | InterSoftwares.Torrent/Platforms/Windows/App.xaml.cs:34-42 | only argv[1], quotes trimmed: an existing file opens as torrents, otherwise a magnet prefix opens a magnet, otherwise nothing, in both directions |
| WindowsApp.EffectsAppend | InterSoftwares.Torrent/Platforms/Windows/App.xaml.cs:55-61 | running actions in sequence yields their requests in sequence |
| WindowsApp.ActivationQueue.Drain | InterSoftwares.Torrent/Platforms/Windows/App.xaml.cs:55-61 | when the UI is ready the oldest DrainCount actions run in order and the rest stay queued, `faulted` exactly when one threw; otherwise nothing runs |
| WindowsApp.ActivationQueue.Enqueue | InterSoftwares.Torrent/Platforms/Windows/App.xaml.cs:48-53 | the action goes behind everything queued and nothing is lost; before the UI is ready nothing runs; after, a drain as in DrainCount follows |
| WindowsApp.ActivationQueue.OnAppActivated | InterSoftwares.Torrent/Platforms/Windows/App.xaml.cs:45-46 | the activation goes behind everything queued and nothing is lost; before the UI is ready it waits and nothing runs; after, the oldest DrainCount actions of the queue run and the rest stay queued, `faulted` exactly when one threw |
| WindowsApp.ActivationQueue.OnLaunched | InterSoftwares.Torrent/Platforms/Windows/App.xaml.cs:27-43 | the UI becomes ready; what runs and what stays queued are those of LaunchRun over the earlier queue and the launch request |
| WindowsApp.FilePathsOne | InterSoftwares.Torrent/Platforms/Windows/App.xaml.cs:70 | a file contributes its path, a folder nothing |
| WindowsApp.FilePathsAppend | InterSoftwares.Torrent/Platforms/Windows/App.xaml.cs:70 | the paths of concatenated items are the concatenated paths, so their order is kept |
| WindowsApp.Effect | InterSoftwares.Torrent/Platforms/Windows/App.xaml.cs:57-60 | running one action makes at most one coordinator call |
| WindowsApp.DrainCount | InterSoftwares.Torrent/Platforms/Windows/App.xaml.cs:55-61 | all the actions when none throws; otherwise those up to and including the throwing OpenTorrents action, never more than are queued |
| WindowsApp.LaunchRun | InterSoftwares.Torrent/Platforms/Windows/App.xaml.cs:27-43 | what runs followed by what stays queued is the earlier queue followed by the launch request: nothing lost or reordered |
| WindowsApp.LaunchRunFaultFree | InterSoftwares.Torrent/Platforms/Windows/App.xaml.cs:27-43 | without a throw everything queued runs, then the launch request, and nothing stays queued |
| WindowsApp.LaunchRunSteps | InterSoftwares.Torrent/Platforms/Windows/App.xaml.cs:30-41 | a launch with a request is the first drain followed by the drain its EnqueueActivation starts |
| WindowsApp.LaunchEffects | InterSoftwares.Torrent/Platforms/Windows/App.xaml.cs:27-61 | the coordinator requests of a full launch are the earlier ones, then the queued ones, then the launch request |
| WindowsApp.ActivationQueue.constructor | InterSoftwares.Torrent/Platforms/Windows/App.xaml.cs:10-11 | nothing queued or run, and the UI not ready |
| Gates.OneShot.TrySetResult | InterSoftwares.Torrent/Services/DialogBridge.cs:13 | completes the task and reports whether this call did it; a second call is harmless |
| Gates.UiReadyGate.constructor | InterSoftwares.Torrent/Services/UiReadyGate.cs:11 | the gate starts not ready |
| Gates.UiReadyGate.SignalReady | InterSoftwares.Torrent/Services/UiReadyGate.cs:13 | the gate is ready afterwards, and a repeated call does not fail |
| Gates.UiReadyGate.WhenReady | InterSoftwares.Torrent/Services/UiReadyGate.cs:12 | always the same one-shot task |
| Gates.DialogBridge.Initialize | InterSoftwares.Torrent/Services/DialogBridge.cs:8-15 | the first call while Current is unset takes the argument and completes the ready task; later calls change nothing |
| Gates.DialogBridge.WhenReady | InterSoftwares.Torrent/Services/DialogBridge.cs:17 | always the same ready task, incomplete until an Initialize completes it |
| Gates.OneShot.constructor | InterSoftwares.Torrent/Services/UiReadyGate.cs:11 | a new task is incomplete |
| Gates.OneShot.SetResult | InterSoftwares.Torrent/Services/UiReadyGate.cs:13 | completes the task; allowed only while it is incomplete, as SignalReady checks |
| Gates.DialogBridge.constructor | InterSoftwares.Torrent/Services/DialogBridge.cs:5-6 | Current unset and the ready task incomplete |
| EngineTypes.DefaultSelection | InterSoftwares.Torrent/Services/TorrentEngineService.cs:22-27 | a selection entry defaults to Download = true and Priority = DoNotDownload |
| EngineTypes.NewManager | InterSoftwares.Torrent/Services/TorrentEngineService.cs:230-239 | a new manager has the torrent's files at Normal priority, is stopped and has no resume data |
| Selection.PathKeyIff | InterSoftwares.Torrent/Services/TorrentEngineService.cs:124-125 | two paths match under N and OrdinalIgnoreCase exactly when they have the same length and agree at every position up to ASCII letter case, a backslash matching a slash (also lines 166-167) |
| Selection.FirstEntryFor | InterSoftwares.Torrent/Services/TorrentEngineService.cs:124-125 | the index of the first selection entry whose normalised path matches, case-insensitively |
| Selection.SelectFiles | InterSoftwares.Torrent/Services/TorrentEngineService.cs:109-130 | paths and lengths unchanged; a file takes the first matching entry's priority when some matching entry has Download set, and is DoNotDownload otherwise |
| Selection.FirstFileFor | InterSoftwares.Torrent/Services/TorrentEngineService.cs:166-167 | the index of the first file whose normalised path matches, case-insensitively |
| Selection.ClearPriorities | InterSoftwares.Torrent/Services/TorrentEngineService.cs:158-162 | the replace loop leaves every file as it was except at DoNotDownload |
| Selection.ApplySelection | InterSoftwares.Torrent/Services/TorrentEngineService.cs:151-174 | the file table is UpdatedFiles: optional reset to DoNotDownload, then each entry applied in order |
| Selection.UpdatedPriority | InterSoftwares.Torrent/Services/TorrentEngineService.cs:158-171 | a file ends with the priority of the last entry that names it first (DoNotDownload when that entry has Download unset); an unnamed file is DoNotDownload under replace and keeps its priority otherwise |
| Selection.UnmatchedEntryIgnored | InterSoftwares.Torrent/Services/TorrentEngineService.cs:166-168 | an entry naming no file changes nothing |
| Selection.SelectOnly | InterSoftwares.Torrent/Services/TorrentEngineService.cs:158-171 | replacing with a single wanted path leaves only its first matching file wanted |
| Selection.ApplyEntry | InterSoftwares.Torrent/Services/TorrentEngineService.cs:166-169 | one entry changes priorities only: paths and lengths unchanged |
| Selection.ApplyEntries | InterSoftwares.Torrent/Services/TorrentEngineService.cs:164-171 | the entries change priorities only: paths and lengths unchanged |
| Selection.UpdatedFiles | InterSoftwares.Torrent/Services/TorrentEngineService.cs:151-174 | an update changes priorities only: paths and lengths unchanged |
| Selection.LastEntryFor | InterSoftwares.Torrent/Services/TorrentEngineService.cs:164-171 | the last entry that names file j first, with no later one that does; none exactly when no entry does |
| Selection.UpdatedStep | InterSoftwares.Torrent/Services/TorrentEngineService.cs:164-171 | the last entry sets file j's priority when it names j first; otherwise the earlier entries decide |
| Selection.DefaultEntryExcludes | InterSoftwares.Torrent/Services/TorrentEngineService.cs:22-27 | a default entry counts as wanted yet gives its file DoNotDownload, at add (line 125) and at update (line 168) |
| Session.Put | InterSoftwares.Torrent/Services/TorrentEngineService.cs:147 | storing under a key replaces its entry; a new key is appended to the enumeration order (also lines 34 and 84) |
| Session.Remove | InterSoftwares.Torrent/Services/TorrentEngineService.cs:214 | the key leaves the table and the order, registrations and files are unchanged (the order keeps the other keys in sequence: WithoutAppend) |
| Session.PutWellFormed | InterSoftwares.Torrent/Services/TorrentEngineService.cs:147 | storing an entry under its own infoHash keeps every key listed once and each entry under its own hash (also lines 34 and 84) |
| Session.PersistThenLoad | InterSoftwares.Torrent/Services/TorrentEngineService.cs:298-315 | what a successful persist writes is exactly the list the next start reads (read back at lines 59-70) |
| Session.PersistFrame | InterSoftwares.Torrent/Services/TorrentEngineService.cs:298-329 | the temporary file is gone after any persist; a failed persist leaves index.json as it was, present or absent, same contents; every other file keeps its presence and contents |
| Session.SnapshotMatchesTable | InterSoftwares.Torrent/Services/TorrentEngineService.cs:306 | the snapshot lists each stored torrent exactly once (and the Items property, line 38) |
| Session.LoadResume | InterSoftwares.Torrent/Services/TorrentEngineService.cs:256-277 | a load changes at most the manager's resume flag and removes at most the blob |
| Session.LoadResumeCases | InterSoftwares.Torrent/Services/TorrentEngineService.cs:256-277 | no blob: no change; an accepted blob is loaded; any other blob is deleted |
| Session.ReconcileAppend | InterSoftwares.Torrent/Services/TorrentEngineService.cs:72-88 | reconciling a list is reconciling its parts one after the other |
| Session.FailedEntryIsSkipped | InterSoftwares.Torrent/Services/TorrentEngineService.cs:74-87 | an entry that fails has no effect on the state or on the entries after it |
| Session.ReconcileOnlyDropsResumeBlobs | InterSoftwares.Torrent/Services/TorrentEngineService.cs:72-88 | reconciliation deletes only ".bin" blobs and changes no file's contents; torrent copies survive |
| Session.ReconcileWellFormed | InterSoftwares.Torrent/Services/TorrentEngineService.cs:84 | the table invariant survives reconciliation |
| Session.ReconciledEntries | InterSoftwares.Torrent/Services/TorrentEngineService.cs:72-88 | every entry afterwards is either untouched from before or an index entry whose torrent copy was on disk and loads, started exactly when not paused and its StartAsync did not throw |
| Session.ReconcileKeepsKeys | InterSoftwares.Torrent/Services/TorrentEngineService.cs:72-88 | reconciliation never removes a key |
| Session.AdmittedEntryIsRestored | InterSoftwares.Torrent/Services/TorrentEngineService.cs:76-85 | an entry whose copy exists and loads, and whose torrent is not yet registered, is in the table at the end |
| Session.Without | InterSoftwares.Torrent/Services/TorrentEngineService.cs:214 | the order without the key lists exactly the other keys, still each once |
| Session.RemoveWellFormed | InterSoftwares.Torrent/Services/TorrentEngineService.cs:214 | removing a key keeps every key listed once and each entry under its own hash |
| Session.AddedFrame | InterSoftwares.Torrent/Services/TorrentEngineService.cs:105-150 | after an add and its persist: the blob at its path, an existing copy kept or else the source copied, the index the snapshot on success and untouched on failure, no temporary file, and no other file changed |
| Session.ReconcileOneFiles | InterSoftwares.Torrent/Services/TorrentEngineService.cs:74-87 | one index entry deletes at most a ".bin" blob and changes no file's contents |
| Session.ReconcileOneWellFormed | InterSoftwares.Torrent/Services/TorrentEngineService.cs:84 | one index entry keeps the table invariant |
| Session.ReconcileOneKeepsKeys | InterSoftwares.Torrent/Services/TorrentEngineService.cs:74-87 | one index entry never removes a key |
| Session.WithoutOne | InterSoftwares.Torrent/Services/TorrentEngineService.cs:214 | a single key stays unless it is the one removed |
| Session.WithoutAppend | InterSoftwares.Torrent/Services/TorrentEngineService.cs:214 | removal works key by key: the order of the remaining keys is kept |
| TorrentEngine.FileEntry | InterSoftwares.Torrent/Services/TorrentEngineService.cs:96-102 | path, length and priority carried over; Download exactly when the priority is not DoNotDownload |
| TorrentEngine.TorrentEngineService.Items | InterSoftwares.Torrent/Services/TorrentEngineService.cs:38 | one dto per stored torrent, each infoHash once |
| TorrentEngine.TorrentEngineService.constructor | InterSoftwares.Torrent/Services/TorrentEngineService.cs:40-45 | an empty table; the root, metadata cache, fastresume and torrents directories exist |
| TorrentEngine.TorrentEngineService.PersistIndex | InterSoftwares.Torrent/Services/TorrentEngineService.cs:298-329 | the files become Persisted(snapshot); on success the index reads back as the live snapshot |
| TorrentEngine.TorrentEngineService.SaveFastResume | InterSoftwares.Torrent/Services/TorrentEngineService.cs:279-288 | the manager's blob is written at its fast-resume path |
| TorrentEngine.TorrentEngineService.TryLoadFastResume | InterSoftwares.Torrent/Services/TorrentEngineService.cs:256-277 | the new manager and files are those of LoadResume |
| TorrentEngine.TorrentEngineService.CreateManager | InterSoftwares.Torrent/Services/TorrentEngineService.cs:230-254 | refused for a registered torrent; otherwise registers it and tries its blob |
| TorrentEngine.TorrentEngineService.Initialize | InterSoftwares.Torrent/Services/TorrentEngineService.cs:59-89 | the new state is Reconcile of the old state over the loaded index, with the given StartAsync failures |
| TorrentEngine.TorrentEngineService.RestoreEntry | InterSoftwares.Torrent/Services/TorrentEngineService.cs:74-87 | one loop iteration is ReconcileOne: skipped on any failure before the store; stored and left stopped when StartAsync throws |
| TorrentEngine.TorrentEngineService.GetFiles | InterSoftwares.Torrent/Services/TorrentEngineService.cs:91-103 | empty for an unknown infoHash; otherwise one FileEntry per manager file, in order |
| TorrentEngine.TorrentEngineService.AddTorrent | InterSoftwares.Torrent/Services/TorrentEngineService.cs:105-150 | fails, changing nothing, for a missing source, a non-torrent or a registered torrent; otherwise stores a dto (Downloading, not paused, total size the sum of file lengths, copy path as TorrentPath, the save path) under the infoHash with a started manager whose files follow the selection and whose resume flag is the one LoadResume gives, appends a new key to the order, writes the blob, keeps an existing copy or copies the source, persists an index equal to the live snapshot on success and leaves it on failure, and touches no other file |
| TorrentEngine.TorrentEngineService.Admit | InterSoftwares.Torrent/Services/TorrentEngineService.cs:107-134 | registers, applies the selection, saves the blob at its path and starts; the manager has loaded fast-resume data exactly when CreateManagerAsync found a blob that LoadResume accepts; no other file changes |
| TorrentEngine.TorrentEngineService.SaveTorrentCopy | InterSoftwares.Torrent/Services/TorrentEngineService.cs:290-296 | copies the source to the copy path only when no copy exists, and returns that path |
| TorrentEngine.TorrentEngineService.Install | InterSoftwares.Torrent/Services/TorrentEngineService.cs:136-148 | the dto's fields, its entry in the table, a new key appended to the order, and the files are Persisted over Copied: kept or copied torrent, persisted index |
| TorrentEngine.TorrentEngineService.UpdateSelection | InterSoftwares.Torrent/Services/TorrentEngineService.cs:151-174 | no-op for an unknown infoHash; otherwise the manager's files become UpdatedFiles and its blob is saved; the index is not written |
| TorrentEngine.TorrentEngineService.Pause | InterSoftwares.Torrent/Services/TorrentEngineService.cs:176-184 | no-op for an unknown infoHash; otherwise only that entry changes, to (true, "Paused") with a paused manager, its blob is saved and the index persisted |
| TorrentEngine.TorrentEngineService.Resume | InterSoftwares.Torrent/Services/TorrentEngineService.cs:186-193 | no-op for an unknown infoHash; otherwise only that entry changes, to (false, "Downloading") with a started manager, and the index is persisted |
| TorrentEngine.TorrentEngineService.Stop | InterSoftwares.Torrent/Services/TorrentEngineService.cs:195-210 | no-op for an unknown infoHash; otherwise (true, "Stopped") even when the engine stop fails, the blob saved only when it succeeds, and the index persisted |
| TorrentEngine.TorrentEngineService.Remove | InterSoftwares.Torrent/Services/TorrentEngineService.cs:212-228 | no-op for an unknown infoHash; otherwise the key and its registration go, the save directory and every directory under it are deleted when asked and present and the directories are unchanged otherwise, blob and copy are deleted, and a successful persist no longer lists the key |
| TorrentEngine.TorrentEngineService.DeleteArtifacts | InterSoftwares.Torrent/Services/TorrentEngineService.cs:218-224 | the optional tree delete, which removes the save directory and exactly the directories under it, then the blob and the copy |
| TorrentEngine.TorrentEngineService.Put | InterSoftwares.Torrent/Services/TorrentEngineService.cs:147 | `_items[k] = e` is Session.Put of the old table and keeps the service invariant (also lines 34 and 84) |
| TorrentEngine.TorrentEngineService.AddLoaded | InterSoftwares.Torrent/Services/TorrentEngineService.cs:107-150 | AddTorrent once the source has parsed: the registered case and the success case exactly as stated for AddTorrent, the resume flag included |

## Left out

- Named pipes, the OS mutex, `Environment.Exit`, `Task.Run` and `MainThread` marshalling: these are I/O and threading. The pipe link, the mutex wait outcome and service availability are inputs. The secondary's background task is modelled as run to its end inside the constructor.
- Concurrency: overlapping `DrainPendingAsync` calls, the `SemaphoreSlim` of `PersistIndexAsync`, and the stats pump racing with operations. Every operation is sequential.
- `PumpStatsAsync`, the `TorrentStateChanged` handler (which saves a blob and persists on engine state changes), and the `Progress`, `DownSpeed` and `UpSpeed` fields. These are timer work, engine events and floating point.
- MonoTorrent internals (`Torrent.LoadAsync`, `ClientEngine.AddAsync`, `FastResume`): these are foreign. They are total functions in `EngineLibrary`, and the engine's listen port and settings are not modelled.
- JSON serialisation: `IndexDocument` holds the list itself. Any other file content reads as an empty index.
- UTF-8 encoding of the pipe payload: the payload is a string.
- `Uri.UnescapeDataString`: it is the function parameter `unescape`.
- TorrentEngine.TorrentEngineService.SaveFastResume: a write failure, which the source swallows, is not modelled; the blob is always written.
- TorrentEngine.TorrentEngineService.Pause: a failing `PauseAsync` of the engine, which would propagate before the dto is changed, is not modelled.
- TorrentEngine.TorrentEngineService.Resume: a failing `StartAsync` is not modelled.
- TorrentEngine.TorrentEngineService.AddTorrent: failures after registration are not modelled. These are `SetFilePriorityAsync`, `StartAsync` and `File.Copy` throwing. The source file exists at copy time in the model, because reading it succeeded and only the blob path can disappear in between.
- TorrentEngine.TorrentEngineService.Remove: the engine's `StopAsync` and `RemoveAsync`, and a partly failing recursive directory delete, are assumed to succeed.
- TorrentEngine.TorrentEngineService.PersistIndex: a failure of the clean-up delete itself is not modelled.
- TorrentItemDto's long counters: `TotalSize` is an unbounded sum, so a 64-bit overflow of the sum is not modelled.
- WindowsApp.ActivationQueue.Drain: a throwing `OpenTorrentsAsync` is modelled per call. Work it did on some of its paths before throwing is not modelled, and neither are the faults of the unobserved drain task.
- SingleInstanceApp.HandleExternalArgs: a throw is modelled only for the coordinator call. The unescaping, `File.Exists` and the main-thread hop are taken not to throw.
- `new Mutex(...)` throwing: only the outcome of `WaitOne` is modelled.
- Text.FoldCase: `OrdinalIgnoreCase` folds every letter that has a simple upper-case mapping, and the model folds only ASCII letters. Two paths differing only in the case of a non-ASCII letter (`É` and `é`) are equal to the source and unequal to the model, so such a selection entry matches a file in the source and not in the model; the same holds for the `magnet:` and `.torrent` tests of App.xaml.cs:94-96.
- A null `selection` for `AddTorrentAsync` is the empty sequence. Both skip the selection loop in the source.
- The directory parents created by `Directory.CreateDirectory` are not tracked.
- `TorrentOpenCoordinator`, `WinPickers`, MudBlazor dialogs, `MagnetActivationService`, DI wiring and `TorrentDownloader/Program.cs`: these are UI, wiring and a console demo. They are not part of this model. `OpenMagnetAsync` is an empty stub, so no magnet-add flow exists to model.
