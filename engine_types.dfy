/**
 * The engine-facing types of TorrentEngineService: MonoTorrent's Priority, the
 * file list of a TorrentManager, FileSelection, TorrentFileEntry, and an abstract
 * view of the engine library the service calls into.
 */
module EngineTypes {
  import opened Wrappers
  import opened Models

  /** MonoTorrent.Priority */
  datatype Priority = DoNotDownload | Lowest | Low | Normal | High | Highest | Immediate

  /** One file of a managed torrent. */
  datatype TorrentFile = TorrentFile(path: string, length: nat, priority: Priority)

  /** FileSelection: Path is required, Download defaults to true and Priority to DoNotDownload. */
  datatype FileSelection = FileSelection(path: string, download: bool, priority: Priority)

  function DefaultSelection(path: string): (s: FileSelection)
    ensures s.path == path && s.download && s.priority == DoNotDownload
  {
    FileSelection(path, true, DoNotDownload)
  }

  /** TorrentFileEntry(Path, Length, Priority, Download) as returned by GetFilesAsync. */
  datatype TorrentFileEntry = TorrentFileEntry(path: string, length: nat, priority: Priority, download: bool)

  /** What Torrent.LoadAsync yields: the infoHash (as hex), the name, and each file's path and length. */
  datatype TorrentMeta = TorrentMeta(infoHash: string, name: string, files: seq<(string, nat)>)

  datatype RunState = Stopped | Started | Paused

  /** A TorrentManager, reduced to what the service reads and changes. */
  datatype Manager = Manager(
    infoHash: string,
    savePath: string,
    files: seq<TorrentFile>,
    state: RunState,
    resumeLoaded: bool)

  /** The engine library as the service sees it: parsing a .torrent file, accepting
      or refusing a fast-resume blob (FastResume.TryLoad and LoadFastResumeAsync),
      and producing a manager's fast-resume blob (SaveFastResumeAsync and Encode). */
  datatype EngineLibrary = EngineLibrary(
    loadTorrent: seq<bv8> -> Option<TorrentMeta>,
    acceptsResume: seq<bv8> -> bool,
    saveResume: Manager -> seq<bv8>)

  /** A value of the `_items` dictionary. */
  datatype Entry = Entry(mgr: Manager, dto: TorrentItemDto)

  /** Where an index write fails, if it does: writing the temporary file, or
      replacing or moving it over index.json. */
  datatype PersistFault = NoFault | WriteFails | CommitFails

  /** A new manager for a loaded torrent: MonoTorrent's files start at Normal priority. */
  function NewManager(meta: TorrentMeta, savePath: string): (m: Manager)
    ensures m.infoHash == meta.infoHash && m.state == Stopped && !m.resumeLoaded
    ensures |m.files| == |meta.files|
    ensures forall i :: 0 <= i < |meta.files| ==>
      m.files[i] == TorrentFile(meta.files[i].0, meta.files[i].1, Normal)
  {
    Manager(meta.infoHash, savePath,
      seq(|meta.files|, i requires 0 <= i < |meta.files| => TorrentFile(meta.files[i].0, meta.files[i].1, Normal)),
      Stopped, false)
  }

  /** torrent.Files.Sum(f => (long)f.Length) */
  function SumLengths(files: seq<(string, nat)>): nat {
    if files == [] then 0 else files[0].1 + SumLengths(files[1..])
  }
}
