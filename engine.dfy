/**
 * TorrentEngineService: the live `_items` table, the engine registrations and
 * the files under the application-data root, changed in place by each public
 * operation. Every method is proved against the functions of module Session,
 * and what survives a restart is read back with LoadIndex and Reconcile.
 */
module TorrentEngine {
  import opened Wrappers
  import opened Paths
  import opened Models
  import opened EngineTypes
  import opened FileSystem
  import opened Selection
  import opened Session

  /** Why AddTorrentAsync throws before anything is stored. */
  datatype AddError = SourceMissing | NotATorrent | AlreadyRegistered

  /** GetFilesAsync's projection of one manager file. */
  function FileEntry(f: TorrentFile): (e: TorrentFileEntry)
    ensures e.path == f.path && e.length == f.length && e.priority == f.priority
    ensures e.download <==> f.priority != DoNotDownload
  {
    TorrentFileEntry(f.path, f.length, f.priority, f.priority != DoNotDownload)
  }

  class TorrentEngineService {
    var items: map<string, Entry>
    var order: seq<string>
    var registered: set<string>
    const disk: Disk
    const lib: EngineLibrary
    const appData: string

    /** The table invariant, every stored manager registered with the engine,
        and no two entries sharing a manager. */
    predicate Valid()
      reads this
    {
      && WellFormed(items, order)
      && (forall k :: k in items ==> items[k].mgr.infoHash in registered)
      && (forall k1, k2 :: k1 in items && k2 in items && k1 != k2 ==>
            items[k1].mgr.infoHash != items[k2].mgr.infoHash)
    }

    function State(): Store
      reads this, disk
    {
      Store(items, order, registered, disk.files)
    }

    /** The Items property: one dto per stored torrent. */
    function Items(): (r: seq<TorrentItemDto>)
      requires Valid()
      reads this
      ensures |r| == |order|
      ensures forall k :: k in items <==> exists i :: 0 <= i < |r| && r[i].infoHash == k
      ensures forall i, j :: 0 <= i < j < |r| ==> r[i].infoHash != r[j].infoHash
    {
      SnapshotMatchesTable(items, order);
      Snapshot(items, order)
    }

    /** The constructor's directories; the engine itself and the stats pump are not modelled. */
    constructor (disk: Disk, lib: EngineLibrary, appData: string)
      modifies disk
      ensures Valid()
      ensures this.disk == disk && this.lib == lib && this.appData == appData
      ensures items == map[] && order == [] && registered == {}
      ensures disk.files == old(disk.files)
      ensures disk.dirs == old(disk.dirs) + {AppDataRoot(appData), MetadataCacheDir(appData),
        Combine(AppDataRoot(appData), "fastresume"), Combine(AppDataRoot(appData), "torrents")}
    {
      this.disk := disk;
      this.lib := lib;
      this.appData := appData;
      items := map[];
      order := [];
      registered := {};
      new;
      disk.CreateDirectory(AppDataRoot(appData));
      disk.CreateDirectory(MetadataCacheDir(appData));
      disk.CreateDirectory(Combine(AppDataRoot(appData), "fastresume"));
      disk.CreateDirectory(Combine(AppDataRoot(appData), "torrents"));
    }

    // ------------------------------------------------------- private steps

    /** PersistIndexAsync: write the snapshot to index.json.tmp, then replace or move
        it over index.json; on a failure delete the temporary file. */
    method PersistIndex(fault: PersistFault)
      requires Valid()
      modifies disk
      ensures disk.files == Persisted(old(disk.files), appData, Items(), fault)
      ensures disk.dirs == old(disk.dirs)
      ensures fault == NoFault ==> LoadIndex(disk.files, appData) == Items()
    {
      var ix := IndexPath(appData);
      var tmp := IndexTempPath(appData);
      ArtifactsDistinct(appData, "", "");
      TempPathAgrees(appData);
      if fault == WriteFails {
        disk.DeleteIfExists(Combine(AppDataRoot(appData), "index.json.tmp"));
        return;
      }
      disk.WriteFile(tmp, IndexDocument(Snapshot(items, order)));
      if fault == CommitFails {
        disk.DeleteIfExists(Combine(AppDataRoot(appData), "index.json.tmp"));
        return;
      }
      if ix in disk.files {
        disk.Replace(tmp, ix);
      } else {
        disk.Move(tmp, ix);
      }
      assert disk.files == Persisted(old(disk.files), appData, Items(), fault);
      PersistThenLoad(old(disk.files), appData, Items());
    }

    /** SaveFastResumeAsync: the manager's blob is written to its fast-resume path. */
    method SaveFastResume(mgr: Manager)
      modifies disk
      ensures disk.files == old(disk.files)[FastResumePath(appData, mgr.infoHash) := Raw(lib.saveResume(mgr))]
      ensures disk.dirs == old(disk.dirs)
    {
      disk.WriteFile(FastResumePath(appData, mgr.infoHash), Raw(lib.saveResume(mgr)));
    }

    /** TryLoadFastResumeAsync. */
    method TryLoadFastResume(mgr: Manager) returns (m: Manager)
      modifies disk
      ensures Resumed(disk.files, m) == LoadResume(old(disk.files), appData, lib, mgr)
      ensures disk.dirs == old(disk.dirs)
    {
      var p := FastResumePath(appData, mgr.infoHash);
      m := mgr;
      if p !in disk.files {
        return;
      }
      var accepted := match disk.files[p]
        case Raw(b) => lib.acceptsResume(b)
        case IndexDocument(_) => false;
      if accepted {
        m := mgr.(resumeLoaded := true);
      } else {
        disk.DeleteIfExists(p);
      }
    }

    /** CreateManagerAsync: register with the engine (refused for a torrent it already
        holds), then try the fast-resume blob. */
    method CreateManager(meta: TorrentMeta, savePath: string) returns (r: Option<Manager>)
      modifies this, disk
      ensures items == old(items) && order == old(order)
      ensures disk.dirs == old(disk.dirs)
      ensures meta.infoHash in old(registered) ==> r.None? && registered == old(registered) && disk.files == old(disk.files)
      ensures meta.infoHash !in old(registered) ==>
        && r.Some?
        && registered == old(registered) + {meta.infoHash}
        && Resumed(disk.files, r.value) == LoadResume(old(disk.files), appData, lib, NewManager(meta, savePath))
    {
      if meta.infoHash in registered {
        return None;
      }
      registered := registered + {meta.infoHash};
      var m := TryLoadFastResume(NewManager(meta, savePath));
      return Some(m);
    }

    // ----------------------------------------------------------- operations

    /** InitializeAsync: read the index and restore every entry whose torrent copy
        is still on disk, starting the ones that were not paused. `startFails` holds
        the index hashes whose StartAsync throws. */
    method Initialize(startFails: set<string>)
      requires Valid()
      modifies this, disk
      ensures Valid()
      ensures State() == Reconcile(old(State()), appData, lib, startFails, LoadIndex(old(disk.files), appData))
      ensures disk.dirs == old(disk.dirs) + {AppDataRoot(appData)}
    {
      disk.CreateDirectory(AppDataRoot(appData));
      var list := LoadIndex(disk.files, appData);
      ghost var st0 := State();
      var i := 0;
      while i < |list|
        invariant i <= |list|
        invariant Valid()
        invariant State() == Reconcile(st0, appData, lib, startFails, list[..i])
        invariant disk.dirs == old(disk.dirs) + {AppDataRoot(appData)}
      {
        assert list[..i + 1][..i] == list[..i];
        RestoreEntry(list[i], startFails);
        i := i + 1;
      }
      assert list[..|list|] == list;
    }

    /** One iteration of InitializeAsync's loop: every failure before the store skips
        the entry; a StartAsync that throws (`dto.infoHash in startFails`) leaves it
        stored and stopped. */
    method RestoreEntry(dto: TorrentItemDto, startFails: set<string>)
      requires Valid()
      modifies this, disk
      ensures Valid()
      ensures State() == ReconcileOne(old(State()), appData, lib, startFails, dto)
      ensures disk.dirs == old(disk.dirs)
    {
      var copy := TorrentCopyPath(appData, dto.infoHash);
      if copy !in disk.files {
        return;
      }
      var torrent := TorrentOf(lib, disk.files[copy]);
      if torrent.None? {
        return;
      }
      var created := CreateManager(torrent.value, dto.savePath);
      if created.None? {
        return;
      }
      var mgr := TryLoadFastResume(created.value);
      if !dto.paused && dto.infoHash !in startFails {
        mgr := mgr.(state := Started);
      }
      Put(dto.infoHash, Entry(mgr, dto));
    }

    /** `_items[k] = e` */
    method Put(k: string, e: Entry)
      requires Valid() && e.dto.infoHash == k && e.mgr.infoHash in registered
      requires forall k2 :: k2 in items && k2 != k ==> items[k2].mgr.infoHash != e.mgr.infoHash
      modifies this
      ensures Valid()
      ensures State() == Session.Put(old(State()), k, e)
    {
      PutWellFormed(State(), k, e);
      items := items[k := e];
      if k !in order {
        order := order + [k];
      }
    }

    /** GetFilesAsync: the manager's files, empty for an unknown torrent. */
    function GetFiles(infoHash: string): (r: seq<TorrentFileEntry>)
      reads this
      ensures infoHash !in items ==> r == []
      ensures infoHash in items ==>
        && |r| == |items[infoHash].mgr.files|
        && forall j :: 0 <= j < |r| ==> r[j] == FileEntry(items[infoHash].mgr.files[j])
    {
      if infoHash !in items then []
      else
        var fs := items[infoHash].mgr.files;
        seq(|fs|, j requires 0 <= j < |fs| => FileEntry(fs[j]))
    }

    /** AddTorrentAsync. `selection` stands for the optional list, null being empty. */
    method AddTorrent(src: string, savePath: string, selection: seq<FileSelection>, fault: PersistFault)
      returns (r: Result<TorrentItemDto, AddError>)
      requires Valid()
      modifies this, disk
      ensures Valid()
      ensures src !in old(disk.files) ==> r == Failure(SourceMissing) && State() == old(State())
      ensures src in old(disk.files) && TorrentOf(lib, old(disk.files)[src]).None? ==>
        r == Failure(NotATorrent) && State() == old(State())
      ensures src in old(disk.files) && TorrentOf(lib, old(disk.files)[src]).Some? ==>
        var meta := TorrentOf(lib, old(disk.files)[src]).value;
        && (meta.infoHash in old(registered) ==> r == Failure(AlreadyRegistered) && State() == old(State()))
        && (meta.infoHash !in old(registered) ==>
              && r.Success?
              && r.value.infoHash == meta.infoHash
              && r.value.name == meta.name
              && r.value.torrentPath == TorrentCopyPath(appData, meta.infoHash)
              && r.value.savePath == savePath
              && r.value.totalSize == SumLengths(meta.files)
              && r.value.downloaded == 0 && r.value.uploaded == 0
              && r.value.status == StatusDownloading && !r.value.paused
              && registered == old(registered) + {meta.infoHash}
              && meta.infoHash in items
              && items[meta.infoHash].dto == r.value
              && items[meta.infoHash].mgr.state == Started
              && items[meta.infoHash].mgr.savePath == savePath
              && items[meta.infoHash].mgr.resumeLoaded
                   == LoadResume(old(disk.files), appData, lib, NewManager(meta, savePath)).mgr.resumeLoaded
              && items - {meta.infoHash} == old(items) - {meta.infoHash}
              && order == (if meta.infoHash in old(items) then old(order) else old(order) + [meta.infoHash])
              && disk.files == Persisted(Added(old(disk.files), appData, src, meta.infoHash,
                                               Raw(lib.saveResume(items[meta.infoHash].mgr.(state := Stopped)))),
                                         appData, Items(), fault))
      ensures r.Success? ==>
        var files := items[r.value.infoHash].mgr.files;
        var meta := TorrentOf(lib, old(disk.files)[src]).value;
        && |files| == |meta.files|
        && forall j :: 0 <= j < |files| ==>
             && files[j].path == meta.files[j].0
             && files[j].length == meta.files[j].1
             && files[j].priority == InitialPriority(selection, files[j].path)
      ensures r.Success? ==>
        var copy := TorrentCopyPath(appData, r.value.infoHash);
        var resume := FastResumePath(appData, r.value.infoHash);
        && copy in disk.files && resume in disk.files
        && (copy in old(disk.files) ==> disk.files[copy] == old(disk.files)[copy])
        && (copy !in old(disk.files) && src != resume ==> disk.files[copy] == old(disk.files)[src])
        && (fault == NoFault ==> LoadIndex(disk.files, appData) == Items())
        && (fault != NoFault ==>
              && (IndexPath(appData) in disk.files <==> IndexPath(appData) in old(disk.files))
              && (IndexPath(appData) in old(disk.files) ==> disk.files[IndexPath(appData)] == old(disk.files)[IndexPath(appData)]))
        && forall p :: p != copy && p != resume && p != IndexPath(appData) && p != IndexTempPath(appData) ==>
             && (p in disk.files <==> p in old(disk.files))
             && (p in old(disk.files) ==> disk.files[p] == old(disk.files)[p])
      ensures disk.dirs == old(disk.dirs)
    {
      if src !in disk.files {
        return Failure(SourceMissing);
      }
      var torrent := TorrentOf(lib, disk.files[src]);
      if torrent.None? {
        return Failure(NotATorrent);
      }
      r := AddLoaded(src, torrent.value, savePath, selection, fault);
    }

    /** AddTorrentAsync once Torrent.LoadAsync has parsed the source. */
    method AddLoaded(src: string, meta: TorrentMeta, savePath: string, selection: seq<FileSelection>, fault: PersistFault)
      returns (r: Result<TorrentItemDto, AddError>)
      requires Valid() && src in disk.files
      modifies this, disk
      ensures Valid()
      ensures
        && (meta.infoHash in old(registered) ==> r == Failure(AlreadyRegistered) && State() == old(State()))
        && (meta.infoHash !in old(registered) ==>
              && r.Success?
              && r.value.infoHash == meta.infoHash
              && r.value.name == meta.name
              && r.value.torrentPath == TorrentCopyPath(appData, meta.infoHash)
              && r.value.savePath == savePath
              && r.value.totalSize == SumLengths(meta.files)
              && r.value.downloaded == 0 && r.value.uploaded == 0
              && r.value.status == StatusDownloading && !r.value.paused
              && registered == old(registered) + {meta.infoHash}
              && meta.infoHash in items
              && items[meta.infoHash].dto == r.value
              && items[meta.infoHash].mgr.state == Started
              && items[meta.infoHash].mgr.savePath == savePath
              && items[meta.infoHash].mgr.resumeLoaded
                   == LoadResume(old(disk.files), appData, lib, NewManager(meta, savePath)).mgr.resumeLoaded
              && items - {meta.infoHash} == old(items) - {meta.infoHash}
              && order == (if meta.infoHash in old(items) then old(order) else old(order) + [meta.infoHash])
              && disk.files == Persisted(Added(old(disk.files), appData, src, meta.infoHash,
                                               Raw(lib.saveResume(items[meta.infoHash].mgr.(state := Stopped)))),
                                         appData, Items(), fault))
      ensures r.Success? ==>
        var files := items[r.value.infoHash].mgr.files;
        && |files| == |meta.files|
        && forall j :: 0 <= j < |files| ==>
             && files[j].path == meta.files[j].0
             && files[j].length == meta.files[j].1
             && files[j].priority == InitialPriority(selection, files[j].path)
      ensures r.Success? ==>
        var copy := TorrentCopyPath(appData, r.value.infoHash);
        var resume := FastResumePath(appData, r.value.infoHash);
        && copy in disk.files && resume in disk.files
        && (copy in old(disk.files) ==> disk.files[copy] == old(disk.files)[copy])
        && (copy !in old(disk.files) && src != resume ==> disk.files[copy] == old(disk.files)[src])
        && (fault == NoFault ==> LoadIndex(disk.files, appData) == Items())
        && (fault != NoFault ==>
              && (IndexPath(appData) in disk.files <==> IndexPath(appData) in old(disk.files))
              && (IndexPath(appData) in old(disk.files) ==> disk.files[IndexPath(appData)] == old(disk.files)[IndexPath(appData)]))
        && forall p :: p != copy && p != resume && p != IndexPath(appData) && p != IndexTempPath(appData) ==>
             && (p in disk.files <==> p in old(disk.files))
             && (p in old(disk.files) ==> disk.files[p] == old(disk.files)[p])
      ensures disk.dirs == old(disk.dirs)
    {
      ghost var files0, items0 := disk.files, items;
      var admitted := Admit(meta, savePath, selection);
      if admitted.None? {
        return Failure(AlreadyRegistered);
      }
      var dto := Install(src, meta, admitted.value, savePath, fault);
      UpdateThenRemove(items0, meta.infoHash, Entry(admitted.value, dto));
      AddedFrame(files0, appData, src, meta.infoHash, Raw(lib.saveResume(admitted.value.(state := Stopped))), Items(), fault);
      return Success(dto);
    }

    /** AddTorrentAsync after the start: keep a copy of the torrent, store the new
        dto under its infoHash and persist the index. */
    method Install(src: string, meta: TorrentMeta, mgr: Manager, savePath: string, fault: PersistFault)
      returns (dto: TorrentItemDto)
      requires Valid() && src in disk.files
      requires mgr.infoHash == meta.infoHash && meta.infoHash in registered
      requires forall k :: k in items ==> items[k].mgr.infoHash != meta.infoHash
      modifies this, disk
      ensures Valid()
      ensures registered == old(registered) && disk.dirs == old(disk.dirs)
      ensures dto == NewTorrentItem(meta.infoHash, meta.name, TorrentCopyPath(appData, meta.infoHash))
        .(savePath := savePath, totalSize := SumLengths(meta.files), status := StatusDownloading, paused := false)
      ensures items == old(items)[meta.infoHash := Entry(mgr, dto)]
      ensures order == (if meta.infoHash in old(items) then old(order) else old(order) + [meta.infoHash])
      ensures disk.files == Persisted(Copied(old(disk.files), appData, src, meta.infoHash), appData, Items(), fault)
    {
      var copy := SaveTorrentCopy(src, mgr.infoHash);
      dto := NewTorrentItem(meta.infoHash, meta.name, copy)
        .(savePath := savePath, totalSize := SumLengths(meta.files), status := StatusDownloading, paused := false);
      Put(dto.infoHash, Entry(mgr, dto));
      PersistIndex(fault);
    }

    /** AddTorrentAsync up to the start: create the manager, apply the selection,
        save its fast-resume blob and start it. */
    method Admit(meta: TorrentMeta, savePath: string, selection: seq<FileSelection>) returns (r: Option<Manager>)
      modifies this, disk
      ensures items == old(items) && order == old(order)
      ensures disk.dirs == old(disk.dirs)
      ensures meta.infoHash in old(registered) ==> r.None? && registered == old(registered) && disk.files == old(disk.files)
      ensures meta.infoHash !in old(registered) ==>
        && r.Some?
        && registered == old(registered) + {meta.infoHash}
        && r.value.infoHash == meta.infoHash
        && r.value.savePath == savePath
        && r.value.state == Started
        && r.value.resumeLoaded == LoadResume(old(disk.files), appData, lib, NewManager(meta, savePath)).mgr.resumeLoaded
        && |r.value.files| == |meta.files|
        && (forall j :: 0 <= j < |meta.files| ==>
              && r.value.files[j].path == meta.files[j].0
              && r.value.files[j].length == meta.files[j].1
              && r.value.files[j].priority == InitialPriority(selection, meta.files[j].0))
        && disk.files == old(disk.files)[FastResumePath(appData, meta.infoHash) := Raw(lib.saveResume(r.value.(state := Stopped)))]
    {
      var created := CreateManager(meta, savePath);
      if created.None? {
        return None;
      }
      var mgr := created.value;
      var selected := SelectFiles(mgr.files, selection);
      mgr := mgr.(files := selected);
      SaveFastResume(mgr);
      return Some(mgr.(state := Started));
    }

    /** SaveTorrentCopy: copy the source to torrents/<infoHash>.torrent unless a copy exists. */
    method SaveTorrentCopy(src: string, infoHash: string) returns (path: string)
      requires src in disk.files
      modifies disk
      ensures path == TorrentCopyPath(appData, infoHash)
      ensures disk.files == Copied(old(disk.files), appData, src, infoHash)
      ensures disk.dirs == old(disk.dirs)
    {
      path := TorrentCopyPath(appData, infoHash);
      if path !in disk.files {
        disk.Copy(src, path);
      }
    }

    /** UpdateSelectionAsync: apply the entries to a known torrent's files and save
        its fast-resume blob; the index is not rewritten. */
    method UpdateSelection(infoHash: string, selection: seq<FileSelection>, replace: bool)
      requires Valid()
      modifies this, disk
      ensures Valid()
      ensures order == old(order) && registered == old(registered) && disk.dirs == old(disk.dirs)
      ensures infoHash !in old(items) ==> items == old(items) && disk.files == old(disk.files)
      ensures infoHash in old(items) ==>
        var mgr := old(items)[infoHash].mgr.(files := UpdatedFiles(old(items)[infoHash].mgr.files, selection, replace));
        && items == old(items)[infoHash := Entry(mgr, old(items)[infoHash].dto)]
        && disk.files == old(disk.files)[FastResumePath(appData, mgr.infoHash) := Raw(lib.saveResume(mgr))]
    {
      if infoHash !in items {
        return;
      }
      var e := items[infoHash];
      var files := ApplySelection(e.mgr.files, selection, replace);
      var mgr := e.mgr.(files := files);
      items := items[infoHash := Entry(mgr, e.dto)];
      SaveFastResume(mgr);
    }

    /** PauseAsync: pause the manager, mark the dto paused, save the blob, persist. */
    method Pause(infoHash: string, fault: PersistFault)
      requires Valid()
      modifies this, disk
      ensures Valid()
      ensures order == old(order) && registered == old(registered) && disk.dirs == old(disk.dirs)
      ensures infoHash !in old(items) ==> items == old(items) && disk.files == old(disk.files)
      ensures infoHash in old(items) ==>
        var e := old(items)[infoHash];
        var mgr := e.mgr.(state := Paused);
        && items == old(items)[infoHash := Entry(mgr, WithState(e.dto, true, StatusPaused))]
        && disk.files == Persisted(old(disk.files)[FastResumePath(appData, mgr.infoHash) := Raw(lib.saveResume(mgr))],
                                   appData, Items(), fault)
      ensures infoHash in old(items) && fault == NoFault ==> LoadIndex(disk.files, appData) == Items()
    {
      if infoHash !in items {
        return;
      }
      var e := items[infoHash];
      var mgr := e.mgr.(state := Paused);
      items := items[infoHash := Entry(mgr, WithState(e.dto, true, StatusPaused))];
      SaveFastResume(mgr);
      PersistIndex(fault);
    }

    /** ResumeAsync: start the manager, mark the dto downloading, persist. */
    method Resume(infoHash: string, fault: PersistFault)
      requires Valid()
      modifies this, disk
      ensures Valid()
      ensures order == old(order) && registered == old(registered) && disk.dirs == old(disk.dirs)
      ensures infoHash !in old(items) ==> items == old(items) && disk.files == old(disk.files)
      ensures infoHash in old(items) ==>
        var e := old(items)[infoHash];
        && items == old(items)[infoHash := Entry(e.mgr.(state := Started), WithState(e.dto, false, StatusDownloading))]
        && disk.files == Persisted(old(disk.files), appData, Items(), fault)
      ensures infoHash in old(items) && fault == NoFault ==> LoadIndex(disk.files, appData) == Items()
    {
      if infoHash !in items {
        return;
      }
      var e := items[infoHash];
      items := items[infoHash := Entry(e.mgr.(state := Started), WithState(e.dto, false, StatusDownloading))];
      PersistIndex(fault);
    }

    /** StopAsync: stop the manager and save its blob (both skipped when the engine's
        stop fails), then mark the dto stopped and persist. */
    method Stop(infoHash: string, engineStopOk: bool, fault: PersistFault)
      requires Valid()
      modifies this, disk
      ensures Valid()
      ensures order == old(order) && registered == old(registered) && disk.dirs == old(disk.dirs)
      ensures infoHash !in old(items) ==> items == old(items) && disk.files == old(disk.files)
      ensures infoHash in old(items) ==>
        var e := old(items)[infoHash];
        var mgr := if engineStopOk then e.mgr.(state := Stopped) else e.mgr;
        var saved := if engineStopOk then old(disk.files)[FastResumePath(appData, mgr.infoHash) := Raw(lib.saveResume(mgr))]
                     else old(disk.files);
        && items == old(items)[infoHash := Entry(mgr, WithState(e.dto, true, StatusStopped))]
        && disk.files == Persisted(saved, appData, Items(), fault)
      ensures infoHash in old(items) && fault == NoFault ==> LoadIndex(disk.files, appData) == Items()
    {
      if infoHash !in items {
        return;
      }
      var e := items[infoHash];
      var mgr := e.mgr;
      if engineStopOk {
        mgr := mgr.(state := Stopped);
        SaveFastResume(mgr);
      }
      items := items[infoHash := Entry(mgr, WithState(e.dto, true, StatusStopped))];
      PersistIndex(fault);
    }

    /** RemoveAsync: drop the entry and its registration, optionally delete the
        download directory, delete the blob and the torrent copy, persist. */
    method Remove(infoHash: string, removeData: bool, fault: PersistFault)
      requires Valid()
      modifies this, disk
      ensures Valid()
      ensures infoHash !in old(items) ==> State() == old(State()) && disk.dirs == old(disk.dirs)
      ensures infoHash in old(items) ==>
        var e := old(items)[infoHash];
        && items == old(items) - {infoHash}
        && order == Without(old(order), infoHash)
        && registered == old(registered) - {e.mgr.infoHash}
        && disk.files == Persisted(Discarded(old(disk.files), old(disk.dirs), infoHash, e.dto.savePath, removeData),
                                   appData, Items(), fault)
        && (!(removeData && e.dto.savePath in old(disk.dirs)) ==> disk.dirs == old(disk.dirs))
        && (removeData && e.dto.savePath in old(disk.dirs) ==>
              disk.dirs == set x | x in old(disk.dirs) && x != e.dto.savePath && !IsUnder(x, e.dto.savePath))
      ensures infoHash in old(items) ==>
        && FastResumePath(appData, infoHash) !in disk.files
        && TorrentCopyPath(appData, infoHash) !in disk.files
      ensures infoHash in old(items) && fault == NoFault ==>
        forall i :: 0 <= i < |LoadIndex(disk.files, appData)| ==> LoadIndex(disk.files, appData)[i].infoHash != infoHash
    {
      if infoHash !in items {
        return;
      }
      var e := items[infoHash];
      RemoveWellFormed(State(), infoHash);
      items := items - {infoHash};
      order := Without(order, infoHash);
      registered := registered - {e.mgr.infoHash};
      DeleteArtifacts(infoHash, e.dto.savePath, removeData);
      ArtifactsDistinct(appData, infoHash, infoHash);
      PersistIndex(fault);
    }

    /** The files RemoveAsync leaves before persisting: the download directory's tree
        when asked for and present, then the blob and the torrent copy. */
    ghost function Discarded(files: map<string, FileData>, dirs: set<string>, infoHash: string, savePath: string, removeData: bool)
      : map<string, FileData>
      reads this
    {
      var kept := if removeData && savePath in dirs
                  then map p | p in files && !IsUnder(p, savePath) :: files[p]
                  else files;
      kept - {FastResumePath(appData, infoHash), TorrentCopyPath(appData, infoHash)}
    }

    method DeleteArtifacts(infoHash: string, savePath: string, removeData: bool)
      modifies disk
      ensures disk.files == Discarded(old(disk.files), old(disk.dirs), infoHash, savePath, removeData)
      ensures !(removeData && savePath in old(disk.dirs)) ==> disk.dirs == old(disk.dirs)
      ensures removeData && savePath in old(disk.dirs) ==>
        disk.dirs == set x | x in old(disk.dirs) && x != savePath && !IsUnder(x, savePath)
    {
      if removeData && savePath in disk.dirs {
        disk.DeleteTree(savePath);
      }
      disk.DeleteIfExists(FastResumePath(appData, infoHash));
      disk.DeleteIfExists(TorrentCopyPath(appData, infoHash));
    }
  }
}
