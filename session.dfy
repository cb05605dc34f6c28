/**
 * The session store behind TorrentEngineService, as functions on values: the
 * `_items` table, the index file (read, atomic write), the fast-resume load and
 * the startup reconciliation of InitializeAsync. The service class runs these
 * steps in place and is proved to agree with them.
 */
module Session {
  import opened Wrappers
  import opened Paths
  import opened Models
  import opened EngineTypes
  import opened FileSystem

  /** The service's state: the `_items` dictionary (with its enumeration order),
      the infoHashes registered with the engine, and the files on disk. */
  datatype Store = Store(
    items: map<string, Entry>,
    order: seq<string>,
    registered: set<string>,
    files: map<string, FileData>)

  predicate Distinct(order: seq<string>) {
    forall i, j :: 0 <= i < j < |order| ==> order[i] != order[j]
  }

  /** The table invariant: the order lists each key once, and each entry is
      stored under its own dto's infoHash. */
  predicate WellFormed(items: map<string, Entry>, order: seq<string>) {
    && Distinct(order)
    && (forall k :: k in order ==> k in items)
    && (forall k :: k in items ==> k in order)
    && (forall k :: k in items ==> items[k].dto.infoHash == k)
  }

  /** `_items.Values.Select(v => v.Dto).ToList()` */
  function Snapshot(items: map<string, Entry>, order: seq<string>): seq<TorrentItemDto>
    requires forall k :: k in order ==> k in items
  {
    seq(|order|, i requires 0 <= i < |order| => items[order[i]].dto)
  }

  /** `_items[k] = e` */
  function Put(st: Store, k: string, e: Entry): (r: Store)
    ensures r.items == st.items[k := e] && r.registered == st.registered && r.files == st.files
    ensures k in st.items ==> r.order == st.order
    ensures k !in st.items ==> r.order == st.order + [k]
  {
    st.(items := st.items[k := e], order := if k in st.items then st.order else st.order + [k])
  }

  /** `_items.TryRemove(k, out _)` */
  function Remove(st: Store, k: string): (r: Store)
    ensures r.items == st.items - {k} && r.registered == st.registered && r.files == st.files
    ensures forall x :: x in r.order <==> x in st.order && x != k
  {
    st.(items := st.items - {k}, order := Without(st.order, k))
  }

  /** Storing an entry under its own infoHash keeps the table invariant. */
  lemma PutWellFormed(st: Store, k: string, e: Entry)
    requires WellFormed(st.items, st.order) && e.dto.infoHash == k
    ensures WellFormed(Put(st, k, e).items, Put(st, k, e).order)
  {
    var r := Put(st, k, e);
    if k !in st.items {
      forall i, j | 0 <= i < j < |r.order| ensures r.order[i] != r.order[j] {
        if j == |st.order| {
          assert r.order[i] in st.order;
        }
      }
    }
  }

  /** Removing a key keeps the table invariant. */
  lemma RemoveWellFormed(st: Store, k: string)
    requires WellFormed(st.items, st.order)
    ensures WellFormed(Remove(st, k).items, Remove(st, k).order)
  {
  }

  /** The order with `k` taken out. */
  function Without(order: seq<string>, k: string): (r: seq<string>)
    ensures forall x :: x in r <==> x in order && x != k
    ensures Distinct(order) ==> Distinct(r)
  {
    if order == [] then []
    else if order[0] == k then Without(order[1..], k)
    else
      var rest := Without(order[1..], k);
      assert Distinct(order) ==> order[0] !in order[1..] && Distinct(order[1..]) by {
        if Distinct(order) {
          forall i | 0 <= i < |order[1..]| ensures order[1..][i] != order[0] {
            assert order[1..][i] == order[i + 1];
          }
        }
      }
      DistinctCons(order[0], rest);
      [order[0]] + rest
  }

  /** A single key stays unless it is the one removed. */
  lemma WithoutOne(x: string, k: string)
    ensures Without([x], k) == if x == k then [] else [x]
  {
    assert [x][1..] == [];
  }

  /** Removal works key by key and keeps the remaining keys in their order. */
  lemma {:induction false} WithoutAppend(a: seq<string>, b: seq<string>, k: string)
    ensures Without(a + b, k) == Without(a, k) + Without(b, k)
  {
    if a == [] {
      assert a + b == b;
      assert Without(a, k) + Without(b, k) == Without(b, k);
    } else {
      var ab := a + b;
      assert ab[0] == a[0] && ab[1..] == a[1..] + b;
      var h := if a[0] == k then [] else [a[0]];
      assert Without(ab, k) == h + Without(a[1..] + b, k);
      WithoutAppend(a[1..], b, k);
      assert Without(a, k) == h + Without(a[1..], k);
      ConcatAssoc(h, Without(a[1..], k), Without(b, k));
    }
  }

  lemma DistinctCons(x: string, rest: seq<string>)
    ensures x !in rest && Distinct(rest) ==> Distinct([x] + rest)
  {
    if x !in rest && Distinct(rest) {
      forall i, j | 0 <= i < j < |[x] + rest| ensures ([x] + rest)[i] != ([x] + rest)[j] {
        if i == 0 {
          assert ([x] + rest)[j] == rest[j - 1];
        } else {
          assert ([x] + rest)[i] == rest[i - 1] && ([x] + rest)[j] == rest[j - 1];
        }
      }
    }
  }

  // ------------------------------------------------------------- the index

  /** InitializeAsync's read of index.json: a missing or undeserialisable file is an empty list. */
  function LoadIndex(files: map<string, FileData>, appData: string): seq<TorrentItemDto> {
    var p := IndexPath(appData);
    if p !in files then []
    else match files[p]
      case IndexDocument(items) => items
      case Raw(_) => []
  }

  /** The files after PersistIndexAsync with the given snapshot: on success index.json
      holds the snapshot; on a failure it is as before; the temporary file is gone. */
  function Persisted(files: map<string, FileData>, appData: string, snap: seq<TorrentItemDto>, fault: PersistFault)
    : map<string, FileData>
  {
    var tmp := IndexTempPath(appData);
    if fault == NoFault then (files - {tmp})[IndexPath(appData) := IndexDocument(snap)]
    else files - {tmp}
  }

  /** Index round trip: what a successful persist writes is what the next start reads. */
  lemma PersistThenLoad(files: map<string, FileData>, appData: string, snap: seq<TorrentItemDto>)
    ensures LoadIndex(Persisted(files, appData, snap, NoFault), appData) == snap
  {
  }

  /** A failed persist leaves index.json exactly as it was and removes the temporary file;
      no persist touches any other file. */
  lemma PersistFrame(files: map<string, FileData>, appData: string, snap: seq<TorrentItemDto>, fault: PersistFault)
    ensures IndexTempPath(appData) !in Persisted(files, appData, snap, fault)
    ensures fault != NoFault ==>
      var ix := IndexPath(appData);
      && (ix in Persisted(files, appData, snap, fault) <==> ix in files)
      && (ix in files ==> Persisted(files, appData, snap, fault)[ix] == files[ix])
    ensures forall p :: p != IndexPath(appData) && p != IndexTempPath(appData) ==>
      && (p in Persisted(files, appData, snap, fault) <==> p in files)
      && (p in files ==> Persisted(files, appData, snap, fault)[p] == files[p])
  {
    ArtifactsDistinct(appData, "", "");
  }

  /** The files AddTorrentAsync leaves before persisting: the new manager's fast-resume
      blob is written, then the torrent copy is made from the source unless a copy exists. */
  function Added(files: map<string, FileData>, appData: string, src: string, infoHash: string, blob: FileData)
    : map<string, FileData>
    requires src in files
  {
    Copied(files[FastResumePath(appData, infoHash) := blob], appData, src, infoHash)
  }

  /** SaveTorrentCopy: torrents/<infoHash>.torrent gets the source's bytes unless it exists. */
  function Copied(files: map<string, FileData>, appData: string, src: string, infoHash: string)
    : map<string, FileData>
    requires src in files
  {
    var copy := TorrentCopyPath(appData, infoHash);
    if copy in files then files else files[copy := files[src]]
  }

  /** What an add leaves on disk, persist included: the blob, the torrent copy (an
      existing one untouched, a new one holding the source's bytes), index.json as the
      persist left it, and every other file exactly as it was. */
  lemma AddedFrame(files: map<string, FileData>, appData: string, src: string, infoHash: string,
                   blob: FileData, snap: seq<TorrentItemDto>, fault: PersistFault)
    requires src in files
    ensures var r := Persisted(Added(files, appData, src, infoHash, blob), appData, snap, fault);
      var copy := TorrentCopyPath(appData, infoHash);
      var resume := FastResumePath(appData, infoHash);
      var ix := IndexPath(appData);
      && resume in r && r[resume] == blob
      && copy in r
      && (copy in files ==> r[copy] == files[copy])
      && (copy !in files && src != resume ==> r[copy] == files[src])
      && IndexTempPath(appData) !in r
      && (fault == NoFault ==> LoadIndex(r, appData) == snap)
      && (fault != NoFault ==> (ix in r <==> ix in files) && (ix in files ==> r[ix] == files[ix]))
      && (forall p :: p != copy && p != resume && p != ix && p != IndexTempPath(appData) ==>
            && (p in r <==> p in files)
            && (p in files ==> r[p] == files[p]))
  {
    ArtifactsDistinct(appData, infoHash, infoHash);
    PersistFrame(Added(files, appData, src, infoHash, blob), appData, snap, fault);
  }

  /** Under the table invariant the snapshot lists every stored torrent exactly once. */
  lemma SnapshotMatchesTable(items: map<string, Entry>, order: seq<string>)
    requires WellFormed(items, order)
    ensures forall k :: k in items <==> exists i :: 0 <= i < |order| && Snapshot(items, order)[i].infoHash == k
    ensures forall i, j :: 0 <= i < j < |order| ==> Snapshot(items, order)[i].infoHash != Snapshot(items, order)[j].infoHash
  {
    var snap := Snapshot(items, order);
    forall k | k in items
      ensures exists i :: 0 <= i < |order| && snap[i].infoHash == k
    {
      var i :| 0 <= i < |order| && order[i] == k;
      assert snap[i].infoHash == k;
    }
  }

  // ----------------------------------------------------------- fast resume

  datatype Resumed = Resumed(files: map<string, FileData>, mgr: Manager)

  /** TryLoadFastResumeAsync: nothing when there is no blob; the manager takes a blob the
      engine accepts; a blob it refuses is deleted. */
  function LoadResume(files: map<string, FileData>, appData: string, lib: EngineLibrary, mgr: Manager): (r: Resumed)
    ensures r.mgr == mgr || r.mgr == mgr.(resumeLoaded := true)
    ensures r.files == files || r.files == files - {FastResumePath(appData, mgr.infoHash)}
  {
    var p := FastResumePath(appData, mgr.infoHash);
    if p !in files then Resumed(files, mgr)
    else match files[p]
      case Raw(b) =>
        if lib.acceptsResume(b) then Resumed(files, mgr.(resumeLoaded := true))
        else Resumed(files - {p}, mgr)
      case IndexDocument(_) => Resumed(files - {p}, mgr)
  }

  /** The outcome of TryLoadFastResumeAsync's three cases. */
  lemma LoadResumeCases(files: map<string, FileData>, appData: string, lib: EngineLibrary, mgr: Manager)
    ensures var p := FastResumePath(appData, mgr.infoHash);
      && (p !in files ==> LoadResume(files, appData, lib, mgr) == Resumed(files, mgr))
      && (p in files && files[p].Raw? && lib.acceptsResume(files[p].bytes) ==>
            LoadResume(files, appData, lib, mgr) == Resumed(files, mgr.(resumeLoaded := true)))
      && (p in files && !(files[p].Raw? && lib.acceptsResume(files[p].bytes)) ==>
            LoadResume(files, appData, lib, mgr) == Resumed(files - {p}, mgr))
  {
  }

  // --------------------------------------------------------- reconciliation

  /** Torrent.LoadAsync on a file's contents. */
  function TorrentOf(lib: EngineLibrary, d: FileData): Option<TorrentMeta> {
    match d
    case Raw(b) => lib.loadTorrent(b)
    case IndexDocument(_) => None
  }

  /** An index entry is restored when its torrent copy exists, loads, and the engine
      does not already hold a manager for that torrent. */
  predicate Admits(st: Store, appData: string, lib: EngineLibrary, dto: TorrentItemDto) {
    var copy := TorrentCopyPath(appData, dto.infoHash);
    && copy in st.files
    && TorrentOf(lib, st.files[copy]).Some?
    && TorrentOf(lib, st.files[copy]).value.infoHash !in st.registered
  }

  /** One iteration of InitializeAsync's loop; any failure before the store skips the
      entry. `startFails` holds the index hashes whose StartAsync throws: such an entry
      is already stored, and stays stopped. */
  function ReconcileOne(st: Store, appData: string, lib: EngineLibrary, startFails: set<string>, dto: TorrentItemDto): Store {
    if !Admits(st, appData, lib, dto) then st
    else
      var meta := TorrentOf(lib, st.files[TorrentCopyPath(appData, dto.infoHash)]).value;
      var r1 := LoadResume(st.files, appData, lib, NewManager(meta, dto.savePath));
      var r2 := LoadResume(r1.files, appData, lib, r1.mgr);
      var mgr := if dto.paused || dto.infoHash in startFails then r2.mgr else r2.mgr.(state := Started);
      Put(st.(registered := st.registered + {meta.infoHash}, files := r2.files), dto.infoHash, Entry(mgr, dto))
  }

  /** InitializeAsync's loop over the loaded index list. */
  function Reconcile(st: Store, appData: string, lib: EngineLibrary, startFails: set<string>, list: seq<TorrentItemDto>): Store {
    if list == [] then st
    else ReconcileOne(Reconcile(st, appData, lib, startFails, list[..|list| - 1]), appData, lib, startFails, list[|list| - 1])
  }

  /** A restored entry: started exactly when its dto is not paused and its start
      did not throw. */
  predicate Restored(e: Entry, startFails: set<string>) {
    e.mgr.state == (if e.dto.paused || e.dto.infoHash in startFails then Stopped else Started)
  }

  lemma {:induction false} ReconcileAppend(st: Store, appData: string, lib: EngineLibrary, startFails: set<string>, a: seq<TorrentItemDto>, b: seq<TorrentItemDto>)
    ensures Reconcile(st, appData, lib, startFails, a + b) == Reconcile(Reconcile(st, appData, lib, startFails, a), appData, lib, startFails, b)
    decreases |b|
  {
    if b == [] {
      assert a + b == a;
    } else {
      ReconcileAppend(st, appData, lib, startFails, a, b[..|b| - 1]);
      assert (a + b)[..|a + b| - 1] == a + b[..|b| - 1];
    }
  }

  /** A failure on one entry does not affect the others: reconciling with a failing
      entry gives the same state as reconciling without it. */
  lemma FailedEntryIsSkipped(st: Store, appData: string, lib: EngineLibrary, startFails: set<string>,
                             a: seq<TorrentItemDto>, e: TorrentItemDto, b: seq<TorrentItemDto>)
    requires !Admits(Reconcile(st, appData, lib, startFails, a), appData, lib, e)
    ensures Reconcile(st, appData, lib, startFails, a + [e] + b) == Reconcile(st, appData, lib, startFails, a + b)
  {
    ReconcileAppend(st, appData, lib, startFails, a + [e], b);
    ReconcileAppend(st, appData, lib, startFails, a, b);
    assert (a + [e])[..|a + [e]| - 1] == a;
  }

  lemma ReconcileOneFiles(st: Store, appData: string, lib: EngineLibrary, startFails: set<string>, dto: TorrentItemDto)
    ensures var r := ReconcileOne(st, appData, lib, startFails, dto);
      && r.files.Keys <= st.files.Keys
      && (forall p :: p in r.files ==> r.files[p] == st.files[p])
      && (forall p :: p in st.files && p !in r.files ==> EndsWith(p, ".bin"))
  {
    if Admits(st, appData, lib, dto) {
      var meta := TorrentOf(lib, st.files[TorrentCopyPath(appData, dto.infoHash)]).value;
      FastResumeEnding(appData, meta.infoHash);
    }
  }

  /** Reconciliation only ever deletes fast-resume blobs: every other file, and in
      particular every torrent copy, is left as it was. */
  lemma {:induction false} ReconcileOnlyDropsResumeBlobs(st: Store, appData: string, lib: EngineLibrary, startFails: set<string>, list: seq<TorrentItemDto>)
    ensures var r := Reconcile(st, appData, lib, startFails, list);
      && r.files.Keys <= st.files.Keys
      && (forall p :: p in r.files ==> r.files[p] == st.files[p])
      && (forall p :: p in st.files && p !in r.files ==> EndsWith(p, ".bin"))
    decreases |list|
  {
    if list != [] {
      ReconcileOnlyDropsResumeBlobs(st, appData, lib, startFails, list[..|list| - 1]);
      ReconcileOneFiles(Reconcile(st, appData, lib, startFails, list[..|list| - 1]), appData, lib, startFails, list[|list| - 1]);
    }
  }

  lemma ReconcileOneWellFormed(st: Store, appData: string, lib: EngineLibrary, startFails: set<string>, dto: TorrentItemDto)
    requires WellFormed(st.items, st.order)
    ensures WellFormed(ReconcileOne(st, appData, lib, startFails, dto).items, ReconcileOne(st, appData, lib, startFails, dto).order)
  {
    if Admits(st, appData, lib, dto) {
      var meta := TorrentOf(lib, st.files[TorrentCopyPath(appData, dto.infoHash)]).value;
      var r1 := LoadResume(st.files, appData, lib, NewManager(meta, dto.savePath));
      var r2 := LoadResume(r1.files, appData, lib, r1.mgr);
      var mgr := if dto.paused || dto.infoHash in startFails then r2.mgr else r2.mgr.(state := Started);
      PutWellFormed(st.(registered := st.registered + {meta.infoHash}, files := r2.files), dto.infoHash, Entry(mgr, dto));
    }
  }

  /** The table invariant survives reconciliation. */
  lemma {:induction false} ReconcileWellFormed(st: Store, appData: string, lib: EngineLibrary, startFails: set<string>, list: seq<TorrentItemDto>)
    requires WellFormed(st.items, st.order)
    ensures WellFormed(Reconcile(st, appData, lib, startFails, list).items, Reconcile(st, appData, lib, startFails, list).order)
    decreases |list|
  {
    if list != [] {
      ReconcileWellFormed(st, appData, lib, startFails, list[..|list| - 1]);
      ReconcileOneWellFormed(Reconcile(st, appData, lib, startFails, list[..|list| - 1]), appData, lib, startFails, list[|list| - 1]);
    }
  }

  /** Orphan drop and auto-start: every entry after reconciliation is either one that
      was there before, untouched, or a restored index entry whose torrent copy was on
      disk and loads, and which is started exactly when it is not paused. */
  lemma {:induction false} ReconciledEntries(st: Store, appData: string, lib: EngineLibrary, startFails: set<string>, list: seq<TorrentItemDto>)
    ensures var r := Reconcile(st, appData, lib, startFails, list);
      forall k :: k in r.items ==>
        (k in st.items && r.items[k] == st.items[k])
        || (&& r.items[k].dto in list
            && r.items[k].dto.infoHash == k
            && TorrentCopyPath(appData, k) in st.files
            && TorrentOf(lib, st.files[TorrentCopyPath(appData, k)]).Some?
            && Restored(r.items[k], startFails))
    decreases |list|
  {
    if list != [] {
      var init := list[..|list| - 1];
      var dto := list[|list| - 1];
      var mid := Reconcile(st, appData, lib, startFails, init);
      ReconciledEntries(st, appData, lib, startFails, init);
      ReconcileOnlyDropsResumeBlobs(st, appData, lib, startFails, init);
      var copy := TorrentCopyPath(appData, dto.infoHash);
      if Admits(mid, appData, lib, dto) {
        assert copy in st.files && mid.files[copy] == st.files[copy];
      }
      var r := Reconcile(st, appData, lib, startFails, list);
      forall k | k in r.items && !(k in st.items && r.items[k] == st.items[k])
        ensures r.items[k].dto in list
      {
        if k in mid.items && r.items[k] == mid.items[k] {
          assert mid.items[k].dto in init;
        }
      }
    }
  }

  lemma ReconcileOneKeepsKeys(st: Store, appData: string, lib: EngineLibrary, startFails: set<string>, dto: TorrentItemDto)
    ensures st.items.Keys <= ReconcileOne(st, appData, lib, startFails, dto).items.Keys
  {
  }

  lemma {:induction false} ReconcileKeepsKeys(st: Store, appData: string, lib: EngineLibrary, startFails: set<string>, list: seq<TorrentItemDto>, i: nat)
    requires i <= |list|
    ensures Reconcile(st, appData, lib, startFails, list[..i]).items.Keys <= Reconcile(st, appData, lib, startFails, list).items.Keys
    decreases |list| - i
  {
    if i < |list| {
      ReconcileKeepsKeys(st, appData, lib, startFails, list, i + 1);
      assert list[..i + 1][..i] == list[..i];
      ReconcileOneKeepsKeys(Reconcile(st, appData, lib, startFails, list[..i]), appData, lib, startFails, list[i]);
    } else {
      assert list[..i] == list;
    }
  }

  /** Every index entry admitted when its turn comes is in the map at the end,
      whatever the entries after it do. */
  lemma AdmittedEntryIsRestored(st: Store, appData: string, lib: EngineLibrary, startFails: set<string>, list: seq<TorrentItemDto>, i: nat)
    requires i < |list|
    requires Admits(Reconcile(st, appData, lib, startFails, list[..i]), appData, lib, list[i])
    ensures list[i].infoHash in Reconcile(st, appData, lib, startFails, list).items
  {
    ReconcileKeepsKeys(st, appData, lib, startFails, list, i + 1);
    assert list[..i + 1][..i] == list[..i];
  }
}
