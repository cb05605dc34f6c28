/**
 * Per-file priority selection in TorrentEngineService: the initial selection of
 * AddTorrentAsync and the update of UpdateSelectionAsync. Paths are compared
 * after replacing '\' by '/', ignoring case.
 */
module Selection {
  import opened Wrappers
  import opened Text
  import opened EngineTypes

  /** The comparison key of a path: N(p) folded to upper case. */
  function PathKey(p: string): string {
    FoldCase(NormalizeSeparators(p))
  }

  predicate SamePath(a: string, b: string) {
    PathKey(a) == PathKey(b)
  }

  /** Two paths have the same key exactly when they have the same length and
      agree character by character up to the case of ASCII letters, a backslash
      matching a slash. */
  lemma PathKeyIff(a: string, b: string)
    ensures PathKey(a) == PathKey(b) <==>
      && |a| == |b|
      && forall i :: 0 <= i < |a| ==>
           SameLetterIgnoringCase(a[i], b[i]) || (IsPathSeparator(a[i]) && IsPathSeparator(b[i]))
  {
    var na, nb := NormalizeSeparators(a), NormalizeSeparators(b);
    NormalizeSeparatorsAt(a);
    NormalizeSeparatorsAt(b);
    EqualsIgnoreCaseIff(na, nb);
    if |a| == |b| {
      forall i | 0 <= i < |a|
        ensures SameLetterIgnoringCase(na[i], nb[i]) <==>
                SameLetterIgnoringCase(a[i], b[i]) || (IsPathSeparator(a[i]) && IsPathSeparator(b[i]))
      {
      }
    }
  }

  predicate SameLayout(a: seq<TorrentFile>, b: seq<TorrentFile>) {
    |a| == |b| && forall j :: 0 <= j < |a| ==> a[j].path == b[j].path && a[j].length == b[j].length
  }

  // ------------------------------------------------------ AddTorrentAsync

  /** The `wanted` set: paths of the entries with Download set. */
  predicate IsWanted(selection: seq<FileSelection>, path: string) {
    exists k :: 0 <= k < |selection| && selection[k].download && SamePath(selection[k].path, path)
  }

  /** `selection.First(s => N(s.Path) equals N(path))`, as an index. */
  function FirstEntryFor(selection: seq<FileSelection>, path: string): (r: Option<nat>)
    ensures r.None? ==> forall k :: 0 <= k < |selection| ==> !SamePath(selection[k].path, path)
    ensures r.Some? ==> r.value < |selection| && SamePath(selection[r.value].path, path)
    ensures r.Some? ==> forall k :: 0 <= k < r.value ==> !SamePath(selection[k].path, path)
  {
    if selection == [] then None
    else if SamePath(selection[0].path, path) then Some(0)
    else match FirstEntryFor(selection[1..], path)
      case None => None
      case Some(k) => Some(k + 1)
  }

  /** The priority a file ends with after AddTorrentAsync: the Priority of the first
      entry naming it when some entry naming it has Download set, DoNotDownload otherwise. */
  function InitialPriority(selection: seq<FileSelection>, path: string): Priority {
    if IsWanted(selection, path) then selection[FirstEntryFor(selection, path).value].priority
    else DoNotDownload
  }

  /** The two loops of AddTorrentAsync over mgr.Files: every file to DoNotDownload,
      then, for a non-empty selection, each wanted file to its entry's priority. */
  method SelectFiles(files: seq<TorrentFile>, selection: seq<FileSelection>) returns (r: seq<TorrentFile>)
    ensures SameLayout(r, files)
    ensures forall j :: 0 <= j < |r| ==> r[j].priority == InitialPriority(selection, files[j].path)
    ensures forall j :: 0 <= j < |r| ==> !IsWanted(selection, files[j].path) ==> r[j].priority == DoNotDownload
  {
    r := files;
    var i := 0;
    while i < |r|
      invariant i <= |r| && SameLayout(r, files)
      invariant forall j :: 0 <= j < i ==> r[j].priority == DoNotDownload
    {
      r := r[i := r[i].(priority := DoNotDownload)];
      i := i + 1;
    }
    if |selection| > 0 {
      i := 0;
      while i < |r|
        invariant i <= |r| && SameLayout(r, files)
        invariant forall j :: 0 <= j < i ==> r[j].priority == InitialPriority(selection, files[j].path)
        invariant forall j :: i <= j < |r| ==> r[j].priority == DoNotDownload
      {
        if IsWanted(selection, r[i].path) {
          var k := FirstEntryFor(selection, r[i].path).value;
          r := r[i := r[i].(priority := selection[k].priority)];
        }
        i := i + 1;
      }
    }
  }

  // ------------------------------------------------- UpdateSelectionAsync

  /** `mgr.Files.FirstOrDefault(x => N(x.Path) equals N(path))`, as an index. */
  function FirstFileFor(files: seq<TorrentFile>, path: string): (r: Option<nat>)
    ensures r.None? ==> forall j :: 0 <= j < |files| ==> !SamePath(files[j].path, path)
    ensures r.Some? ==> r.value < |files| && SamePath(files[r.value].path, path)
    ensures r.Some? ==> forall j :: 0 <= j < r.value ==> !SamePath(files[j].path, path)
  {
    if files == [] then None
    else if SamePath(files[0].path, path) then Some(0)
    else match FirstFileFor(files[1..], path)
      case None => None
      case Some(j) => Some(j + 1)
  }

  /** `sel.Download ? sel.Priority : Priority.DoNotDownload` */
  function EntryPriority(s: FileSelection): Priority {
    if s.download then s.priority else DoNotDownload
  }

  /** One entry of the update: the first file it names takes its priority. */
  function ApplyEntry(files: seq<TorrentFile>, s: FileSelection): (r: seq<TorrentFile>)
    ensures SameLayout(r, files)
  {
    match FirstFileFor(files, s.path)
    case None => files
    case Some(j) => files[j := files[j].(priority := EntryPriority(s))]
  }

  /** The entries applied in order. */
  function ApplyEntries(files: seq<TorrentFile>, sels: seq<FileSelection>): (r: seq<TorrentFile>)
    ensures SameLayout(r, files)
  {
    if sels == [] then files
    else ApplyEntry(ApplyEntries(files, sels[..|sels| - 1]), sels[|sels| - 1])
  }

  function ClearAll(files: seq<TorrentFile>): seq<TorrentFile> {
    seq(|files|, j requires 0 <= j < |files| => files[j].(priority := DoNotDownload))
  }

  /** The file table after UpdateSelectionAsync on a known torrent. */
  function UpdatedFiles(files: seq<TorrentFile>, sels: seq<FileSelection>, replace: bool): (r: seq<TorrentFile>)
    ensures SameLayout(r, files)
  {
    ApplyEntries(if replace then ClearAll(files) else files, sels)
  }

  /** The loops of UpdateSelectionAsync. */
  method ApplySelection(files: seq<TorrentFile>, sels: seq<FileSelection>, replace: bool) returns (r: seq<TorrentFile>)
    ensures r == UpdatedFiles(files, sels, replace)
  {
    r := files;
    if replace {
      r := ClearPriorities(files);
    }
    ghost var base := r;
    var k := 0;
    while k < |sels|
      invariant k <= |sels|
      invariant r == ApplyEntries(base, sels[..k])
    {
      ApplyEntriesStep(base, sels, k);
      var sel := sels[k];
      match FirstFileFor(r, sel.path) {
        case None =>
        case Some(j) =>
          r := r[j := r[j].(priority := EntryPriority(sel))];
      }
      k := k + 1;
    }
    assert sels[..|sels|] == sels;
  }

  /** The replace loop: every file to DoNotDownload. */
  method ClearPriorities(files: seq<TorrentFile>) returns (r: seq<TorrentFile>)
    ensures r == ClearAll(files)
  {
    r := files;
    var i := 0;
    while i < |r|
      invariant i <= |r| == |files|
      invariant forall j :: 0 <= j < i ==> r[j] == files[j].(priority := DoNotDownload)
      invariant forall j :: i <= j < |r| ==> r[j] == files[j]
    {
      r := r[i := r[i].(priority := DoNotDownload)];
      i := i + 1;
    }
  }

  lemma ApplyEntriesStep(base: seq<TorrentFile>, sels: seq<FileSelection>, k: nat)
    requires k < |sels|
    ensures ApplyEntries(base, sels[..k + 1]) == ApplyEntry(ApplyEntries(base, sels[..k]), sels[k])
  {
    assert sels[..k + 1][..k] == sels[..k];
  }

  // --------------------------------------------------------------- lemmas

  lemma SameLayoutSameFirst(a: seq<TorrentFile>, b: seq<TorrentFile>, path: string)
    requires SameLayout(a, b)
    ensures FirstFileFor(a, path) == FirstFileFor(b, path)
  {
    var ra, rb := FirstFileFor(a, path), FirstFileFor(b, path);
    if ra.Some? && rb.Some? {
      assert !(ra.value < rb.value) && !(rb.value < ra.value);
    }
  }

  /** The last entry of `sels` whose first matching file is file `j`. */
  function LastEntryFor(files: seq<TorrentFile>, sels: seq<FileSelection>, j: nat): (r: Option<nat>)
    ensures r.Some? ==> r.value < |sels| && FirstFileFor(files, sels[r.value].path) == Some(j)
    ensures r.Some? ==> forall k :: r.value < k < |sels| ==> FirstFileFor(files, sels[k].path) != Some(j)
    ensures r.None? ==> forall k :: 0 <= k < |sels| ==> FirstFileFor(files, sels[k].path) != Some(j)
  {
    if sels == [] then None
    else if FirstFileFor(files, sels[|sels| - 1].path) == Some(j) then Some(|sels| - 1)
    else
      var init := sels[..|sels| - 1];
      assert forall k :: 0 <= k < |init| ==> init[k].path == sels[k].path;
      LastEntryFor(files, init, j)
  }

  /** What UpdateSelectionAsync leaves on file `j`: the priority of the last entry
      that names it first, otherwise DoNotDownload under replace and its old
      priority without replace. Paths and lengths never change. */
  lemma {:induction false} UpdatedPriority(files: seq<TorrentFile>, sels: seq<FileSelection>, replace: bool, j: nat)
    requires j < |files|
    ensures SameLayout(UpdatedFiles(files, sels, replace), files)
    ensures UpdatedFiles(files, sels, replace)[j].priority ==
      match LastEntryFor(files, sels, j)
      case Some(k) => EntryPriority(sels[k])
      case None => if replace then DoNotDownload else files[j].priority
    decreases |sels|
  {
    if sels == [] {
      assert LastEntryFor(files, sels, j).None?;
    } else {
      var init := sels[..|sels| - 1];
      UpdatedPriority(files, init, replace, j);
      UpdatedStep(files, sels, replace, j);
      if FirstFileFor(files, sels[|sels| - 1].path) == Some(j) {
        assert LastEntryFor(files, sels, j) == Some(|sels| - 1);
      } else {
        assert LastEntryFor(files, sels, j) == LastEntryFor(files, init, j);
      }
    }
  }

  /** The last entry of an update decides file `j` when it names that file first, and
      leaves it as the earlier entries did otherwise. */
  lemma UpdatedStep(files: seq<TorrentFile>, sels: seq<FileSelection>, replace: bool, j: nat)
    requires j < |files| && sels != []
    ensures var last := sels[|sels| - 1];
      UpdatedFiles(files, sels, replace)[j].priority ==
        if FirstFileFor(files, last.path) == Some(j) then EntryPriority(last)
        else UpdatedFiles(files, sels[..|sels| - 1], replace)[j].priority
  {
    var base := if replace then ClearAll(files) else files;
    var last := sels[|sels| - 1];
    var prev := ApplyEntries(base, sels[..|sels| - 1]);
    assert prev == UpdatedFiles(files, sels[..|sels| - 1], replace);
    assert UpdatedFiles(files, sels, replace) == ApplyEntry(prev, last);
    SameLayoutSameFirst(prev, files, last.path);
    match FirstFileFor(prev, last.path) {
      case None =>
      case Some(i) =>
        assert ApplyEntry(prev, last) == prev[i := prev[i].(priority := EntryPriority(last))];
    }
  }

  /** An entry given only its Path counts as wanted (Download defaults to true) yet
      excludes its file, at add and at update alike: Priority defaults to DoNotDownload. */
  lemma DefaultEntryExcludes(path: string)
    ensures IsWanted([DefaultSelection(path)], path)
    ensures InitialPriority([DefaultSelection(path)], path) == DoNotDownload
    ensures EntryPriority(DefaultSelection(path)) == DoNotDownload
  {
    assert SamePath([DefaultSelection(path)][0].path, path);
  }

  /** An entry that names no file changes nothing. */
  lemma UnmatchedEntryIgnored(files: seq<TorrentFile>, sels: seq<FileSelection>, s: FileSelection, replace: bool)
    requires FirstFileFor(files, s.path).None?
    ensures UpdatedFiles(files, sels + [s], replace) == UpdatedFiles(files, sels, replace)
  {
    var base := if replace then ClearAll(files) else files;
    assert (sels + [s])[..|sels|] == sels;
    SameLayoutSameFirst(ApplyEntries(base, sels), files, s.path);
  }

  /** Replacing the selection with a single wanted path leaves exactly the first file
      with that path wanted, all others excluded. */
  lemma SelectOnly(files: seq<TorrentFile>, path: string, p: Priority)
    requires p != DoNotDownload
    ensures forall j :: 0 <= j < |files| ==>
      var wanted := UpdatedFiles(files, [FileSelection(path, true, p)], true)[j].priority != DoNotDownload;
      wanted <==> FirstFileFor(files, path) == Some(j)
  {
    var sels := [FileSelection(path, true, p)];
    forall j | 0 <= j < |files|
      ensures UpdatedFiles(files, sels, true)[j].priority != DoNotDownload <==> FirstFileFor(files, path) == Some(j)
    {
      UpdatedPriority(files, sels, true, j);
    }
  }
}
