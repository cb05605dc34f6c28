/**
 * Paths: where the session layer keeps its artifacts, all derived from the
 * LocalApplicationData folder (an input here) and, per torrent, its infoHash.
 * Path.Combine is modelled with its Windows rules.
 */
module Paths {

  predicate IsSeparator(c: char) {
    c == '\\' || c == '/'
  }

  /** Path.IsPathRooted on Windows: a leading separator or a drive letter and a colon. */
  predicate IsRooted(p: string) {
    (|p| >= 1 && IsSeparator(p[0]))
    || (|p| >= 2 && p[1] == ':' && (('a' <= p[0] <= 'z') || ('A' <= p[0] <= 'Z')))
  }

  /** Path.Combine(a, b) */
  function Combine(a: string, b: string): string {
    if a == "" then b
    else if b == "" then a
    else if IsRooted(b) then b
    else if IsSeparator(a[|a| - 1]) then a + b
    else a + "\\" + b
  }

  /** Path.Combine(a, b, c) */
  function Combine3(a: string, b: string, c: string): string {
    Combine(Combine(a, b), c)
  }

  /** A single path segment: no separator and no drive colon (a hex infoHash is one). */
  predicate IsSegment(h: string) {
    forall i :: 0 <= i < |h| ==> !IsSeparator(h[i]) && h[i] != ':'
  }

  function AppDataRoot(appData: string): string {
    Combine(appData, "TorrentDownloader")
  }

  function MetadataCacheDir(appData: string): string {
    Combine3(AppDataRoot(appData), "cache", "metadata")
  }

  function FastResumePath(appData: string, infoHash: string): string {
    Combine3(AppDataRoot(appData), "fastresume", infoHash + ".bin")
  }

  function TorrentCopyPath(appData: string, infoHash: string): string {
    Combine3(AppDataRoot(appData), "torrents", infoHash + ".torrent")
  }

  function IndexPath(appData: string): string {
    Combine(AppDataRoot(appData), "index.json")
  }

  /** The temporary file of the index write: `indexPath + ".tmp"`. */
  function IndexTempPath(appData: string): string {
    IndexPath(appData) + ".tmp"
  }

  predicate EndsWith(s: string, suffix: string) {
    |s| >= |suffix| && s[|s| - |suffix|..] == suffix
  }

  // ------------------------------------------------------------------ lemmas

  lemma CombineEndsWith(a: string, b: string)
    ensures EndsWith(Combine(a, b), b)
  {
    if a != "" && b != "" && !IsRooted(b) {
      if IsSeparator(a[|a| - 1]) {
        assert (a + b)[|a + b| - |b|..] == b;
      } else {
        assert (a + "\\" + b)[|a + "\\" + b| - |b|..] == b;
      }
    }
  }

  lemma RootShape(appData: string)
    ensures AppDataRoot(appData) != ""
    ensures !IsSeparator(AppDataRoot(appData)[|AppDataRoot(appData)| - 1])
  {
    CombineEndsWith(appData, "TorrentDownloader");
  }

  /** The two ways the source names the temporary index file name the same file:
      `indexPath + ".tmp"` and Path.Combine(AppDataRoot, "index.json.tmp"). */
  lemma TempPathAgrees(appData: string)
    ensures IndexTempPath(appData) == Combine(AppDataRoot(appData), "index.json.tmp")
  {
    RootShape(appData);
  }

  /** Under a segment infoHash each artifact path is the root, a fixed directory and the file name. */
  lemma ArtifactShapes(appData: string, h: string)
    requires IsSegment(h)
    ensures FastResumePath(appData, h) == AppDataRoot(appData) + "\\fastresume\\" + h + ".bin"
    ensures TorrentCopyPath(appData, h) == AppDataRoot(appData) + "\\torrents\\" + h + ".torrent"
  {
    RootShape(appData);
    var r := AppDataRoot(appData);
    assert !IsRooted(h + ".bin") by {
      if |h| >= 1 { assert (h + ".bin")[0] == h[0]; }
      if |h| >= 2 { assert (h + ".bin")[1] == h[1]; }
      if |h| == 1 { assert (h + ".bin")[1] == '.'; }
    }
    assert !IsRooted(h + ".torrent") by {
      if |h| >= 1 { assert (h + ".torrent")[0] == h[0]; }
      if |h| >= 2 { assert (h + ".torrent")[1] == h[1]; }
      if |h| == 1 { assert (h + ".torrent")[1] == '.'; }
    }
  }

  /** Distinct segment hashes get distinct fast-resume files. */
  lemma FastResumePathInjective(appData: string, h1: string, h2: string)
    requires IsSegment(h1) && IsSegment(h2)
    requires FastResumePath(appData, h1) == FastResumePath(appData, h2)
    ensures h1 == h2
  {
    ArtifactShapes(appData, h1);
    ArtifactShapes(appData, h2);
    var pre := AppDataRoot(appData) + "\\fastresume\\";
    var p1, p2 := pre + h1 + ".bin", pre + h2 + ".bin";
    assert |h1| == |h2|;
    assert h1 == p1[|pre|..|pre| + |h1|];
    assert h2 == p2[|pre|..|pre| + |h2|];
  }

  /** Distinct segment hashes get distinct torrent copies. */
  lemma TorrentCopyPathInjective(appData: string, h1: string, h2: string)
    requires IsSegment(h1) && IsSegment(h2)
    requires TorrentCopyPath(appData, h1) == TorrentCopyPath(appData, h2)
    ensures h1 == h2
  {
    ArtifactShapes(appData, h1);
    ArtifactShapes(appData, h2);
    var pre := AppDataRoot(appData) + "\\torrents\\";
    var p1, p2 := pre + h1 + ".torrent", pre + h2 + ".torrent";
    assert |h1| == |h2|;
    assert h1 == p1[|pre|..|pre| + |h1|];
    assert h2 == p2[|pre|..|pre| + |h2|];
  }

  lemma EndsWithAppended(a: string, b: string, suffix: string)
    requires EndsWith(b, suffix)
    ensures EndsWith(a + b, suffix)
  {
    assert (a + b)[|a + b| - |suffix|..] == b[|b| - |suffix|..];
  }

  /** Two names whose last four characters differ are different names. */
  lemma EndingsDiffer(x: string, y: string, sx: string, sy: string)
    requires |sx| == 4 && |sy| == 4 && sx != sy
    requires EndsWith(x, sx) && EndsWith(y, sy)
    ensures x != y
  {
  }

  /** A fast-resume file name always ends in ".bin". */
  lemma FastResumeEnding(appData: string, h: string)
    ensures EndsWith(FastResumePath(appData, h), ".bin")
  {
    CombineEndsWith(Combine(AppDataRoot(appData), "fastresume"), h + ".bin");
    EndsWithAppended(h, ".bin", ".bin");
  }

  /** A torrent copy's name always ends in ".torrent". */
  lemma TorrentCopyEnding(appData: string, h: string)
    ensures EndsWith(TorrentCopyPath(appData, h), ".torrent")
    ensures EndsWith(TorrentCopyPath(appData, h), "rent")
  {
    CombineEndsWith(Combine(AppDataRoot(appData), "torrents"), h + ".torrent");
    EndsWithAppended(h, ".torrent", ".torrent");
    SuffixOfSuffix(TorrentCopyPath(appData, h), h + ".torrent", ".torrent");
    SuffixOfSuffix(TorrentCopyPath(appData, h), ".torrent", "rent");
  }

  lemma SuffixOfSuffix(x: string, y: string, z: string)
    requires EndsWith(x, y) && EndsWith(y, z)
    ensures EndsWith(x, z)
  {
    assert x[|x| - |z|..] == x[|x| - |y|..][|y| - |z|..];
  }

  lemma IndexEndings(appData: string)
    ensures EndsWith(IndexPath(appData), "json")
    ensures EndsWith(IndexTempPath(appData), ".tmp")
    ensures EndsWith(MetadataCacheDir(appData), "data")
  {
    CombineEndsWith(AppDataRoot(appData), "index.json");
    var ix := IndexPath(appData);
    assert ix[|ix| - 4..] == ix[|ix| - 10..][6..];
    EndsWithAppended(ix, ".tmp", ".tmp");
    CombineEndsWith(Combine(AppDataRoot(appData), "cache"), "metadata");
    var mc := MetadataCacheDir(appData);
    assert mc[|mc| - 4..] == mc[|mc| - 8..][4..];
  }

  /** The artifact files of the session store never collide, whatever the hashes:
      their names end differently. */
  lemma ArtifactsDistinct(appData: string, h1: string, h2: string)
    ensures FastResumePath(appData, h1) != TorrentCopyPath(appData, h2)
    ensures FastResumePath(appData, h1) != IndexPath(appData)
    ensures FastResumePath(appData, h1) != IndexTempPath(appData)
    ensures TorrentCopyPath(appData, h2) != IndexPath(appData)
    ensures TorrentCopyPath(appData, h2) != IndexTempPath(appData)
    ensures IndexPath(appData) != IndexTempPath(appData)
    ensures MetadataCacheDir(appData) != FastResumePath(appData, h1)
    ensures MetadataCacheDir(appData) != TorrentCopyPath(appData, h2)
  {
    var fr, tc := FastResumePath(appData, h1), TorrentCopyPath(appData, h2);
    var ix, tmp, mc := IndexPath(appData), IndexTempPath(appData), MetadataCacheDir(appData);
    FastResumeEnding(appData, h1);
    TorrentCopyEnding(appData, h2);
    IndexEndings(appData);
    EndingsDiffer(fr, tc, ".bin", "rent");
    EndingsDiffer(fr, ix, ".bin", "json");
    EndingsDiffer(fr, tmp, ".bin", ".tmp");
    EndingsDiffer(tc, ix, "rent", "json");
    EndingsDiffer(tc, tmp, "rent", ".tmp");
    EndingsDiffer(ix, tmp, "json", ".tmp");
    EndingsDiffer(mc, fr, "data", ".bin");
    EndingsDiffer(mc, tc, "data", "rent");
  }
}
