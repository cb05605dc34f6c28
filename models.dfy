/**
 * TorrentItemDto: the record kept per managed torrent and written to the index.
 * Progress, DownSpeed and UpSpeed (doubles refreshed by the stats timer) are not
 * part of this model; the long counters are unbounded integers.
 */
module Models {

  const StatusQueued := "Queued"
  const StatusDownloading := "Downloading"
  const StatusPaused := "Paused"
  const StatusStopped := "Stopped"

  datatype TorrentItemDto = TorrentItemDto(
    infoHash: string,     // init-only
    name: string,         // init-only
    torrentPath: string,  // init-only
    savePath: string,
    downloaded: int,
    uploaded: int,
    totalSize: int,
    status: string,
    paused: bool)

  /** An object initializer that sets only the init-only properties: every other
      property keeps its declared default. */
  function NewTorrentItem(infoHash: string, name: string, torrentPath: string): (d: TorrentItemDto)
    ensures d.infoHash == infoHash && d.name == name && d.torrentPath == torrentPath
    ensures d.savePath == "" && d.downloaded == 0 && d.uploaded == 0 && d.totalSize == 0
    ensures d.status == StatusQueued && !d.paused
  {
    TorrentItemDto(infoHash, name, torrentPath, "", 0, 0, 0, StatusQueued, false)
  }

  /** The init-only properties: fixed once the record is built. */
  predicate SameIdentity(a: TorrentItemDto, b: TorrentItemDto) {
    a.infoHash == b.infoHash && a.name == b.name && a.torrentPath == b.torrentPath
  }

  /** Assigning the settable Paused and Status properties. */
  function WithState(d: TorrentItemDto, paused: bool, status: string): (r: TorrentItemDto)
    ensures SameIdentity(r, d) && r.savePath == d.savePath
    ensures r.downloaded == d.downloaded && r.uploaded == d.uploaded && r.totalSize == d.totalSize
    ensures r.paused == paused && r.status == status
  {
    d.(paused := paused, status := status)
  }
}
