/**
 * The file system the session store works on: a map from path to contents and a
 * set of directories. The index file's JSON text is represented by the list it
 * encodes (IndexDocument); anything else is raw bytes, which do not deserialise
 * as an index.
 */
module FileSystem {
  import opened Models
  import opened Paths

  datatype FileData = Raw(bytes: seq<bv8>) | IndexDocument(items: seq<TorrentItemDto>)

  /** `p` lies inside directory `dir`. */
  predicate IsUnder(p: string, dir: string) {
    |p| > |dir| && p[..|dir|] == dir && IsSeparator(p[|dir|])
  }

  class Disk {
    var files: map<string, FileData>
    var dirs: set<string>

    constructor (files: map<string, FileData>, dirs: set<string>)
      ensures this.files == files && this.dirs == dirs
    {
      this.files := files;
      this.dirs := dirs;
    }

    /** File.Create / File.WriteAllText: create or overwrite. */
    method WriteFile(p: string, d: FileData)
      modifies this
      ensures files == old(files)[p := d] && dirs == old(dirs)
    {
      files := files[p := d];
    }

    /** `if (File.Exists(p)) File.Delete(p)` */
    method DeleteIfExists(p: string)
      modifies this
      ensures files == old(files) - {p} && dirs == old(dirs)
    {
      files := files - {p};
    }

    /** File.Copy(src, dst, overwrite: true) */
    method Copy(src: string, dst: string)
      requires src in files
      modifies this
      ensures files == old(files)[dst := old(files)[src]] && dirs == old(dirs)
    {
      files := files[dst := files[src]];
    }

    /** File.Move(src, dst): fails when dst exists. */
    method Move(src: string, dst: string)
      requires src in files && dst !in files
      modifies this
      ensures files == (old(files) - {src})[dst := old(files)[src]] && dirs == old(dirs)
    {
      files := (files - {src})[dst := files[src]];
    }

    /** File.Replace(src, dst, null): dst takes src's contents, src disappears, no backup. */
    method Replace(src: string, dst: string)
      requires src in files && dst in files && src != dst
      modifies this
      ensures files == (old(files) - {src})[dst := old(files)[src]] && dirs == old(dirs)
    {
      files := (files - {src})[dst := files[src]];
    }

    /** Directory.CreateDirectory (the parents are not tracked). */
    method CreateDirectory(d: string)
      modifies this
      ensures dirs == old(dirs) + {d} && files == old(files)
    {
      dirs := dirs + {d};
    }

    /** Directory.Delete(d, recursive: true) */
    method DeleteTree(d: string)
      requires d in dirs
      modifies this
      ensures dirs == set x | x in old(dirs) && x != d && !IsUnder(x, d)
      ensures files == map p | p in old(files) && !IsUnder(p, d) :: old(files)[p]
    {
      dirs := set x | x in dirs && x != d && !IsUnder(x, d);
      files := map p | p in files && !IsUnder(p, d) :: files[p];
    }
  }
}
