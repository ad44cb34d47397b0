/** The host filesystem as the driver sees it through PHP's file functions:
    regular files by full path, the set of existing directories, and the
    permission bits set by `chmod`. Paths are compared as plain strings, and
    the directory a path lies in is named by the caller. */
module Store {

  class Disk {
    var files: map<string, string>
    var dirs: set<string>
    var modes: map<string, nat>

    constructor (files: map<string, string>, dirs: set<string>)
      requires forall p :: p in files ==> p !in dirs
      ensures Valid()
      ensures this.files == files && this.dirs == dirs && modes == map[]
    {
      this.files := files;
      this.dirs := dirs;
      modes := map[];
    }

    /** No path is both a regular file and a directory. */
    predicate Valid()
      reads this
    {
      forall p :: p in files ==> p !in dirs
    }

    /** `is_dir`. */
    predicate IsDir(p: string)
      reads this
    {
      p in dirs
    }

    /** `is_file`. */
    predicate IsFile(p: string)
      reads this
    {
      p in files
    }

    /** Whether `fopen(full, 'w')` succeeds for a file in directory `parent`:
        the directory exists and the name is not itself a directory. */
    predicate CanCreate(parent: string, full: string)
      reads this
    {
      parent in dirs && full !in dirs
    }

    /** `fopen(full, 'w')`: creates or truncates the file. */
    method OpenWrite(parent: string, full: string) returns (ok: bool)
      modifies this
      ensures ok == old(CanCreate(parent, full))
      ensures files == if ok then old(files)[full := ""] else old(files)
      ensures dirs == old(dirs) && modes == old(modes)
    {
      ok := CanCreate(parent, full);
      if ok {
        files := files[full := ""];
      }
    }

    /** `fwrite` of a whole piece to an open file; returns the bytes written. */
    method Append(full: string, piece: string) returns (written: nat)
      requires full in files
      modifies this
      ensures written == |piece|
      ensures files == old(files)[full := old(files)[full] + piece]
      ensures dirs == old(dirs) && modes == old(modes)
    {
      files := files[full := files[full] + piece];
      written := |piece|;
    }

    /** `unlink`: succeeds exactly when the file exists. */
    method Unlink(full: string) returns (ok: bool)
      modifies this
      ensures ok == (full in old(files))
      ensures files == old(files) - {full}
      ensures dirs == old(dirs)
      ensures modes == if ok then old(modes) - {full} else old(modes)
    {
      ok := full in files;
      if ok {
        files := files - {full};
        modes := modes - {full};
      }
    }

    /** `chmod`: succeeds on an existing file or directory. */
    method Chmod(p: string, mode: nat) returns (ok: bool)
      modifies this
      ensures ok == (p in old(files) || p in old(dirs))
      ensures files == old(files) && dirs == old(dirs)
      ensures modes == if ok then old(modes)[p := mode] else old(modes)
    {
      ok := p in files || p in dirs;
      if ok {
        modes := modes[p := mode];
      }
    }

    /** `mkdir` of one level `p` in directory `parent`, not recursive: fails
        when the parent is no directory or the path is taken. */
    method Mkdir(parent: string, p: string) returns (ok: bool)
      modifies this
      ensures ok == (parent in old(dirs) && p !in old(files) && p !in old(dirs))
      ensures files == old(files) && modes == old(modes)
      ensures dirs == if ok then old(dirs) + {p} else old(dirs)
    {
      ok := parent in dirs && p !in files && p !in dirs;
      if ok {
        dirs := dirs + {p};
      }
    }

    /** `copy(src, dst)` where `dst` lies in directory `parent`; copying a
        file onto itself fails. */
    method Copy(src: string, parent: string, dst: string) returns (ok: bool)
      modifies this
      ensures ok == (src in old(files) && src != dst && old(CanCreate(parent, dst)))
      ensures files == if ok then old(files)[dst := old(files)[src]] else old(files)
      ensures dirs == old(dirs) && modes == old(modes)
    {
      ok := src in files && src != dst && CanCreate(parent, dst);
      if ok {
        files := files[dst := files[src]];
      }
    }

    /** `fread(fp, k)` at byte offset `pos` of an open file. */
    function Read(full: string, pos: nat, k: nat): (chunk: string)
      reads this
      requires full in files && pos <= |files[full]|
      ensures |chunk| <= k
    {
      var data := files[full];
      data[pos .. if pos + k <= |data| then pos + k else |data|]
    }
  }
}
