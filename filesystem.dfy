/** The filesystem driver: content addressed by an identifier and a name is
    kept as a file under the directory the identifier shards to, below the
    configured resource path. Every operation first prepares that directory. */
module Filesystem {
  import opened Php
  import opened Containers
  import opened Parameters
  import Ident
  import opened Sharding
  import opened Store
  import opened System

  const ResourcePathKey := "resourcePath"
  const ResourceUrlKey := "resourceUrl"
  const DirModeKey := "dirMode"
  const FileModeKey := "fileMode"
  const NoFileCacheKey := "noFileCache"

  /** The PARAMS constant of the driver. */
  const Defaults: map<string, Value> := map[
    ResourcePathKey := Null,
    ResourceUrlKey := Null,
    DirModeKey := Int(775),
    FileModeKey := Int(775),
    NoFileCacheKey := Bool(false),
    StrictKey := Bool(true),
    ChainSizeKey := Int(65536),
    ReadEventKey := Bool(false),
    WriteEventKey := Bool(false)
  ]

  /** The defaults give directories and files the octal mode 775, read and
      write in 64 KiB chunks without callbacks, and are strict. */
  lemma DefaultSettings()
    ensures OctDec(StrOf(Defaults[DirModeKey])) == 509
    ensures OctDec(StrOf(Defaults[FileModeKey])) == 509
    ensures ChainSizeOk(Defaults) && ChunkSize(Defaults) == 65536
    ensures !Truthy(Get(Defaults, ReadEventKey)) && !Truthy(Get(Defaults, WriteEventKey))
    ensures Truthy(Get(Defaults, StrictKey))
  {
    assert StrOf(Int(775)) == "775" by {
      assert NatString(775) == NatString(77) + "5";
      assert NatString(77) == NatString(7) + "7";
    }
    OctDecOfThreeDigits('7', '7', '5');
    assert Get(Defaults, StrictKey) == Bool(true);
    assert Get(Defaults, ChainSizeKey) == Int(65536);
  }

  /** The configured resource path and resource URL, as strings. */
  function Root(params: map<string, Value>): string
  {
    StrOf(Get(params, ResourcePathKey))
  }

  function Url(params: map<string, Value>): string
  {
    StrOf(Get(params, ResourceUrlKey))
  }

  /** The directory holding the files of an identifier with directory names `dirs`. */
  function Home(params: map<string, Value>, dirs: seq<string>): string
  {
    GetFullPath(Root(params), dirs)
  }

  predicate Strict(params: map<string, Value>)
  {
    Truthy(Get(params, StrictKey))
  }

  class Filesystem {
    const config: Params
    const disk: Disk

    constructor (given: map<string, Value>, disk: Disk)
      ensures fresh(config) && this.disk == disk
      ensures config.defaults == Defaults && config.params == Merge(Defaults, given)
    {
      config := new Params(Defaults, given);
      this.disk := disk;
    }

    /** The directory preparation every operation starts with. */
    method Prepare(ident: Ident.CsmIdent) returns (dirs: seq<string>, path: Reply<string>)
      requires disk.Valid()
      modifies disk
      ensures dirs == PathAsArray(ident.segments)
      ensures disk.Valid() && disk.files == old(disk.files) && old(disk.dirs) <= disk.dirs
      ensures !path.False?
      ensures path.Thrown? ==> PrepareError(Root(config.params), dirs, path.message)
      ensures path.Ok? && dirs != [] ==> path.value == Home(config.params, dirs) && disk.IsDir(path.value)
      ensures path.Thrown? && dirs != [] ==> !disk.IsDir(Home(config.params, dirs))
      ensures old(disk.IsDir(Home(config.params, dirs))) && dirs != [] ==>
        path == Ok(Home(config.params, dirs)) && disk.dirs == old(disk.dirs)
    {
      dirs := GetPathAsArray(ident.segments);
      path := PrepareFullPath(disk, StrOf(config.GetParam(ResourcePathKey)), dirs, config.GetParam(DirModeKey));
    }

    /** `get`: the stored content, or the read error (thrown when strict,
        false otherwise). `lastError` stands for PHP's report of the last
        error, which ends the message. */
    method Get(ident: Ident.CsmIdent, name: string, lastError: string) returns (r: Reply<string>, events: seq<Snapshot>)
      requires disk.Valid() && ChainSizeOk(config.params)
      modifies disk
      ensures disk.Valid() && disk.files == old(disk.files) && old(disk.dirs) <= disk.dirs
      ensures r.Thrown? ==>
        || PrepareError(Root(config.params), PathAsArray(ident.segments), r.message)
        || (Strict(config.params) && r.message == "Can not read file " + lastError)
      ensures r.False? ==> !Strict(config.params)
      ensures var dirs := PathAsArray(ident.segments);
        r.Ok? && dirs != [] ==>
          var full := Home(config.params, dirs) + "/" + name;
          full in disk.files && r.value == disk.files[full] && r.value != ""
      ensures var dirs := PathAsArray(ident.segments);
        dirs != [] && !disk.IsDir(Home(config.params, dirs)) ==> r.Thrown? && events == []
      ensures var dirs := PathAsArray(ident.segments);
        dirs != [] && disk.IsDir(Home(config.params, dirs)) ==>
          var out := ReadOutcome(disk.files, config.params, Home(config.params, dirs) + "/" + name);
          && events == out.events
          && r == if out.content.Some? then Ok(out.content.value)
                  else GenerateError(Strict(config.params), "Can not read file " + lastError)
    {
      var dirs, path := Prepare(ident);
      events := [];
      if path.Thrown? {
        return Thrown(path.message), events;
      }
      var content;
      content, events := ReadFile(disk, config.params, path.value, name);
      if content.None? {
        r := GenerateError(Truthy(config.GetParam(StrictKey)), "Can not read file " + lastError);
      } else {
        r := Ok(content.value);
      }
    }

    /** `set`: stores the content with the configured file mode, or gives the
        save error (thrown when strict, false otherwise). */
    method Set(ident: Ident.CsmIdent, content: string, name: string, lastError: string) returns (r: Reply<bool>, events: seq<Snapshot>)
      requires disk.Valid() && ChainSizeOk(config.params)
      modifies disk
      ensures disk.Valid() && old(disk.dirs) <= disk.dirs
      ensures r != Ok(false) && (r.False? ==> !Strict(config.params))
      ensures r.Thrown? ==>
        || PrepareError(Root(config.params), PathAsArray(ident.segments), r.message)
        || (Strict(config.params) && r.message == "Can not save file " + lastError)
      ensures var dirs := PathAsArray(ident.segments);
        r == Ok(true) && dirs != [] ==>
          var home := Home(config.params, dirs);
          disk.IsDir(home) && disk.files == old(disk.files)[home + "/" + name := content]
      ensures var dirs := PathAsArray(ident.segments);
        dirs != [] && !disk.IsDir(Home(config.params, dirs)) ==>
          r.Thrown? && events == [] && disk.files == old(disk.files)
      ensures var dirs := PathAsArray(ident.segments);
        dirs != [] && disk.IsDir(Home(config.params, dirs)) ==>
          var s := SaveOutcome(old(disk.files), disk.dirs, config.params, Home(config.params, dirs), name, content);
          && disk.files == s.files && events == s.events
          && r == if s.ok then Ok(true) else GenerateError(Strict(config.params), "Can not save file " + lastError)
    {
      var dirs, path := Prepare(ident);
      events := [];
      if path.Thrown? {
        return Thrown(path.message), events;
      }
      var ok;
      ok, events := SaveFile(disk, config.params, path.value, name, content, config.GetParam(FileModeKey));
      if !ok {
        r := GenerateError(Truthy(config.GetParam(StrictKey)), "Can not save file " + lastError);
      } else {
        r := Ok(true);
      }
    }

    /** `delete`: removes the file, or gives the delete error. */
    method Delete(ident: Ident.CsmIdent, name: string, lastError: string) returns (r: Reply<bool>)
      requires disk.Valid()
      modifies disk
      ensures disk.Valid() && old(disk.dirs) <= disk.dirs
      ensures r != Ok(false) && (r.False? ==> !Strict(config.params))
      ensures r.Thrown? ==>
        || PrepareError(Root(config.params), PathAsArray(ident.segments), r.message)
        || (Strict(config.params) && r.message == "Can not delete file " + lastError)
      ensures var dirs := PathAsArray(ident.segments);
        dirs != [] && !disk.IsDir(Home(config.params, dirs)) ==>
          r.Thrown? && disk.files == old(disk.files)
      ensures var dirs := PathAsArray(ident.segments);
        dirs != [] && disk.IsDir(Home(config.params, dirs)) ==>
          var full := Home(config.params, dirs) + "/" + name;
          && disk.files == old(disk.files) - {full}
          && r == if full in old(disk.files) then Ok(true)
                  else GenerateError(Strict(config.params), "Can not delete file " + lastError)
    {
      var dirs, path := Prepare(ident);
      if path.Thrown? {
        return Thrown(path.message);
      }
      var ok := DeleteFile(disk, path.value, name);
      if !ok {
        r := GenerateError(Truthy(config.GetParam(StrictKey)), "Can not delete file " + lastError);
      } else {
        r := Ok(true);
      }
    }

    /** `isPresent`: whether the file exists, after preparing its directory. */
    method IsPresent(ident: Ident.CsmIdent, name: string) returns (r: Reply<bool>)
      requires disk.Valid()
      modifies disk
      ensures disk.Valid() && disk.files == old(disk.files) && old(disk.dirs) <= disk.dirs
      ensures !r.False?
      ensures r.Thrown? ==> PrepareError(Root(config.params), PathAsArray(ident.segments), r.message)
      ensures var dirs := PathAsArray(ident.segments);
        r.Ok? && dirs != [] ==> (r.value <==> Home(config.params, dirs) + "/" + name in disk.files)
      ensures var dirs := PathAsArray(ident.segments);
        dirs != [] && old(disk.IsDir(Home(config.params, dirs))) ==>
          r == Ok(Home(config.params, dirs) + "/" + name in disk.files)
    {
      var dirs, path := Prepare(ident);
      if path.Thrown? {
        return Thrown(path.message);
      }
      r := Ok(IsFilePresent(disk, path.value, name));
    }

    /** `getPreparedUrl`: the public URL of the file, built from the resource
        URL and the same directory names; in strict mode only for a file that
        exists, false otherwise. */
    method GetPreparedUrl(ident: Ident.CsmIdent, name: string) returns (r: Reply<string>)
      requires disk.Valid()
      modifies disk
      ensures disk.Valid() && disk.files == old(disk.files) && old(disk.dirs) <= disk.dirs
      ensures r.Thrown? ==> PrepareError(Root(config.params), PathAsArray(ident.segments), r.message)
      ensures r.Ok? ==> r.value == GetFullPath(Url(config.params), PathAsArray(ident.segments)) + "/" + name
      ensures !r.Thrown? && !Strict(config.params) ==> r.Ok?
      ensures var dirs := PathAsArray(ident.segments);
        !r.Thrown? && dirs != [] ==>
          (r.Ok? <==> !Strict(config.params) || Home(config.params, dirs) + "/" + name in disk.files)
    {
      var url := StrOf(config.GetParam(ResourceUrlKey));
      var dirs, path := Prepare(ident);
      if path.Thrown? {
        return Thrown(path.message);
      }
      if !Truthy(config.GetParam(StrictKey)) || IsFilePresent(disk, path.value, name) {
        r := Ok(GetFullPath(url, dirs) + "/" + name);
      } else {
        r := False;
      }
    }

    /** `copy`: copies the file of one identifier to the directory of another,
        under `destName` or, when that is empty, under the same name. */
    method Copy(source: Ident.CsmIdent, dest: Ident.CsmIdent, name: string, destName: string, lastError: string) returns (r: Reply<bool>)
      requires disk.Valid()
      modifies disk
      ensures disk.Valid() && old(disk.dirs) <= disk.dirs
      ensures r != Ok(false) && (r.False? ==> !Strict(config.params))
      ensures r.Thrown? ==>
        || PrepareError(Root(config.params), PathAsArray(source.segments), r.message)
        || PrepareError(Root(config.params), PathAsArray(dest.segments), r.message)
        || (Strict(config.params) && r.message == "Can not copy file " + lastError)
      ensures var from := PathAsArray(source.segments);
        var to := PathAsArray(dest.segments);
        r == Ok(true) && from != [] && to != [] ==>
          var src := Home(config.params, from) + "/" + name;
          var dst := Home(config.params, to) + "/" + (if destName == "" then name else destName);
          src in old(disk.files) && disk.files == old(disk.files)[dst := old(disk.files)[src]]
      ensures r != Ok(true) ==> disk.files == old(disk.files)
      ensures var from := PathAsArray(source.segments);
        var to := PathAsArray(dest.segments);
        from != [] && to != [] && disk.IsDir(Home(config.params, from)) && disk.IsDir(Home(config.params, to)) ==>
          var src := Home(config.params, from) + "/" + name;
          var dst := Home(config.params, to) + "/" + (if destName == "" then name else destName);
          r == if src in old(disk.files) && src != dst && dst !in disk.dirs then Ok(true)
               else GenerateError(Strict(config.params), "Can not copy file " + lastError)
    {
      var from, sourcePath := Prepare(source);
      if sourcePath.Thrown? {
        return Thrown(sourcePath.message);
      }
      var to, destPath := Prepare(dest);
      if destPath.Thrown? {
        return Thrown(destPath.message);
      }
      var ok := CopyFile(disk, sourcePath.value, destPath.value, name, destName);
      if !ok {
        r := GenerateError(Truthy(config.GetParam(StrictKey)), "Can not copy file " + lastError);
      } else {
        r := Ok(true);
      }
    }
  }
}
