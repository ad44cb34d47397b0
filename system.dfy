/** The chunked I/O engine of the filesystem driver: writing content piece by
    piece and reading it back chunk by chunk, both reporting progress to an
    optional callback that may abort the transfer, plus directory preparation,
    copy, delete and presence checks on the host filesystem. */
module System {
  import opened Php
  import opened Containers
  import opened Parameters
  import opened Sharding
  import opened Store

  const ChainSizeKey := "chainSize"
  const ReadEventKey := "readEvent"
  const WriteEventKey := "writeEvent"

  /** `callReadEvent` / `callWriteEvent`: with no (falsy) callback the transfer
      goes on; otherwise the callback's verdict on the tracker decides. */
  function CallEvent(event: Value, s: Snapshot): (go: bool)
    ensures !Truthy(event) ==> go
    ensures Truthy(event) && event.Listener? ==> go == event.f(s)
  {
    if Truthy(event) && event.Listener? then event.f(s) else true
  }

  /** The outcome of a transfer: the bytes moved, the snapshots shown to the
      callback after each piece, and whether every piece was accepted. */
  datatype Run = Run(done: string, events: seq<Snapshot>, ok: bool)

  /** Moving `pieces` one after another behind `before` bytes already moved,
      out of `size` in all: after each piece the callback sees the tracker at
      the new total, and a refusal stops the transfer right there. */
  function Stream(pieces: seq<string>, before: string, size: int, event: Value): Run
    decreases |pieces|
  {
    if pieces == [] then Run(before, [], true)
    else
      var now := before + pieces[0];
      var e := Progress(size, |now|);
      if !CallEvent(event, e) then Run(now, [e], false)
      else
        var rest := Stream(pieces[1..], now, size, event);
        Run(rest.done, [e] + rest.events, rest.ok)
  }

  lemma FlattenPrefixCons(p: seq<string>, i: nat)
    requires i < |p|
    ensures Flatten(p[..i + 1]) == p[0] + Flatten(p[1..][..i])
  {
    assert p[..i + 1][1..] == p[1..][..i];
  }

  /** One snapshot per piece moved at most, and the moved bytes are exactly
      the pieces that were moved. */
  lemma {:induction false} StreamDone(p: seq<string>, before: string, size: int, event: Value)
    ensures var r := Stream(p, before, size, event);
      |r.events| <= |p| && r.done == before + Flatten(p[..|r.events|])
    decreases |p|
  {
    if p == [] {
      assert p[..0] == [];
    } else {
      var now := before + p[0];
      FlattenPrefixCons(p, 0);
      assert p[1..][..0] == [];
      if CallEvent(event, Progress(size, |now|)) {
        var rest := Stream(p[1..], now, size, event);
        StreamDone(p[1..], now, size, event);
        FlattenPrefixCons(p, |rest.events|);
      }
    }
  }

  /** Snapshot i shows the running total after piece i. */
  lemma {:induction false} StreamEvents(p: seq<string>, before: string, size: int, event: Value)
    ensures var r := Stream(p, before, size, event);
      |r.events| <= |p| && forall i :: 0 <= i < |r.events| ==> r.events[i] == Progress(size, |before + Flatten(p[..i + 1])|)
    decreases |p|
  {
    StreamDone(p, before, size, event);
    if p != [] {
      var r := Stream(p, before, size, event);
      var now := before + p[0];
      FlattenPrefixCons(p, 0);
      assert p[1..][..0] == [];
      if CallEvent(event, Progress(size, |now|)) {
        var rest := Stream(p[1..], now, size, event);
        StreamEvents(p[1..], now, size, event);
        StreamDone(p[1..], now, size, event);
        forall i | 0 <= i < |r.events|
          ensures r.events[i] == Progress(size, |before + Flatten(p[..i + 1])|)
        {
          if i > 0 {
            FlattenPrefixCons(p, i);
            assert r.events[i] == rest.events[i - 1];
            assert p[1..][..i - 1 + 1] == p[1..][..i];
          }
        }
      }
    }
  }

  lemma ConsShift<T>(x: T, s: seq<T>)
    ensures forall i :: 0 <= i < |s| ==> ([x] + s)[i + 1] == s[i]
  {
  }

  /** The verdict of a transfer is kept when an accepted snapshot is put
      in front of its snapshots. */
  lemma VerdictCons(event: Value, e: Snapshot, rest: seq<Snapshot>, ok: bool, n: int)
    requires CallEvent(event, e)
    requires forall i :: 0 <= i < |rest| - 1 ==> CallEvent(event, rest[i])
    requires ok <==> |rest| == n && forall i :: 0 <= i < |rest| ==> CallEvent(event, rest[i])
    requires !ok ==> |rest| > 0 && !CallEvent(event, rest[|rest| - 1])
    ensures var s := [e] + rest;
      && (forall i :: 0 <= i < |s| - 1 ==> CallEvent(event, s[i]))
      && (ok <==> |s| == n + 1 && forall i :: 0 <= i < |s| ==> CallEvent(event, s[i]))
      && (!ok ==> |s| > 0 && !CallEvent(event, s[|s| - 1]))
  {
    ConsShift(e, rest);
    var s := [e] + rest;
    assert s[0] == e;
    if ok {
      assert forall i :: 0 <= i < |s| ==> CallEvent(event, s[i]) by {
        forall i | 0 <= i < |s| ensures CallEvent(event, s[i]) {
          if i > 0 { assert s[i] == rest[i - 1]; }
        }
      }
    }
  }

  /** Every snapshot but possibly the last was accepted; success means all
      pieces went through, and a failure ends with the one refused snapshot. */
  lemma {:induction false} StreamVerdict(p: seq<string>, before: string, size: int, event: Value)
    ensures var r := Stream(p, before, size, event);
      && (forall i :: 0 <= i < |r.events| - 1 ==> CallEvent(event, r.events[i]))
      && (r.ok <==> |r.events| == |p| && forall i :: 0 <= i < |r.events| ==> CallEvent(event, r.events[i]))
      && (!r.ok ==> |r.events| > 0 && !CallEvent(event, r.events[|r.events| - 1]))
    decreases |p|
  {
    if p != [] {
      var r := Stream(p, before, size, event);
      var now := before + p[0];
      var e := Progress(size, |now|);
      if !CallEvent(event, e) {
        assert r.events == [e] && !CallEvent(event, r.events[0]);
      } else {
        var rest := Stream(p[1..], now, size, event);
        StreamVerdict(p[1..], now, size, event);
        StreamDone(p[1..], now, size, event);
        assert r.events == [e] + rest.events && r.ok == rest.ok;
        VerdictCons(event, e, rest.events, rest.ok, |p| - 1);
      }
    }
  }

  /** Without a callback nothing is refused: the whole content is moved and one
      snapshot is reported per piece. */
  lemma NoListenerMovesAll(p: seq<string>, before: string, size: int, event: Value)
    requires !Truthy(event)
    ensures Stream(p, before, size, event).ok
    ensures Stream(p, before, size, event).done == before + Flatten(p)
    ensures |Stream(p, before, size, event).events| == |p|
  {
    StreamDone(p, before, size, event);
    StreamVerdict(p, before, size, event);
    assert p[..|p|] == p;
  }

  /** A transfer of content cut into `k`-byte pieces has moved a prefix of it,
      the whole content when it succeeded. */
  lemma ChunkedDone(c: string, k: nat, event: Value)
    requires k >= 1
    ensures var r := Stream(Groups(c, k), "", |c|, event);
      && 0 <= Min(|r.events| * k, |c|) <= |c|
      && r.done == c[..Min(|r.events| * k, |c|)]
      && (r.ok ==> r.done == c)
  {
    var g := Groups(c, k);
    var r := Stream(g, "", |c|, event);
    NatProduct(|r.events|, k);
    StreamDone(g, "", |c|, event);
    StreamVerdict(g, "", |c|, event);
    GroupsPrefix(c, k, |r.events|);
    assert "" + Flatten(g[..|r.events|]) == Flatten(g[..|r.events|]);
    if r.ok {
      GroupsCount(c, k);
      assert c[..|c|] == c;
    }
  }

  /** Snapshot i of such a transfer shows min((i+1)*k, size) bytes. */
  lemma ChunkedEvents(c: string, k: nat, event: Value)
    requires k >= 1
    ensures var r := Stream(Groups(c, k), "", |c|, event);
      forall i :: 0 <= i < |r.events| ==> r.events[i] == Progress(|c|, Min((i + 1) * k, |c|))
  {
    var g := Groups(c, k);
    var r := Stream(g, "", |c|, event);
    StreamEvents(g, "", |c|, event);
    forall i | 0 <= i < |r.events|
      ensures r.events[i] == Progress(|c|, Min((i + 1) * k, |c|))
    {
      GroupsPrefix(c, k, i + 1);
      assert "" + Flatten(g[..i + 1]) == Flatten(g[..i + 1]);
    }
  }

  /** `str_split` and `fread` demand a positive chunk length. */
  predicate ChainSizeOk(params: map<string, Value>)
  {
    IntOf(Get(params, ChainSizeKey)) >= 1
  }

  function ChunkSize(params: map<string, Value>): nat
    requires ChainSizeOk(params)
  {
    IntOf(Get(params, ChainSizeKey))
  }

  /** What saving leaves behind: the verdict, the snapshots the write callback
      saw, and the new files. */
  datatype Saving = Saving(ok: bool, events: seq<Snapshot>, files: map<string, string>)

  /** Saving `content` as `path/name` over `files` in directories `dirs`: the
      file cannot be opened unless `path` is a directory and the name is not
      one; the callback first sees the tracker at zero bytes and then one
      snapshot per piece; only a complete transfer keeps the file. */
  function SaveOutcome(files: map<string, string>, dirs: set<string>, params: map<string, Value>,
                       path: string, name: string, content: string): (s: Saving)
    requires ChainSizeOk(params)
    ensures s.ok ==> s.files == files[path + "/" + name := content]
    ensures !s.ok ==> s.files == files - {path + "/" + name}
    ensures s.ok ==> |s.events| == 1 + |Groups(content, ChunkSize(params))|
  {
    var full := path + "/" + name;
    var start := Progress(|content|, 0);
    var event := Get(params, WriteEventKey);
    if !(path in dirs && full !in dirs) then Saving(false, [], files - {full})
    else if !CallEvent(event, start) then Saving(false, [start], files - {full})
    else
      var r := Stream(Groups(content, ChunkSize(params)), "", |content|, event);
      StreamDone(Groups(content, ChunkSize(params)), "", |content|, event);
      StreamVerdict(Groups(content, ChunkSize(params)), "", |content|, event);
      Saving(r.ok, [start] + r.events, if r.ok then files[full := content] else files - {full})
  }

  /** What reading gives: the content or false, and the snapshots the read
      callback saw. */
  datatype Reading = Reading(content: Option<string>, events: seq<Snapshot>)

  /** Reading `full` from `files`: nothing for a missing or empty file; else
      the callback sees the tracker at zero bytes and then one snapshot per
      chunk, and the content comes back only if no snapshot was refused. */
  function ReadOutcome(files: map<string, string>, params: map<string, Value>, full: string): (r: Reading)
    requires ChainSizeOk(params)
    ensures r.content.Some? ==> full in files && r.content.value == files[full] && files[full] != ""
    ensures r.events == [] <==> full !in files || files[full] == ""
  {
    if full in files && |files[full]| > 0 then
      var data := files[full];
      var start := Progress(|data|, 0);
      var event := Get(params, ReadEventKey);
      if !CallEvent(event, start) then Reading(None, [start])
      else
        var r := Stream(Groups(data, ChunkSize(params)), "", |data|, event);
        Reading(if r.ok then Some(data) else None, [start] + r.events)
    else Reading(None, [])
  }

  /** Without a read callback a stored non-empty file reads back whole, with
      one snapshot for the start and one per chunk. */
  lemma ReadWithoutListener(files: map<string, string>, params: map<string, Value>, full: string)
    requires ChainSizeOk(params) && !Truthy(Get(params, ReadEventKey))
    requires full in files && files[full] != ""
    ensures ReadOutcome(files, params, full).content == Some(files[full])
    ensures |ReadOutcome(files, params, full).events| == 1 + |Groups(files[full], ChunkSize(params))|
  {
    NoListenerMovesAll(Groups(files[full], ChunkSize(params)), "", |files[full]|, Get(params, ReadEventKey));
  }

  /** Reading back what was just saved, with the same callback for reading
      and writing, returns the content and reports exactly the snapshots the
      save reported; saved empty content cannot be read back. */
  lemma SaveThenRead(files: map<string, string>, dirs: set<string>, params: map<string, Value>,
                     path: string, name: string, content: string)
    requires ChainSizeOk(params) && Get(params, ReadEventKey) == Get(params, WriteEventKey)
    requires SaveOutcome(files, dirs, params, path, name, content).ok
    ensures var s := SaveOutcome(files, dirs, params, path, name, content);
      var back := ReadOutcome(s.files, params, path + "/" + name);
      && (content != "" ==> back.content == Some(content) && back.events == s.events)
      && (content == "" ==> back.content == None && back.events == [])
  {
  }

  /** `tryWriteResource`: writes the content in pieces of the configured chain
      size to the file just opened, updating the tracker and asking the write
      callback after every piece; closing the file always succeeds here. */
  method TryWriteResource(disk: Disk, params: map<string, Value>, full: string, content: string, chain: ChainElement)
    returns (ok: bool, events: seq<Snapshot>)
    requires ChainSizeOk(params)
    requires full in disk.files && disk.files[full] == ""
    requires chain.size == |content| && chain.Tracks()
    modifies disk, chain
    ensures var r := Stream(Groups(content, ChunkSize(params)), "", |content|, Get(params, WriteEventKey));
      ok == r.ok && events == r.events && disk.files == old(disk.files)[full := r.done]
    ensures disk.dirs == old(disk.dirs) && disk.modes == old(disk.modes)
  {
    var k := ChunkSize(params);
    var event := Get(params, WriteEventKey);
    var pieces := Groups(content, k);
    ghost var whole := Stream(pieces, "", |content|, event);
    var saved := 0;
    ghost var acc := "";
    ok := true;
    events := [];
    var i := 0;
    assert old(disk.files)[full := ""] == old(disk.files);
    while i < |pieces| && ok
      invariant 0 <= i <= |pieces|
      invariant disk.files == old(disk.files)[full := acc]
      invariant disk.dirs == old(disk.dirs) && disk.modes == old(disk.modes)
      invariant saved == |acc| && chain.size == |content| && chain.Tracks()
      invariant ok ==> var rest := Stream(pieces[i..], acc, |content|, event);
        whole == Run(rest.done, events + rest.events, rest.ok)
      invariant !ok ==> whole == Run(acc, events, false)
      decreases |pieces| - i
    {
      var piece := pieces[i];
      assert pieces[i..][0] == piece && pieces[i..][1..] == pieces[i + 1..];
      var written := disk.Append(full, piece);
      saved := saved + written;
      acc := acc + piece;
      var tracker := chain.Update(saved);
      var s := tracker.ToArray();
      ok := CallEvent(event, s);
      events := events + [s];
      i := i + 1;
    }
    assert ok ==> pieces[i..] == [];
  }

  /** Removing a key forgets what it was last set to. */
  lemma UpdateRemove<K, V>(m: map<K, V>, k: K, v: V)
    ensures m[k := v] - {k} == m - {k}
  {
  }

  /** The transfer part of `saveFile`: opening `path/name` for writing, the
      snapshot at zero bytes and the pieces. The file is left behind, full or
      partly written, whenever it could be opened. */
  method WriteContent(disk: Disk, params: map<string, Value>, path: string, name: string, content: string)
    returns (result: bool, events: seq<Snapshot>)
    requires ChainSizeOk(params)
    requires disk.Valid()
    modifies disk
    ensures var s := SaveOutcome(old(disk.files), old(disk.dirs), params, path, name, content);
      result == s.ok && events == s.events
    ensures var full := path + "/" + name;
      && (result ==> disk.files == old(disk.files)[full := content])
      && (!result ==> disk.files - {full} == old(disk.files) - {full})
      && (full in disk.files <==> old(disk.CanCreate(path, full)) || full in old(disk.files))
    ensures disk.dirs == old(disk.dirs) && disk.modes == old(disk.modes) && disk.Valid()
  {
    var full := path + "/" + name;
    var event := Get(params, WriteEventKey);
    ghost var before := disk.files;
    var fp := disk.OpenWrite(path, full);
    var chain := new ChainElement.Start(|content|);
    var start := chain.ToArray();
    result := false;
    events := [];
    if fp {
      events := [start];
      if CallEvent(event, start) {
        var more;
        result, more := TryWriteResource(disk, params, full, content, chain);
        events := events + more;
        ChunkedDone(content, ChunkSize(params), event);
      }
    }
    assert !result ==> disk.files - {full} == before - {full} by {
      if !result && fp {
        UpdateRemove(before, full, "");
      }
    }
  }

  /** `saveFile`: opens `path/name` for writing, shows the callback the tracker
      at zero bytes, then writes the pieces. A refused or failed transfer
      removes the file; a stored file gets the octal `mode`. Because the
      failure flag becomes the integer 0 when the file is removed, `chmod` is
      still attempted on the removed file, and fails. */
  method SaveFile(disk: Disk, params: map<string, Value>, path: string, name: string, content: string, mode: Value)
    returns (ok: bool, events: seq<Snapshot>)
    requires ChainSizeOk(params)
    requires disk.Valid()
    modifies disk
    ensures var s := SaveOutcome(old(disk.files), old(disk.dirs), params, path, name, content);
      ok == s.ok && events == s.events && disk.files == s.files
    ensures var full := path + "/" + name;
      && (ok ==> disk.modes == old(disk.modes)[full := OctDec(StrOf(mode))])
      && (!ok && old(disk.CanCreate(path, full) || full in disk.files) ==> disk.modes == old(disk.modes) - {full})
      && (!ok && !old(disk.CanCreate(path, full) || full in disk.files) ==> disk.modes == old(disk.modes))
    ensures disk.dirs == old(disk.dirs) && disk.Valid()
  {
    var m := OctDec(StrOf(mode));
    var full := path + "/" + name;
    var result;
    result, events := WriteContent(disk, params, path, name, content);
    // `$result &= unlink(...)` leaves the integer 0, which is not identical to false
    var zeroed := false;
    if !result && disk.IsFile(full) {
      var _ := disk.Unlink(full);
      zeroed := true;
    }
    if result || zeroed {
      ok := disk.Chmod(full, m);
    } else {
      ok := false;
    }
  }

  /** Moving pieces i.. behind `acc`: piece i goes first, and the rest
      follows unless its snapshot is refused. */
  lemma StreamStep(p: seq<string>, i: nat, acc: string, size: int, event: Value)
    requires i < |p|
    ensures var now := acc + p[i];
      var e := Progress(size, |now|);
      var rest := Stream(p[i + 1..], now, size, event);
      Stream(p[i..], acc, size, event) == if CallEvent(event, e) then Run(rest.done, [e] + rest.events, rest.ok) else Run(now, [e], false)
  {
    assert p[i..][0] == p[i] && p[i..][1..] == p[i + 1..];
  }

  /** A read at offset min(i*k, |data|) before the end of the data returns
      piece i and moves the offset to min((i+1)*k, |data|), which is the end
      exactly when piece i is the last. */
  lemma ChunkStep(data: string, k: nat, i: nat, pos: nat)
    requires k >= 1 && pos == Min(i * k, |data|) && pos < |data|
    ensures i < |Groups(data, k)| && pos == i * k
    ensures data[pos .. Min(pos + k, |data|)] == Groups(data, k)[i]
    ensures Min(pos + k, |data|) == Min((i + 1) * k, |data|)
    ensures i + 1 < |Groups(data, k)| <==> Min(pos + k, |data|) < |data|
    ensures data[..pos] + data[pos .. Min(pos + k, |data|)] == data[..Min(pos + k, |data|)]
  {
    GroupsCount(data, k);
    ChunkArith(|data|, k, |Groups(data, k)|, i, pos);
    GroupAt(data, k, i);
    SliceJoin(data, pos, Min(pos + k, |data|));
  }

  /** The arithmetic of `ChunkStep`, for `n` pieces of `k` covering `len`. */
  lemma ChunkArith(len: nat, k: nat, n: nat, i: nat, pos: nat)
    requires k >= 1 && (n - 1) * k < len <= n * k
    requires pos == Min(i * k, len) && pos < len
    ensures i < n && pos == i * k
    ensures Min(pos + k, len) == Min((i + 1) * k, len)
    ensures i + 1 < n <==> pos + k < len
  {
    if i >= n {
      MulLe(n, i, k);
    }
    assert i * k + k == (i + 1) * k;
    if i + 1 < n {
      MulLe(i + 1, n - 1, k);
    }
  }

  lemma SliceJoin<T>(s: seq<T>, a: nat, b: nat)
    requires a <= b <= |s|
    ensures s[..a] + s[a..b] == s[..b]
  {
  }

  /** One pass of the read loop: `fread` of the next chunk appended to what
      was read, and the tracker updated to the new length. */
  method ReadChunk(disk: Disk, full: string, pos: nat, k: nat, acc: string, chain: ChainElement)
    returns (more: string, s: Snapshot)
    requires full in disk.files && pos < |disk.files[full]| && k >= 1
    requires acc == disk.files[full][..pos]
    requires chain.size == |disk.files[full]| && chain.Tracks()
    modifies chain
    ensures more == acc + disk.files[full][pos .. Min(pos + k, |disk.files[full]|)]
    ensures more == disk.files[full][..Min(pos + k, |disk.files[full]|)]
    ensures s == Progress(|disk.files[full]|, |more|)
    ensures chain.size == old(chain.size) && chain.Tracks()
  {
    var data := disk.files[full];
    var chunk := disk.Read(full, pos, k);
    assert data[..pos] + chunk == data[..Min(pos + k, |data|)];
    more := acc + chunk;
    var tracker := chain.Update(|more|);
    s := tracker.ToArray();
  }

  /** `tryReadResource`: reads chunks of the configured chain size until the
      end of the file, asking the read callback after each; a refusal gives
      false. An empty file gives false too, but only because `feof` is taken
      as "offset has reached the size": PHP's `feof` is false before the first
      read, so PHP reads an empty file once, reports one snapshot and returns
      "" when the callback accepts. `readFile` never hands it an empty file. */
  method TryReadResource(disk: Disk, params: map<string, Value>, full: string, chain: ChainElement)
    returns (content: Option<string>, events: seq<Snapshot>)
    requires ChainSizeOk(params)
    requires full in disk.files
    requires chain.size == |disk.files[full]| && chain.Tracks()
    modifies chain
    ensures var data := disk.files[full];
      var r := Stream(Groups(data, ChunkSize(params)), "", |data|, Get(params, ReadEventKey));
      && events == r.events
      && content == if r.ok && data != [] then Some(data) else None
  {
    var k := ChunkSize(params);
    var event := Get(params, ReadEventKey);
    var size := |disk.files[full]|;
    ghost var data := disk.files[full];
    ghost var pieces := Groups(data, k);
    ghost var whole := Stream(pieces, "", size, event);
    GroupsCount(data, k);
    var pos := 0;
    var acc := "";
    content := None;
    events := [];
    var go := true;
    ghost var i := 0;
    while pos < size && go
      invariant 0 <= i <= |pieces|
      invariant pos == Min(i * k, size) && acc == data[..pos]
      invariant go && pos >= size ==> i == |pieces|
      invariant chain.size == size && chain.Tracks()
      invariant content == if go && i > 0 then Some(acc) else None
      invariant go ==> var rest := Stream(pieces[i..], acc, size, event);
        whole == Run(rest.done, events + rest.events, rest.ok)
      invariant !go ==> whole == Run(acc, events, false)
      decreases size - pos
    {
      ChunkStep(data, k, i, pos);
      StreamStep(pieces, i, acc, size, event);
      ghost var before := events;
      var s;
      acc, s := ReadChunk(disk, full, pos, k, acc, chain);
      pos := |acc|;
      content := Some(acc);
      events := events + [s];
      i := i + 1;
      go := CallEvent(event, s);
      if !go {
        content := None;
      } else {
        ghost var rest := Stream(pieces[i..], acc, size, event);
        assert before + ([s] + rest.events) == events + rest.events;
      }
    }
    if go {
      assert pieces[i..] == [];
      assert data[..size] == data;
    }
  }

  /** `readFile`: the content of `path/name`, or false when the file is
      missing or empty, when the callback refuses the tracker at zero bytes,
      or when it refuses a later chunk. Nothing on the disk changes. */
  method ReadFile(disk: Disk, params: map<string, Value>, path: string, name: string)
    returns (content: Option<string>, events: seq<Snapshot>)
    requires ChainSizeOk(params)
    ensures Reading(content, events) == ReadOutcome(disk.files, params, path + "/" + name)
  {
    var full := path + "/" + name;
    content := None;
    events := [];
    if full in disk.files && |disk.files[full]| > 0 {
      var chain := new ChainElement.Start(|disk.files[full]|);
      var start := chain.ToArray();
      events := [start];
      if CallEvent(Get(params, ReadEventKey), start) {
        var more;
        content, more := TryReadResource(disk, params, full, chain);
        events := events + more;
      }
    }
  }

  /** `preCheckFullPath`: the full path when it already is a directory; when
      it is not, false if the start path is a directory and a thrown error
      otherwise. */
  function PreCheckFullPath(disk: Disk, path: string, dirs: seq<string>): (r: Reply<string>)
    reads disk
    ensures r.Ok? <==> disk.IsDir(GetFullPath(path, dirs))
    ensures r.Ok? ==> r.value == GetFullPath(path, dirs)
    ensures r.Thrown? <==> !disk.IsDir(GetFullPath(path, dirs)) && !disk.IsDir(path)
    ensures r.Thrown? ==> r.message == path + " is not a directory"
  {
    var fullPath := GetFullPath(path, dirs);
    if disk.IsDir(fullPath) then Ok(fullPath)
    else if !disk.IsDir(path) then Thrown(path + " is not a directory")
    else False
  }

  /** `prepareOneElementDirectory`: makes sure `path`, which lies in directory
      `parent`, is a directory, creating it with `mode` when it is missing;
      the error is the thrown message. */
  method PrepareOneElementDirectory(disk: Disk, parent: string, path: string, mode: nat) returns (thrown: Option<string>)
    requires disk.Valid()
    modifies disk
    ensures disk.Valid() && disk.files == old(disk.files)
    ensures old(disk.IsDir(path)) ==> thrown == None && disk.dirs == old(disk.dirs) && disk.modes == old(disk.modes)
    ensures !old(disk.IsDir(path)) && (path in disk.files || !old(disk.IsDir(parent))) ==>
      thrown == Some("Can not create directory " + path) && disk.dirs == old(disk.dirs) && disk.modes == old(disk.modes)
    ensures !old(disk.IsDir(path)) && path !in disk.files && old(disk.IsDir(parent)) ==>
      thrown == None && disk.dirs == old(disk.dirs) + {path} && disk.modes == old(disk.modes)[path := mode]
  {
    thrown := None;
    if !disk.IsDir(path) {
      var made := disk.Mkdir(parent, path);
      var changed := false;
      if made {
        changed := disk.Chmod(path, mode);
      }
      if !made || !changed {
        thrown := Some("Can not create directory " + path);
      }
    }
  }

  /** The errors directory preparation throws: the start is not a directory,
      or one level of the path cannot be created. */
  predicate PrepareError(start: string, dirs: seq<string>, message: string)
  {
    || message == start + " is not a directory"
    || exists j :: 1 <= j <= |dirs| && message == "Can not create directory " + Extend(start, dirs[..j])
  }

  /** The directories the slow branch of `prepareFullPath` may create: the
      start extended by the first j names, for j = 1 .. n. */
  ghost function Prefixes(start: string, dirs: seq<string>, n: nat): set<string>
    requires n <= |dirs|
  {
    set j | 1 <= j <= n :: Extend(start, dirs[..j])
  }

  /** One more level adds one more prefix. */
  lemma PrefixesGrow(start: string, dirs: seq<string>, i: nat)
    requires i < |dirs|
    ensures Prefixes(start, dirs, i + 1) == Prefixes(start, dirs, i) + {Extend(start, dirs[..i + 1])}
  {
    var next := Prefixes(start, dirs, i + 1);
    assert Extend(start, dirs[..i + 1]) in next;
    assert Prefixes(start, dirs, i) <= next;
  }

  /** The full path is none of the directories created before its last level. */
  lemma NotAPrefix(start: string, dirs: seq<string>, i: nat)
    requires i < |dirs|
    ensures Extend(start, dirs) !in Prefixes(start, dirs, i)
  {
    forall j | 1 <= j <= i
      ensures Extend(start, dirs[..j]) != Extend(start, dirs)
    {
      ExtendLonger(start, dirs, j);
    }
  }

  /** `prepareFullPath`: the directory for the names under `start`. An
      existing full path is returned as it is; otherwise the start must be a
      directory and each missing level is created in turn with the octal
      `mode`, stopping with a thrown error at the first that cannot be. No
      file changes, only the prefixes of the path are created, and each new
      directory gets the mode. */
  method PrepareFullPath(disk: Disk, start: string, dirs: seq<string>, mode: Value) returns (r: Reply<string>)
    requires disk.Valid()
    modifies disk
    ensures disk.Valid() && disk.files == old(disk.files)
    ensures !r.False?
    ensures old(PreCheckFullPath(disk, start, dirs)) != False ==>
      r == old(PreCheckFullPath(disk, start, dirs)) && disk.dirs == old(disk.dirs) && disk.modes == old(disk.modes)
    ensures old(disk.dirs) <= disk.dirs && disk.dirs - old(disk.dirs) <= Prefixes(start, dirs, |dirs|)
    ensures forall q :: q in disk.dirs - old(disk.dirs) ==> q in disk.modes && disk.modes[q] == OctDec(StrOf(mode))
    ensures forall q :: q !in disk.dirs - old(disk.dirs) ==>
      (q in disk.modes <==> q in old(disk.modes)) && (q in disk.modes ==> disk.modes[q] == old(disk.modes)[q])
    ensures r.Ok? ==> disk.IsDir(r.value)
    ensures r.Thrown? && dirs != [] ==> !disk.IsDir(GetFullPath(start, dirs))
    ensures r.Ok? && dirs != [] ==> r.value == GetFullPath(start, dirs)
    ensures r.Ok? && dirs == [] ==> r.value == if old(disk.IsDir(start + "/")) then start + "/" else start
    ensures r.Ok? && old(PreCheckFullPath(disk, start, dirs)) == False ==>
      forall j :: 1 <= j <= |dirs| ==> Extend(start, dirs[..j]) in disk.dirs
    ensures r.Thrown? ==> PrepareError(start, dirs, r.message)
    ensures r.Thrown? && r.message != start + " is not a directory" ==>
      exists j :: 1 <= j <= |dirs| && Extend(start, dirs[..j]) in disk.files
        && r.message == "Can not create directory " + Extend(start, dirs[..j])
  {
    var m := OctDec(StrOf(mode));
    // `clearFileCache`: this store keeps no stat cache to clear
    var ready := PreCheckFullPath(disk, start, dirs);
    assert dirs == [] ==> GetFullPath(start, dirs) == start + "/";
    if ready != False {
      return ready;
    }
    var p := start;
    var i := 0;
    while i < |dirs|
      invariant 0 <= i <= |dirs|
      invariant p == Extend(start, dirs[..i])
      invariant disk.Valid() && disk.files == old(disk.files) && disk.IsDir(p)
      invariant old(disk.dirs) <= disk.dirs && disk.dirs - old(disk.dirs) <= Prefixes(start, dirs, i)
      invariant forall q :: q in disk.dirs - old(disk.dirs) ==> q in disk.modes && disk.modes[q] == m
      invariant forall q :: q !in disk.dirs - old(disk.dirs) ==>
        (q in disk.modes <==> q in old(disk.modes)) && (q in disk.modes ==> disk.modes[q] == old(disk.modes)[q])
      invariant forall j :: 1 <= j <= i ==> Extend(start, dirs[..j]) in disk.dirs
      invariant !old(disk.IsDir(GetFullPath(start, dirs)))
    {
      assert dirs[..i + 1][..i] == dirs[..i];
      var parent := p;
      p := p + "/" + dirs[i];
      assert p == Extend(start, dirs[..i + 1]);
      ghost var before := disk.dirs;
      var thrown := PrepareOneElementDirectory(disk, parent, p, m);
      if thrown.Some? {
        ExtendIsFullPath(start, dirs);
        NotAPrefix(start, dirs, i);
        return Thrown(thrown.value);
      }
      forall q | q !in disk.dirs - old(disk.dirs)
        ensures (q in disk.modes <==> q in old(disk.modes)) && (q in disk.modes ==> disk.modes[q] == old(disk.modes)[q])
      {
        assert q !in before - old(disk.dirs);
      }
      PrefixesGrow(start, dirs, i);
      assert disk.dirs - old(disk.dirs) <= (before - old(disk.dirs)) + {p};
      i := i + 1;
    }
    assert dirs[..i] == dirs;
    if dirs != [] {
      ExtendIsFullPath(start, dirs);
    }
    r := Ok(p);
  }

  /** `copyFile`: copies `sourcePath/name` to `destPath/destName`, or to the
      same name when `destName` is empty; copying a file onto itself fails,
      as PHP's `copy` does. */
  method CopyFile(disk: Disk, sourcePath: string, destPath: string, name: string, destName: string) returns (ok: bool)
    requires disk.Valid()
    modifies disk
    ensures var src := sourcePath + "/" + name;
      var dst := destPath + "/" + (if destName == "" then name else destName);
      && (ok <==> src in old(disk.files) && src != dst && old(disk.CanCreate(destPath, dst)))
      && disk.files == if ok then old(disk.files)[dst := old(disk.files)[src]] else old(disk.files)
    ensures disk.dirs == old(disk.dirs) && disk.modes == old(disk.modes) && disk.Valid()
  {
    var target := if destName == "" then name else destName;
    ok := disk.Copy(sourcePath + "/" + name, destPath, destPath + "/" + target);
  }

  /** `isFilePresent`. */
  function IsFilePresent(disk: Disk, path: string, name: string): (present: bool)
    reads disk
    ensures present <==> path + "/" + name in disk.files
  {
    disk.IsFile(path + "/" + name)
  }

  /** `deleteFile`: removes `path/name`, failing when there is no such file. */
  method DeleteFile(disk: Disk, path: string, name: string) returns (ok: bool)
    requires disk.Valid()
    modifies disk
    ensures ok <==> path + "/" + name in old(disk.files)
    ensures disk.files == old(disk.files) - {path + "/" + name}
    ensures disk.dirs == old(disk.dirs) && disk.Valid()
    ensures disk.modes == if ok then old(disk.modes) - {path + "/" + name} else old(disk.modes)
  {
    ok := disk.Unlink(path + "/" + name);
  }

  /** 40842 bytes in pieces of 8192: five snapshots after the start one, at
      8192, 16384, 24576, 32768 and 40842 bytes; in one 65536-byte piece: a
      single snapshot at 40842. */
  lemma LongContentEvents(c: string, event: Value)
    requires |c| == 40842 && !Truthy(event)
    ensures Stream(Groups(c, 8192), "", 40842, event).events ==
      [Progress(40842, 8192), Progress(40842, 16384), Progress(40842, 24576),
       Progress(40842, 32768), Progress(40842, 40842)]
    ensures Stream(Groups(c, 65536), "", 40842, event).events == [Progress(40842, 40842)]
  {
    GroupsCount(c, 8192);
    GroupsCount(c, 65536);
    NoListenerMovesAll(Groups(c, 8192), "", 40842, event);
    NoListenerMovesAll(Groups(c, 65536), "", 40842, event);
    ChunkedEvents(c, 8192, event);
    ChunkedEvents(c, 65536, event);
  }

  /** The snapshot shown after piece i of `p` moved behind `before`. */
  function After(p: seq<string>, before: string, size: int, i: nat): Snapshot
    requires i < |p|
  {
    Progress(size, |before + Flatten(p[..i + 1])|)
  }

  /** A transfer whose callback accepts the snapshots of the first j pieces
      and refuses that of piece j stops after piece j. */
  lemma {:induction false} StreamStop(p: seq<string>, before: string, size: int, event: Value, j: nat)
    requires j < |p|
    requires forall i :: 0 <= i < j ==> CallEvent(event, After(p, before, size, i))
    requires !CallEvent(event, After(p, before, size, j))
    ensures var r := Stream(p, before, size, event);
      !r.ok && |r.events| == j + 1 && r.done == before + Flatten(p[..j + 1])
    decreases j
  {
    FlattenPrefixCons(p, 0);
    assert p[1..][..0] == [];
    var now := before + p[0];
    if j > 0 {
      assert CallEvent(event, After(p, before, size, 0));
      forall i | 0 <= i <= j - 1
        ensures After(p, before, size, i + 1) == After(p[1..], now, size, i)
      {
        FlattenPrefixCons(p, i + 1);
      }
      StreamStop(p[1..], now, size, event, j - 1);
      FlattenPrefixCons(p, j);
    }
  }

  /** The snapshot after piece i of a transfer in `k`-byte pieces. */
  function ChunkSnapshot(size: nat, k: nat, i: nat): Snapshot
  {
    Progress(size, Min((i + 1) * k, size))
  }

  /** The same, for content cut into `k`-byte pieces. */
  lemma ChunkedStop(c: string, k: nat, event: Value, j: nat)
    requires k >= 1 && j < |Groups(c, k)|
    requires forall i :: 0 <= i < j ==> CallEvent(event, ChunkSnapshot(|c|, k, i))
    requires !CallEvent(event, ChunkSnapshot(|c|, k, j))
    ensures var r := Stream(Groups(c, k), "", |c|, event);
      !r.ok && |r.events| == j + 1 && r.done == c[..Min((j + 1) * k, |c|)]
  {
    var g := Groups(c, k);
    forall i | 0 <= i <= j
      ensures After(g, "", |c|, i) == ChunkSnapshot(|c|, k, i)
    {
      ChunkAfter(c, k, i);
    }
    ChunkAfter(c, k, j);
    StreamStop(g, "", |c|, event, j);
  }

  /** After piece i of a transfer in `k`-byte pieces the first
      min((i+1)*k, size) bytes have moved. */
  lemma ChunkAfter(c: string, k: nat, i: nat)
    requires k >= 1 && i < |Groups(c, k)|
    ensures "" + Flatten(Groups(c, k)[..i + 1]) == c[..Min((i + 1) * k, |c|)]
    ensures After(Groups(c, k), "", |c|, i) == ChunkSnapshot(|c|, k, i)
  {
    GroupsPrefix(c, k, i + 1);
    assert "" + Flatten(Groups(c, k)[..i + 1]) == Flatten(Groups(c, k)[..i + 1]);
  }

  /** A callback that refuses any tracker past 60 %. */
  const UpToSixty: Value := Listener((s: Snapshot) => s.completed <= 0.6)

  /** A callback refusing any tracker past 60 % stops a transfer of 40842
      bytes in pieces of 8192 at the third piece, at 24576 bytes. */
  lemma ThresholdAbort(c: string)
    requires |c| == 40842
    ensures var r := Stream(Groups(c, 8192), "", 40842, UpToSixty);
      && !r.ok
      && r.events == [Progress(40842, 8192), Progress(40842, 16384), Progress(40842, 24576)]
      && r.done == c[..24576]
  {
    GroupsCount(c, 8192);
    ChunkedEvents(c, 8192, UpToSixty);
    assert forall i :: 0 <= i < 2 ==> CallEvent(UpToSixty, ChunkSnapshot(40842, 8192, i));
    ChunkedStop(c, 8192, UpToSixty, 2);
  }
}
