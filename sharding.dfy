/** Path sharding (the `Helper` trait): an identifier becomes a list of
    sanitized directory names, segment by segment, and a list of names becomes
    a path under a start directory. */
module Sharding {
  import opened Php
  import opened Numeric
  import opened Ident

  /** `correctName`: every character outside `[A-Za-z0-9_]` becomes `_`. */
  function CorrectName(s: string): (r: string)
    ensures |r| == |s|
    ensures forall i :: 0 <= i < |s| ==> r[i] == if IsWordChar(s[i]) then s[i] else '_'
  {
    if s == [] then [] else [if IsWordChar(s[0]) then s[0] else '_'] + CorrectName(s[1..])
  }

  predicate WordOnly(s: string) { forall i :: 0 <= i < |s| ==> IsWordChar(s[i]) }

  /** A sanitized name holds word characters only and sanitizing it again
      changes nothing. */
  lemma CorrectNameIdempotent(s: string)
    ensures WordOnly(CorrectName(s))
    ensures CorrectName(CorrectName(s)) == CorrectName(s)
  {
  }

  /** Sanitizing leaves a name that is already safe unchanged. */
  lemma CorrectNameKeepsSafe(s: string)
    requires WordOnly(s)
    ensures CorrectName(s) == s
  {
  }

  /** Every name of a list sanitized. */
  function Named(parts: seq<string>): (r: seq<string>)
    ensures |r| == |parts|
    ensures forall i :: 0 <= i < |parts| ==> r[i] == CorrectName(parts[i])
  {
    seq(|parts|, i requires 0 <= i < |parts| => CorrectName(parts[i]))
  }

  /** `prepareElementDir`: the one component of a directory segment. */
  function ElementDir(id: string): (dirs: seq<string>)
    ensures dirs == [CorrectName(id)]
  {
    [CorrectName(id)]
  }

  /** `prepareElementS`: one component per byte, its decimal code. */
  function ElementS(id: string): seq<string>
  {
    seq(|id|, i requires 0 <= i < |id| => CorrectName(DecimalString(id[i] as int)))
  }

  /** `prepareElementN`: the decimal string in pieces of two from the left. */
  function ElementN(id: string): seq<string>
  {
    Named(Groups(id, 2))
  }

  /** `prepareElementH`: the digest in pieces of four from the left. */
  function ElementH(id: string): seq<string>
  {
    Named(Groups(id, 4))
  }

  /** The components one identifier row gives. */
  function SegmentDirs(s: Segment): seq<string>
  {
    match s
    case DirSeg(name) => ElementDir(name)
    case StringSeg(text) => ElementS(text)
    case NumericSeg(n) => ElementN(DecimalString(n))
    case HashSeg(digest) => ElementH(digest)
  }

  /** `getPathAsArray`: the rows' components, concatenated in row order. */
  function PathAsArray(segs: seq<Segment>): seq<string>
  {
    if segs == [] then [] else PathAsArray(segs[..|segs| - 1]) + SegmentDirs(segs[|segs| - 1])
  }

  /** The path of a concatenation is the concatenation of the paths. */
  lemma {:induction false} PathAsArrayAppend(a: seq<Segment>, b: seq<Segment>)
    ensures PathAsArray(a + b) == PathAsArray(a) + PathAsArray(b)
    decreases |b|
  {
    if b == [] {
      assert a + b == a;
    } else {
      var b', last := b[..|b| - 1], b[|b| - 1];
      var ab := a + b';
      assert b == b' + [last];
      assert a + b == ab + [last];
      PathAsArrayAppend(a, b');
      PathAsArraySnoc(ab, last);
      PathAsArraySnoc(b', last);
      var x, y, z := PathAsArray(a), PathAsArray(b'), SegmentDirs(last);
      ConcatAssoc(x, y, z);
    }
  }

  /** One more row adds its components at the end. */
  lemma PathAsArraySnoc(segs: seq<Segment>, s: Segment)
    ensures PathAsArray(segs + [s]) == PathAsArray(segs) + SegmentDirs(s)
  {
    var all := segs + [s];
    assert all[..|all| - 1] == segs && all[|all| - 1] == s;
  }

  /** Each kind gives its own number of components: one for a directory, one
      per byte for a string, ceil(len/2) for a number, ceil(len/4) for a hash. */
  lemma SegmentDirsCount(s: Segment)
    ensures s.DirSeg? ==> |SegmentDirs(s)| == 1
    ensures s.StringSeg? ==> |SegmentDirs(s)| == |s.text|
    ensures s.NumericSeg? ==> |SegmentDirs(s)| == (|DecimalString(s.n)| + 1) / 2
    ensures s.HashSeg? ==> |SegmentDirs(s)| == (|s.digest| + 3) / 4
  {
    match s
    case NumericSeg(n) =>
      GroupsCount(DecimalString(n), 2);
    case HashSeg(d) =>
      GroupsCount(d, 4);
    case _ =>
  }

  /** Every component of every path consists of word characters only,
      so it never holds a `/`. */
  lemma {:induction false} PathAsArraySafe(segs: seq<Segment>)
    ensures forall i :: 0 <= i < |PathAsArray(segs)| ==> WordOnly(PathAsArray(segs)[i])
    decreases |segs|
  {
    if segs != [] {
      PathAsArraySafe(segs[..|segs| - 1]);
      var d := SegmentDirs(segs[|segs| - 1]);
      forall i | 0 <= i < |d| ensures WordOnly(d[i]) {
        CorrectNameIdempotent(match segs[|segs| - 1]
          case DirSeg(name) => name
          case StringSeg(text) => DecimalString(text[i] as int)
          case NumericSeg(n) => Groups(DecimalString(n), 2)[i]
          case HashSeg(digest) => Groups(digest, 4)[i]);
      }
    }
  }

  /** A 32-character digest gives 8 components of 4 characters. */
  lemma HashOfDigest(d: string)
    requires |d| == 32
    ensures |ElementH(d)| == 8
    ensures forall i :: 0 <= i < 8 ==> ElementH(d)[i] == CorrectName(d[4 * i .. 4 * i + 4])
  {
    GroupsCount(d, 4);
    forall i | 0 <= i < 8 ensures ElementH(d)[i] == CorrectName(d[4 * i .. 4 * i + 4]) {
      GroupAt(d, 4, i);
    }
  }

  lemma DecimalOfAvatarId()
    ensures DecimalString(180532) == "180532"
  {
    assert NatString(18) == "18";
    assert NatString(180) == "180";
    assert NatString(1805) == "1805";
    assert NatString(18053) == "18053";
  }

  /** The number 180532 gives the directories 18/05/32. */
  lemma NumericOfAvatarId()
    ensures SegmentDirs(NumericSeg(180532)) == ["18", "05", "32"]
  {
    DecimalOfAvatarId();
    GroupsOfAvatarId();
    var g := ["18", "05", "32"];
    assert CorrectName(g[0]) == "18" && CorrectName(g[1]) == "05" && CorrectName(g[2]) == "32";
    assert Named(g) == g;
  }

  lemma GroupsOfAvatarId()
    ensures Groups("180532", 2) == ["18", "05", "32"]
  {
    assert Groups("32", 2) == ["32"];
    assert "0532"[..2] == "05" && "0532"[2..] == "32";
    assert Groups("0532", 2) == ["05"] + Groups("32", 2);
    assert "180532"[..2] == "18" && "180532"[2..] == "0532";
    assert Groups("180532", 2) == ["18"] + Groups("0532", 2);
  }

  /** The directories of the demo avatar: users/profile/18/05/32. */
  lemma AvatarPath()
    ensures PathAsArray([DirSeg("users"), DirSeg("profile"), NumericSeg(180532)])
      == ["users", "profile", "18", "05", "32"]
  {
    PathOfThree(DirSeg("users"), DirSeg("profile"), NumericSeg(180532));
    DemoNamesSafe();
    SafeDir("users");
    SafeDir("profile");
    NumericOfAvatarId();
    FiveNames("users", "profile", "18", "05", "32");
  }

  lemma FiveNames(a: string, b: string, c: string, d: string, e: string)
    ensures [a] + [b] + [c, d, e] == [a, b, c, d, e]
  {
  }

  lemma DemoNamesSafe()
    ensures WordOnly("users") && WordOnly("profile")
  {
  }

  /** A directory row with a safe name gives that name. */
  lemma SafeDir(name: string)
    requires WordOnly(name)
    ensures SegmentDirs(DirSeg(name)) == [name]
  {
    CorrectNameKeepsSafe(name);
  }

  lemma PathOfThree(x: Segment, y: Segment, z: Segment)
    ensures PathAsArray([x, y, z]) == SegmentDirs(x) + SegmentDirs(y) + SegmentDirs(z)
  {
    var xs, xys := [x], [x, y];
    assert xs[..0] == [] && xys[..1] == xs && [x, y, z][..2] == xys;
    assert PathAsArray(xs) == [] + SegmentDirs(x);
    EmptyConcat(SegmentDirs(x));
    assert PathAsArray(xys) == PathAsArray(xs) + SegmentDirs(y);
  }

  /** A string row gives one name per character, the character's code in
      decimal, which reads back as that code. */
  lemma ElementSCodes(id: string)
    ensures |ElementS(id)| == |id|
    ensures forall i :: 0 <= i < |id| ==>
      ElementS(id)[i] == NatString(id[i] as int) && IntOfString(ElementS(id)[i]) == id[i] as int
  {
    forall i | 0 <= i < |id|
      ensures ElementS(id)[i] == NatString(id[i] as int) && IntOfString(ElementS(id)[i]) == id[i] as int
    {
      var n: nat := id[i] as int;
      CorrectNameKeepsSafe(NatString(n));
      IntOfNatString(n);
    }
  }

  /** Cutting a word-only text into groups leaves every group as it is, and
      the names put back together give the text. */
  lemma SafeGroups(s: string, w: nat)
    requires w >= 1 && WordOnly(s)
    ensures Named(Groups(s, w)) == Groups(s, w)
    ensures Flatten(Named(Groups(s, w))) == s
  {
    var g := Groups(s, w);
    forall i | 0 <= i < |g| ensures CorrectName(g[i]) == g[i] {
      SafeGroup(s, w, i);
    }
    FlattenGroups(s, w);
  }

  lemma SafeGroup(s: string, w: nat, i: nat)
    requires w >= 1 && WordOnly(s) && i < |Groups(s, w)|
    ensures CorrectName(Groups(s, w)[i]) == Groups(s, w)[i]
  {
    GroupAt(s, w, i);
    var g := Groups(s, w)[i];
    assert WordOnly(g) by {
      forall j | 0 <= j < |g| ensures IsWordChar(g[j]) {
        assert g[j] == s[i * w + j];
      }
    }
    CorrectNameKeepsSafe(g);
  }

  /** The names of a number that is not negative, put back together, are its
      decimal form, which reads back as the number, capped at the 64-bit top. */
  lemma NumericRoundTrip(n: nat)
    ensures Flatten(SegmentDirs(NumericSeg(n))) == NatString(n)
    ensures IntOfString(Flatten(SegmentDirs(NumericSeg(n)))) == Saturate(n)
    ensures n <= IntMax ==> IntOfString(Flatten(SegmentDirs(NumericSeg(n)))) == n
  {
    SafeGroups(NatString(n), 2);
    IntOfNatString(n);
  }

  /** The names of a digest of word characters, such as a hexadecimal md5,
      put back together are the digest. */
  lemma HashRoundTrip(d: string)
    requires WordOnly(d)
    ensures Flatten(SegmentDirs(HashSeg(d))) == d
  {
    SafeGroups(d, 4);
  }

  /** A string row fans out by byte code: "AB" gives 65 and 66. */
  lemma StringFanOut()
    ensures ElementS("AB") == ["65", "66"]
  {
    assert NatString(65) == "65";
    assert NatString(66) == "66";
    assert CorrectName("65") == "65" && CorrectName("66") == "66";
  }

  lemma {:induction false} MulLe(a: nat, b: nat, w: nat)
    requires a <= b
    ensures a * w <= b * w
    decreases b - a
  {
    if a < b {
      MulLe(a, b - 1, w);
      assert (b - 1) * w + w == b * w;
    }
  }

  /** Each component of `dirs` is the sanitized `w`-character piece of `id`
      at its place. */
  predicate CutPieces(id: string, w: nat, dirs: seq<string>)
  {
    forall j :: 0 <= j < |dirs| ==> j * w <= |id| && dirs[j] == CorrectName(id[j * w .. Min(j * w + w, |id|)])
  }

  /** Cutting the next piece keeps the components in place. */
  lemma CutNext(id: string, w: nat, dirs: seq<string>, piece: string)
    requires |dirs| * w < |id| && CutPieces(id, w, dirs)
    requires piece == id[|dirs| * w .. Min(|dirs| * w + w, |id|)]
    ensures CutPieces(id, w, dirs + [CorrectName(piece)])
  {
    Snoc(dirs, CorrectName(piece));
  }

  /** The components from `k` cut pieces of `w` characters of `id` are the
      sanitized `Groups(id, w)`. */
  lemma PiecesAreGroups(id: string, w: nat, dirs: seq<string>)
    requires w >= 1
    requires |dirs| * w >= |id| && (|dirs| > 0 ==> (|dirs| - 1) * w < |id|)
    requires CutPieces(id, w, dirs)
    ensures dirs == Named(Groups(id, w))
  {
    var g := Groups(id, w);
    GroupsCount(id, w);
    var n := |g|;
    var k := |dirs|;
    if k < n {
      MulLe(k, n - 1, w);
    } else if n < k {
      MulLe(n, k - 1, w);
    }
    assert |Named(g)| == n == k;
    forall j | 0 <= j < k ensures dirs[j] == Named(g)[j] {
      GroupAt(id, w, j);
    }
  }

  /** `prepareElementS` as the source runs it: a loop over the bytes. */
  method PrepareElementS(id: string) returns (dirs: seq<string>)
    ensures dirs == ElementS(id)
  {
    dirs := [];
    var i := 0;
    while i < |id|
      invariant 0 <= i <= |id|
      invariant dirs == ElementS(id)[..i]
    {
      dirs := dirs + [CorrectName(DecimalString(id[i] as int))];
      i := i + 1;
    }
  }

  /** `prepareElementN`: a loop taking the character at `i` and, when there
      is one, the next. */
  method PrepareElementN(id: string) returns (dirs: seq<string>)
    ensures dirs == ElementN(id)
  {
    dirs := [];
    var i := 0;
    while i < |id|
      invariant i == 2 * |dirs|
      invariant |dirs| > 0 ==> 2 * (|dirs| - 1) < |id|
      invariant i >= |id| ==> i - 2 < |id|
      invariant CutPieces(id, 2, dirs)
    {
      var str := [id[i]];
      if i < |id| - 1 {
        str := str + [id[i + 1]];
      }
      assert str == id[i .. Min(i + 2, |id|)];
      CutNext(id, 2, dirs, str);
      dirs := dirs + [CorrectName(str)];
      i := i + 2;
    }
    PiecesAreGroups(id, 2, dirs);
  }

  /** `prepareElementH`: a loop over `substr(id, i, 4)`. */
  method PrepareElementH(id: string) returns (dirs: seq<string>)
    ensures dirs == ElementH(id)
  {
    dirs := [];
    var i := 0;
    while i < |id|
      invariant i == 4 * |dirs|
      invariant |dirs| > 0 ==> 4 * (|dirs| - 1) < |id|
      invariant CutPieces(id, 4, dirs)
    {
      var str := id[i .. Min(i + 4, |id|)];
      CutNext(id, 4, dirs, str);
      dirs := dirs + [CorrectName(str)];
      i := i + 4;
    }
    PiecesAreGroups(id, 4, dirs);
  }

  /** `getPathAsArray`: a loop over the rows, each dispatched on its kind. */
  method GetPathAsArray(segs: seq<Segment>) returns (dirs: seq<string>)
    ensures dirs == PathAsArray(segs)
  {
    dirs := [];
    var k := 0;
    while k < |segs|
      invariant 0 <= k <= |segs|
      invariant dirs == PathAsArray(segs[..k])
    {
      var more: seq<string>;
      match segs[k] {
        case StringSeg(text) => more := PrepareElementS(text);
        case NumericSeg(n) => more := PrepareElementN(DecimalString(n));
        case HashSeg(digest) => more := PrepareElementH(digest);
        case DirSeg(name) => more := ElementDir(name);
      }
      assert segs[..k + 1][..k] == segs[..k];
      dirs := dirs + more;
      k := k + 1;
    }
    assert segs[..k] == segs;
  }

  /** `getFullPath`: the start, a slash, and the names joined by slashes. */
  function GetFullPath(start: string, dirs: seq<string>): string
  {
    start + "/" + Join(dirs, "/")
  }

  /** The path the slow branch of `prepareFullPath` has built after the
      first names: the start followed by "/name" for each. */
  function Extend(start: string, dirs: seq<string>): string
  {
    if dirs == [] then start else Extend(start, dirs[..|dirs| - 1]) + "/" + dirs[|dirs| - 1]
  }

  /** Each further name makes the extended path longer. */
  lemma {:induction false} ExtendLonger(start: string, dirs: seq<string>, j: nat)
    requires j < |dirs|
    ensures |Extend(start, dirs[..j])| < |Extend(start, dirs)|
    decreases |dirs|
  {
    var init := dirs[..|dirs| - 1];
    assert dirs[..|dirs|] == dirs;
    if j < |init| {
      ExtendLonger(start, init, j);
      assert init[..j] == dirs[..j];
    } else {
      assert init == dirs[..j];
    }
  }

  /** The names of a full path follow the start and a `/`; names without a
      `/` are taken apart again by splitting the rest on `/`. */
  lemma FullPathSplits(start: string, dirs: seq<string>)
    requires forall i :: 0 <= i < |dirs| ==> Free(dirs[i], '/')
    ensures var p := GetFullPath(start, dirs);
      && |p| > |start| && p[..|start| + 1] == start + "/"
      && (dirs == [] ==> p == start + "/")
      && (dirs != [] ==> Split(p[|start| + 1..], '/') == dirs)
  {
    var p := GetFullPath(start, dirs);
    assert p[|start| + 1..] == Join(dirs, "/");
    if dirs != [] {
      SplitJoin(dirs, '/');
    }
  }

  /** So the directory of any identifier determines its names. */
  lemma IdentPathSplits(start: string, segs: seq<Segment>)
    requires PathAsArray(segs) != []
    ensures var p := GetFullPath(start, PathAsArray(segs));
      Split(p[|start| + 1..], '/') == PathAsArray(segs)
  {
    var dirs := PathAsArray(segs);
    PathAsArraySafe(segs);
    forall i | 0 <= i < |dirs| ensures Free(dirs[i], '/') {
      assert WordOnly(dirs[i]);
    }
    FullPathSplits(start, dirs);
  }

  /** Extending name by name ends at `getFullPath` once there is a name. */
  lemma {:induction false} ExtendIsFullPath(start: string, dirs: seq<string>)
    requires dirs != []
    ensures Extend(start, dirs) == GetFullPath(start, dirs)
    decreases |dirs|
  {
    var init := dirs[..|dirs| - 1];
    var last := dirs[|dirs| - 1];
    if init == [] {
      assert dirs == [last];
    } else {
      assert dirs == init + [last];
      calc {
        Extend(start, dirs);
        Extend(start, init) + "/" + last;
        { ExtendIsFullPath(start, init); }
        start + "/" + Join(init, "/") + "/" + last;
        start + "/" + (Join(init, "/") + "/" + last);
        { JoinSnoc(init, last, "/"); }
        start + "/" + Join(dirs, "/");
      }
    }
  }
}
