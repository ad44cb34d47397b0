/** The few PHP string and number primitives the library relies on, as pure
    functions: decimal conversion of integers, the leading digits and white
    space of a string, `octdec`, `explode`, `implode` and fixed-width
    splitting (`str_split`, stepping `substr`). A PHP string is a `seq<char>`
    whose every char stands for one byte. */
module Php {

  predicate IsDigit(c: char) { '0' <= c <= '9' }

  predicate IsOctalDigit(c: char) { '0' <= c <= '7' }

  /** The `\w` class of PCRE without the `u` modifier in the C locale. */
  predicate IsWordChar(c: char) {
    ('a' <= c <= 'z') || ('A' <= c <= 'Z') || IsDigit(c) || c == '_'
  }

  predicate AllDigits(s: string) { forall i :: 0 <= i < |s| ==> IsDigit(s[i]) }

  function DigitChar(d: nat): (c: char)
    requires d < 10
    ensures IsDigit(c) && (c as int) - ('0' as int) == d
  {
    ('0' as int + d) as char
  }

  function DigitValue(c: char): nat
    requires IsDigit(c)
  {
    (c as int) - ('0' as int)
  }

  /** The decimal digits of a natural number, most significant first. */
  function NatString(n: nat): (s: string)
    ensures |s| > 0 && AllDigits(s)
    ensures |s| > 1 ==> s[0] != '0'
    decreases n
  {
    if n < 10 then [DigitChar(n)] else NatString(n / 10) + [DigitChar(n % 10)]
  }

  /** PHP's `(string)` of an integer: an optional minus sign and the digits. */
  function DecimalString(n: int): string
  {
    if n < 0 then "-" + NatString(-n) else NatString(n)
  }

  /** The value of a string of decimal digits (most significant first). */
  function DigitsValue(s: string): nat
    requires AllDigits(s)
  {
    if s == [] then 0 else DigitsValue(s[..|s| - 1]) * 10 + DigitValue(s[|s| - 1])
  }

  lemma {:induction false} DigitsValueOfNatString(n: nat)
    ensures DigitsValue(NatString(n)) == n
    decreases n
  {
    if n >= 10 {
      var s := NatString(n);
      assert s[..|s| - 1] == NatString(n / 10);
      DigitsValueOfNatString(n / 10);
    }
  }

  /** The length of the longest prefix of `s` made of decimal digits. */
  function LeadingDigits(s: string): (k: nat)
    ensures k <= |s| && AllDigits(s[..k])
    ensures k < |s| ==> !IsDigit(s[k])
  {
    if s == [] || !IsDigit(s[0]) then 0
    else
      var k := 1 + LeadingDigits(s[1..]);
      assert s[..k] == [s[0]] + s[1..][..k - 1];
      k
  }

  predicate IsSpace(c: char) { c == ' ' || c == '\t' || c == '\n' || c == '\r' || c == 11 as char || c == 12 as char }

  function DropSpaces(s: string): (t: string)
    ensures |t| <= |s| && t == s[|s| - |t|..]
    ensures |t| > 0 ==> !IsSpace(t[0])
  {
    if s != [] && IsSpace(s[0]) then DropSpaces(s[1..]) else s
  }

  /** Concatenation is associative; stated once, generically, so that no
      proof about sequences of strings has to rediscover it. */
  lemma ConcatAssoc<T>(x: seq<T>, y: seq<T>, z: seq<T>)
    ensures (x + y) + z == x + (y + z)
  {
  }

  lemma EmptyConcat<T>(x: seq<T>)
    ensures [] + x == x
  {
  }

  /** PHP's `octdec`: the octal digits of `s` read as a base-8 number; any
      other character is skipped. */
  function OctDec(s: string): nat
  {
    if s == [] then 0
    else if IsOctalDigit(s[|s| - 1]) then OctDec(s[..|s| - 1]) * 8 + DigitValue(s[|s| - 1])
    else OctDec(s[..|s| - 1])
  }

  lemma OctDecOfThreeDigits(a: char, b: char, c: char)
    requires IsOctalDigit(a) && IsOctalDigit(b) && IsOctalDigit(c)
    ensures OctDec([a, b, c]) == DigitValue(a) * 64 + DigitValue(b) * 8 + DigitValue(c)
  {
    assert OctDec([a]) == DigitValue(a) by { assert [a][..0] == []; }
    assert OctDec([a, b]) == DigitValue(a) * 8 + DigitValue(b) by { assert [a, b][..1] == [a]; }
    assert [a, b, c][..2] == [a, b];
  }

  /** PHP's `implode(sep, parts)`. */
  function Join(parts: seq<string>, sep: string): string
  {
    if parts == [] then ""
    else if |parts| == 1 then parts[0]
    else parts[0] + sep + Join(parts[1..], sep)
  }

  /** Joining after appending a part adds the separator and the part. */
  lemma {:induction false} JoinSnoc(parts: seq<string>, last: string, sep: string)
    requires parts != []
    ensures Join(parts + [last], sep) == Join(parts, sep) + sep + last
    decreases |parts|
  {
    if |parts| > 1 {
      assert (parts + [last])[1..] == parts[1..] + [last];
      JoinSnoc(parts[1..], last, sep);
    } else {
      assert (parts + [last])[1..] == [last];
    }
  }

  /** PHP's `explode(sep, s)` for a one-character separator: the pieces
      between separators, always at least one. */
  function Split(s: string, sep: char): (parts: seq<string>)
    ensures |parts| > 0
    ensures forall i, j :: 0 <= i < |parts| && 0 <= j < |parts[i]| ==> parts[i][j] != sep
  {
    if s == [] then [""]
    else
      var rest := Split(s[1..], sep);
      if s[0] == sep then [""] + rest
      else
        assert forall j :: 0 <= j < |rest[0]| ==> ([s[0]] + rest[0])[j + 1] == rest[0][j];
        [[s[0]] + rest[0]] + rest[1..]
  }

  predicate Free(s: string, c: char) { forall j :: 0 <= j < |s| ==> s[j] != c }

  /** Splitting a joined list on a separator that none of the parts contains
      restores the parts. */
  lemma {:induction false} SplitJoin(parts: seq<string>, sep: char)
    requires |parts| > 0
    requires forall i :: 0 <= i < |parts| ==> Free(parts[i], sep)
    ensures Split(Join(parts, [sep]), sep) == parts
    decreases parts
  {
    if |parts| == 1 {
      SplitFree(parts[0], sep);
    } else {
      SplitJoin(parts[1..], sep);
      SplitPrefix(parts[0], Join(parts[1..], [sep]), sep);
    }
  }

  /** A string without the separator splits into itself alone. */
  lemma {:induction false} SplitFree(s: string, sep: char)
    requires Free(s, sep)
    ensures Split(s, sep) == [s]
    decreases s
  {
    if s != [] {
      SplitFree(s[1..], sep);
      assert [s[0]] + s[1..] == s;
    }
  }

  lemma {:induction false} SplitPrefix(a: string, b: string, sep: char)
    requires Free(a, sep)
    ensures Split(a + [sep] + b, sep) == [a] + Split(b, sep)
    decreases a
  {
    if a == [] {
      assert [sep] + b == ([] + [sep] + b);
      assert ([sep] + b)[1..] == b;
    } else {
      var s := a + [sep] + b;
      assert s[0] == a[0];
      assert s[1..] == a[1..] + [sep] + b;
      SplitPrefix(a[1..], b, sep);
      assert [a[0]] + a[1..] == a;
    }
  }

  /** The concatenation of a sequence of sequences. */
  function Flatten<T>(parts: seq<seq<T>>): seq<T>
  {
    if parts == [] then [] else parts[0] + Flatten(parts[1..])
  }

  /** `s` cut from the left into pieces of `w` elements; the last piece may be
      shorter. This is PHP's `str_split(s, w)` (PHP 8.2 and later, where the
      empty string gives no piece) and the loops stepping `substr(s, i, w)`. */
  function Groups<T>(s: seq<T>, w: nat): seq<seq<T>>
    requires w >= 1
    decreases |s|
  {
    if s == [] then []
    else if |s| <= w then [s]
    else [s[..w]] + Groups(s[w..], w)
  }

  /** The pieces put back together give the original sequence. */
  lemma {:induction false} FlattenGroups<T>(s: seq<T>, w: nat)
    requires w >= 1
    ensures Flatten(Groups(s, w)) == s
    decreases |s|
  {
    if |s| > w {
      FlattenGroups(s[w..], w);
      assert s[..w] + s[w..] == s;
    }
  }

  /** There are ceil(|s| / w) pieces: no piece for the empty sequence,
      otherwise just enough pieces of `w` to cover `s`. */
  lemma {:induction false} GroupsCount<T>(s: seq<T>, w: nat)
    requires w >= 1
    ensures s == [] <==> |Groups(s, w)| == 0
    ensures (|Groups(s, w)| - 1) * w < |s| <= |Groups(s, w)| * w
    decreases |s|
  {
    if s == [] {
    } else if |s| <= w {
    } else {
      GroupsCount(s[w..], w);
      var n := |Groups(s[w..], w)|;
      assert |Groups(s, w)| == n + 1;
      assert (n + 1) * w == n * w + w;
      assert n * w == (n - 1) * w + w;
    }
  }

  lemma NatProduct(a: nat, b: nat)
    ensures a * b >= 0
  {
  }

  function Min(a: int, b: int): (m: int)
    ensures m <= a && m <= b && (m == a || m == b)
  {
    if a <= b then a else b
  }

  /** Piece i is `s[i*w .. min((i+1)*w, |s|)]`. */
  lemma {:induction false} GroupAt<T>(s: seq<T>, w: nat, i: nat)
    requires w >= 1 && i < |Groups(s, w)|
    ensures i * w < |s|
    ensures Groups(s, w)[i] == s[i * w .. Min(i * w + w, |s|)]
    decreases i
  {
    if i > 0 {
      assert s != [] && |s| > w;
      var t := s[w..];
      var a := (i - 1) * w;
      assert a + w == i * w;
      assert Groups(s, w) == [s[..w]] + Groups(t, w);
      GroupAt(t, w, i - 1);
      var hi := Min(a + w, |t|);
      assert hi + w == Min(a + w + w, |s|);
      DropSlice(s, w, a, hi);
    }
  }

  /** Appending an element keeps the elements before it. */
  lemma Snoc<T>(s: seq<T>, x: T)
    ensures forall j :: 0 <= j < |s| ==> (s + [x])[j] == s[j]
    ensures (s + [x])[|s|] == x
  {
  }

  /** A slice of `s[k..]` is the slice of `s` shifted by `k`. */
  lemma DropSlice<T>(s: seq<T>, k: nat, lo: nat, hi: nat)
    requires k <= |s| && lo <= hi <= |s| - k
    ensures s[k..][lo..hi] == s[k + lo .. k + hi]
  {
  }

  /** The first `i` pieces together are the first min(i*w, |s|) elements. */
  lemma {:induction false} GroupsPrefix<T>(s: seq<T>, w: nat, i: nat)
    requires w >= 1 && i <= |Groups(s, w)|
    ensures Flatten(Groups(s, w)[..i]) == s[..Min(i * w, |s|)]
    decreases i
  {
    if i > 0 {
      var g := Groups(s, w);
      assert g[..i][1..] == g[1..][..i - 1];
      if |s| <= w {
        assert i == 1 && g[..i] == [s];
      } else {
        var t := s[w..];
        assert g[0] == s[..w] && g[1..] == Groups(t, w);
        GroupsPrefix(t, w, i - 1);
        var a := (i - 1) * w;
        assert a + w == i * w;
        assert Flatten(g[..i]) == s[..w] + Flatten(Groups(t, w)[..i - 1]);
        assert Min(i * w, |s|) == w + Min(a, |t|);
        assert s[..w + Min(a, |t|)] == s[..w] + t[..Min(a, |t|)];
      }
    }
  }

  /** Every piece but the last has exactly `w` elements and none is empty. */
  lemma {:induction false} GroupsLengths<T>(s: seq<T>, w: nat)
    requires w >= 1
    ensures forall i :: 0 <= i < |Groups(s, w)| ==> 1 <= |Groups(s, w)[i]| <= w
    ensures forall i :: 0 <= i < |Groups(s, w)| - 1 ==> |Groups(s, w)[i]| == w
    decreases |s|
  {
    if |s| > w {
      GroupsLengths(s[w..], w);
    }
  }
}
