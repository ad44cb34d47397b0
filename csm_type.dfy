/** The content type tag: a main type and an optional subtype, written as
    `type_subtype` and read back from that text or from a two-element list. */
module Types {
  import opened Php
  import opened Parameters

  const TypeAny := "any"
  const TypeImage := "img"
  const Separator := '_'

  /** The TYPES constant. */
  const KnownTypes: seq<string> := ["any", "img", "video", "xml", "pdf", "csv", "txt"]

  /** The two fields of a tag. A subtype that was never set is null. */
  datatype Tag = Tag(kind: string, subType: Option<string>)

  /** The fields before the constructor runs. */
  const Unset := Tag("", None)

  /** `setType($type, $subType)`: the type is replaced by the text of the
      first argument; the subtype only by a second argument that is not
      blank, and is kept otherwise. */
  function WithType(t: Tag, kind: Value, subType: Value): (r: Tag)
    ensures r.kind == StrOf(kind)
    ensures IsBlank(subType) ==> r.subType == t.subType
    ensures !IsBlank(subType) ==> r.subType == Some(StrOf(subType))
  {
    Tag(StrOf(kind), if IsBlank(subType) then t.subType else Some(StrOf(subType)))
  }

  /** The state of `new CsmType()`. */
  const Fresh := WithType(Unset, Str(TypeAny), Null)

  /** `$this->subType != ''`. */
  predicate HasSubType(t: Tag)
  {
    t.subType.Some? && t.subType.value != ""
  }

  /** `toString`. */
  function Text(t: Tag): (s: string)
    ensures |s| >= |t.kind| && s[..|t.kind|] == t.kind
    ensures HasSubType(t) <==> |s| > |t.kind|
    ensures HasSubType(t) ==> s[|t.kind|] == Separator && s[|t.kind| + 1..] == t.subType.value
  {
    if HasSubType(t) then t.kind + [Separator] + t.subType.value else t.kind
  }

  /** What `hydrate` accepts: a list, or a single value. */
  datatype Source = List(items: seq<Value>) | Scalar(v: Value)

  /** The entries `hydrateArray` reads of an array with keys: those at 0 and
      1, null where missing. */
  function KeyedItems(d: map<string, Value>): (items: seq<Value>)
    ensures |items| == 2
    ensures "0" in d ==> items[0] == d["0"]
    ensures "0" !in d ==> items[0] == Null
    ensures "1" in d ==> items[1] == d["1"]
    ensures "1" !in d ==> items[1] == Null
  {
    [Get(d, "0"), Get(d, "1")]
  }

  /** The list `hydrateArray` works on: an array, keyed or not, is taken as
      it is; any other value is cast to text and split on `_`. */
  function Parts(source: Source): (parts: seq<Value>)
    ensures source.List? ==> parts == source.items
    ensures source.Scalar? && source.v.Dict? ==> parts == KeyedItems(source.v.d)
    ensures source.Scalar? && !source.v.Dict? ==>
      var pieces := Split(StrOf(source.v), Separator);
      |parts| == |pieces| >= 1 && forall i :: 0 <= i < |parts| ==> parts[i] == Str(pieces[i])
  {
    match source
    case List(items) => items
    case Scalar(v) => if v.Dict? then KeyedItems(v.d) else StrParts(Split(StrOf(v), Separator))
  }

  function StrParts(parts: seq<string>): (r: seq<Value>)
    ensures |r| == |parts|
    ensures forall i :: 0 <= i < |parts| ==> r[i] == Str(parts[i])
  {
    if parts == [] then [] else [Str(parts[0])] + StrParts(parts[1..])
  }

  /** `isset($types[i])`. */
  predicate IsSet(parts: seq<Value>, i: nat)
  {
    i < |parts| && parts[i] != Null
  }

  /** `hydrateArray`: the first item, unless it is missing or blank, is
      the type, else `any`; the second, when present, the subtype. */
  function Hydrated(t: Tag, source: Source): (r: Tag)
    ensures var parts := Parts(source);
      && (IsSet(parts, 0) && !IsBlank(parts[0]) ==> r.kind == StrOf(parts[0]))
      && (!IsSet(parts, 0) || IsBlank(parts[0]) ==> r.kind == TypeAny)
      && (!IsSet(parts, 1) || IsBlank(parts[1]) ==> r.subType == t.subType)
      && (IsSet(parts, 1) && !IsBlank(parts[1]) ==> r.subType == Some(StrOf(parts[1])))
  {
    var parts := Parts(source);
    WithType(t, if IsSet(parts, 0) && !IsBlank(parts[0]) then parts[0] else Str(TypeAny),
                if IsSet(parts, 1) then parts[1] else Null)
  }

  /** `toArray`: the type and the subtype, which may be null. */
  function Fields(t: Tag): (r: seq<Value>)
    ensures |r| == 2 && r[0] == Str(t.kind)
    ensures r[1] == Null <==> t.subType.None?
    ensures t.subType.Some? ==> r[1] == Str(t.subType.value)
  {
    [Str(t.kind), if t.subType.Some? then Str(t.subType.value) else Null]
  }

  /** A tag that survives a round trip: a non-empty type and no empty
      subtype, neither containing the separator. */
  predicate Plain(t: Tag)
  {
    && t.kind != "" && Free(t.kind, Separator)
    && (t.subType.Some? ==> t.subType.value != "" && Free(t.subType.value, Separator))
  }

  /** The text of a plain tag splits into its fields. */
  lemma TextSplits(t: Tag)
    requires Plain(t)
    ensures Split(Text(t), Separator) == if t.subType.Some? then [t.kind, t.subType.value] else [t.kind]
  {
    if t.subType.Some? {
      var parts := [t.kind, t.subType.value];
      assert Join(parts, [Separator]) == Text(t) by {
        assert Join(parts[1..], [Separator]) == t.subType.value;
      }
      SplitJoin(parts, Separator);
    } else {
      SplitFree(t.kind, Separator);
    }
  }

  /** Hydrating a new tag from the text of a plain tag restores it. */
  lemma TextRoundTrip(t: Tag)
    requires Plain(t)
    ensures Hydrated(Fresh, Scalar(Str(Text(t)))) == t
  {
    TextSplits(t);
  }

  /** Hydrating a new tag from the fields of a tag with a non-empty type and
      no empty subtype restores it; no separator restriction applies. */
  lemma FieldsRoundTrip(t: Tag)
    requires t.kind != "" && t.subType != Some("")
    ensures Hydrated(Fresh, List(Fields(t))) == t
  {
  }

  /** A text without a separator is all type: the subtype is not touched. */
  lemma HydrateWithoutSeparator(t: Tag, s: string)
    requires Free(s, Separator)
    ensures Hydrated(t, Scalar(Str(s))) == Tag(if s == "" then TypeAny else s, t.subType)
  {
    SplitFree(s, Separator);
  }

  /** The text hydration cases of the tests: null, "1" and "1_2". */
  lemma HydrateTextExamples()
    ensures Hydrated(Fresh, Scalar(Null)) == Tag("any", None)
    ensures Hydrated(Fresh, Scalar(Str("1"))) == Tag("1", None)
    ensures Hydrated(Fresh, Scalar(Str("1_2"))) == Tag("1", Some("2"))
  {
    HydrateWithoutSeparator(Fresh, "");
    HydrateWithoutSeparator(Fresh, "1");
    TextRoundTrip(Tag("1", Some("2")));
    assert Text(Tag("1", Some("2"))) == "1_2";
  }

  /** An array with keys goes down the array path, not the text path: an
      empty one gives `any`, not the type "Array". */
  lemma HydrateKeyedExamples()
    ensures Hydrated(Fresh, Scalar(Dict(map[]))) == Tag("any", None)
    ensures Hydrated(Fresh, Scalar(Dict(map["0" := Str("img"), "1" := Str("png")]))) == Tag("img", Some("png"))
    ensures Hydrated(Fresh, Scalar(Dict(map["1" := Str("png")]))) == Tag("any", Some("png"))
  {
  }

  /** The list hydration cases of the tests: [], [1] and [1, 2]. */
  lemma HydrateListExamples()
    ensures Hydrated(Fresh, List([])) == Tag("any", None)
    ensures Hydrated(Fresh, List([Int(1)])) == Tag("1", None)
    ensures Hydrated(Fresh, List([Int(1), Int(2)])) == Tag("1", Some("2"))
  {
    assert DecimalString(1) == "1" && DecimalString(2) == "2";
  }

  /** The setter sequence of the tests: a later `setType` without a subtype
      keeps the subtype set before it. */
  lemma SetterExamples()
    ensures var t1 := WithType(Fresh, Int(1), Null);
      var t2 := WithType(t1, Int(2), Int(3));
      var t3 := Tag(t2.kind, Some(StrOf(Int(4))));
      var t4 := WithType(t3, Int(5), Null);
      && Fresh == Tag("any", None) && t1 == Tag("1", None) && t2 == Tag("2", Some("3"))
      && t3 == Tag("2", Some("4")) && t4 == Tag("5", Some("4"))
  {
    assert DecimalString(1) == "1" && DecimalString(2) == "2" && DecimalString(3) == "3";
    assert DecimalString(4) == "4" && DecimalString(5) == "5";
  }

  /** A new tag is `any` without subtype; `img` with `jpg` is written
      "img_jpg" and its array form holds both. */
  lemma CreateExamples()
    ensures Fields(Fresh) == [Str("any"), Null] && Text(Fresh) == "any"
    ensures Text(WithType(Unset, Str("video"), Null)) == "video"
    ensures var t := WithType(Unset, Str(TypeImage), Str("jpg"));
      Fields(t) == [Str("img"), Str("jpg")] && Text(t) == "img_jpg"
  {
  }

  /** Every type of the TYPES list reads back from its own text. */
  lemma KnownTypesRoundTrip(i: nat)
    requires i < |KnownTypes|
    ensures Hydrated(Fresh, Scalar(Str(Text(Tag(KnownTypes[i], None))))) == Tag(KnownTypes[i], None)
  {
    assert Free(KnownTypes[i], Separator);
    TextRoundTrip(Tag(KnownTypes[i], None));
  }

  class CsmType {
    var kind: string
    var subType: Option<string>

    function State(): Tag
      reads this
    {
      Tag(kind, subType)
    }

    /** `new CsmType($type, $subType)`. */
    constructor (kind: Value, subType: Value)
      ensures State() == WithType(Unset, kind, subType)
    {
      this.kind := StrOf(kind);
      this.subType := if IsBlank(subType) then None else Some(StrOf(subType));
    }

    /** `setType`. */
    method SetType(kind: Value, subType: Value)
      modifies this
      ensures State() == WithType(old(State()), kind, subType)
    {
      this.kind := StrOf(kind);
      if !IsBlank(subType) {
        this.subType := Some(StrOf(subType));
      }
    }

    /** `setSubType`: replaces the subtype even with a blank one. */
    method SetSubType(subType: Value)
      modifies this
      ensures State() == Tag(old(kind), Some(StrOf(subType)))
    {
      this.subType := Some(StrOf(subType));
    }

    /** `hydrate`, through `hydrateString` or `hydrateArray`. */
    method Hydrate(source: Source)
      modifies this
      ensures State() == Hydrated(old(State()), source)
    {
      match source
      case List(items) => HydrateArray(items);
      case Scalar(v) =>
        if v.Dict? {
          HydrateArray(KeyedItems(v.d));
        } else {
          HydrateString(v);
        }
    }

    /** `hydrateString`: splits the text of `v` on `_`. */
    method HydrateString(v: Value)
      modifies this
      ensures State() == Hydrated(old(State()), Scalar(Str(StrOf(v))))
    {
      var parts := Split(StrOf(v), Separator);
      HydrateArray(StrParts(parts));
    }

    /** `hydrateArray`. */
    method HydrateArray(parts: seq<Value>)
      modifies this
      ensures State() == Hydrated(old(State()), List(parts))
    {
      var first := if IsSet(parts, 0) && !IsBlank(parts[0]) then parts[0] else Str(TypeAny);
      var second := if IsSet(parts, 1) then parts[1] else Null;
      SetType(first, second);
    }

    /** `toString`: the type, then `_` and the subtype when there is one;
        hydrating a new tag from it gives this tag back when it is plain. */
    function ToString(): (s: string)
      reads this
      ensures HasSubType(State()) <==> |s| > |kind|
      ensures |s| >= |kind| && s[..|kind|] == kind
      ensures Plain(State()) ==> Hydrated(Fresh, Scalar(Str(s))) == State()
    {
      var t := State();
      assert Plain(t) ==> Hydrated(Fresh, Scalar(Str(Text(t)))) == t by {
        if Plain(t) { TextRoundTrip(t); }
      }
      Text(t)
    }

    /** `toArray`: the type and the subtype; hydrating a new tag from it
        gives this tag back unless the type or the subtype is empty. */
    function ToArray(): (r: seq<Value>)
      reads this
      ensures |r| == 2 && r[0] == Str(kind) && (r[1] == Null <==> subType.None?)
      ensures kind != "" && subType != Some("") ==> Hydrated(Fresh, List(r)) == State()
    {
      var t := State();
      assert kind != "" && subType != Some("") ==> Hydrated(Fresh, List(Fields(t))) == t by {
        if kind != "" && subType != Some("") { FieldsRoundTrip(t); }
      }
      Fields(t)
    }
  }

  /** `createHydrate`: a new tag hydrated from `source`. */
  method CreateHydrate(source: Source) returns (t: CsmType)
    ensures fresh(t) && t.State() == Hydrated(Fresh, source)
  {
    t := new CsmType(Str(TypeAny), Null);
    t.Hydrate(source);
  }
}
