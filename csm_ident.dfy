/** The content identifier `CsmIdent`: an append-only list of tagged segments
    with an on-demand bounds check on the number of segments. */
module Ident {
  import opened Php
  import opened Parameters

  /** One row of the identifier: kind 'd' (directory), 's' (string),
      'n' (numeric) or 'h' (md5 digest). */
  datatype Segment =
    | DirSeg(name: string)
    | StringSeg(text: string)
    | NumericSeg(n: int)
    | HashSeg(digest: string)

  /** The kind tag stored in the row's 't' key. */
  function Tag(s: Segment): char
  {
    match s
    case DirSeg(_) => 'd'
    case StringSeg(_) => 's'
    case NumericSeg(_) => 'n'
    case HashSeg(_) => 'h'
  }

  const MinKey := "min"
  const MaxKey := "max"

  /** The PARAMS constant: at least 1 and at most 100 rows, strict. */
  const Defaults: map<string, Value> := map[MinKey := Int(1), MaxKey := Int(100), StrictKey := Bool(true)]

  function MinMessage(params: map<string, Value>): string
  {
    "CSM Ident must have " + StrOf(Get(params, MinKey)) + " or more rows"
  }

  function MaxMessage(params: map<string, Value>): string
  {
    "CSM Ident must have not more than " + StrOf(Get(params, MaxKey)) + " rows"
  }

  /** `checkIdent` of an identifier with `count` rows: true exactly when
      neither `min > count` nor `max < count` holds under PHP 8's loose
      comparison; the lower bound is checked first; a violation is thrown in
      strict mode and is plain false otherwise. */
  function Check(params: map<string, Value>, count: nat): (r: Reply<bool>)
    ensures r == Ok(true) <==>
      LooseCompare(count, Get(params, MinKey)) >= 0 && LooseCompare(count, Get(params, MaxKey)) <= 0
    ensures LooseCompare(count, Get(params, MinKey)) < 0 ==>
      r == GenerateError(Truthy(Get(params, StrictKey)), MinMessage(params))
    ensures LooseCompare(count, Get(params, MinKey)) >= 0 && LooseCompare(count, Get(params, MaxKey)) > 0 ==>
      r == GenerateError(Truthy(Get(params, StrictKey)), MaxMessage(params))
    ensures r != Ok(false)
  {
    var strict := Truthy(Get(params, StrictKey));
    if LooseCompare(count, Get(params, MinKey)) < 0 then GenerateError(strict, MinMessage(params))
    else if LooseCompare(count, Get(params, MaxKey)) > 0 then GenerateError(strict, MaxMessage(params))
    else Ok(true)
  }

  /** With integer bounds, or bounds given as decimal strings, an identifier
      passes exactly when min <= count <= max. */
  lemma IntegerBounds(params: map<string, Value>, count: nat, lo: int, hi: int)
    requires Get(params, MinKey) == Int(lo) || Get(params, MinKey) == Str(DecimalString(lo))
    requires Get(params, MaxKey) == Int(hi) || Get(params, MaxKey) == Str(DecimalString(hi))
    ensures Check(params, count) == Ok(true) <==> lo <= count <= hi
  {
    LooseCompareDecimal(count, lo);
    LooseCompareDecimal(count, hi);
  }

  const FractionalMin: map<string, Value> := map[MinKey := Str(FractionBound), MaxKey := Int(100), StrictKey := Bool(true)]
  const WordyMax: map<string, Value> := map[MinKey := Int(1), MaxKey := Str(WordyBound), StrictKey := Bool(false)]

  /** A fractional lower bound is compared by value: "2.5" rejects two rows,
      with its own text in the message, and accepts three. */
  lemma FractionalMinimum()
    ensures Check(FractionalMin, 2) == Thrown(MinMessage(FractionalMin))
    ensures MinMessage(FractionalMin) == "CSM Ident must have " + FractionBound + " or more rows"
    ensures Check(FractionalMin, 3) == Ok(true)
  {
    LooseCompareFraction();
    assert Get(FractionalMin, MinKey) == Str(FractionBound);
    assert Get(FractionalMin, MaxKey) == Int(100);
    assert Truthy(Get(FractionalMin, StrictKey));
  }

  /** An upper bound with words after its number is compared as text:
      "10 rows" rejects five rows. */
  lemma WordyMaximum()
    ensures Check(WordyMax, 5) == False
  {
    LooseCompareWords();
    assert Get(WordyMax, MinKey) == Int(1);
    assert Get(WordyMax, MaxKey) == Str(WordyBound);
    assert !Truthy(Get(WordyMax, StrictKey));
  }

  /** The defaults reject an empty identifier, accept 100 rows and reject 101,
      with the messages of the source; non-strict, the empty one gives false. */
  lemma DefaultBounds()
    ensures Check(Defaults, 0) == Thrown("CSM Ident must have 1 or more rows")
    ensures Check(Defaults, 100) == Ok(true)
    ensures Check(Defaults, 101) == Thrown("CSM Ident must have not more than 100 rows")
    ensures Check(Merge(Defaults, map[StrictKey := Bool(false)]), 0) == False
  {
    DefaultMessages();
    assert Get(Defaults, MinKey) == Int(1) && Get(Defaults, MaxKey) == Int(100);
    assert Truthy(Get(Defaults, StrictKey));
    var lax := Merge(Defaults, map[StrictKey := Bool(false)]);
    assert Get(lax, MinKey) == Int(1) && !Truthy(Get(lax, StrictKey));
  }

  lemma DefaultMessages()
    ensures MinMessage(Defaults) == "CSM Ident must have 1 or more rows"
    ensures MaxMessage(Defaults) == "CSM Ident must have not more than 100 rows"
  {
    assert StrOf(Int(1)) == "1";
    Hundred();
  }

  lemma Hundred()
    ensures StrOf(Int(100)) == "100"
  {
    assert NatString(10) == "10";
    assert NatString(100) == NatString(10) + "0";
  }

  class CsmIdent {
    const config: Params
    var segments: seq<Segment>

    /** An empty identifier whose parameters are the defaults overridden by `given`. */
    constructor (given: map<string, Value>)
      ensures fresh(config)
      ensures config.params == Merge(Defaults, given)
      ensures segments == []
    {
      config := new Params(Defaults, given);
      segments := [];
    }

    /** `addTypeIdent`: appends one row at the end and returns the identifier itself. */
    method AddTypeIdent(s: Segment) returns (self: CsmIdent)
      modifies this
      ensures self == this
      ensures segments == old(segments) + [s]
    {
      segments := segments + [s];
      self := this;
    }

    /** Stores the value cast to a string, so 7 is stored as "7". */
    method AddResourceName(name: Value) returns (self: CsmIdent)
      modifies this
      ensures self == this
      ensures segments == old(segments) + [DirSeg(StrOf(name))]
      ensures Tag(segments[|segments| - 1]) == 'd'
    {
      self := AddTypeIdent(DirSeg(StrOf(name)));
    }

    /** Stores the value cast to a string, as `addResourceName` does. */
    method AddString(text: Value) returns (self: CsmIdent)
      modifies this
      ensures self == this
      ensures segments == old(segments) + [StringSeg(StrOf(text))]
      ensures Tag(segments[|segments| - 1]) == 's'
    {
      self := AddTypeIdent(StringSeg(StrOf(text)));
    }

    /** Stores the value cast to an integer, so `'18'` is stored as 18. */
    method AddNumeric(value: Value) returns (self: CsmIdent)
      modifies this
      ensures self == this
      ensures segments == old(segments) + [NumericSeg(IntOf(value))]
      ensures Tag(segments[|segments| - 1]) == 'n'
    {
      self := AddTypeIdent(NumericSeg(IntOf(value)));
    }

    /** Stores the md5 digest of the input's text, not the input; `md5`
        stands for PHP's function, which casts its argument to a string. */
    method AddHash(input: Value, md5: string -> string) returns (self: CsmIdent)
      modifies this
      ensures self == this
      ensures segments == old(segments) + [HashSeg(md5(StrOf(input)))]
      ensures Tag(segments[|segments| - 1]) == 'h'
    {
      self := AddTypeIdent(HashSeg(md5(StrOf(input))));
    }

    /** `count`: the number of rows appended so far. */
    function Count(): (n: nat)
      reads this
      ensures n == |ToArray()|
    {
      |segments|
    }

    /** `toArray`: the rows in insertion order. */
    function ToArray(): seq<Segment>
      reads this
    {
      segments
    }

    /** `checkIdent`: reads the rows and the parameters and changes nothing. */
    function CheckIdent(): (r: Reply<bool>)
      reads this, config
      ensures r == Check(config.params, Count())
    {
      Check(config.params, |segments|)
    }
  }
}
