/** PHP values as they appear in the parameter arrays of the library, the
    coercions the code applies to them, the strict/non-strict error policy and
    the parameter store every configurable class carries. */
module Parameters {
  import opened Php
  import opened Numeric
  import opened Containers

  /** A driver class that a `type` parameter can name. */
  datatype DriverType = FilesystemType | HoleType

  /** A value of a parameter array. `Listener` is a PHP closure given the
      progress tracker, `Dict` a nested array with string keys, `Type` the
      name of a driver class. */
  datatype Value =
    | Null
    | Bool(b: bool)
    | Int(i: int)
    | Str(s: string)
    | Listener(f: Snapshot -> bool)
    | Dict(d: map<string, Value>)
    | Type(t: DriverType)

  /** PHP truthiness. */
  predicate Truthy(v: Value)
  {
    match v
    case Null => false
    case Bool(b) => b
    case Int(i) => i != 0
    case Str(s) => s != "" && s != "0"
    case Listener(_) => true
    case Dict(d) => |d| > 0
    case Type(_) => true
  }

  /** The loose comparison `v == ''` of PHP 8. */
  predicate IsBlank(v: Value)
  {
    v == Null || v == Bool(false) || v == Str("")
  }

  /** The names of the driver classes. */
  const FilesystemClass: string := "Csm\\Driver\\Filesystem"
  const HoleClass: string := "Csm\\Driver\\Hole"

  /** PHP's `(string)` of a scalar parameter. */
  function StrOf(v: Value): string
  {
    match v
    case Null => ""
    case Bool(b) => if b then "1" else ""
    case Int(i) => DecimalString(i)
    case Str(s) => s
    case Listener(_) => ""
    case Dict(_) => "Array"
    case Type(FilesystemType) => FilesystemClass
    case Type(HoleType) => HoleClass
  }

  /** PHP's `(int)` of a scalar parameter. */
  function IntOf(v: Value): int
  {
    match v
    case Null => 0
    case Bool(b) => if b then 1 else 0
    case Int(i) => i
    case Str(s) => IntOfString(s)
    case Listener(_) => 1
    case Dict(d) => if |d| > 0 then 1 else 0
    case Type(_) => 0
  }

  /** PHP 8's three-way loose comparison `x <=> v` (`zend_compare`) of an
      integer with a parameter: null and booleans compare as booleans, an
      array is always greater, a closure converts to 1, a numeric string
      compares by its exact value and any other string compares as text with
      the decimal form of `x`. `v <=> x` is the negation. */
  function LooseCompare(x: int, v: Value): (c: int)
    ensures -1 <= c <= 1
    ensures v.Int? ==> c == Sign(x - v.i)
    ensures v == Null ==> (c == 0 <==> x == 0)
    ensures v.Dict? ==> c < 0
  {
    match v
    case Null => if x != 0 then 1 else 0
    case Bool(b) => Sign((if x != 0 then 1 else 0) - (if b then 1 else 0))
    case Int(i) => Sign(x - i)
    case Listener(_) => Sign(x - 1)
    case Dict(_) => -1
    case _ =>
      var s := StrOf(v);
      if IsNumeric(s) then CompareToNumeral(x, NumericPrefix(DropSpaces(s)))
      else CompareText(DecimalString(x), s)
  }

  /** Against the decimal form of an integer the loose comparison is the
      integer comparison. */
  lemma LooseCompareDecimal(x: int, y: int)
    ensures LooseCompare(x, Str(DecimalString(y))) == Sign(x - y)
  {
    DecimalValue(y);
    LooseCompareInteger(x, DecimalString(y), y);
  }

  lemma LooseCompareInteger(x: int, s: string, y: int)
    requires IsNumeric(s)
    requires var n := NumericPrefix(DropSpaces(s));
      n.Number? && n.scale == 0 && Num(n) == y
    ensures LooseCompare(x, Str(s)) == Sign(x - y)
  {
    var n := NumericPrefix(DropSpaces(s));
    Unscaled(n);
    LooseCompareNumeric(x, s);
  }

  lemma LooseCompareNumeric(x: int, s: string)
    requires IsNumeric(s)
    ensures LooseCompare(x, Str(s)) == CompareToNumeral(x, NumericPrefix(DropSpaces(s)))
  {
  }

  lemma LooseCompareText(x: int, s: string)
    requires !IsNumeric(s)
    ensures LooseCompare(x, Str(s)) == CompareText(DecimalString(x), s)
  {
  }

  const FractionBound: string := "2.5"
  const WordyBound: string := "10 rows"

  lemma FractionBoundDigits()
    ensures UnsignedNumeral(FractionBound) == Number(false, 25, -1, 3)
  {
  }

  lemma FractionBoundNumeral()
    ensures IsNumeric(FractionBound)
    ensures NumericPrefix(DropSpaces(FractionBound)) == Number(false, 25, -1, 3)
  {
    FractionBoundDigits();
    assert FractionBound[0] == '2';
    NumericOf(FractionBound, Number(false, 25, -1, 3));
  }

  /** A fractional string compares by value: 2 is below "2.5" and 3 above it. */
  lemma LooseCompareFraction()
    ensures LooseCompare(2, Str(FractionBound)) < 0 && LooseCompare(3, Str(FractionBound)) > 0
  {
    var n := Number(false, 25, -1, 3);
    FractionBoundNumeral();
    TwentyFiveTenths();
    LooseCompareScaled(2, FractionBound, n);
    LooseCompareScaled(3, FractionBound, n);
  }

  lemma TwentyFiveTenths()
    ensures Den(Number(false, 25, -1, 3)) == 10 && Num(Number(false, 25, -1, 3)) == 25
  {
    assert Pow10(1) == 10;
  }

  lemma LooseCompareScaled(x: int, s: string, n: Numeral)
    requires IsNumeric(s) && n.Number? && NumericPrefix(DropSpaces(s)) == n
    ensures LooseCompare(x, Str(s)) == Sign(x * Den(n) - Num(n))
  {
    LooseCompareNumeric(x, s);
  }

  lemma WordyBoundNumeral()
    ensures !IsNumeric(WordyBound)
  {
    var s := WordyBound;
    assert s[..2] == "10";
    DigitsThenWords(s, 2);
  }

  /** A string with words after its number compares as text: 5 is above
      "10 rows", as "5" comes after "1". */
  lemma LooseCompareWords()
    ensures LooseCompare(5, Str(WordyBound)) > 0
  {
    WordyBoundNumeral();
    LooseCompareText(5, WordyBound);
    assert DecimalString(5) == "5" && WordyBound[0] == '1';
  }

  /** `getParam`: the stored value, or null for an absent key. */
  function Get(m: map<string, Value>, key: string): (v: Value)
    ensures key in m ==> v == m[key]
    ensures key !in m ==> v == Null
  {
    if key in m then m[key] else Null
  }

  /** `array_merge` of two arrays with string keys: every key of either, the
      second array's value winning on a shared key. */
  function Merge(base: map<string, Value>, over: map<string, Value>): (r: map<string, Value>)
    ensures r.Keys == base.Keys + over.Keys
    ensures forall k :: k in over ==> r[k] == over[k]
    ensures forall k :: k in base && k !in over ==> r[k] == base[k]
  {
    base + over
  }

  datatype Option<+T> = None | Some(value: T)

  /** The key of the strict flag every configurable class reads. */
  const StrictKey := "strict"

  /** What a library operation gives back: a value, PHP's `false`, or a thrown
      `CsmException` with its message. */
  datatype Reply<T> = Ok(value: T) | False | Thrown(message: string)

  /** `generateError`: in strict mode the message is thrown, otherwise the
      failure is the plain value false. */
  function GenerateError<T>(strict: bool, message: string): (r: Reply<T>)
    ensures strict <==> r.Thrown?
    ensures r.Thrown? ==> r.message == message
    ensures !r.Thrown? ==> r == False
  {
    if strict then Thrown(message) else False
  }

  /** The parameter store of one object: its class's defaults, overridden key
      by key by the array given to the constructor, and changed at run time
      one key at a time. */
  class Params {
    const defaults: map<string, Value>
    var params: map<string, Value>

    constructor (defaults: map<string, Value>, given: map<string, Value>)
      ensures this.defaults == defaults
      ensures params == Merge(defaults, given)
    {
      this.defaults := defaults;
      params := Merge(defaults, given);
    }

    /** `getDefaultParams`: the class's PARAMS constant. */
    function GetDefaultParams(): map<string, Value>
      reads this
    {
      defaults
    }

    /** `getParams`: the whole map. */
    function GetParams(): map<string, Value>
      reads this
    {
      params
    }

    /** `getParam`: the stored value, or null for an absent key. */
    function GetParam(name: string): (v: Value)
      reads this
      ensures name in params ==> v == params[name]
      ensures name !in params ==> v == Null
    {
      Get(params, name)
    }

    /** `setParam`: only the named key changes. */
    method SetParam(name: string, value: Value)
      modifies this
      ensures params == old(params)[name := value]
      ensures forall k :: k != name ==> Get(params, k) == Get(old(params), k)
    {
      params := params[name := value];
    }
  }
}
