/** The service front end: resolves which driver an operation goes to, by a
    ready driver, by an array of driver parameters or by a configured driver
    name, creating each driver once and keeping it in a registry. */
module Service {
  import opened Parameters
  import Filesystem
  import Hole
  import Containers

  const DefaultDriverKey := "defaultDriver"
  const IdentKey := "ident"
  const DriversKey := "drivers"
  const TypeKey := "type"
  const AllKey := "all"

  /** The PARAMS constant: the default driver "main" is a filesystem driver,
      and the parameters under "all" (none) go to every driver. */
  const Defaults: map<string, Value> := map[
    DefaultDriverKey := Str("main"),
    IdentKey := Dict(map[]),
    DriversKey := Dict(map["main" := Dict(map[TypeKey := Type(FilesystemType)]), AllKey := Dict(map[])])
  ]

  const DriverNamePrefix: string := "Drivername \""
  const NotPresentTail: string := "\" is not present in CsmService params"
  const NoTypeTail: string := "\" has no driver type in CsmService params"
  const ArrayMergeMessage: string := "array_merge(): Argument #2 must be of type array"
  const DefaultDriverMessage := "defaultDriver parameter is not set for CsmService"
  const CustomNoTypeMessage := "Custom driver has no driver type in params"

  function NotPresentMessage(name: string): string
  {
    DriverNamePrefix + name + NotPresentTail
  }

  function NoTypeMessage(name: string): string
  {
    DriverNamePrefix + name + NoTypeTail
  }

  /** The error PHP raises for `new $classname` with a name that is no class. */
  function ClassNotFoundMessage(v: Value): string
  {
    "Class \"" + StrOf(v) + "\" not found"
  }

  /** A driver object: its class, its parameters, and a serial number that
      tells instances apart. */
  datatype Driver = Driver(kind: DriverType, params: map<string, Value>, serial: nat)

  /** The PARAMS constant of a driver class. */
  function DefaultsOf(kind: DriverType): map<string, Value>
  {
    match kind
    case FilesystemType => Filesystem.Defaults
    case HoleType => Hole.Defaults
  }

  /** `new $classname($given)`: the driver's parameters are its class's
      defaults overridden by the array it is given. */
  function Instance(kind: DriverType, given: map<string, Value>, serial: nat): (d: Driver)
    ensures d.kind == kind && d.serial == serial
    ensures d.params.Keys == DefaultsOf(kind).Keys + given.Keys
    ensures forall k :: k in given ==> d.params[k] == given[k]
    ensures forall k :: k in DefaultsOf(kind) && k !in given ==> d.params[k] == DefaultsOf(kind)[k]
  {
    Driver(kind, Merge(DefaultsOf(kind), given), serial)
  }

  /** The argument of `getDriver`: a ready driver, an array of driver
      parameters, or any other value, taken as a driver name unless it is an
      array. */
  datatype Selector = ByInstance(driver: Driver) | ByParams(params: map<string, Value>) | ByName(name: Value)

  /** The drivers created so far, by name or by parameter hash, and the
      number of instances created. */
  datatype Registry = Registry(drivers: map<string, Driver>, created: nat)

  /** The `drivers` array of the service parameters. */
  function DriverTable(params: map<string, Value>): map<string, Value>
  {
    match Get(params, DriversKey)
    case Dict(d) => d
    case _ => map[]
  }

  /** `isset($entry['type'])`. */
  predicate HasType(entry: Value)
  {
    entry.Dict? && TypeKey in entry.d && entry.d[TypeKey] != Null
  }

  function LowerChar(c: char): char
  {
    if 'A' <= c <= 'Z' then (c as int + 32) as char else c
  }

  /** Whether `s` names the class called `name` as PHP looks classes up:
      one leading `\` is dropped and letters match in either case. */
  predicate NamesClass(s: string, name: string)
  {
    var t := if |s| > 0 && s[0] == '\\' then s[1..] else s;
    |t| == |name| && forall i :: 0 <= i < |t| ==> LowerChar(t[i]) == LowerChar(name[i])
  }

  /** The driver class a `type` value names: a class constant, or a name
      that matches the class's name up to case and a leading `\`. */
  function ClassOf(v: Value): (kind: Option<DriverType>)
    ensures kind == Some(FilesystemType) <==>
      v == Type(FilesystemType) || (v.Str? && NamesClass(v.s, StrOf(Type(FilesystemType))))
    ensures kind == Some(HoleType) <==>
      v == Type(HoleType) || (v.Str? && NamesClass(v.s, StrOf(Type(HoleType))))
  {
    match v
    case Type(t) => Some(t)
    case Str(s) =>
      if NamesClass(s, StrOf(Type(FilesystemType))) then Some(FilesystemType)
      else if NamesClass(s, StrOf(Type(HoleType))) then Some(HoleType)
      else None
    case _ => None
  }

  /** A class name written in another case and with a leading `\` names
      the same class; a near miss names none. */
  lemma ClassOfExamples()
    ensures ClassOf(Str("\\csm\\driver\\hole")) == Some(HoleType)
    ensures ClassOf(Str("Csm\\Driver\\Holes")) == None
  {
    var s := "\\csm\\driver\\hole";
    var name := StrOf(Type(HoleType));
    assert s[1..] == "csm\\driver\\hole";
    forall i | 0 <= i < |name|
      ensures LowerChar(s[1..][i]) == LowerChar(name[i])
    {
    }
  }

  /** Merging the driver's own parameters with `drivers['all']` as the code
      does it: `all` must be an array, else the merge raises a type error. */
  function MergeAllAsWritten(own: map<string, Value>, params: map<string, Value>): (r: Reply<map<string, Value>>)
    ensures r.Ok? <==> AllKey in DriverTable(params) && DriverTable(params)[AllKey].Dict?
  {
    var table := DriverTable(params);
    if AllKey in table && table[AllKey].Dict? then Ok(Merge(own, table[AllKey].d))
    else Thrown(ArrayMergeMessage)
  }

  /** The parameters common to all drivers; none when `drivers['all']` is
      absent. */
  function AllParams(params: map<string, Value>): map<string, Value>
  {
    var table := DriverTable(params);
    if AllKey in table && table[AllKey].Dict? then table[AllKey].d else map[]
  }

  /** The parameters a new driver gets: its own, overridden by `all`. */
  function WithAll(own: map<string, Value>, params: map<string, Value>): (r: map<string, Value>)
    ensures r.Keys == own.Keys + AllParams(params).Keys
    ensures forall k :: k in AllParams(params) ==> r[k] == AllParams(params)[k]
    ensures forall k :: k in own && k !in AllParams(params) ==> r[k] == own[k]
    ensures MergeAllAsWritten(own, params).Ok? ==> MergeAllAsWritten(own, params).value == r
  {
    Merge(own, AllParams(params))
  }

  /** `new $classname(...)` for a parameter array holding a type. */
  function Build(own: map<string, Value>, params: map<string, Value>, serial: nat): (r: Reply<Driver>)
    requires TypeKey in own
    ensures !r.False?
    ensures r.Ok? <==> ClassOf(own[TypeKey]).Some?
    ensures r.Ok? ==> r.value == Instance(ClassOf(own[TypeKey]).value, WithAll(own, params), serial)
    ensures r.Thrown? ==> r.message == ClassNotFoundMessage(own[TypeKey])
  {
    match ClassOf(own[TypeKey])
    case Some(kind) => Ok(Instance(kind, WithAll(own, params), serial))
    case None => Thrown(ClassNotFoundMessage(own[TypeKey]))
  }

  /** The name a lookup uses: an empty or null name means the default driver. */
  function Key(params: map<string, Value>, name: Value): string
  {
    if IsBlank(name) then StrOf(Get(params, DefaultDriverKey)) else StrOf(name)
  }

  /** `getDriverByName` for a resolved name: the registered driver, or a new
      one made from the configured entry and registered under the name. */
  function LookupByName(params: map<string, Value>, reg: Registry, name: string): (r: (Reply<Driver>, Registry))
    ensures reg.drivers.Keys <= r.1.drivers.Keys <= reg.drivers.Keys + {name}
    ensures forall k :: k in reg.drivers ==> r.1.drivers[k] == reg.drivers[k]
    ensures r.1.created == if r.1.drivers == reg.drivers then reg.created else reg.created + 1
    ensures r.0.Ok? ==> name in r.1.drivers && r.1.drivers[name] == r.0.value
  {
    if name in reg.drivers then (Ok(reg.drivers[name]), reg)
    else
      var table := DriverTable(params);
      if name !in table || table[name] == Null then (Thrown(NotPresentMessage(name)), reg)
      else if !HasType(table[name]) then (Thrown(NoTypeMessage(name)), reg)
      else
        var made := Build(table[name].d, params, reg.created);
        if made.Ok? then (made, Registry(reg.drivers[name := made.value], reg.created + 1))
        else (made, reg)
  }

  /** `getDriverByParams` for parameters with hash `hash`. */
  function LookupByParams(params: map<string, Value>, reg: Registry, own: map<string, Value>, hash: string): (r: (Reply<Driver>, Registry))
    ensures reg.drivers.Keys <= r.1.drivers.Keys <= reg.drivers.Keys + {hash}
    ensures forall k :: k in reg.drivers ==> r.1.drivers[k] == reg.drivers[k]
    ensures r.1.created == if r.1.drivers == reg.drivers then reg.created else reg.created + 1
    ensures r.0.Ok? ==> hash in r.1.drivers && r.1.drivers[hash] == r.0.value
  {
    if hash in reg.drivers then (Ok(reg.drivers[hash]), reg)
    else if TypeKey !in own || own[TypeKey] == Null then (Thrown(CustomNoTypeMessage), reg)
    else
      var made := Build(own, params, reg.created);
      if made.Ok? then (made, Registry(reg.drivers[hash := made.value], reg.created + 1))
      else (made, reg)
  }

  /** A lookup never fails silently. A registered name is answered from the
      registry, which stays as it is; an unregistered one either fails with
      the registry unchanged or registers exactly one new instance, numbered
      after those created before, with the entry's class and its parameters
      merged with `all`. */
  lemma LookupByNameShape(params: map<string, Value>, reg: Registry, name: string)
    ensures var (r, reg') := LookupByName(params, reg, name);
      && !r.False?
      && (name in reg.drivers ==> r == Ok(reg.drivers[name]) && reg' == reg)
      && (r.Thrown? ==> reg' == reg)
      && (r.Ok? && name !in reg.drivers ==>
            var entry := DriverTable(params)[name];
            && HasType(entry)
            && r.value == Instance(ClassOf(entry.d[TypeKey]).value, WithAll(entry.d, params), reg.created)
            && reg' == Registry(reg.drivers[name := r.value], reg.created + 1))
  {
  }

  /** The failures of a lookup by name, in the order the code checks them. */
  lemma LookupByNameErrors(params: map<string, Value>, reg: Registry, name: string)
    requires name !in reg.drivers
    ensures var table := DriverTable(params);
      var (r, _) := LookupByName(params, reg, name);
      && (name !in table || table[name] == Null <==> r == Thrown(NotPresentMessage(name)))
      && (name in table && table[name] != Null && !HasType(table[name]) <==> r == Thrown(NoTypeMessage(name)))
  {
    assert NotPresentMessage(name) != NoTypeMessage(name) by {
      var n := |"Drivername \"" + name + "\" "|;
      assert NotPresentMessage(name)[n] == 'i' && NoTypeMessage(name)[n] == 'h';
    }
    var table := DriverTable(params);
    if name in table && table[name] != Null && HasType(table[name]) {
      var v := table[name].d[TypeKey];
      assert ClassNotFoundMessage(v)[0] == 'C';
      assert NotPresentMessage(name)[0] == 'D' && NoTypeMessage(name)[0] == 'D';
    }
  }

  /** Looking a name up again after a successful lookup gives the same
      instance and changes nothing: every driver is created once. */
  lemma LookupByNameCached(params: map<string, Value>, reg: Registry, name: string)
    ensures var (r, reg') := LookupByName(params, reg, name);
      r.Ok? ==> LookupByName(params, reg', name) == (r, reg')
  {
    LookupByNameShape(params, reg, name);
  }

  /** The same for lookups by parameters: created once per hash. */
  lemma LookupByParamsCached(params: map<string, Value>, reg: Registry, own: map<string, Value>, hash: string)
    ensures var (r, reg') := LookupByParams(params, reg, own, hash);
      && (r.Ok? ==> LookupByParams(params, reg', own, hash) == (r, reg'))
      && (r.Ok? ==> hash in reg'.drivers && reg'.drivers[hash] == r.value)
      && (hash !in reg.drivers && (TypeKey !in own || own[TypeKey] == Null) ==> r == Thrown(CustomNoTypeMessage))
      && (r.Thrown? ==> reg' == reg)
  {
  }

  /** An unregistered name whose entry names a known class is built from
      that entry and registered. */
  lemma LookupBuilds(params: map<string, Value>, reg: Registry, name: string, own: map<string, Value>, kind: DriverType)
    requires name !in reg.drivers && name in DriverTable(params) && DriverTable(params)[name] == Dict(own)
    requires TypeKey in own && ClassOf(own[TypeKey]) == Some(kind)
    ensures var d := Instance(kind, WithAll(own, params), reg.created);
      LookupByName(params, reg, name) == (Ok(d), Registry(reg.drivers[name := d], reg.created + 1))
  {
    assert HasType(DriverTable(params)[name]);
    assert Build(own, params, reg.created) == Ok(Instance(kind, WithAll(own, params), reg.created));
  }

  /** The driver table of the defaults. */
  const DefaultTable: map<string, Value> := map["main" := Dict(map[TypeKey := Type(FilesystemType)]), AllKey := Dict(map[])]

  /** With the defaults, the default driver is a filesystem driver whose only
      given parameter is its type. */
  lemma DefaultLookup()
    ensures LookupByName(Defaults, Registry(map[], 0), Key(Defaults, Null)).0
      == Ok(Instance(FilesystemType, map[TypeKey := Type(FilesystemType)], 0))
  {
    var own := map[TypeKey := Type(FilesystemType)];
    assert Key(Defaults, Null) == "main";
    assert DriverTable(Defaults) == DefaultTable;
    assert DefaultTable["main"] == Dict(own);
    assert AllParams(Defaults) == map[];
    assert WithAll(own, Defaults) == own;
    LookupBuilds(Defaults, Registry(map[], 0), "main", own, FilesystemType);
  }

  /** A default naming a driver the table does not hold fails with the
      matching message. */
  lemma AbsentDefaultLookup()
    ensures var p := Merge(Defaults, map[DefaultDriverKey := Str("stub")]);
      LookupByName(p, Registry(map[], 0), Key(p, Null)).0 == Thrown(NotPresentMessage("stub"))
  {
    var p := Merge(Defaults, map[DefaultDriverKey := Str("stub")]);
    assert Key(p, Null) == "stub";
    assert DriverTable(p) == DefaultTable;
    assert "stub" !in DefaultTable;
  }

  /** A default whose entry is no array with a type fails with the matching
      message. */
  lemma UntypedDefaultLookup()
    ensures var p := Merge(Defaults, map[DefaultDriverKey := Str("stub"), DriversKey := Dict(map["stub" := Str("")])]);
      LookupByName(p, Registry(map[], 0), Key(p, Null)).0 == Thrown(NoTypeMessage("stub"))
  {
    var over := map[DefaultDriverKey := Str("stub"), DriversKey := Dict(map["stub" := Str("")])];
    var p := Merge(Defaults, over);
    assert p[DefaultDriverKey] == over[DefaultDriverKey] == Str("stub");
    assert p[DriversKey] == over[DriversKey];
    assert !HasType(Str(""));
  }

  /** The wiring of the service example: a `drivers` array with a "main"
      entry and no "all" entry, which replaces the default `drivers` array as
      a whole. */
  const ExampleEntry: map<string, Value> := map[
    TypeKey := Type(FilesystemType),
    Filesystem.ResourcePathKey := Str("/public/resources"),
    Filesystem.ResourceUrlKey := Str("/resources")]

  function ExampleParams(): map<string, Value>
  {
    Merge(Defaults, map[DriversKey := Dict(map["main" := Dict(ExampleEntry)])])
  }

  /** As written, building the example's default driver fails in the merge
      with `drivers['all']`, which the example does not set. */
  lemma ExampleMergeAsWritten()
    ensures var entry := DriverTable(ExampleParams())["main"];
      entry.Dict? && MergeAllAsWritten(entry.d, ExampleParams()).Thrown?
  {
  }

  /** With a missing `all` taken as no common parameters, the example's
      default driver is the filesystem driver with exactly its own entry. */
  lemma ExampleLookup()
    ensures var p := ExampleParams();
      && Key(p, Null) == "main"
      && LookupByName(p, Registry(map[], 0), "main").0 == Ok(Instance(FilesystemType, ExampleEntry, 0))
  {
    ExampleTable();
    var p := ExampleParams();
    assert WithAll(ExampleEntry, p) == ExampleEntry;
    LookupBuilds(p, Registry(map[], 0), "main", ExampleEntry, FilesystemType);
  }

  /** The example's driver table and default name. */
  lemma ExampleTable()
    ensures DriverTable(ExampleParams()) == map["main" := Dict(ExampleEntry)]
    ensures AllParams(ExampleParams()) == map[]
    ensures Key(ExampleParams(), Null) == "main"
  {
    assert DriverTable(ExampleParams()) == map["main" := Dict(ExampleEntry)];
  }

  /** A ready driver registered under the hash of its parameters is found
      again by that hash used as a driver name, and the lookup creates
      nothing. */
  lemma RegisteredDriverFound(params: map<string, Value>, reg: Registry, d: Driver, hash: string)
    requires hash != ""
    ensures var reg' := Registry(reg.drivers[hash := d], reg.created);
      LookupByName(params, reg', Key(params, Str(hash))) == (Ok(d), reg')
  {
  }

  /** A parameter array naming the stand-in class gives a new stand-in
      driver under the array's hash; an empty one has no type. */
  lemma ParamsLookupExamples(params: map<string, Value>, reg: Registry, hash: string)
    requires hash !in reg.drivers
    ensures var (r, reg') := LookupByParams(params, reg, map[TypeKey := Type(HoleType)], hash);
      && r.Ok? && r.value.kind == HoleType && r.value.serial == reg.created
      && reg'.drivers == reg.drivers[hash := r.value]
    ensures LookupByParams(params, reg, map[], hash).0 == Thrown(CustomNoTypeMessage)
  {
  }

  const SerializeMessage := "Serialization of 'Closure' is not allowed"

  /** Whether a callback occurs anywhere in a value, nested arrays included. */
  predicate HoldsClosure(v: Value)
  {
    match v
    case Listener(_) => true
    case Dict(d) => exists k :: k in d && HoldsClosure(d[k])
    case _ => false
  }

  /** Whether `serialize` accepts an array: it refuses every closure. */
  predicate Serializable(m: map<string, Value>)
  {
    forall k :: k in m ==> !HoldsClosure(m[k])
  }

  /** `generateArrayHash`: `hash` of an array `serialize` accepts, and the
      exception `serialize` raises for one holding a callback. */
  function ArrayHash(hash: map<string, Value> -> string, m: map<string, Value>): (r: Reply<string>)
    ensures !r.False?
    ensures r.Ok? <==> Serializable(m)
    ensures r.Thrown? ==> r.message == SerializeMessage
  {
    if Serializable(m) then Ok(hash(m)) else Thrown(SerializeMessage)
  }

  /** A parameter array with a callback, at the top or inside a nested
      array, cannot be hashed; the stand-in class alone can. */
  lemma ArrayHashExamples(hash: map<string, Value> -> string, f: Containers.Snapshot -> bool)
    ensures ArrayHash(hash, map[TypeKey := Type(HoleType)]) == Ok(hash(map[TypeKey := Type(HoleType)]))
    ensures ArrayHash(hash, map[TypeKey := Type(HoleType), "readEvent" := Listener(f)]) == Thrown(SerializeMessage)
    ensures ArrayHash(hash, map[AllKey := Dict(map["writeEvent" := Listener(f)])]) == Thrown(SerializeMessage)
  {
    var m := map[TypeKey := Type(HoleType), "readEvent" := Listener(f)];
    assert HoldsClosure(m["readEvent"]);
    var inner := map["writeEvent" := Listener(f)];
    assert HoldsClosure(inner["writeEvent"]);
    assert HoldsClosure(Dict(inner));
    var nested := map[AllKey := Dict(inner)];
    assert HoldsClosure(nested[AllKey]);
  }

  class CsmService {
    const config: Params
    /** md5 of the serialized array, an opaque function here. */
    const hash: map<string, Value> -> string
    var drivers: map<string, Driver>
    var created: nat

    function State(): Registry
      reads this
    {
      Registry(drivers, created)
    }

    /** The reply is that of the lookup `out`, and the registry is the one
        the lookup leaves. */
    ghost predicate Answers(r: Reply<Driver>, out: (Reply<Driver>, Registry))
      reads this
    {
      r == out.0 && drivers == out.1.drivers && created == out.1.created
    }

    constructor (given: map<string, Value>, hash: map<string, Value> -> string)
      requires !IsBlank(Get(Merge(Defaults, given), DefaultDriverKey))
      ensures fresh(config) && config.defaults == Defaults && config.params == Merge(Defaults, given)
      ensures this.hash == hash && drivers == map[] && created == 0
    {
      config := new Params(Defaults, given);
      this.hash := hash;
      drivers := map[];
      created := 0;
    }

    /** `getDriverByName`. An empty name is looked up as the default driver;
        the default itself must not be empty, or the lookup would recurse
        forever. */
    method GetDriverByName(name: Value) returns (r: Reply<Driver>)
      requires !IsBlank(Get(config.params, DefaultDriverKey))
      modifies this
      ensures Answers(r, LookupByName(config.params, old(State()), Key(config.params, name)))
      decreases if IsBlank(name) then 1 else 0
    {
      if IsBlank(name) {
        r := GetDriverByName(config.GetParam(DefaultDriverKey));
      } else {
        var key := StrOf(name);
        if key in drivers {
          r := Ok(drivers[key]);
        } else {
          r := RegisterDriverByName(key);
        }
      }
    }

    /** `registerDriverByName`: creates the named driver from its entry in the
        `drivers` parameter and registers it under the name. */
    method RegisterDriverByName(name: string) returns (r: Reply<Driver>)
      requires name !in drivers
      modifies this
      ensures Answers(r, LookupByName(config.params, old(State()), name))
    {
      var table := DriverTable(config.params);
      if name !in table || table[name] == Null {
        return Thrown(NotPresentMessage(name));
      }
      if !HasType(table[name]) {
        return Thrown(NoTypeMessage(name));
      }
      r := Build(table[name].d, config.params, created);
      if r.Ok? {
        drivers := drivers[name := r.value];
        created := created + 1;
      }
    }

    /** `getDriverByParams`: the driver registered under the hash of the
        parameters, created first when there is none. */
    method GetDriverByParams(own: map<string, Value>) returns (r: Reply<Driver>)
      modifies this
      ensures !Serializable(own) ==> r == Thrown(SerializeMessage) && State() == old(State())
      ensures Serializable(own) ==> Answers(r, LookupByParams(config.params, old(State()), own, hash(own)))
    {
      var hashed := ArrayHash(hash, own);
      if !hashed.Ok? {
        return Thrown(SerializeMessage);
      }
      var h := hashed.value;
      if h !in drivers {
        r := RegisterDriverByParams(own, h);
        if r.Thrown? {
          return r;
        }
      }
      r := Ok(drivers[h]);
    }

    /** `registerDriverByParams`. */
    method RegisterDriverByParams(own: map<string, Value>, h: string) returns (r: Reply<Driver>)
      requires h !in drivers
      modifies this
      ensures Answers(r, LookupByParams(config.params, old(State()), own, h))
      ensures r.Ok? ==> h in drivers && drivers[h] == r.value
    {
      if TypeKey !in own || own[TypeKey] == Null {
        return Thrown(CustomNoTypeMessage);
      }
      r := Build(own, config.params, created);
      if r.Ok? {
        drivers := drivers[h := r.value];
        created := created + 1;
      }
    }

    /** `registerDriverByDriver`: keeps a ready driver under the hash of its
        parameters, replacing whatever was there, and returns it; a driver
        configured with a callback cannot be hashed and is refused. */
    method RegisterDriverByDriver(d: Driver) returns (r: Reply<Driver>)
      modifies this
      ensures !Serializable(d.params) ==> r == Thrown(SerializeMessage) && drivers == old(drivers)
      ensures Serializable(d.params) ==> r == Ok(d) && drivers == old(drivers)[hash(d.params) := d]
      ensures created == old(created)
    {
      var hashed := ArrayHash(hash, d.params);
      if !hashed.Ok? {
        return Thrown(SerializeMessage);
      }
      drivers := drivers[hashed.value := d];
      r := Ok(d);
    }

    /** `getDriver`: dispatches on the kind of argument. */
    method GetDriver(selector: Selector) returns (r: Reply<Driver>)
      requires !IsBlank(Get(config.params, DefaultDriverKey))
      modifies this
      ensures selector.ByInstance? && !Serializable(selector.driver.params) ==>
        r == Thrown(SerializeMessage) && State() == old(State())
      ensures selector.ByInstance? && Serializable(selector.driver.params) ==>
        r == Ok(selector.driver) && drivers == old(drivers)[hash(selector.driver.params) := selector.driver]
        && created == old(created)
      ensures selector.ByParams? && !Serializable(selector.params) ==>
        r == Thrown(SerializeMessage) && State() == old(State())
      ensures selector.ByParams? && Serializable(selector.params) ==>
        Answers(r, LookupByParams(config.params, old(State()), selector.params, hash(selector.params)))
      ensures selector.ByName? && selector.name.Dict? && !Serializable(selector.name.d) ==>
        r == Thrown(SerializeMessage) && State() == old(State())
      ensures selector.ByName? && selector.name.Dict? && Serializable(selector.name.d) ==>
        Answers(r, LookupByParams(config.params, old(State()), selector.name.d, hash(selector.name.d)))
      ensures selector.ByName? && !selector.name.Dict? ==>
        Answers(r, LookupByName(config.params, old(State()), Key(config.params, selector.name)))
    {
      match selector
      case ByInstance(d) =>
        r := RegisterDriverByDriver(d);
      case ByParams(own) =>
        r := GetDriverByParams(own);
      case ByName(Dict(own)) =>
        r := GetDriverByParams(own);
      case ByName(name) =>
        r := GetDriverByName(name);
    }
  }

  /** `new CsmService(...)`: refuses parameters whose default driver name is
      empty, and otherwise starts with no drivers. */
  method NewService(given: map<string, Value>, hash: map<string, Value> -> string) returns (r: Reply<CsmService>)
    ensures r.Thrown? <==> IsBlank(Get(Merge(Defaults, given), DefaultDriverKey))
    ensures r.Thrown? ==> r.message == DefaultDriverMessage
    ensures r.Ok? ==>
      && fresh(r.value) && fresh(r.value.config) && r.value.drivers == map[]
      && r.value.config.params == Merge(Defaults, given) && r.value.hash == hash
    ensures !r.False?
  {
    if IsBlank(Get(Merge(Defaults, given), DefaultDriverKey)) {
      return Thrown(DefaultDriverMessage);
    }
    var service := new CsmService(given, hash);
    r := Ok(service);
  }
}
