/** The stand-in driver: it stores nothing, and every operation succeeds
    except on the reserved name "error". The identifier is never looked at,
    so it is not an argument here. */
module Hole {
  import opened Parameters

  const ErrorName := "error"

  /** The PARAMS constant: strict. */
  const Defaults: map<string, Value> := map[StrictKey := Bool(true)]

  class Hole {
    const config: Params

    constructor (given: map<string, Value>)
      ensures fresh(config)
      ensures config.defaults == Defaults && config.params == Merge(Defaults, given)
    {
      config := new Params(Defaults, given);
    }

    /** `check`: true for any name but "error", which fails with `message`
        (thrown when strict, false otherwise). */
    function Check(name: string, message: string): (r: Reply<bool>)
      reads this, config
      ensures r == Ok(true) <==> name != ErrorName
      ensures name == ErrorName ==> r == GenerateError(Truthy(config.GetParam(StrictKey)), message)
    {
      if name == ErrorName then GenerateError(Truthy(config.GetParam(StrictKey)), message) else Ok(true)
    }

    /** `get`: the fixed text "content", or the read error. */
    function Get(name: string): (r: Reply<string>)
      reads this, config
      ensures r.Ok? <==> name != ErrorName
      ensures r.Ok? ==> r.value == "content"
      ensures name == ErrorName && Truthy(config.GetParam(StrictKey)) ==> r == Thrown("Can not read file")
      ensures name == ErrorName && !Truthy(config.GetParam(StrictKey)) ==> r == False
    {
      match Check(name, "Can not read file")
      case Ok(_) => Ok("content")
      case False => False
      case Thrown(m) => Thrown(m)
    }

    /** `set`, `delete` and `copy`: true exactly where the name is present,
        otherwise the operation's own error. */
    function Set(content: string, name: string): (r: Reply<bool>)
      reads this, config
      ensures name == ErrorName ==> r == GenerateError(Truthy(config.GetParam(StrictKey)), "Can not save file")
      ensures r == Ok(true) <==> IsPresent(name)
    {
      Check(name, "Can not save file")
    }

    function Delete(name: string): (r: Reply<bool>)
      reads this, config
      ensures name == ErrorName ==> r == GenerateError(Truthy(config.GetParam(StrictKey)), "Can not delete file")
      ensures r == Ok(true) <==> IsPresent(name)
    {
      Check(name, "Can not delete file")
    }

    function Copy(name: string, destName: string): (r: Reply<bool>)
      reads this, config
      ensures name == ErrorName ==> r == GenerateError(Truthy(config.GetParam(StrictKey)), "Can not copy file")
      ensures r == Ok(true) <==> IsPresent(name)
    {
      Check(name, "Can not copy file")
    }

    /** `isPresent`: everything but "error" is present, in either mode. */
    function IsPresent(name: string): (present: bool)
      ensures present <==> name != ErrorName
    {
      name != ErrorName
    }

    /** `getPreparedUrl`: the fixed URL, or plain false for "error", even in
        strict mode. */
    function GetPreparedUrl(name: string): (r: Option<string>)
      ensures r.Some? <==> IsPresent(name)
      ensures r.Some? ==> r.value == "http://url"
    {
      if name == ErrorName then None else Some("http://url")
    }
  }
}
