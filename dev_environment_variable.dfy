/**
 * A configuration setting read from the process environment: a prefixed variable name, an
 * optional default, a value looked up lazily on first read and cached, and a "truthy" test.
 * The process environment is a `map` from variable names to values; a name missing from the
 * map is a variable that is not set (`Environment.GetEnvironmentVariable` returns null).
 */
module DevEnvironment {
  import opened Wrappers
  import opened Strings

  const Prefix: string := "__ENVIRONMENT_VARIABLE_PREFIX___"

  /** The values `IsTruthy` accepts, compared ignoring case. */
  const TrueValues: seq<string> := ["1", "on", "true", "yes"]

  /** The exceptions `ArgumentException.ThrowIfNullOrEmpty` throws, naming the parameter. */
  datatype ArgumentError =
    | ArgumentNull(paramName: string)
    | ArgumentEmpty(paramName: string)

  /** `ArgumentException.ThrowIfNullOrEmpty(argument)`: `None` when the argument is accepted. */
  function CheckNotNullOrEmpty(argument: Option<string>, paramName: string): (r: Option<ArgumentError>)
    ensures r.None? <==> argument.Some? && argument.value != ""
    ensures r.Some? ==> r.value.paramName == paramName && (r.value.ArgumentNull? <==> argument.None?)
  {
    match argument
    case None => Some(ArgumentNull(paramName))
    case Some(s) => if s == "" then Some(ArgumentEmpty(paramName)) else None
  }

  /** What a constructor call fixes for the lifetime of the object. */
  datatype Declaration = Declaration(name: string, defaultValue: Option<string>)

  /** The one-argument constructor: checks the name, prefixes it, leaves the default null. */
  function DeclareWithoutDefault(name: Option<string>): (r: Result<Declaration, ArgumentError>)
    ensures r.Success? <==> name.Some? && name.value != ""
    ensures r.Success? ==> r.value == Declaration(Prefix + name.value, None)
    ensures r.Failure? ==> r.error == (if name.None? then ArgumentNull("name") else ArgumentEmpty("name"))
  {
    match CheckNotNullOrEmpty(name, "name")
    case Some(e) => Failure(e)
    case None => Success(Declaration(Prefix + name.value, None))
  }

  /** The two-argument constructor: runs the one-argument constructor, then checks the default. */
  function DeclareWithDefault(name: Option<string>, defaultValue: Option<string>): (r: Result<Declaration, ArgumentError>)
    ensures r.Success? <==> name.Some? && name.value != "" && defaultValue.Some? && defaultValue.value != ""
    ensures r.Success? ==> r.value == Declaration(Prefix + name.value, defaultValue)
    ensures DeclareWithoutDefault(name).Failure? ==> r == DeclareWithoutDefault(name)
    ensures DeclareWithoutDefault(name).Success? && r.Failure? ==>
      r.error == (if defaultValue.None? then ArgumentNull("defaultValue") else ArgumentEmpty("defaultValue"))
  {
    match DeclareWithoutDefault(name)
    case Failure(e) => Failure(e)
    case Success(d) =>
      match CheckNotNullOrEmpty(defaultValue, "defaultValue")
      case Some(e) => Failure(e)
      case None => Success(d.(defaultValue := defaultValue))
  }

  /** `Environment.GetEnvironmentVariable(name)`. */
  function Lookup(env: map<string, string>, name: string): (r: Option<string>)
    ensures r.Some? <==> name in env
    ensures r.Some? ==> r.value == env[name]
  {
    if name in env then Some(env[name]) else None
  }

  /**
   * What `Value` returns once it has hydrated from `lookup` with the given default:
   * `(lookup ?? defaultValue) ?? ""`.
   */
  function ValueOf(lookup: Option<string>, defaultValue: Option<string>): (v: string)
    ensures lookup.Some? ==> v == lookup.value
    ensures lookup.None? && defaultValue.Some? ==> v == defaultValue.value
    ensures lookup.None? && defaultValue.None? ==> v == ""
  {
    lookup.OrElse(defaultValue).GetOr("")
  }

  /** `IsTruthy` of a value: it equals one of `TrueValues` under ordinal case-insensitive comparison. */
  predicate Truthy(value: string)
    ensures Truthy(value) ==> 1 <= |value| <= 4
  {
    exists i :: 0 <= i < |TrueValues| && EqualsIgnoreCase(TrueValues[i], value)
  }

  /** The truthy values are exactly those whose upper-case form is "1", "ON", "TRUE" or "YES". */
  lemma TruthyIff(value: string)
    ensures Truthy(value) <==> ToUpperString(value) in ["1", "ON", "TRUE", "YES"]
  {
    assert ToUpperString("1") == "1";
    assert ToUpperString("on") == "ON";
    assert ToUpperString("true") == "TRUE";
    assert ToUpperString("yes") == "YES";
    if ToUpperString(value) in ["1", "ON", "TRUE", "YES"] {
      var i :| 0 <= i < 4 && ToUpperString(value) == ["1", "ON", "TRUE", "YES"][i];
      assert EqualsIgnoreCase(TrueValues[i], value);
    }
  }

  /** Any spelling of "yes" counts; a prefix, or the word with a blank around it, does not. */
  lemma TruthyExamples()
    ensures Truthy("YES") && Truthy("Yes") && Truthy("on") && Truthy("TRUE") && Truthy("1")
    ensures !Truthy("y") && !Truthy(" yes") && !Truthy("yes ") && !Truthy("") && !Truthy("0")
  {
    TruthyIff("YES");
    TruthyIff("Yes");
    TruthyIff("on");
    TruthyIff("TRUE");
    TruthyIff("1");
    TruthyIff("y");
    TruthyIff(" yes");
    TruthyIff("yes ");
    TruthyIff("");
    TruthyIff("0");
    assert ToUpperString("YES") == "YES";
    assert ToUpperString("Yes") == "YES";
    assert ToUpperString("on") == "ON";
    assert ToUpperString("TRUE") == "TRUE";
    assert ToUpperString("1") == "1";
    assert |ToUpperString("y")| == 1;
    assert ToUpperString(" yes")[0] == ' ';
    assert ToUpperString("yes ")[3] == ' ';
    assert ToUpperString("0") == "0";
  }

  class DevEnvironmentVariable {
    const Name: string
    const DefaultValue: Option<string>
    /** `_hydratedValue`: whether `Value` has been read before. */
    var hydratedValue: bool
    /** The backing field of `Value`, null until the first read. */
    var field: Option<string>
    /** How often the environment has been consulted. */
    ghost var lookups: nat

    ghost predicate Valid()
      reads this
    {
      && lookups == (if hydratedValue then 1 else 0)
      && (!hydratedValue ==> field == None)
      && Prefix <= Name && |Name| > |Prefix|
      && (DefaultValue.Some? ==> DefaultValue.value != "")
    }

    /** The declaration this object was built from. */
    function Declared(): Declaration
    {
      Declaration(Name, DefaultValue)
    }

    /** What reading `Value` now, in environment `env`, returns. */
    ghost function Current(env: map<string, string>): string
      reads this
    {
      if hydratedValue then field.GetOr("") else ValueOf(Lookup(env, Name), DefaultValue)
    }

    /** Builds the object from a checked declaration; the value is not looked up yet. */
    constructor FromDeclaration(declaration: Declaration)
      requires Prefix <= declaration.name && |declaration.name| > |Prefix|
      requires declaration.defaultValue.Some? ==> declaration.defaultValue.value != ""
      ensures Valid() && Declared() == declaration && !hydratedValue
    {
      Name := declaration.name;
      DefaultValue := declaration.defaultValue;
      hydratedValue := false;
      field := None;
      lookups := 0;
    }

    /** `new DevEnvironmentVariable(name)`, with the exception as a `Failure`. */
    static method New(name: Option<string>) returns (r: Result<DevEnvironmentVariable, ArgumentError>)
      ensures DeclareWithoutDefault(name).Failure? ==> r == Failure(DeclareWithoutDefault(name).error)
      ensures DeclareWithoutDefault(name).Success? ==>
        r.Success? && fresh(r.value) && r.value.Valid() && !r.value.hydratedValue
        && r.value.Declared() == DeclareWithoutDefault(name).value
    {
      var declared := DeclareWithoutDefault(name);
      if declared.Failure? {
        r := Failure(declared.error);
      } else {
        var v := new DevEnvironmentVariable.FromDeclaration(declared.value);
        r := Success(v);
      }
    }

    /** `new DevEnvironmentVariable(name, defaultValue)`, with the exception as a `Failure`. */
    static method NewWithDefault(name: Option<string>, defaultValue: Option<string>)
      returns (r: Result<DevEnvironmentVariable, ArgumentError>)
      ensures DeclareWithDefault(name, defaultValue).Failure? ==>
        r == Failure(DeclareWithDefault(name, defaultValue).error)
      ensures DeclareWithDefault(name, defaultValue).Success? ==>
        r.Success? && fresh(r.value) && r.value.Valid() && !r.value.hydratedValue
        && r.value.Declared() == DeclareWithDefault(name, defaultValue).value
    {
      var declared := DeclareWithDefault(name, defaultValue);
      if declared.Failure? {
        r := Failure(declared.error);
      } else {
        var v := new DevEnvironmentVariable.FromDeclaration(declared.value);
        r := Success(v);
      }
    }

    /**
     * The `Value` getter. The first read looks the variable up, falls back to the default only
     * when the lookup is null, and caches the outcome; every read returns the cache or "".
     */
    method Value(env: map<string, string>) returns (v: string)
      requires Valid()
      modifies this`hydratedValue, this`field, this`lookups
      ensures Valid() && hydratedValue
      ensures v == old(Current(env))
      ensures !old(hydratedValue) ==> field == Lookup(env, Name).OrElse(DefaultValue) && lookups == 1
      ensures old(hydratedValue) ==> field == old(field) && lookups == old(lookups)
      ensures forall later :: Current(later) == v
    {
      if !hydratedValue {
        field := Lookup(env, Name).OrElse(DefaultValue);
        hydratedValue := true;
        lookups := lookups + 1;
      }
      v := field.GetOr("");
    }

    /** The `IsTruthy` property: reads `Value` and tests it against `TrueValues`. */
    method IsTruthy(env: map<string, string>) returns (b: bool)
      requires Valid()
      modifies this`hydratedValue, this`field, this`lookups
      ensures Valid() && hydratedValue
      ensures b == Truthy(old(Current(env)))
      ensures forall later :: Current(later) == old(Current(env))
      ensures !old(hydratedValue) ==> field == Lookup(env, Name).OrElse(DefaultValue) && lookups == 1
      ensures old(hydratedValue) ==> field == old(field) && lookups == old(lookups)
    {
      var value := Value(env);
      b := Truthy(value);
    }
  }
}
