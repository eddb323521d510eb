/**
 * The instance-variable access of Flott::EnvironmentExtension: `env[name]` and `env[name] = value` accept a
 * name with or without its leading '@', and a new environment holds the output and escape objects in
 * @__output__ and @__escape__. Values are of an arbitrary type V.
 */
module Environments {
  import opened Wrappers
  import opened Strings
  import opened Errors

  /** A character Ruby allows inside an identifier (non-ASCII characters count as letters). */
  predicate IsWordChar(c: char) {
    ('a' <= c <= 'z') || ('A' <= c <= 'Z') || ('0' <= c <= '9') || c == '_' || c > '\U{007F}'
  }

  /** A name instance_variable_get and instance_variable_set accept: '@' and an identifier not starting with a digit. */
  predicate IsIvarName(name: string) {
    2 <= |name| && name[0] == '@' && IsWordChar(name[1]) && !('0' <= name[1] <= '9')
    && forall k :: 2 <= k < |name| ==> IsWordChar(name[k])
  }

  /** The name `[]` and `[]=` look up: `name` itself when it starts with '@', otherwise '@' in front of it. */
  function Normalise(name: string): (r: string)
    ensures r != [] && r[0] == '@'
    ensures r == name || r == "@" + name
    ensures r == name <==> (name != [] && name[0] == '@')
  {
    if name != [] && name[0] == '@' then name else "@" + name
  }

  /** Normalising a normalised name changes nothing. */
  lemma NormaliseIdempotent(name: string)
    ensures Normalise(Normalise(name)) == Normalise(name)
  {
  }

  /** The leading '@' is optional: `foo` and `@foo` name the same variable. */
  lemma PrefixOptional(name: string)
    requires name == [] || name[0] != '@'
    ensures Normalise("@" + name) == Normalise(name)
  {
  }

  class Environment<V> {
    /** The environment's instance variables. */
    var ivars: map<string, V>

    /** EnvironmentExtension#initialize: @__output__ and @__escape__ hold the given objects. */
    constructor (output: V, escape: V)
      ensures ivars == map["@__output__" := output, "@__escape__" := escape]
    {
      ivars := map["@__output__" := output, "@__escape__" := escape];
    }

    /**
     * EnvironmentExtension#[]: the value of the variable, None (Ruby's nil) when it was never set, and a
     * NameError (BadVariableName) when the normalised name is not an instance-variable name.
     */
    function Lookup(name: string): (r: Result<Option<V>, Error>)
      reads this
      ensures r.Err? <==> !IsIvarName(Normalise(name))
      ensures r.Err? ==> r.error == BadVariableName(Normalise(name))
      ensures r.Ok? ==> (r.value.Some? <==> Normalise(name) in ivars)
      ensures r.Ok? && r.value.Some? ==> r.value.value == ivars[Normalise(name)]
    {
      var n := Normalise(name);
      if !IsIvarName(n) then Err(BadVariableName(n))
      else if n in ivars then Ok(Some(ivars[n])) else Ok(None)
    }

    /**
     * EnvironmentExtension#[]=: sets the variable, after which it reads back as `value` under either
     * spelling while every other variable keeps its value; a bad name is a NameError and changes nothing.
     */
    method Assign(name: string, value: V) returns (r: Outcome<Error>)
      modifies this
      ensures r.Fail? <==> !IsIvarName(Normalise(name))
      ensures r.Fail? ==> r.error == BadVariableName(Normalise(name)) && ivars == old(ivars)
      ensures r.Pass? ==> ivars == old(ivars)[Normalise(name) := value]
      ensures r.Pass? ==> Lookup(name) == Ok(Some(value))
      ensures forall other :: Normalise(other) != Normalise(name) ==> Lookup(other) == old(Lookup(other))
    {
      var n := Normalise(name);
      if !IsIvarName(n) {
        return Fail(BadVariableName(n));
      }
      ivars := ivars[n := value];
      r := Pass;
    }
  }
}
