/** The scope-chained environment of src/environment.cpp: each scope maps
    names to a number or a function, and number lookups continue in the
    enclosing scope. */
module ScopedEnvironment {
  import opened Wrappers
  import opened Ast

  /** A function value; only its parameter names are visible here. */
  datatype FunctionObject = FunctionObject(params: seq<string>)

  /** What a scope binds a name to. */
  datatype Value =
    | Number(n: Num)
    | Function(f: FunctionObject)

  predicate HoldsNumber(scope: map<string, Value>, name: string) {
    name in scope && scope[name].Number?
  }

  /** The messages of the runtime errors thrown by `getNumber` and
      `getFunction`. */
  function UndefinedNumber(name: string): string {
    "Undefined variable or not a number: " + name
  }

  function UndefinedFunction(name: string): string {
    "Undefined function: " + name
  }

  /** The number bound to `name` in the first of `scopes` that binds it
      to a number, or the error `getNumber` throws when none does. */
  function LookupNumber(scopes: seq<map<string, Value>>, name: string): Result<Num> {
    if scopes == [] then Err(UndefinedNumber(name))
    else if HoldsNumber(scopes[0], name) then Ok(scopes[0][name].n)
    else LookupNumber(scopes[1..], name)
  }

  /** The lookup succeeds exactly when some scope holds a number under
      `name`, and then yields the number of the innermost such scope,
      whatever the scopes before it bind the name to. */
  lemma {:induction false} LookupFindsInnermost(scopes: seq<map<string, Value>>, name: string, i: nat)
    requires i < |scopes| && HoldsNumber(scopes[i], name)
    requires forall j :: 0 <= j < i ==> !HoldsNumber(scopes[j], name)
    ensures LookupNumber(scopes, name) == Ok(scopes[i][name].n)
  {
    if i > 0 {
      LookupFindsInnermost(scopes[1..], name, i - 1);
    }
  }

  /** With no scope holding a number under `name`, the lookup is the
      "Undefined variable or not a number" error, and only then. */
  lemma {:induction false} LookupFails(scopes: seq<map<string, Value>>, name: string)
    ensures LookupNumber(scopes, name).Err? <==> forall i :: 0 <= i < |scopes| ==> !HoldsNumber(scopes[i], name)
    ensures LookupNumber(scopes, name).Err? ==> LookupNumber(scopes, name) == Err(UndefinedNumber(name))
  {
    if scopes != [] {
      LookupFails(scopes[1..], name);
      assert forall i :: 1 <= i < |scopes| ==> scopes[i] == scopes[1..][i - 1];
    }
  }

  class Environment {
    var values: map<string, Value>
    const parent: Environment?
    ghost const Repr: set<object>

    /** The chain of enclosing scopes is finite and never loops back. */
    ghost predicate Valid()
      decreases Repr
    {
      && this in Repr
      && (parent != null ==>
            && parent in Repr
            && parent.Repr < Repr
            && this !in parent.Repr
            && parent.Valid())
    }

    constructor (parent: Environment?)
      requires parent != null ==> parent.Valid()
      ensures Valid()
      ensures this.parent == parent && values == map[]
      ensures Repr == {this} + (if parent == null then {} else parent.Repr)
    {
      this.parent := parent;
      values := map[];
      Repr := {this} + (if parent == null then {} else parent.Repr);
    }

    /** The maps of this scope and of every enclosing one, innermost first. */
    ghost function Scopes(): (scopes: seq<map<string, Value>>)
      reads Repr
      requires Valid()
      ensures |scopes| > 0 && scopes[0] == values
      decreases Repr
    {
      [values] + (if parent == null then [] else parent.Scopes())
    }

    /** `getNumber`: looks the name up in this scope and then, while no
        number is found, in each enclosing one. */
    function GetNumber(name: string): (r: Result<Num>)
      reads Repr
      requires Valid()
      ensures r == LookupNumber(Scopes(), name)
      decreases Repr
    {
      if name in values && values[name].Number? then
        Ok(values[name].n)
      else if parent != null then
        assert Scopes()[1..] == parent.Scopes();
        parent.GetNumber(name)
      else
        Err(UndefinedNumber(name))
    }

    /** `getFunction`: only this scope is consulted, and the binding must be
        a function. */
    function GetFunction(name: string): (r: Result<FunctionObject>)
      reads this
      ensures r.Ok? <==> name in values && values[name].Function?
      ensures r.Ok? ==> r.value == values[name].f
      ensures r.Err? ==> r.error == UndefinedFunction(name)
    {
      if name in values && values[name].Function? then Ok(values[name].f)
      else Err(UndefinedFunction(name))
    }

    /** `exists`: whether this scope binds `name` at all; enclosing scopes
        are not consulted. */
    function Exists(name: string): (b: bool)
      reads this
      ensures b <==> name in values
    {
      name in values
    }

    /** `define`: binds `name` to a number in this scope, replacing a number
        or a function of that name; the enclosing scopes are untouched. */
    method Define(name: string, value: Num)
      requires Valid()
      modifies this`values
      ensures Valid()
      ensures values == old(values)[name := Number(value)]
      ensures Scopes() == [values] + old(Scopes())[1..]
      ensures GetNumber(name) == Ok(value)
      ensures GetFunction(name).Err?
    {
      values := values[name := Number(value)];
    }

    /** `defineFunction`: binds `name` to a function in the same map, so a
        number of that name in this scope is gone and `getNumber` now
        answers from the enclosing scopes. */
    method DefineFunction(name: string, func: FunctionObject)
      requires Valid()
      modifies this`values
      ensures Valid()
      ensures values == old(values)[name := Function(func)]
      ensures Scopes() == [values] + old(Scopes())[1..]
      ensures GetFunction(name) == Ok(func)
      ensures GetNumber(name) == if parent == null then Err(UndefinedNumber(name)) else parent.GetNumber(name)
    {
      values := values[name := Function(func)];
    }
  }

  /** A function bound in the current scope does not hide a number bound
      under the same name further out. */
  lemma LocalFunctionDoesNotHide(env: Environment, name: string)
    requires env.Valid() && env.parent != null
    requires name in env.values && env.values[name].Function?
    ensures env.GetNumber(name) == env.parent.GetNumber(name)
  {
  }
}
