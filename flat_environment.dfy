/** The flat variable store of Satan/src/environment.cpp, declared in
    include/environment.h: one map from names to numbers, with no parent. */
module FlatEnvironment {
  import opened Wrappers
  import opened Ast

  /** The message `get` throws for a name that is not bound. */
  function UndefinedVariable(name: string): string {
    "Undefined variable: " + name
  }

  class Environment {
    var values: map<string, Num>

    constructor ()
      ensures values == map[]
    {
      values := map[];
    }

    /** `get`: the number bound to `name`, or the runtime error. It reads
        the map and changes nothing. */
    function Get(name: string): (r: Result<Num>)
      reads this
      ensures r.Ok? <==> name in values
      ensures r.Ok? ==> r.value == values[name]
      ensures r.Err? ==> r.error == UndefinedVariable(name)
    {
      if name in values then Ok(values[name]) else Err(UndefinedVariable(name))
    }

    /** `define`: binds `name` to `value`, overwriting any earlier binding;
        afterwards `get(name)` yields `value` and every other name reads
        as before. */
    method Define(name: string, value: Num)
      modifies this
      ensures values == old(values)[name := value]
      ensures Get(name) == Ok(value)
      ensures forall other :: other != name ==> Get(other) == old(Get(other))
    {
      values := values[name := value];
    }
  }
}
