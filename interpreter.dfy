/** The run loop of src/interpreter.cpp: statements are executed one after
    another against the interpreter's store, and the first runtime error
    ends the run. */
module Interpreting {
  import opened Wrappers
  import opened Ast
  import FlatEnvironment

  /** One statement, where the null statement changes nothing. */
  function ExecuteOne(stmt: Option<Stmt>, env: map<string, Num>): (r: Result<map<string, Num>>)
    ensures stmt.None? ==> r == Ok(env)
    ensures r.Ok? ==> env.Keys <= r.value.Keys
  {
    match stmt
    case None => Ok(env)
    case Some(s) => Execute(s, env)
  }

  /** The store when a run stops, and the error that stopped it, if any. */
  datatype Outcome = Outcome(env: map<string, Num>, error: Option<string>)

  /** Executes `stmts` in order from `env`; a failing statement leaves the
      store as it found it and nothing after it runs. */
  function RunFrom(stmts: seq<Option<Stmt>>, env: map<string, Num>): (o: Outcome)
    ensures env.Keys <= o.env.Keys
    ensures o.error.Some? ==> exists i :: 0 <= i < |stmts| && ExecuteOne(stmts[i], o.env).Err?
    decreases |stmts|
  {
    if stmts == [] then Outcome(env, None)
    else
      match ExecuteOne(stmts[0], env)
      case Err(msg) => Outcome(env, Some(msg))
      case Ok(next) => RunFrom(stmts[1..], next)
  }

  /** Running `a + b` is running `a` and then, only if `a` raised no error,
      running `b` from the store `a` left. */
  lemma {:induction false} RunAppend(a: seq<Option<Stmt>>, b: seq<Option<Stmt>>, env: map<string, Num>)
    ensures RunFrom(a, env).error.Some? ==> RunFrom(a + b, env) == RunFrom(a, env)
    ensures RunFrom(a, env).error.None? ==> RunFrom(a + b, env) == RunFrom(b, RunFrom(a, env).env)
    decreases |a|
  {
    if a != [] {
      assert (a + b)[0] == a[0];
      assert (a + b)[1..] == a[1..] + b;
      match ExecuteOne(a[0], env)
      case Err(_) =>
      case Ok(next) => RunAppend(a[1..], b, next);
    } else {
      assert a + b == b;
    }
  }

  /** When statement `i` is the first to fail, the run reports its error
      with the store the statements before it produced, and whatever
      follows it is never executed. */
  lemma FirstErrorStops(stmts: seq<Option<Stmt>>, env: map<string, Num>, i: nat)
    requires i < |stmts|
    requires RunFrom(stmts[..i], env).error.None?
    requires ExecuteOne(stmts[i], RunFrom(stmts[..i], env).env).Err?
    ensures var before := RunFrom(stmts[..i], env).env;
      RunFrom(stmts, env) == Outcome(before, Some(ExecuteOne(stmts[i], before).error))
  {
    assert stmts == stmts[..i] + stmts[i..];
    RunAppend(stmts[..i], stmts[i..], env);
    assert stmts[i..][0] == stmts[i];
  }

  class Interpreter {
    const env: FlatEnvironment.Environment

    constructor ()
      ensures fresh(env) && env.values == map[]
    {
      env := new FlatEnvironment.Environment();
    }

    /** `stmt->execute(store)`: a declaration evaluates its initializer and
        defines the name in `store`; a print statement prints its
        expression, failing on a null node, then evaluates it. A runtime error leaves `store` as it was. */
    static method ExecuteIn(s: Stmt, store: FlatEnvironment.Environment) returns (r: Result<()>)
      modifies store
      ensures match Execute(s, old(store.values))
        case Ok(next) => r == Ok(()) && store.values == next
        case Err(msg) => r == Err(msg) && store.values == old(store.values)
    {
      match s
      case VarDecl(name, initializer) =>
        var value := InitialValue(initializer, store.values);
        if value.Err? {
          return Err(value.error);
        }
        store.Define(name.lexeme, value.value);
        return Ok(());
      case PrintStmt(expr) =>
        if HasNull(expr) {
          return Err("null expression");
        }
        var value := Evaluate(expr, store.values);
        if value.Err? {
          return Err(value.error);
        }
        return Ok(());
    }

    /** `execute`: the null statement is a no-op; any other runs against
        the interpreter's own store. */
    method ExecuteStatement(stmt: Option<Stmt>) returns (r: Result<()>)
      modifies env
      ensures match ExecuteOne(stmt, old(env.values))
        case Ok(next) => r == Ok(()) && env.values == next
        case Err(msg) => r == Err(msg) && env.values == old(env.values)
    {
      if stmt.None? {
        return Ok(());
      }
      r := ExecuteIn(stmt.value, env);
    }

    /** `interpret`: executes the statements in list order; the first
        runtime error stops the run and is reported, not passed on. */
    method Interpret(statements: seq<Option<Stmt>>) returns (reported: Option<string>)
      modifies env
      ensures reported == RunFrom(statements, old(env.values)).error
      ensures env.values == RunFrom(statements, old(env.values)).env
    {
      for i := 0 to |statements|
        invariant RunFrom(statements[i..], env.values) == RunFrom(statements, old(env.values))
      {
        assert statements[i..][0] == statements[i] && statements[i..][1..] == statements[i + 1..];
        var r := ExecuteStatement(statements[i]);
        if r.Err? {
          return Some(r.error);
        }
      }
      return None;
    }

    /** `executeBlock`: executes the statements against `newEnv` rather
        than the interpreter's store, and passes the first runtime error on
        to the caller. Every statement must be present: the source
        dereferences each one. */
    method ExecuteBlock(statements: seq<Option<Stmt>>, newEnv: FlatEnvironment.Environment) returns (r: Result<()>)
      requires forall i :: 0 <= i < |statements| ==> statements[i].Some?
      modifies newEnv
      ensures newEnv != env ==> env.values == old(env.values)
      ensures newEnv.values == RunFrom(statements, old(newEnv.values)).env
      ensures r == match RunFrom(statements, old(newEnv.values)).error
        case None => Ok(())
        case Some(msg) => Err(msg)
    {
      for i := 0 to |statements|
        invariant RunFrom(statements[i..], newEnv.values) == RunFrom(statements, old(newEnv.values))
      {
        assert statements[i..][0] == statements[i] && statements[i..][1..] == statements[i + 1..];
        r := ExecuteIn(statements[i].value, newEnv);
        if r.Err? {
          return r;
        }
      }
      return Ok(());
    }

    /** `evaluate`: a null expression is 0; any other is evaluated against
        the interpreter's store. */
    function EvaluateExpr(e: Expr): (r: Result<Num>)
      reads env
      ensures e == NoExpr ==> r == Ok(Zero)
      ensures e != NoExpr ==> (r.Ok? <==> Vars(e) <= env.values.Keys && !HasNull(e))
    {
      if e == NoExpr then Ok(Zero) else Evaluate(e, env.values)
    }
  }
}
