/** The syntax tree of include/parser.h and its meaning as defined in
    src/parser.cpp: `evaluate` on expressions and `execute` on statements,
    which read and write one global map from names to numbers. */
module Ast {
  import opened Wrappers
  import opened Tokens

  /** An expression node. `NoExpr` is the null `unique_ptr<Expr>` that
      `primary` returns when it finds neither a number nor a name. */
  datatype Expr =
    | NoExpr
    | Literal(value: Token)
    | Variable(name: Token)
    | Binary(left: Expr, op: Token, right: Expr)

  /** A statement node. A missing initializer is `NoExpr`. */
  datatype Stmt =
    | VarDecl(name: Token, initializer: Expr)
    | PrintStmt(expr: Expr)

  /** A number as the interpreter computes it, kept symbolic: `FromLexeme`
      is `std::stod` of a literal's text, `Apply` one double operation. */
  datatype Num =
    | Zero
    | FromLexeme(text: string)
    | Apply(op: TokenType, left: Num, right: Num)

  /** The operators `BinaryExpr::evaluate` computes with; any other operator
      evaluates to 0. */
  predicate IsArithmetic(op: TokenType) {
    op == PLUS || op == MINUS || op == STAR || op == SLASH
  }

  /** The names an expression reads. */
  function Vars(e: Expr): (names: set<string>) {
    match e
    case NoExpr => {}
    case Literal(_) => {}
    case Variable(name) => {name.lexeme}
    case Binary(left, _, right) => Vars(left) + Vars(right)
  }

  /** Whether the tree holds a null child anywhere: exactly the trees on
      which `Expr::print`, which visits every node, dereferences null. */
  predicate HasNull(e: Expr) {
    match e
    case NoExpr => true
    case Literal(_) => false
    case Variable(_) => false
    case Binary(left, _, right) => HasNull(left) || HasNull(right)
  }

  /** `Expr::evaluate` against the global map: the left operand is
      evaluated before the right one and the first failure wins. Reading an
      unbound name is the fatal "Undefined variable" error; evaluating a
      null node is a null dereference in the source and an error here. */
  function Evaluate(e: Expr, env: map<string, Num>): (r: Result<Num>)
    ensures r.Ok? <==> Vars(e) <= env.Keys && !HasNull(e)
  {
    match e
    case NoExpr => Err("null expression")
    case Literal(value) => Ok(FromLexeme(value.lexeme))
    case Variable(name) =>
      if name.lexeme in env then Ok(env[name.lexeme])
      else Err("Undefined variable '" + name.lexeme + "'")
    case Binary(left, op, right) =>
      match Evaluate(left, env)
      case Err(msg) => Err(msg)
      case Ok(l) =>
        match Evaluate(right, env)
        case Err(msg) => Err(msg)
        case Ok(r) => Ok(if IsArithmetic(op.kind) then Apply(op.kind, l, r) else Zero)
  }

  /** The value a declaration binds: its initializer's, or 0 without one. */
  function InitialValue(initializer: Expr, env: map<string, Num>): (r: Result<Num>)
    ensures initializer == NoExpr ==> r == Ok(Zero)
    ensures r.Ok? <==> initializer == NoExpr || (Vars(initializer) <= env.Keys && !HasNull(initializer))
  {
    if initializer == NoExpr then Ok(Zero) else Evaluate(initializer, env)
  }

  /** `Stmt::execute`: the global map afterwards, or the fatal error.
      Printing is output only and leaves the map as it was; it prints the
      tree before evaluating it, so a null node fails before any name is
      read. */
  function Execute(s: Stmt, env: map<string, Num>): (r: Result<map<string, Num>>)
    ensures s.PrintStmt? ==> (r.Ok? <==> Vars(s.expr) <= env.Keys && !HasNull(s.expr))
    ensures s.PrintStmt? && r.Ok? ==> r.value == env
    ensures s.PrintStmt? && HasNull(s.expr) ==> r == Err("null expression")
    ensures s.VarDecl? && r.Ok? ==> r.value.Keys == env.Keys + {s.name.lexeme}
    ensures s.VarDecl? && r.Ok? ==> forall x <- env.Keys :: x != s.name.lexeme ==> r.value[x] == env[x]
  {
    match s
    case VarDecl(name, initializer) =>
      (match InitialValue(initializer, env)
       case Err(msg) => Err(msg)
       case Ok(v) => Ok(env[name.lexeme := v]))
    case PrintStmt(expr) =>
      if HasNull(expr) then Err("null expression")
      else
        (match Evaluate(expr, env)
         case Err(msg) => Err(msg)
         case Ok(_) => Ok(env))
  }

  /** Evaluation reads only the names the expression mentions. */
  lemma {:induction false} EvaluateReadsOnlyVars(e: Expr, env1: map<string, Num>, env2: map<string, Num>)
    requires forall x <- Vars(e) :: (x in env1 <==> x in env2) && (x in env1 ==> env1[x] == env2[x])
    ensures Evaluate(e, env1) == Evaluate(e, env2)
  {
    match e
    case NoExpr =>
    case Literal(_) =>
    case Variable(_) =>
    case Binary(left, _, right) =>
      EvaluateReadsOnlyVars(left, env1, env2);
      EvaluateReadsOnlyVars(right, env1, env2);
  }

  /** A name that is not bound is the fatal "Undefined variable" error. */
  lemma UnboundVariable(name: Token, env: map<string, Num>)
    ensures Evaluate(Variable(name), env).Err? <==> name.lexeme !in env
    ensures name.lexeme !in env ==>
      Evaluate(Variable(name), env) == Err("Undefined variable '" + name.lexeme + "'")
  {
  }

  /** A declaration binds its name and leaves every other binding as it
      was; without an initializer the value is 0. */
  lemma DeclarationBinds(name: Token, initializer: Expr, env: map<string, Num>)
    ensures var r := Execute(VarDecl(name, initializer), env);
      && (r.Ok? <==> initializer == NoExpr || (Vars(initializer) <= env.Keys && !HasNull(initializer)))
      && (r.Ok? ==>
            && r.value.Keys == env.Keys + {name.lexeme}
            && r.value[name.lexeme] == InitialValue(initializer, env).value
            && (forall x <- env.Keys :: x != name.lexeme ==> r.value[x] == env[x]))
      && (initializer == NoExpr ==> r == Ok(env[name.lexeme := Zero]))
  {
  }

  /** Printing a tree with a null node fails on the null even when a name
      read before it in evaluation order is unbound: `print x + ;` with `x`
      unbound. */
  lemma PrintNullBeforeUnbound(x: Token, plus: Token)
    ensures Evaluate(Binary(Variable(x), plus, NoExpr), map[]) == Err("Undefined variable '" + x.lexeme + "'")
    ensures Execute(PrintStmt(Binary(Variable(x), plus, NoExpr)), map[]) == Err("null expression")
  {
    assert HasNull(Binary(Variable(x), plus, NoExpr));
  }

  /** Printing never changes the global map. */
  lemma PrintKeepsEnvironment(expr: Expr, env: map<string, Num>)
    ensures var r := Execute(PrintStmt(expr), env);
      r.Ok? ==> r.value == env
  {
  }

  /** The global `environment` map that `VarDecl::execute` writes and
      `VariableExpr::evaluate` reads. */
  class GlobalEnvironment {
    var environment: map<string, Num>

    constructor ()
      ensures environment == map[]
    {
      environment := map[];
    }

    /** `VarDecl::execute` and `PrintStmt::execute`: on success the map is
        updated as `Execute` says; a fatal error leaves it untouched. */
    method Run(s: Stmt) returns (outcome: Result<()>)
      modifies this
      ensures match Execute(s, old(environment))
        case Ok(env) => outcome == Ok(()) && environment == env
        case Err(msg) => outcome == Err(msg) && environment == old(environment)
    {
      match s
      case VarDecl(name, initializer) =>
        var value: Num;
        if initializer == NoExpr {
          value := Zero;
        } else {
          var r := Evaluate(initializer, environment);
          if r.Err? {
            return Err(r.error);
          }
          value := r.value;
        }
        environment := environment[name.lexeme := value];
        outcome := Ok(());
      case PrintStmt(expr) =>
        if HasNull(expr) {
          return Err("null expression");
        }
        var r := Evaluate(expr, environment);
        if r.Err? {
          return Err(r.error);
        }
        outcome := Ok(());
    }
  }
}
