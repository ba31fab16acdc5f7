/** A reference definition of the recursive-descent parser of
    src/parser.cpp as pure functions of the token list and a cursor, and
    what it guarantees: precedence, left association, exactly which tokens
    a tree is built from, the error messages, and where `parse` stops
    making progress. The imperative `Parsing.Parser` is proved against it. */
module ParseSpec {
  import opened Wrappers
  import opened Tokens
  import opened Ast

  /** The token lists the parser is given end with EOF, as `scanTokens`
      guarantees; `peek` reads past the end of any other list. */
  predicate WellFormed(ts: seq<Token>) {
    |ts| > 0 && ts[|ts| - 1].kind == EOF_TOKEN
  }

  /** `isAtEnd` at cursor `p`. */
  predicate AtEnd(ts: seq<Token>, p: nat)
    requires p < |ts|
  {
    ts[p].kind == EOF_TOKEN
  }

  /** `check(kind)` at cursor `p`. */
  predicate Check(ts: seq<Token>, p: nat, kind: TokenType)
    requires p < |ts|
  {
    !AtEnd(ts, p) && ts[p].kind == kind
  }

  /** A token that is not EOF is never the last one. */
  lemma NotLast(ts: seq<Token>, p: nat)
    requires WellFormed(ts) && p < |ts| && !AtEnd(ts, p)
    ensures p + 1 < |ts|
  {
  }

  /** An expression parsed from some cursor, and the cursor after it. */
  datatype ExprAt = ExprAt(expr: Expr, next: nat)

  /** `primary`: a NUMBER or IDENTIFIER token, otherwise the null node
      without consuming anything. */
  function PrimaryAt(ts: seq<Token>, p: nat): (r: ExprAt)
    requires WellFormed(ts) && p < |ts|
    ensures p <= r.next < |ts|
  {
    if Check(ts, p, NUMBER) then ExprAt(Literal(ts[p]), p + 1)
    else if Check(ts, p, IDENTIFIER) then ExprAt(Variable(ts[p]), p + 1)
    else ExprAt(NoExpr, p)
  }

  predicate IsFactorOp(ts: seq<Token>, p: nat)
    requires p < |ts|
  {
    Check(ts, p, STAR) || Check(ts, p, SLASH)
  }

  predicate IsTermOp(ts: seq<Token>, p: nat)
    requires p < |ts|
  {
    Check(ts, p, PLUS) || Check(ts, p, MINUS)
  }

  /** The loop of `factor`: while the next token is `*` or `/`, combine
      the tree so far with the next primary. */
  function FactorRest(ts: seq<Token>, left: Expr, p: nat): (r: ExprAt)
    requires WellFormed(ts) && p < |ts|
    ensures p <= r.next < |ts|
    decreases |ts| - p
  {
    if IsFactorOp(ts, p) then
      NotLast(ts, p);
      var right := PrimaryAt(ts, p + 1);
      FactorRest(ts, Binary(left, ts[p], right.expr), right.next)
    else ExprAt(left, p)
  }

  /** `factor`. */
  function FactorAt(ts: seq<Token>, p: nat): (r: ExprAt)
    requires WellFormed(ts) && p < |ts|
    ensures p <= r.next < |ts|
  {
    var first := PrimaryAt(ts, p);
    FactorRest(ts, first.expr, first.next)
  }

  /** The loop of `term`: while the next token is `+` or `-`, combine the
      tree so far with the next factor. */
  function TermRest(ts: seq<Token>, left: Expr, p: nat): (r: ExprAt)
    requires WellFormed(ts) && p < |ts|
    ensures p <= r.next < |ts|
    decreases |ts| - p
  {
    if IsTermOp(ts, p) then
      NotLast(ts, p);
      var right := FactorAt(ts, p + 1);
      TermRest(ts, Binary(left, ts[p], right.expr), right.next)
    else ExprAt(left, p)
  }

  /** `term`, which is also `expression`. */
  function TermAt(ts: seq<Token>, p: nat): (r: ExprAt)
    requires WellFormed(ts) && p < |ts|
    ensures p <= r.next < |ts|
  {
    var first := FactorAt(ts, p);
    TermRest(ts, first.expr, first.next)
  }

  /** The messages `consume` reports before the process exits. */
  const NameExpected := "Expected variable name."
  const DeclarationSemicolonExpected := "Expected ';' after variable declaration."
  const PrintSemicolonExpected := "Expected ';' after value."

  /** One turn of the loop of `factor`. */
  lemma FactorRestUnfold(ts: seq<Token>, left: Expr, p: nat)
    requires WellFormed(ts) && p < |ts| && IsFactorOp(ts, p)
    ensures p + 1 < |ts|
    ensures var right := PrimaryAt(ts, p + 1);
      FactorRest(ts, left, p) == FactorRest(ts, Binary(left, ts[p], right.expr), right.next)
  {
  }

  /** One turn of the loop of `term`. */
  lemma TermRestUnfold(ts: seq<Token>, left: Expr, p: nat)
    requires WellFormed(ts) && p < |ts| && IsTermOp(ts, p)
    ensures p + 1 < |ts|
    ensures var right := FactorAt(ts, p + 1);
      TermRest(ts, left, p) == TermRest(ts, Binary(left, ts[p], right.expr), right.next)
  {
  }

  /** A statement parsed from some cursor, or none, and the cursor after it. */
  datatype StmtAt = StmtAt(stmt: Option<Stmt>, next: nat)

  /** The optional `= expression` of a declaration, with the cursor just
      after the name; without one the initializer is the null node. */
  function InitializerAt(ts: seq<Token>, p: nat): (r: ExprAt)
    requires WellFormed(ts) && p < |ts|
    ensures p <= r.next < |ts|
  {
    if Check(ts, p, EQUAL) then NotLast(ts, p); TermAt(ts, p + 1)
    else ExprAt(NoExpr, p)
  }

  /** `varDeclaration`, with the cursor just after `let` or `var`. */
  function VarDeclarationAt(ts: seq<Token>, p: nat): (r: Result<StmtAt>)
    requires WellFormed(ts) && p < |ts|
    ensures r.Ok? ==> p < r.value.next < |ts| && r.value.stmt.Some?
  {
    if !Check(ts, p, IDENTIFIER) then Err(NameExpected)
    else
      NotLast(ts, p);
      var init := InitializerAt(ts, p + 1);
      if !Check(ts, init.next, SEMICOLON) then Err(DeclarationSemicolonExpected)
      else NotLast(ts, init.next); Ok(StmtAt(Some(VarDecl(ts[p], init.expr)), init.next + 1))
  }

  /** `varDeclaration` once the name has been read and the initializer
      parsed. */
  lemma VarDeclarationCases(ts: seq<Token>, p: nat, init: ExprAt)
    requires WellFormed(ts) && p < |ts| && Check(ts, p, IDENTIFIER)
    requires p + 1 < |ts| && init == InitializerAt(ts, p + 1)
    ensures !Check(ts, init.next, SEMICOLON) ==> VarDeclarationAt(ts, p) == Err(DeclarationSemicolonExpected)
    ensures Check(ts, init.next, SEMICOLON) ==>
      VarDeclarationAt(ts, p) == Ok(StmtAt(Some(VarDecl(ts[p], init.expr)), init.next + 1))
  {
  }

  /** `printStatement`, with the cursor just after `print`. */
  function PrintStatementAt(ts: seq<Token>, p: nat): (r: Result<StmtAt>)
    requires WellFormed(ts) && p < |ts|
    ensures r.Ok? ==> p < r.value.next < |ts| && r.value.stmt.Some?
  {
    var value := TermAt(ts, p);
    if !Check(ts, value.next, SEMICOLON) then Err(PrintSemicolonExpected)
    else NotLast(ts, value.next); Ok(StmtAt(Some(PrintStmt(value.expr)), value.next + 1))
  }

  /** `statement`: a print statement after `print`, otherwise the null
      statement without consuming anything. */
  function StatementAt(ts: seq<Token>, p: nat): (r: Result<StmtAt>)
    requires WellFormed(ts) && p < |ts|
    ensures r.Ok? ==> r.value.next < |ts|
    ensures r.Ok? ==> (r.value.stmt.Some? <==> p < r.value.next)
  {
    if Check(ts, p, PRINT) then NotLast(ts, p); PrintStatementAt(ts, p + 1)
    else Ok(StmtAt(None, p))
  }

  /** `declaration`: a variable declaration after `var` or `let`,
      otherwise a statement. */
  function DeclarationAt(ts: seq<Token>, p: nat): (r: Result<StmtAt>)
    requires WellFormed(ts) && p < |ts|
    ensures r.Ok? ==> r.value.next < |ts|
    ensures r.Ok? ==> (r.value.stmt.Some? <==> p < r.value.next)
  {
    if Check(ts, p, VAR) || Check(ts, p, LET) then NotLast(ts, p); VarDeclarationAt(ts, p + 1)
    else StatementAt(ts, p)
  }

  /** How `parse` ends: with the statements up to EOF, with the fatal
      error of `consume`, or spinning forever at a cursor where
      `declaration` returns null without consuming anything. */
  datatype ParseOutcome =
    | Parsed(stmts: seq<Stmt>)
    | Failed(message: string)
    | Hangs(at: nat)

  /** `stmts` followed by what the rest of the parse produces. */
  function Prepend(stmts: seq<Stmt>, rest: ParseOutcome): ParseOutcome {
    match rest
    case Parsed(more) => Parsed(stmts + more)
    case _ => rest
  }

  lemma PrependPrepend(stmts: seq<Stmt>, s: Stmt, rest: ParseOutcome)
    ensures Prepend(stmts, Prepend([s], rest)) == Prepend(stmts + [s], rest)
  {
    if rest.Parsed? {
      assert stmts + ([s] + rest.stmts) == (stmts + [s]) + rest.stmts;
    }
  }

  /** `parse` from cursor `p`. */
  function ParseFrom(ts: seq<Token>, p: nat): (r: ParseOutcome)
    requires WellFormed(ts) && p < |ts|
    ensures r.Hangs? ==> p <= r.at < |ts| && !AtEnd(ts, r.at)
    ensures r.Failed? ==> r.message in {NameExpected, DeclarationSemicolonExpected, PrintSemicolonExpected}
    decreases |ts| - p
  {
    if AtEnd(ts, p) then Parsed([])
    else
      match DeclarationAt(ts, p)
      case Err(msg) => Failed(msg)
      case Ok(StmtAt(None, _)) => Hangs(p)
      case Ok(StmtAt(Some(s), q)) => Prepend([s], ParseFrom(ts, q))
  }

  // ---- The shapes of the trees ----

  predicate IsPrimary(e: Expr) {
    || e.NoExpr?
    || (e.Literal? && e.value.kind == NUMBER)
    || (e.Variable? && e.name.kind == IDENTIFIER)
  }

  /** A tree `factor` can build: primaries joined by `*` and `/`, leaning
      left, so the right operand of each operator is a primary. */
  predicate IsFactorTree(e: Expr) {
    || IsPrimary(e)
    || (e.Binary? && (e.op.kind == STAR || e.op.kind == SLASH) && IsFactorTree(e.left) && IsPrimary(e.right))
  }

  /** A tree `term` can build: factor trees joined by `+` and `-`, leaning
      left, so `*` and `/` never have a `+` or `-` node below them. */
  predicate IsTermTree(e: Expr) {
    || IsFactorTree(e)
    || (e.Binary? && (e.op.kind == PLUS || e.op.kind == MINUS) && IsTermTree(e.left) && IsFactorTree(e.right))
  }

  /** The tokens a tree holds, from left to right. */
  function Flatten(e: Expr): seq<Token> {
    match e
    case NoExpr => []
    case Literal(t) => [t]
    case Variable(t) => [t]
    case Binary(left, op, right) => Flatten(left) + [op] + Flatten(right)
  }

  /** `primary` accepts a NUMBER or IDENTIFIER token and nothing else, and
      consumes exactly the token it keeps. */
  lemma PrimaryShape(ts: seq<Token>, p: nat)
    requires WellFormed(ts) && p < |ts|
    ensures var r := PrimaryAt(ts, p);
      && IsPrimary(r.expr)
      && Flatten(r.expr) == ts[p..r.next]
      && (r.next == p + 1 <==> Check(ts, p, NUMBER) || Check(ts, p, IDENTIFIER))
      && (r.next == p <==> r.expr == NoExpr)
  {
    var r := PrimaryAt(ts, p);
    if r.next == p + 1 {
      assert ts[p..p + 1] == [ts[p]];
    }
  }

  lemma SliceSplit(ts: seq<Token>, p: nat, q: nat, r: nat)
    requires p <= q <= r <= |ts|
    ensures ts[p..r] == ts[p..q] + ts[q..r]
  {
  }

  /** The tokens from `p` to `r` are the one at `p`, those up to `q`, and
      the rest. */
  lemma SliceCons(ts: seq<Token>, p: nat, q: nat, r: nat)
    requires p < q <= r <= |ts|
    ensures ts[p..r] == [ts[p]] + ts[p + 1..q] + ts[q..r]
  {
    SliceSplit(ts, p + 1, q, r);
    assert ts[p..r] == [ts[p]] + ts[p + 1..r];
  }

  /** The tokens of `left op right`, followed by those after `right`, are
      the tokens of `left` followed by everything from `op` on. */
  lemma CombineFlatten(ts: seq<Token>, left: Expr, right: Expr, p: nat, q: nat, r: nat)
    requires p < q <= r <= |ts| && Flatten(right) == ts[p + 1..q]
    ensures Flatten(Binary(left, ts[p], right)) + ts[q..r] == Flatten(left) + ts[p..r]
  {
    SliceCons(ts, p, q, r);
    Associate(Flatten(left), [ts[p]], Flatten(right), ts[q..r]);
  }

  lemma Associate(a: seq<Token>, b: seq<Token>, c: seq<Token>, d: seq<Token>)
    ensures (a + b + c) + d == a + (b + c + d)
  {
  }

  lemma {:induction false} FactorRestShape(ts: seq<Token>, left: Expr, p: nat)
    requires WellFormed(ts) && p < |ts| && IsFactorTree(left)
    ensures var r := FactorRest(ts, left, p);
      && IsFactorTree(r.expr)
      && Flatten(r.expr) == Flatten(left) + ts[p..r.next]
      && !IsFactorOp(ts, r.next)
    decreases |ts| - p
  {
    if IsFactorOp(ts, p) {
      NotLast(ts, p);
      var right := PrimaryAt(ts, p + 1);
      PrimaryShape(ts, p + 1);
      var combined := Binary(left, ts[p], right.expr);
      assert IsFactorTree(combined);
      FactorRestShape(ts, combined, right.next);
      var r := FactorRest(ts, combined, right.next);
      assert FactorRest(ts, left, p) == r;
      CombineFlatten(ts, left, right.expr, p, right.next, r.next);
    } else {
      assert ts[p..p] == [];
    }
  }

  /** `factor` builds a factor tree from exactly the tokens it consumes and
      stops only where no `*` or `/` follows. */
  lemma FactorShape(ts: seq<Token>, p: nat)
    requires WellFormed(ts) && p < |ts|
    ensures var r := FactorAt(ts, p);
      && IsFactorTree(r.expr)
      && Flatten(r.expr) == ts[p..r.next]
      && !IsFactorOp(ts, r.next)
  {
    var first := PrimaryAt(ts, p);
    PrimaryShape(ts, p);
    FactorRestShape(ts, first.expr, first.next);
    SliceSplit(ts, p, first.next, FactorAt(ts, p).next);
  }

  lemma {:induction false} TermRestShape(ts: seq<Token>, left: Expr, p: nat)
    requires WellFormed(ts) && p < |ts| && IsTermTree(left) && !IsFactorOp(ts, p)
    ensures var r := TermRest(ts, left, p);
      && IsTermTree(r.expr)
      && Flatten(r.expr) == Flatten(left) + ts[p..r.next]
      && !IsTermOp(ts, r.next) && !IsFactorOp(ts, r.next)
    decreases |ts| - p
  {
    if IsTermOp(ts, p) {
      NotLast(ts, p);
      var right := FactorAt(ts, p + 1);
      FactorShape(ts, p + 1);
      var combined := Binary(left, ts[p], right.expr);
      assert IsTermTree(combined);
      TermRestShape(ts, combined, right.next);
      var r := TermRest(ts, combined, right.next);
      assert TermRest(ts, left, p) == r;
      CombineFlatten(ts, left, right.expr, p, right.next, r.next);
    } else {
      assert ts[p..p] == [];
    }
  }

  /** `expression` builds a term tree (so `*` and `/` bind tighter than `+`
      and `-`, and every operator associates to the left) out of exactly
      the tokens it consumes, in order, and stops only where no operator
      follows. */
  lemma TermShape(ts: seq<Token>, p: nat)
    requires WellFormed(ts) && p < |ts|
    ensures var r := TermAt(ts, p);
      && IsTermTree(r.expr)
      && Flatten(r.expr) == ts[p..r.next]
      && !IsTermOp(ts, r.next) && !IsFactorOp(ts, r.next)
  {
    var first := FactorAt(ts, p);
    FactorShape(ts, p);
    TermRestShape(ts, first.expr, first.next);
    SliceSplit(ts, p, first.next, TermAt(ts, p).next);
  }

  /** After `let` or `var` a name must follow, or the declaration is the
      fatal "Expected variable name." error; whatever else goes wrong is the
      error about the `;`. */
  lemma VarDeclarationNeedsName(ts: seq<Token>, p: nat)
    requires WellFormed(ts) && p < |ts|
    ensures var r := VarDeclarationAt(ts, p);
      && (!Check(ts, p, IDENTIFIER) <==> r == Err(NameExpected))
      && (r.Err? && Check(ts, p, IDENTIFIER) ==> r == Err(DeclarationSemicolonExpected))
  {
  }

  /** A declaration that parses is a name, then `= expression` or nothing,
      then `;`, and the initializer is a term tree of exactly the tokens
      between `=` and `;`. */
  lemma VarDeclarationShape(ts: seq<Token>, p: nat)
    requires WellFormed(ts) && p < |ts|
    requires VarDeclarationAt(ts, p).Ok?
    ensures var r := VarDeclarationAt(ts, p).value;
      && r.stmt.value.VarDecl?
      && r.stmt.value.name == ts[p] && ts[p].kind == IDENTIFIER
      && ts[r.next - 1].kind == SEMICOLON
      && var init := r.stmt.value.initializer;
         if Check(ts, p + 1, EQUAL)
         then IsTermTree(init) && Flatten(init) == ts[p + 2..r.next - 1]
         else init == NoExpr && r.next == p + 2
  {
    if Check(ts, p + 1, EQUAL) {
      NotLast(ts, p + 1);
      TermShape(ts, p + 2);
    }
  }

  /** A declaration whose name is followed by neither `=` nor `;`, or whose
      initializer is not followed by `;`, is the error about the `;`. */
  lemma MissingSemicolon(ts: seq<Token>, p: nat)
    requires WellFormed(ts) && p < |ts| && Check(ts, p, IDENTIFIER)
    ensures var next := InitializerAt(ts, p + 1).next;
      !Check(ts, next, SEMICOLON) <==> VarDeclarationAt(ts, p) == Err(DeclarationSemicolonExpected)
  {
  }

  /** `print` takes an expression and a `;`, or fails with its message. */
  lemma PrintStatementSyntax(ts: seq<Token>, p: nat)
    requires WellFormed(ts) && p < |ts|
    ensures var r := PrintStatementAt(ts, p);
      && (r.Ok? ==>
            && r.value.stmt.value.PrintStmt?
            && IsTermTree(r.value.stmt.value.expr)
            && Flatten(r.value.stmt.value.expr) == ts[p..r.value.next - 1]
            && ts[r.value.next - 1].kind == SEMICOLON)
      && (r.Err? <==> !Check(ts, TermAt(ts, p).next, SEMICOLON))
      && (r.Err? ==> r.error == PrintSemicolonExpected)
  {
    TermShape(ts, p);
  }

  /** `parse` stops making progress exactly at a statement that starts with
      a token other than VAR, LET, PRINT and EOF: from such a cursor it
      hangs at once, and whenever it hangs it is at such a token, at or
      after where it started. */
  lemma {:induction false} ParseHangs(ts: seq<Token>, p: nat)
    requires WellFormed(ts) && p < |ts|
    ensures var k := ts[p].kind;
      k != VAR && k != LET && k != PRINT && k != EOF_TOKEN ==> ParseFrom(ts, p) == Hangs(p)
    ensures ParseFrom(ts, p).Hangs? ==>
      var q := ParseFrom(ts, p).at;
      && p <= q < |ts|
      && ts[q].kind != VAR && ts[q].kind != LET && ts[q].kind != PRINT && ts[q].kind != EOF_TOKEN
    decreases |ts| - p
  {
    if !AtEnd(ts, p) {
      var d := DeclarationAt(ts, p);
      if d.Ok? && d.value.stmt.Some? {
        ParseHangs(ts, d.value.next);
      }
    }
  }

  /** A successful parse consumed every statement up to EOF: the parse from
      the cursor after the first statement yields the remaining ones. */
  lemma ParseSequence(ts: seq<Token>, p: nat)
    requires WellFormed(ts) && p < |ts|
    requires ParseFrom(ts, p).Parsed? && ParseFrom(ts, p).stmts != []
    ensures var d := DeclarationAt(ts, p);
      && d.Ok? && d.value.stmt.Some?
      && d.value.stmt.value == ParseFrom(ts, p).stmts[0]
      && ParseFrom(ts, d.value.next) == Parsed(ParseFrom(ts, p).stmts[1..])
  {
    var d := DeclarationAt(ts, p);
    var rest := ParseFrom(ts, d.value.next);
    assert rest.Parsed?;
    assert ParseFrom(ts, p).stmts[1..] == rest.stmts;
  }

  // ---- Two expressions, token by token ----

  /** `a - b - c` groups as `(a - b) - c`. */
  lemma SubtractionLeansLeft(a: Token, minus1: Token, b: Token, minus2: Token, c: Token, eof: Token)
    requires a.kind == IDENTIFIER && b.kind == IDENTIFIER && c.kind == IDENTIFIER
    requires minus1.kind == MINUS && minus2.kind == MINUS && eof.kind == EOF_TOKEN
    ensures var ts := [a, minus1, b, minus2, c, eof];
      TermAt(ts, 0) == ExprAt(Binary(Binary(Variable(a), minus1, Variable(b)), minus2, Variable(c)), 5)
  {
    var ts := [a, minus1, b, minus2, c, eof];
    var ab := Binary(Variable(a), minus1, Variable(b));
    var abc := Binary(ab, minus2, Variable(c));
    assert TermRest(ts, abc, 5) == ExprAt(abc, 5);
    assert FactorAt(ts, 4) == ExprAt(Variable(c), 5);
    assert TermRest(ts, ab, 3) == ExprAt(abc, 5);
    assert FactorAt(ts, 2) == ExprAt(Variable(b), 3);
    assert TermRest(ts, Variable(a), 1) == ExprAt(abc, 5);
    assert FactorAt(ts, 0) == ExprAt(Variable(a), 1);
  }

  /** `3 + 5 * 2` groups as `3 + (5 * 2)`. */
  lemma ProductBindsTighter(three: Token, plus: Token, five: Token, star: Token, two: Token, eof: Token)
    requires three.kind == NUMBER && five.kind == NUMBER && two.kind == NUMBER
    requires plus.kind == PLUS && star.kind == STAR && eof.kind == EOF_TOKEN
    ensures var ts := [three, plus, five, star, two, eof];
      TermAt(ts, 0) == ExprAt(Binary(Literal(three), plus, Binary(Literal(five), star, Literal(two))), 5)
  {
    var ts := [three, plus, five, star, two, eof];
    var product := Binary(Literal(five), star, Literal(two));
    var sum := Binary(Literal(three), plus, product);
    assert FactorRest(ts, product, 5) == ExprAt(product, 5);
    assert FactorAt(ts, 2) == ExprAt(product, 5);
    assert TermRest(ts, sum, 5) == ExprAt(sum, 5);
    assert TermRest(ts, Literal(three), 1) == ExprAt(sum, 5);
    assert FactorRest(ts, Literal(three), 1) == ExprAt(Literal(three), 1);
    assert FactorAt(ts, 0) == ExprAt(Literal(three), 1);
  }
}
