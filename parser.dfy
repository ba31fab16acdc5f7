/** The recursive-descent `Parser` of src/parser.cpp: a cursor over the
    token list that it moves forward one match at a time. Each method is
    proved to do what the reference definition in `ParseSpec` says, from
    the cursor it starts at. */
module Parsing {
  import opened Wrappers
  import opened Tokens
  import opened Ast
  import opened ParseSpec

  /** A statement method's result and final cursor agree with what the
      reference definition says: the same statement (or null) and cursor
      on success, the same message on a fatal error. */
  predicate Yields(r: Result<Option<Stmt>>, next: nat, expected: Result<StmtAt>) {
    match expected
    case Ok(d) => r == Ok(d.stmt) && next == d.next
    case Err(msg) => r == Err(msg)
  }

  class Parser {
    const tokens: seq<Token>
    var current: nat

    ghost predicate Valid()
      reads this
    {
      WellFormed(tokens) && current < |tokens|
    }

    constructor (tokens: seq<Token>)
      requires WellFormed(tokens)
      ensures Valid() && this.tokens == tokens && current == 0
    {
      this.tokens := tokens;
      current := 0;
    }

    /** `peek`: the token under the cursor, which is EOF at the last
        position. */
    function Peek(): (t: Token)
      reads this
      requires Valid()
      ensures current == |tokens| - 1 ==> t.kind == EOF_TOKEN
    {
      tokens[current]
    }

    /** `isAtEnd`: the cursor is at EOF; anywhere else a token follows the
        current one. */
    predicate IsAtEnd()
      reads this
      requires Valid()
      ensures !IsAtEnd() ==> current + 1 < |tokens|
    {
      AtEnd(tokens, current)
    }

    /** `check`: never true at EOF, not even for the kind EOF_TOKEN. */
    predicate CheckKind(kind: TokenType)
      reads this
      requires Valid()
      ensures CheckKind(kind) ==> tokens[current].kind == kind && current + 1 < |tokens|
      ensures kind == EOF_TOKEN ==> !CheckKind(kind)
    {
      Check(tokens, current, kind)
    }

    /** `advance`: steps over the current token unless it is EOF, and
        returns the token just stepped over. */
    method Advance() returns (t: Token)
      requires Valid() && (!IsAtEnd() || current > 0)
      modifies this`current
      ensures Valid()
      ensures current == if AtEnd(tokens, old(current)) then old(current) else old(current) + 1
      ensures t == tokens[current - 1]
    {
      if !IsAtEnd() {
        NotLast(tokens, current);
        current := current + 1;
      }
      t := tokens[current - 1];
    }

    /** `match`: consumes the current token exactly when it is not EOF and
        its kind is one of `kinds`. */
    method Match(kinds: seq<TokenType>) returns (matched: bool)
      requires Valid()
      modifies this`current
      ensures Valid()
      ensures matched <==> !AtEnd(tokens, old(current)) && tokens[old(current)].kind in kinds
      ensures current == if matched then old(current) + 1 else old(current)
    {
      for i := 0 to |kinds|
        invariant current == old(current)
        invariant forall j :: 0 <= j < i ==> !CheckKind(kinds[j])
      {
        if CheckKind(kinds[i]) {
          var _ := Advance();
          return true;
        }
      }
      return false;
    }

    /** `consume`: the current token if it has the kind expected, otherwise
        the fatal parser error with `message`. */
    method Consume(kind: TokenType, message: string) returns (r: Result<Token>)
      requires Valid()
      modifies this`current
      ensures Valid()
      ensures Check(tokens, old(current), kind) ==> r == Ok(tokens[old(current)]) && current == old(current) + 1
      ensures !Check(tokens, old(current), kind) ==> r == Err(message) && current == old(current)
    {
      if CheckKind(kind) {
        var t := Advance();
        return Ok(t);
      }
      return Err(message);
    }

    /** `primary`. */
    method Primary() returns (e: Expr)
      requires Valid()
      modifies this`current
      ensures Valid()
      ensures ExprAt(e, current) == PrimaryAt(tokens, old(current))
    {
      var matched := Match([NUMBER]);
      if matched {
        return Literal(tokens[current - 1]);
      }
      matched := Match([IDENTIFIER]);
      if matched {
        return Variable(tokens[current - 1]);
      }
      return NoExpr;
    }

    /** `factor`. */
    method Factor() returns (e: Expr)
      requires Valid()
      modifies this`current
      ensures Valid()
      ensures ExprAt(e, current) == FactorAt(tokens, old(current))
    {
      ghost var goal := FactorAt(tokens, current);
      e := Primary();
      while true
        invariant Valid()
        invariant FactorRest(tokens, e, current) == goal
        decreases |tokens| - current
      {
        var matched := Match([STAR, SLASH]);
        if !matched {
          assert !IsFactorOp(tokens, current);
          break;
        }
        assert IsFactorOp(tokens, current - 1);
        var op := tokens[current - 1];
        FactorRestUnfold(tokens, e, current - 1);
        var right := Primary();
        e := Binary(e, op, right);
      }
    }

    /** `term`. */
    method Term() returns (e: Expr)
      requires Valid()
      modifies this`current
      ensures Valid()
      ensures ExprAt(e, current) == TermAt(tokens, old(current))
    {
      ghost var goal := TermAt(tokens, current);
      e := Factor();
      while true
        invariant Valid()
        invariant TermRest(tokens, e, current) == goal
        decreases |tokens| - current
      {
        var matched := Match([PLUS, MINUS]);
        if !matched {
          assert !IsTermOp(tokens, current);
          break;
        }
        assert IsTermOp(tokens, current - 1);
        var op := tokens[current - 1];
        TermRestUnfold(tokens, e, current - 1);
        var right := Factor();
        e := Binary(e, op, right);
      }
    }

    /** `expression`. */
    method Expression() returns (e: Expr)
      requires Valid()
      modifies this`current
      ensures Valid()
      ensures ExprAt(e, current) == TermAt(tokens, old(current))
    {
      e := Term();
    }

    /** The optional `= expression` of `varDeclaration`; the null node
        when no `=` follows the name. */
    method Initializer() returns (e: Expr)
      requires Valid()
      modifies this`current
      ensures Valid()
      ensures ExprAt(e, current) == InitializerAt(tokens, old(current))
    {
      e := NoExpr;
      var hasInitializer := Match([EQUAL]);
      if hasInitializer {
        e := Expression();
      }
    }

    /** `varDeclaration`, called just after `let` or `var`. */
    method VarDeclaration() returns (r: Result<Option<Stmt>>)
      requires Valid()
      modifies this`current
      ensures Valid()
      ensures Yields(r, current, VarDeclarationAt(tokens, old(current)))
    {
      ghost var start := current;
      var name := Consume(IDENTIFIER, NameExpected);
      if name.Err? {
        return Err(name.error);
      }
      var initializer := Initializer();
      VarDeclarationCases(tokens, start, ExprAt(initializer, current));
      var semicolon := Consume(SEMICOLON, DeclarationSemicolonExpected);
      if semicolon.Err? {
        return Err(semicolon.error);
      }
      return Ok(Some(VarDecl(name.value, initializer)));
    }

    /** `printStatement`, called just after `print`. */
    method PrintStatement() returns (r: Result<Option<Stmt>>)
      requires Valid()
      modifies this`current
      ensures Valid()
      ensures Yields(r, current, PrintStatementAt(tokens, old(current)))
    {
      var value := Expression();
      var semicolon := Consume(SEMICOLON, PrintSemicolonExpected);
      if semicolon.Err? {
        return Err(semicolon.error);
      }
      return Ok(Some(PrintStmt(value)));
    }

    /** `statement`. */
    method Statement() returns (r: Result<Option<Stmt>>)
      requires Valid()
      modifies this`current
      ensures Valid()
      ensures Yields(r, current, StatementAt(tokens, old(current)))
    {
      var isPrint := Match([PRINT]);
      if isPrint {
        r := PrintStatement();
      } else {
        r := Ok(None);
      }
    }

    /** `declaration`. */
    method Declaration() returns (r: Result<Option<Stmt>>)
      requires Valid()
      modifies this`current
      ensures Valid()
      ensures Yields(r, current, DeclarationAt(tokens, old(current)))
    {
      var isDeclaration := Match([VAR, LET]);
      if isDeclaration {
        r := VarDeclaration();
      } else {
        r := Statement();
      }
    }

    /** `parse`: declarations up to EOF. Where the source would loop
        forever on a null declaration, the outcome is `Hangs`. */
    method Parse() returns (outcome: ParseOutcome)
      requires Valid()
      modifies this`current
      ensures Valid()
      ensures outcome == ParseFrom(tokens, old(current))
      ensures outcome.Parsed? ==> IsAtEnd()
      ensures outcome.Hangs? ==> current == outcome.at
    {
      var statements: seq<Stmt> := [];
      while !IsAtEnd()
        invariant Valid()
        invariant ParseFrom(tokens, old(current)) == Prepend(statements, ParseFrom(tokens, current))
        decreases |tokens| - current
      {
        ghost var before := current;
        var d := Declaration();
        if d.Err? {
          return Failed(d.error);
        }
        if d.value.None? {
          return Hangs(current);
        }
        PrependPrepend(statements, d.value.value, ParseFrom(tokens, current));
        statements := statements + [d.value.value];
      }
      return Parsed(statements);
    }
  }
}
