/** The scanner of src/lexer.cpp as a class whose methods update its cursor,
    line counter and token list in place. Every method is proved to do what
    the reference definition in `ScanSpec` says. */
module Scanner {
  import opened Tokens
  import opened ScanSpec
  import opened ScanProperties

  class Lexer {
    const source: string
    var tokens: seq<Token>
    var start: nat
    var current: nat
    var line: nat

    /** The cursors stay inside the text, `start` at or before `current`. */
    ghost predicate Valid()
      reads this
    {
      start <= current <= |source|
    }

    constructor (src: string)
      ensures source == src && tokens == [] && start == 0 && current == 0 && line == 1
      ensures Valid()
    {
      source := src;
      tokens := [];
      start := 0;
      current := 0;
      line := 1;
    }

    function IsAtEnd(): bool
      reads this
    {
      current >= |source|
    }

    /** The character under the cursor, or NUL at the end. */
    function Peek(): char
      reads this
    {
      if IsAtEnd() then '\0' else source[current]
    }

    /** The character after the cursor, or NUL when there is none. */
    function PeekNext(): char
      reads this
    {
      if current + 1 >= |source| then '\0' else source[current + 1]
    }

    method Advance() returns (c: char)
      requires current < |source|
      modifies this`current
      ensures c == source[old(current)] && current == old(current) + 1
    {
      c := source[current];
      current := current + 1;
    }

    /** Consumes the next character exactly when it is `expected`. */
    method Match(expected: char) returns (matched: bool)
      modifies this`current
      ensures matched <==> old(current) < |source| && source[old(current)] == expected
      ensures current == if matched then old(current) + 1 else old(current)
    {
      if IsAtEnd() {
        return false;
      }
      if source[current] != expected {
        return false;
      }
      current := current + 1;
      return true;
    }

    /** Appends a token whose lexeme is the text from `start` to the cursor. */
    method AddToken(kind: TokenType)
      requires Valid()
      modifies this`tokens
      ensures tokens == old(tokens) + [Token(kind, source[start..current], line)]
    {
      tokens := tokens + [Token(kind, source[start..current], line)];
    }

    /** The loop of `string`: advances to the closing quote or the end,
        counting the newlines it passes. */
    method AdvanceToQuote()
      requires current <= |source|
      modifies this`current, this`line
      ensures current == SkipWhile(source, old(current), NotQuote)
      ensures line == old(line) + Newlines(source[old(current)..current])
    {
      ghost var begin := current;
      while Peek() != '"' && !IsAtEnd()
        invariant begin <= current <= |source|
        invariant SkipWhile(source, current, NotQuote) == SkipWhile(source, begin, NotQuote)
        invariant line == old(line) + Newlines(source[begin..current])
        decreases |source| - current
      {
        NewlinesExtend(source, begin, current);
        if Peek() == '\n' {
          line := line + 1;
        }
        var _ := Advance();
      }
    }

    /** The rest of a string literal, after its opening quote. */
    method String()
      requires Valid() && current == start + 1 && source[start] == '"'
      modifies this`current, this`line, this`tokens
      ensures Valid()
      ensures var r := StringStep(source, start, old(line));
        current == r.next && line == r.line && tokens == old(tokens) + r.emitted
    {
      AdvanceToQuote();
      if IsAtEnd() {
        AddToken(ERROR);
        return;
      }
      var _ := Advance();
      tokens := tokens + [Token(STRING, source[start + 1..current - 1], line)];
    }

    /** The loop `while (isdigit(peek())) advance();` of `number`. */
    method AdvanceDigits()
      requires current <= |source|
      modifies this`current
      ensures current == SkipWhile(source, old(current), IsDigit)
    {
      while IsDigit(Peek())
        invariant old(current) <= current <= |source|
        invariant SkipWhile(source, current, IsDigit) == SkipWhile(source, old(current), IsDigit)
        decreases |source| - current
      {
        var _ := Advance();
      }
    }

    /** The rest of a number literal, after its first digit. */
    method Number()
      requires Valid() && current == start + 1 && IsDigit(source[start])
      modifies this`current, this`tokens
      ensures Valid()
      ensures var r := Emit(source, start, NumberEnd(source, start), line, NUMBER);
        current == r.next && tokens == old(tokens) + r.emitted
    {
      AdvanceDigits();
      if Peek() == '.' && IsDigit(PeekNext()) {
        var _ := Advance();
        AdvanceDigits();
      }
      tokens := tokens + [Token(NUMBER, source[start..current], line)];
    }

    /** The rest of an identifier or keyword, after its first character. */
    method Identifier()
      requires Valid() && current == start + 1
      modifies this`current, this`tokens
      ensures Valid()
      ensures var r := IdentifierStep(source, start, line);
        current == r.next && tokens == old(tokens) + r.emitted
    {
      ghost var end := SkipWhile(source, current, IsIdentChar);
      while IsAlpha(Peek()) || IsDigit(Peek()) || Peek() == '_'
        invariant start < current <= end
        invariant SkipWhile(source, current, IsIdentChar) == end
        invariant tokens == old(tokens)
        decreases |source| - current
      {
        var _ := Advance();
      }
      var text := source[start..current];
      if text in Keywords {
        AddToken(Keywords[text]);
      } else {
        AddToken(IDENTIFIER);
      }
    }

    /** The rest of a block comment, after its opening slash and star. */
    method MultiLineComment()
      requires Valid() && current <= |source|
      modifies this`current, this`line
      ensures Valid()
      ensures var j := BlockCommentEnd(source, old(current));
        && line == old(line) + Newlines(source[old(current)..j])
        && current == (if j == |source| then j else j + 2)
    {
      ghost var begin := current;
      ghost var end := BlockCommentEnd(source, current);
      while !(Peek() == '*' && PeekNext() == '/') && !IsAtEnd()
        invariant begin <= current <= end
        invariant BlockCommentEnd(source, current) == end
        invariant line == old(line) + Newlines(source[begin..current])
        decreases |source| - current
      {
        NewlinesExtend(source, begin, current);
        if Peek() == '\n' {
          line := line + 1;
        }
        var _ := Advance();
      }
      if IsAtEnd() {
        return;
      }
      var _ := Advance();
      var _ := Advance();
    }

    /** The loop of a line comment: advances to the newline or the end. */
    method AdvanceToNewline()
      requires current <= |source|
      modifies this`current
      ensures current == SkipWhile(source, old(current), NotNewline)
    {
      while Peek() != '\n' && !IsAtEnd()
        invariant old(current) <= current <= |source|
        invariant SkipWhile(source, current, NotNewline) == SkipWhile(source, old(current), NotNewline)
        decreases |source| - current
      {
        var _ := Advance();
      }
    }

    /** The `/` case of `scanToken`: a line comment, a block comment or
        the SLASH token. */
    method Slash()
      requires Valid() && current == start + 1 && source[start] == '/'
      modifies this`current, this`line, this`tokens
      ensures Valid()
      ensures var r := SlashStep(source, start, old(line));
        current == r.next && line == r.line && tokens == old(tokens) + r.emitted
    {
      var lineComment := Match('/');
      if lineComment {
        AdvanceToNewline();
      } else {
        var blockComment := Match('*');
        if blockComment {
          MultiLineComment();
        } else {
          AddToken(SLASH);
        }
      }
    }

    /** The `default` case of `scanToken`: a number, an identifier or
        keyword, or an unexpected character reported as an ERROR token. */
    method ScanOther(c: char)
      requires Valid() && current == start + 1 && c == source[start]
      requires c !in SingleCharKinds && c !in OneOrTwoKinds && c !in "/ \r\t\n\""
      modifies this`current, this`tokens
      ensures Valid()
      ensures var r := Step(source, start, line);
        current == r.next && line == r.line && tokens == old(tokens) + r.emitted
    {
      if IsDigit(c) {
        StepNumber(source, start, line);
        Number();
      } else if IsAlpha(c) || c == '_' {
        StepIdentifier(source, start, line);
        Identifier();
      } else {
        UnexpectedCharacter(source, start, line);
        AddToken(ERROR);
      }
    }

    /** One call of `scanToken`: consumes one lexeme starting at `start`. */
    method ScanToken()
      requires Valid() && start == current < |source|
      modifies this`current, this`line, this`tokens
      ensures Valid()
      ensures var r := Step(source, old(current), old(line));
        current == r.next && line == r.line && tokens == old(tokens) + r.emitted
    {
      var c := Advance();
      if c in SingleCharKinds {
        StepSingle(source, start, line);
        AddToken(SingleCharKinds[c]);
      } else if c in OneOrTwoKinds {
        StepOneOrTwo(source, start, line);
        var equal := Match('=');
        AddToken(if equal then OneOrTwoKinds[c].1 else OneOrTwoKinds[c].0);
      } else if c == '/' {
        StepSlash(source, start, line);
        Slash();
      } else if c == ' ' || c == '\r' || c == '\t' {
        StepBlank(source, start, line);
      } else if c == '\n' {
        StepBlank(source, start, line);
        line := line + 1;
      } else if c == '"' {
        StepString(source, start, line);
        String();
      } else {
        ScanOther(c);
      }
    }

    /** `scanTokens`: scans from the cursor to the end of the text and
        appends the EOF token; the result is the whole token list. */
    method ScanTokens() returns (result: seq<Token>)
      requires Valid()
      modifies this`start, this`current, this`line, this`tokens
      ensures Valid() && current == |source|
      ensures line == old(line) + Newlines(source[old(current)..])
      ensures tokens == old(tokens) + ScanFrom(source, old(current), old(line))
      ensures result == tokens
    {
      while !IsAtEnd()
        invariant Valid()
        invariant tokens + ScanFrom(source, current, line) == old(tokens) + ScanFrom(source, old(current), old(line))
        decreases |source| - current
      {
        start := current;
        ScanFromStep(source, start, line, tokens);
        ScanToken();
      }
      tokens := tokens + [Token(EOF_TOKEN, "", line)];
      result := tokens;
      ghost var all := ScanFrom(source, old(current), old(line));
      ScanFromLines(source, old(current), old(line));
      assert all[|all| - 1] == tokens[|tokens| - 1];
    }
  }
}
