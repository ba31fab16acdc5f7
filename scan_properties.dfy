/** Properties of the reference scanner: line counting, the EOF token,
    maximal munch, comments, string and number literals, identifiers and
    keywords, and error tokens. */
module ScanProperties {
  import opened Tokens
  import opened ScanSpec

  lemma SlashStepLine(src: string, pos: nat, line: nat)
    requires pos < |src| && src[pos] == '/'
    ensures var r := SlashStep(src, pos, line);
      r.line == line + Newlines(src[pos..r.next])
  {
    var r := SlashStep(src, pos, line);
    var p := pos + 1;
    if p < |src| && src[p] == '*' {
      var j := BlockCommentEnd(src, p + 1);
      NewlinesSplit(src, pos, p + 1, j);
      NoNewlines(src[pos..p + 1]);
      if j < |src| {
        NewlinesSplit(src, pos, j, j + 2);
        NoNewlines(src[j..j + 2]);
      }
    } else {
      NoNewlines(src[pos..r.next]);
    }
  }

  lemma StringStepLine(src: string, pos: nat, line: nat)
    requires pos < |src| && src[pos] == '"'
    ensures var r := StringStep(src, pos, line);
      r.line == line + Newlines(src[pos..r.next])
  {
    var j := SkipWhile(src, pos + 1, NotQuote);
    NewlinesSplit(src, pos, pos + 1, j);
    NoNewlines(src[pos..pos + 1]);
    if j < |src| {
      NewlinesSplit(src, pos, j, j + 1);
      NoNewlines(src[j..j + 1]);
    }
  }

  lemma NumberHasNoNewline(src: string, pos: nat)
    requires pos < |src| && IsDigit(src[pos])
    ensures Newlines(src[pos..NumberEnd(src, pos)]) == 0
  {
    var i := SkipWhile(src, pos + 1, IsDigit);
    var e := NumberEnd(src, pos);
    forall k | pos <= k < e ensures src[k] != '\n' {
      if k > i {
        assert IsDigit(src[k]);
      }
    }
    NoNewlines(src[pos..e]);
  }

  /** `StepLine` for an operator or punctuation character. */
  lemma OperatorStepLine(src: string, pos: nat, line: nat)
    requires pos < |src| && (src[pos] in SingleCharKinds || src[pos] in OneOrTwoKinds)
    ensures var r := Step(src, pos, line);
      r.line == line + Newlines(src[pos..r.next])
  {
    var r := Step(src, pos, line);
    if src[pos] in SingleCharKinds {
      StepSingle(src, pos, line);
      assert src[pos..r.next] == [src[pos]];
    } else {
      StepOneOrTwo(src, pos, line);
      NoNewlines(src[pos..r.next]);
    }
  }

  /** `StepLine` for a number, an identifier, a blank or an unexpected
      character: none of these spans a newline. */
  lemma OtherStepLine(src: string, pos: nat, line: nat)
    requires pos < |src|
    requires src[pos] !in SingleCharKinds && src[pos] !in OneOrTwoKinds && src[pos] !in "/\n\""
    ensures var r := Step(src, pos, line);
      r.line == line + Newlines(src[pos..r.next])
  {
    var r := Step(src, pos, line);
    var c := src[pos];
    if IsDigit(c) {
      NumberHasNoNewline(src, pos);
    } else if IsAlpha(c) || c == '_' {
      Identifier(src, pos, line);
      NoNewlines(src[pos..r.next]);
    } else {
      assert r.next == pos + 1;
      assert src[pos..r.next] == [c];
    }
  }

  /** The line counter rises by exactly the newlines one step consumes,
      including those inside strings and block comments. */
  lemma StepLine(src: string, pos: nat, line: nat)
    requires pos < |src|
    ensures var r := Step(src, pos, line);
      r.line == line + Newlines(src[pos..r.next])
  {
    var c := src[pos];
    if c in SingleCharKinds || c in OneOrTwoKinds {
      OperatorStepLine(src, pos, line);
    } else if c == '/' {
      SlashStepLine(src, pos, line);
    } else if c == '\n' {
      var r := Step(src, pos, line);
      assert src[pos..r.next] == "\n";
    } else if c == '"' {
      StringStepLine(src, pos, line);
    } else {
      OtherStepLine(src, pos, line);
    }
  }

  /** Line numbers never decrease along `ts`. */
  predicate LinesAscending(ts: seq<Token>) {
    forall i, j :: 0 <= i <= j < |ts| ==> ts[i].line <= ts[j].line
  }

  lemma AscendingPrepend(a: seq<Token>, b: seq<Token>, line: nat)
    requires forall t <- a :: t.line == line
    requires |b| > 0 && line <= b[0].line && LinesAscending(b)
    ensures LinesAscending(a + b) && line <= (a + b)[0].line
  {
    var ts := a + b;
    forall i, j | 0 <= i <= j < |ts| ensures ts[i].line <= ts[j].line {
      if i < |a| {
        assert ts[i] in a;
        if j < |a| {
          assert ts[j] in a;
        } else {
          assert ts[j] == b[j - |a|];
        }
      } else {
        assert ts[i] == b[i - |a|] && ts[j] == b[j - |a|];
      }
    }
    if |a| > 0 {
      assert ts[0] in a;
    }
  }

  /** Every token `scanTokens` appends after position `pos` carries the line
      counter of the moment it was emitted: lines never decrease from
      `line`, and the EOF token carries `line` plus all the newlines of the
      rest of the text. */
  lemma {:induction false} ScanFromLines(src: string, pos: nat, line: nat)
    requires pos <= |src|
    ensures var ts := ScanFrom(src, pos, line);
      && ts[|ts| - 1].line == line + Newlines(src[pos..])
      && line <= ts[0].line
      && LinesAscending(ts)
    decreases |src| - pos
  {
    if pos < |src| {
      var st := Step(src, pos, line);
      StepLine(src, pos, line);
      ScanFromLines(src, st.next, st.line);
      var rest := ScanFrom(src, st.next, st.line);
      var ts := ScanFrom(src, pos, line);
      assert ts == st.emitted + rest;
      AscendingPrepend(st.emitted, rest, st.line);
      assert ts[|ts| - 1] == rest[|rest| - 1];
      NewlinesSplit(src, pos, st.next, |src|);
      assert src[pos..] == src[pos..|src|] && src[st.next..] == src[st.next..|src|];
    }
  }

  /** `scanTokens` ends with exactly one EOF token: it is last, its lexeme is
      empty, its line is one plus the number of newlines in the text, and
      every other token's line lies between 1 and that line. */
  lemma ScanEndsWithEof(src: string)
    ensures var ts := Scan(src);
      && |ts| > 0
      && ts[|ts| - 1] == Token(EOF_TOKEN, "", 1 + Newlines(src))
      && (forall k :: 0 <= k < |ts| - 1 ==> ts[k].kind != EOF_TOKEN)
      && (forall k :: 0 <= k < |ts| ==> 1 <= ts[k].line <= 1 + Newlines(src))
  {
    ScanFromLines(src, 0, 1);
    assert src[0..] == src;
    var ts := Scan(src);
    forall k | 0 <= k < |ts| ensures 1 <= ts[k].line <= 1 + Newlines(src) {
      assert ts[0].line <= ts[k].line <= ts[|ts| - 1].line;
    }
  }

  // Which branch of `scanToken` a character selects.

  lemma StepSingle(src: string, pos: nat, line: nat)
    requires pos < |src| && src[pos] in SingleCharKinds
    ensures Step(src, pos, line) == Emit(src, pos, pos + 1, line, SingleCharKinds[src[pos]])
  {
  }

  lemma StepOneOrTwo(src: string, pos: nat, line: nat)
    requires pos < |src| && src[pos] in OneOrTwoKinds
    ensures var kinds := OneOrTwoKinds[src[pos]];
      Step(src, pos, line) == OneOrTwo(src, pos, line, kinds.0, kinds.1)
  {
    assert src[pos] !in SingleCharKinds;
  }

  lemma StepBlank(src: string, pos: nat, line: nat)
    requires pos < |src| && src[pos] in " \r\t\n"
    ensures Step(src, pos, line) == StepResult(pos + 1, if src[pos] == '\n' then line + 1 else line, [])
  {
  }

  lemma StepSlash(src: string, pos: nat, line: nat)
    requires pos < |src| && src[pos] == '/'
    ensures Step(src, pos, line) == SlashStep(src, pos, line)
  {
  }

  lemma StepString(src: string, pos: nat, line: nat)
    requires pos < |src| && src[pos] == '"'
    ensures Step(src, pos, line) == StringStep(src, pos, line)
  {
  }

  lemma StepNumber(src: string, pos: nat, line: nat)
    requires pos < |src| && IsDigit(src[pos])
    ensures Step(src, pos, line) == Emit(src, pos, NumberEnd(src, pos), line, NUMBER)
  {
  }

  lemma StepIdentifier(src: string, pos: nat, line: nat)
    requires pos < |src| && (IsAlpha(src[pos]) || src[pos] == '_')
    ensures Step(src, pos, line) == IdentifierStep(src, pos, line)
  {
  }

  /** Maximal munch for `!`, `=`, `<` and `>`: the two-character operator
      whenever the next character is `=`, otherwise the one-character one. */
  lemma TwoCharOperators(src: string, pos: nat, line: nat)
    requires pos < |src| && src[pos] in OneOrTwoKinds
    ensures var r := Step(src, pos, line);
      var kinds := OneOrTwoKinds[src[pos]];
      if pos + 1 < |src| && src[pos + 1] == '=' then
        r == StepResult(pos + 2, line, [Token(kinds.1, [src[pos], '='], line)])
      else
        r == StepResult(pos + 1, line, [Token(kinds.0, [src[pos]], line)])
  {
    assert src[pos] !in SingleCharKinds;
    assert pos + 1 < |src| ==> src[pos..pos + 2] == [src[pos], src[pos + 1]];
    assert src[pos..pos + 1] == [src[pos]];
  }

  /** A `//` comment runs up to, not including, the next newline and emits
      nothing. */
  lemma LineComment(src: string, pos: nat, line: nat)
    requires pos + 1 < |src| && src[pos] == '/' && src[pos + 1] == '/'
    ensures var r := Step(src, pos, line);
      && r.emitted == [] && r.line == line
      && (r.next == |src| || src[r.next] == '\n')
      && forall k :: pos + 2 <= k < r.next ==> src[k] != '\n'
  {
    StepSlash(src, pos, line);
  }

  /** A block comment emits nothing. A closed one ends just after its first
      terminator; one never closed consumes the rest of the text, still
      without an error token. */
  lemma BlockComment(src: string, pos: nat, line: nat)
    requires pos + 1 < |src| && src[pos] == '/' && src[pos + 1] == '*'
    ensures var r := Step(src, pos, line);
      && r.emitted == []
      && if exists k :: pos + 2 <= k < |src| && ClosesComment(src, k) then
           && pos + 4 <= r.next
           && ClosesComment(src, r.next - 2)
           && forall k :: pos + 2 <= k < r.next - 2 ==> !ClosesComment(src, k)
         else
           r.next == |src|
  {
    StepSlash(src, pos, line);
    var j := BlockCommentEnd(src, pos + 2);
    if j < |src| {
      assert ClosesComment(src, j);
    }
  }

  /** The scan for the closing quote stops at a quote exactly when the
      text after the opening quote holds one. */
  lemma ClosingQuote(src: string, pos: nat)
    requires pos < |src|
    ensures var j := SkipWhile(src, pos + 1, NotQuote);
      && (j < |src| <==> exists k :: pos < k < |src| && src[k] == '"')
      && (j < |src| ==> src[j] == '"')
      && (forall k :: pos < k < j ==> src[k] != '"')
  {
    var j := SkipWhile(src, pos + 1, NotQuote);
    if j == |src| {
      assert forall k :: pos < k < |src| ==> NotQuote(src[k]);
    }
  }

  /** A closed string literal yields a STRING token holding the text strictly
      between the quotes; an unterminated one yields an ERROR token holding
      the rest of the text from the opening quote. */
  lemma StringLiteral(src: string, pos: nat, line: nat)
    requires pos < |src| && src[pos] == '"'
    ensures var r := Step(src, pos, line);
      if exists k :: pos < k < |src| && src[k] == '"' then
        && pos + 2 <= r.next
        && src[r.next - 1] == '"'
        && (forall k :: pos < k < r.next - 1 ==> src[k] != '"')
        && r.emitted == [Token(STRING, src[pos + 1..r.next - 1], r.line)]
      else
        r.next == |src| && r.emitted == [Token(ERROR, src[pos..], r.line)]
  {
    StepString(src, pos, line);
    ClosingQuote(src, pos);
    var j := SkipWhile(src, pos + 1, NotQuote);
    if j < |src| {
      assert src[pos + 1..j] == src[pos + 1..j + 1 - 1];
    } else {
      assert src[pos..j] == src[pos..];
    }
  }

  /** Every character of `s` is a digit. */
  predicate AllDigits(s: string) {
    forall k :: 0 <= k < |s| ==> IsDigit(s[k])
  }

  /** A run of digits, optionally followed by a dot and at least one digit. */
  predicate IsNumberText(s: string) {
    && |s| > 0 && IsDigit(s[0])
    && (AllDigits(s) || exists d :: 0 < d < |s| - 1 && s[d] == '.' && AllDigits(s[..d]) && AllDigits(s[d + 1..]))
  }

  lemma NumberEndText(src: string, pos: nat)
    requires pos < |src| && IsDigit(src[pos])
    ensures var e := NumberEnd(src, pos);
      var text := src[pos..e];
      && pos < e <= |src|
      && IsNumberText(text)
      && (e < |src| ==> !IsDigit(src[e]))
      && (AllDigits(text) && e + 1 < |src| ==> !(src[e] == '.' && IsDigit(src[e + 1])))
  {
    var e := NumberEnd(src, pos);
    var i := SkipWhile(src, pos + 1, IsDigit);
    var text := src[pos..e];
    assert AllDigits(src[pos..i]);
    if e != i {
      var d := i - pos;
      assert text[d] == '.' && !AllDigits(text);
      assert text[..d] == src[pos..i];
      assert text[d + 1..] == src[i + 1..e];
    } else {
      assert text == src[pos..i];
    }
  }

  /** A number is a maximal digit run, with a fraction only when a digit
      follows the dot; a dot not followed by a digit is left for the next
      token. */
  lemma NumberLiteral(src: string, pos: nat, line: nat)
    requires pos < |src| && IsDigit(src[pos])
    ensures var r := Step(src, pos, line);
      var text := src[pos..r.next];
      && r.emitted == [Token(NUMBER, text, line)]
      && IsNumberText(text)
      && (r.next < |src| ==> !IsDigit(src[r.next]))
      && (AllDigits(text) && r.next + 1 < |src| ==> !(src[r.next] == '.' && IsDigit(src[r.next + 1])))
  {
    StepNumber(src, pos, line);
    NumberEndText(src, pos);
  }

  /** An identifier starts with a letter or `_` and runs over letters, digits
      and `_` as far as they go; it becomes a keyword token exactly when its
      text is in the keyword table. */
  lemma Identifier(src: string, pos: nat, line: nat)
    requires pos < |src| && (IsAlpha(src[pos]) || src[pos] == '_')
    ensures var r := Step(src, pos, line);
      var text := src[pos..r.next];
      && r.line == line
      && (forall k :: pos <= k < r.next ==> IsIdentChar(src[k]))
      && (r.next < |src| ==> !IsIdentChar(src[r.next]))
      && |r.emitted| == 1 && r.emitted[0].lexeme == text
      && (text in Keywords ==> r.emitted[0].kind == Keywords[text])
      && (r.emitted[0].kind == IDENTIFIER <==> text !in Keywords)
  {
    StepIdentifier(src, pos, line);
    var text := src[pos..SkipWhile(src, pos + 1, IsIdentChar)];
    assert IDENTIFIER !in Keywords.Values;
    if text in Keywords {
      assert Keywords[text] in Keywords.Values;
    }
  }

  /** A character no rule accepts gives one ERROR token holding just that
      character, and scanning goes on after it. */
  lemma UnexpectedCharacter(src: string, pos: nat, line: nat)
    requires pos < |src|
    requires var c := src[pos];
      && c !in SingleCharKinds && c !in OneOrTwoKinds
      && c !in "/ \r\t\n\"" && !IsDigit(c) && !IsAlpha(c) && c != '_'
    ensures Step(src, pos, line) == StepResult(pos + 1, line, [Token(ERROR, [src[pos]], line)])
  {
    assert src[pos..pos + 1] == [src[pos]];
  }

  /** What StepLexeme states, for one step. */
  predicate LexemeIsSlice(src: string, pos: nat, r: StepResult)
    requires pos <= r.next <= |src|
  {
    forall t <- r.emitted ::
      if t.kind == STRING then r.next - pos >= 2 && t.lexeme == src[pos + 1..r.next - 1]
      else t.lexeme == src[pos..r.next]
  }

  lemma StringLexeme(src: string, pos: nat, line: nat)
    requires pos < |src| && src[pos] == '"'
    ensures LexemeIsSlice(src, pos, Step(src, pos, line))
  {
    StepString(src, pos, line);
    var j := SkipWhile(src, pos + 1, NotQuote);
    assert j < |src| ==> src[pos + 1..j] == src[pos + 1..j + 1 - 1];
  }

  lemma IdentifierLexeme(src: string, pos: nat, line: nat)
    requires pos < |src| && (IsAlpha(src[pos]) || src[pos] == '_')
    ensures LexemeIsSlice(src, pos, Step(src, pos, line))
  {
    StepIdentifier(src, pos, line);
    var text := src[pos..SkipWhile(src, pos + 1, IsIdentChar)];
    assert STRING !in Keywords.Values;
    if text in Keywords {
      assert Keywords[text] in Keywords.Values;
    }
  }

  /** `StepLexeme` for an operator, punctuation or a blank. */
  lemma OperatorLexeme(src: string, pos: nat, line: nat)
    requires pos < |src| && (src[pos] in SingleCharKinds || src[pos] in OneOrTwoKinds || src[pos] in " \r\t\n")
    ensures LexemeIsSlice(src, pos, Step(src, pos, line))
  {
    var c := src[pos];
    if c in SingleCharKinds {
      StepSingle(src, pos, line);
    } else if c in OneOrTwoKinds {
      StepOneOrTwo(src, pos, line);
    } else {
      StepBlank(src, pos, line);
    }
  }

  /** `StepLexeme` for a slash or comment, a number or an unexpected
      character. */
  lemma OtherLexeme(src: string, pos: nat, line: nat)
    requires pos < |src|
    requires src[pos] !in SingleCharKinds && src[pos] !in OneOrTwoKinds && src[pos] !in " \r\t\n\""
    requires !IsAlpha(src[pos]) && src[pos] != '_'
    ensures LexemeIsSlice(src, pos, Step(src, pos, line))
  {
    var c := src[pos];
    if c == '/' {
      StepSlash(src, pos, line);
    } else if IsDigit(c) {
      StepNumber(src, pos, line);
    } else {
      UnexpectedCharacter(src, pos, line);
    }
  }

  /** The lexeme of every token except STRING is exactly the slice of text
      the step consumed; a STRING lexeme is that slice without its quotes. */
  lemma StepLexeme(src: string, pos: nat, line: nat)
    requires pos < |src|
    ensures var r := Step(src, pos, line);
      forall t <- r.emitted ::
        if t.kind == STRING then r.next - pos >= 2 && t.lexeme == src[pos + 1..r.next - 1]
        else t.lexeme == src[pos..r.next]
  {
    var c := src[pos];
    if c in SingleCharKinds || c in OneOrTwoKinds || c in " \r\t\n" {
      OperatorLexeme(src, pos, line);
    } else if c == '"' {
      StringLexeme(src, pos, line);
    } else if IsAlpha(c) || c == '_' {
      IdentifierLexeme(src, pos, line);
    } else {
      OtherLexeme(src, pos, line);
    }
  }

  /** `src` is the text `let x = 42;`, stated character by character. */
  predicate LetStatementText(src: string)
  {
    |src| == 11 && src[0] == 'l' && src[1] == 'e' && src[2] == 't' && src[3] == ' ' && src[4] == 'x' &&
    src[5] == ' ' && src[6] == '=' && src[7] == ' ' && src[8] == '4' && src[9] == '2' && src[10] == ';'
  }

  lemma LetStatementKeyword(src: string)
    requires LetStatementText(src)
    ensures Step(src, 0, 1) == StepResult(3, 1, [Token(LET, "let", 1)])
  {
    StepIdentifier(src, 0, 1);
    assert SkipWhile(src, 3, IsIdentChar) == 3;
    assert SkipWhile(src, 2, IsIdentChar) == 3;
    assert src[0..3] == "let";
    LetIsKeyword();
  }

  lemma LetIsKeyword()
    ensures IdentifierKind("let") == LET
  {
  }

  lemma LetStatementName(src: string)
    requires LetStatementText(src)
    ensures Step(src, 4, 1) == StepResult(5, 1, [Token(IDENTIFIER, "x", 1)])
  {
    StepIdentifier(src, 4, 1);
    assert SkipWhile(src, 5, IsIdentChar) == 5;
    assert src[4..5] == "x";
    XIsName();
  }

  lemma XIsName()
    ensures IdentifierKind("x") == IDENTIFIER
  {
  }

  lemma LetStatementEqual(src: string)
    requires LetStatementText(src)
    ensures Step(src, 6, 1) == StepResult(7, 1, [Token(EQUAL, "=", 1)])
  {
    StepOneOrTwo(src, 6, 1);
    assert src[6..7] == "=";
  }

  lemma LetStatementNumber(src: string)
    requires LetStatementText(src)
    ensures Step(src, 8, 1) == StepResult(10, 1, [Token(NUMBER, "42", 1)])
  {
    StepNumber(src, 8, 1);
    assert SkipWhile(src, 10, IsDigit) == 10;
    assert src[8..10] == "42";
  }

  lemma LetStatementSemicolon(src: string)
    requires LetStatementText(src)
    ensures Step(src, 10, 1) == StepResult(11, 1, [Token(SEMICOLON, ";", 1)])
  {
    StepSingle(src, 10, 1);
    assert src[10..11] == ";";
  }

  /** One step of the scanning loop, behind the tokens already scanned. */
  lemma ScanFromStep(src: string, pos: nat, line: nat, before: seq<Token>)
    requires pos < |src|
    ensures var r := Step(src, pos, line);
      before + ScanFrom(src, pos, line) == (before + r.emitted) + ScanFrom(src, r.next, r.line)
  {
    var r := Step(src, pos, line);
    var rest := ScanFrom(src, r.next, r.line);
    assert ScanFrom(src, pos, line) == r.emitted + rest;
    assert before + (r.emitted + rest) == (before + r.emitted) + rest;
  }

  /** `steps` are the successive steps the scanner takes from `pos` to the
      end of the source. */
  predicate Chained(src: string, pos: nat, line: nat, steps: seq<StepResult>)
    decreases |steps|
  {
    if steps == [] then pos == |src|
    else pos < |src| && Step(src, pos, line) == steps[0] && Chained(src, steps[0].next, steps[0].line, steps[1..])
  }

  function Emitted(steps: seq<StepResult>): seq<Token>
  {
    if steps == [] then [] else steps[0].emitted + Emitted(steps[1..])
  }

  function FinalLine(line: nat, steps: seq<StepResult>): nat
  {
    if steps == [] then line else steps[|steps| - 1].line
  }

  /** Scanning is the concatenation of what its steps emit, followed by EOF
      on the line the last step ends on. */
  lemma {:induction false} ScanFromChained(src: string, pos: nat, line: nat, steps: seq<StepResult>)
    requires Chained(src, pos, line, steps)
    ensures ScanFrom(src, pos, line) == Emitted(steps) + [Token(EOF_TOKEN, "", FinalLine(line, steps))]
    decreases |steps|
  {
    if steps != [] {
      var rest := steps[1..];
      ScanFromChained(src, steps[0].next, steps[0].line, rest);
      if rest != [] {
        assert rest[|rest| - 1] == steps[|steps| - 1];
      }
    }
  }

  /** The steps over `let x = 42;`. */
  const LetStatementSteps: seq<StepResult> := [
    StepResult(3, 1, [Token(LET, "let", 1)]),
    StepResult(4, 1, []),
    StepResult(5, 1, [Token(IDENTIFIER, "x", 1)]),
    StepResult(6, 1, []),
    StepResult(7, 1, [Token(EQUAL, "=", 1)]),
    StepResult(8, 1, []),
    StepResult(10, 1, [Token(NUMBER, "42", 1)]),
    StepResult(11, 1, [Token(SEMICOLON, ";", 1)])]

  /** The steps over `let x = 42;`, one fact per step. */
  predicate LetStatementStepFacts(src: string)
  {
    |src| == 11 &&
    Step(src, 0, 1) == StepResult(3, 1, [Token(LET, "let", 1)]) &&
    Step(src, 3, 1) == StepResult(4, 1, []) &&
    Step(src, 4, 1) == StepResult(5, 1, [Token(IDENTIFIER, "x", 1)]) &&
    Step(src, 5, 1) == StepResult(6, 1, []) &&
    Step(src, 6, 1) == StepResult(7, 1, [Token(EQUAL, "=", 1)]) &&
    Step(src, 7, 1) == StepResult(8, 1, []) &&
    Step(src, 8, 1) == StepResult(10, 1, [Token(NUMBER, "42", 1)]) &&
    Step(src, 10, 1) == StepResult(11, 1, [Token(SEMICOLON, ";", 1)])
  }

  lemma LetStatementHasStepFacts(src: string)
    requires LetStatementText(src)
    ensures LetStatementStepFacts(src)
  {
    LetStatementKeyword(src);
    LetStatementName(src);
    LetStatementEqual(src);
    LetStatementNumber(src);
    LetStatementSemicolon(src);
    StepBlank(src, 3, 1);
    StepBlank(src, 5, 1);
    StepBlank(src, 7, 1);
  }

  lemma LetStatementChained(src: string)
    requires LetStatementStepFacts(src)
    ensures Chained(src, 0, 1, LetStatementSteps)
  {
    var steps := LetStatementSteps;
    assert Chained(src, 11, 1, steps[8..]);
    assert Chained(src, 10, 1, steps[7..]);
    assert Chained(src, 8, 1, steps[6..]);
    assert Chained(src, 7, 1, steps[5..]);
    assert Chained(src, 6, 1, steps[4..]);
    assert Chained(src, 5, 1, steps[3..]);
    assert Chained(src, 4, 1, steps[2..]);
    assert Chained(src, 3, 1, steps[1..]);
  }

  lemma LetStatementEmitted()
    ensures Emitted(LetStatementSteps) == [
      Token(LET, "let", 1), Token(IDENTIFIER, "x", 1), Token(EQUAL, "=", 1),
      Token(NUMBER, "42", 1), Token(SEMICOLON, ";", 1)]
    ensures FinalLine(1, LetStatementSteps) == 1
  {
  }

  lemma LetStatementChainScans(src: string)
    requires Chained(src, 0, 1, LetStatementSteps)
    ensures ScanFrom(src, 0, 1) == Emitted(LetStatementSteps) + [Token(EOF_TOKEN, "", FinalLine(1, LetStatementSteps))]
  {
    ScanFromChained(src, 0, 1, LetStatementSteps);
  }

  lemma LetStatementScans(src: string)
    requires ScanFrom(src, 0, 1) == Emitted(LetStatementSteps) + [Token(EOF_TOKEN, "", FinalLine(1, LetStatementSteps))]
    ensures Scan(src) == [
      Token(LET, "let", 1), Token(IDENTIFIER, "x", 1), Token(EQUAL, "=", 1),
      Token(NUMBER, "42", 1), Token(SEMICOLON, ";", 1), Token(EOF_TOKEN, "", 1)]
  {
    LetStatementEmitted();
  }

  /** The example of tests/test_lexer.cpp: `let x = 42;` scans as LET,
      IDENTIFIER, EQUAL, NUMBER "42", SEMICOLON and EOF. */
  lemma ScanLetStatement(src: string)
    requires src == "let x = 42;"
    ensures Scan(src) == [
      Token(LET, "let", 1), Token(IDENTIFIER, "x", 1), Token(EQUAL, "=", 1),
      Token(NUMBER, "42", 1), Token(SEMICOLON, ";", 1), Token(EOF_TOKEN, "", 1)]
  {
    assert LetStatementText(src);
    LetStatementHasStepFacts(src);
    LetStatementChained(src);
    LetStatementChainScans(src);
    LetStatementScans(src);
  }

  /** `src` is the text `1.`. */
  predicate TrailingDotText(src: string)
  {
    |src| == 2 && src[0] == '1' && src[1] == '.'
  }

  const TrailingDotSteps: seq<StepResult> :=
    [StepResult(1, 1, [Token(NUMBER, "1", 1)]), StepResult(2, 1, [Token(DOT, ".", 1)])]

  lemma TrailingDotChained(src: string)
    requires TrailingDotText(src)
    ensures Chained(src, 0, 1, TrailingDotSteps)
  {
    StepNumber(src, 0, 1);
    assert SkipWhile(src, 1, IsDigit) == 1;
    assert src[0..1] == "1";
    StepSingle(src, 1, 1);
    assert src[1..2] == ".";
    var steps := TrailingDotSteps;
    assert Chained(src, 2, 1, steps[2..]);
    assert Chained(src, 1, 1, steps[1..]);
  }

  lemma TrailingDotChainScans(src: string)
    requires Chained(src, 0, 1, TrailingDotSteps)
    ensures ScanFrom(src, 0, 1) == Emitted(TrailingDotSteps) + [Token(EOF_TOKEN, "", FinalLine(1, TrailingDotSteps))]
  {
    ScanFromChained(src, 0, 1, TrailingDotSteps);
  }

  lemma TrailingDotEmitted()
    ensures Emitted(TrailingDotSteps) == [Token(NUMBER, "1", 1), Token(DOT, ".", 1)]
    ensures FinalLine(1, TrailingDotSteps) == 1
  {
  }

  /** `1.` scans as NUMBER "1" followed by DOT: the dot is not part of the
      number because no digit follows it. */
  lemma ScanTrailingDot(src: string)
    requires src == "1."
    ensures Scan(src) == [Token(NUMBER, "1", 1), Token(DOT, ".", 1), Token(EOF_TOKEN, "", 1)]
  {
    assert TrailingDotText(src);
    TrailingDotChained(src);
    TrailingDotChainScans(src);
    TrailingDotEmitted();
  }
}
