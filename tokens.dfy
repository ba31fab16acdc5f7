/** Token kinds, tokens, the keyword table and the ASCII character classes
    used by the scanner. */
module Tokens {

  /** The kinds of include/lexer.h, plus SUMMON, which the keyword table
      uses and only the older root lexer.h declares. */
  datatype TokenType =
    // Single-character tokens
    | LEFT_PAREN | RIGHT_PAREN | LEFT_BRACE | RIGHT_BRACE
    | COMMA | DOT | SEMICOLON
    | PLUS | MINUS | STAR | SLASH
    | BANG | EQUAL
    | LESS | GREATER
    // One or two character tokens
    | BANG_EQUAL | EQUAL_EQUAL
    | LESS_EQUAL | GREATER_EQUAL
    // Literals
    | IDENTIFIER | STRING | NUMBER
    // Keywords
    | LET | VAR | FUNC
    | IF | ELSE | WHILE | FOR | RETURN
    | PRINT | TRUE | FALSE
    | AND | OR | NOT | ASSEMBLE
    | SUMMON
    // Special
    | EOF_TOKEN
    | ERROR

  datatype Token = Token(kind: TokenType, lexeme: string, line: nat)

  /** The reserved words and the kinds they are reclassified to. */
  const Keywords: map<string, TokenType> := map[
    "let" := LET,
    "var" := VAR,
    "func" := FUNC,
    "if" := IF,
    "else" := ELSE,
    "for" := FOR,
    "while" := WHILE,
    "return" := RETURN,
    "true" := TRUE,
    "false" := FALSE,
    "summon" := SUMMON,
    "print" := PRINT,
    "and" := AND,
    "or" := OR,
    "not" := NOT,
    "assemble" := ASSEMBLE
  ]

  /** Every entry of the keyword table is a keyword kind of its own: no
      two words share a kind, and no word scans as a name, a literal, EOF or
      an error. */
  lemma KeywordKinds()
    ensures forall w <- Keywords ::
      && Keywords[w] != IDENTIFIER && Keywords[w] != STRING && Keywords[w] != NUMBER
      && Keywords[w] != EOF_TOKEN && Keywords[w] != ERROR
    ensures forall v <- Keywords, w <- Keywords :: Keywords[v] == Keywords[w] ==> v == w
    ensures "summon" in Keywords && Keywords["summon"] == SUMMON
  {
    KeywordSpellings();
    forall v <- Keywords, w <- Keywords | Keywords[v] == Keywords[w]
      ensures v == w
    {
      assert v == Spelling(Keywords[v]);
    }
  }

  /** The word a keyword kind is spelled with, and the empty word for the
      kinds that are not keywords. It is the keyword table read backwards,
      and exists only to prove that `KeywordKinds` gives no two words the
      same kind. */
  function Spelling(k: TokenType): string {
    match k
    case LET => "let"
    case VAR => "var"
    case FUNC => "func"
    case IF => "if"
    case ELSE => "else"
    case FOR => "for"
    case WHILE => "while"
    case RETURN => "return"
    case TRUE => "true"
    case FALSE => "false"
    case SUMMON => "summon"
    case PRINT => "print"
    case AND => "and"
    case OR => "or"
    case NOT => "not"
    case ASSEMBLE => "assemble"
    case _ => ""
  }

  lemma KeywordSpellings()
    ensures forall w <- Keywords :: Spelling(Keywords[w]) == w
  {
  }

  predicate IsDigit(c: char) {
    '0' <= c <= '9'
  }

  predicate IsAlpha(c: char) {
    ('a' <= c <= 'z') || ('A' <= c <= 'Z')
  }

  /** A character that may continue an identifier. */
  predicate IsIdentChar(c: char) {
    IsAlpha(c) || IsDigit(c) || c == '_'
  }

  predicate NotNewline(c: char) {
    c != '\n'
  }

  predicate NotQuote(c: char) {
    c != '"'
  }
}
