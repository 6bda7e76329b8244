/**
 * Tokens of the language: the token kinds, the token record and the
 * keyword table the lexer consults for every identifier it reads.
 */
module Tokens {

  /** One byte of source text. The lexer works on bytes, not on runes. */
  newtype byte = b: int | 0 <= b < 256

  type Bytes = seq<byte>

  /** The bytes of a string whose characters all fit in one byte. */
  function ToBytes(s: string): (r: Bytes)
    requires forall k | 0 <= k < |s| :: s[k] as int < 256
    ensures |r| == |s|
    ensures forall k | 0 <= k < |s| :: r[k] as int == s[k] as int
  {
    seq(|s|, k requires 0 <= k < |s| => s[k] as int as byte)
  }

  /**
   * The kinds of token. `Blank` is the zero value of the kind type: a token
   * that was never filled in has it, and the lexer never produces it.
   */
  datatype TokenType =
    | Blank
    | Illegal | Eof
    | Ident | Int
    | Assign | Plus | Minus | Bang | Asterisk | Slash
    | Lt | Gt | Eq | NotEq
    | Comma | Semicolon
    | LParen | RParen | LBrace | RBrace
    | Function | Let | True | False | If | Else | Return

  /**
   * A token: its kind, the text it was read from and a line number. The
   * lexer leaves `line` at its zero value.
   */
  datatype Token = Token(kind: TokenType, literal: Bytes, line: int)

  predicate IsKeyword(k: TokenType) {
    k in {Function, Let, True, False, If, Else, Return}
  }

  /** The text of each keyword. */
  function KeywordText(k: TokenType): Bytes
    requires IsKeyword(k)
  {
    match k
    case Function => ToBytes("fn")
    case Let => ToBytes("let")
    case True => ToBytes("true")
    case False => ToBytes("false")
    case If => ToBytes("if")
    case Else => ToBytes("else")
    case Return => ToBytes("return")
  }

  /**
   * The kind of an identifier-shaped word: the keyword it spells, or
   * `Ident` when it spells none.
   */
  function LookupIdent(word: Bytes): (k: TokenType)
    ensures k == Ident || IsKeyword(k)
    ensures IsKeyword(k) ==> KeywordText(k) == word
    ensures k == Ident <==> forall kw :: IsKeyword(kw) ==> KeywordText(kw) != word
  {
    if word == ToBytes("fn") then Function
    else if word == ToBytes("let") then Let
    else if word == ToBytes("true") then True
    else if word == ToBytes("false") then False
    else if word == ToBytes("if") then If
    else if word == ToBytes("else") then Else
    else if word == ToBytes("return") then Return
    else Ident
  }

  /**
   * A complete token stream as the lexer hands it out: it ends with the
   * first end-of-input token, and no token before that one is end-of-input.
   */
  predicate EofTerminated(ts: seq<Token>) {
    && |ts| > 0
    && ts[|ts| - 1].kind == Eof
    && forall k | 0 <= k < |ts| - 1 :: ts[k].kind != Eof
  }
}
