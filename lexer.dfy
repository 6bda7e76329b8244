/**
 * The lexer: a cursor over the input bytes that hands out one token per
 * call of `NextToken`.
 *
 * The functions before the class say what one call does, as a function of
 * the input and the index of the byte under examination (`Scan`), and what
 * the whole stream of calls produces (`TokensFrom`); the class is the
 * step-by-step cursor, and each of its methods is proved to do what these
 * functions say.
 */
module Lexer {
  import opened Tokens

  /** The byte at index `i`, or 0 past the end of the input. */
  function At(input: Bytes, i: int): byte {
    if 0 <= i < |input| then input[i] else 0
  }

  /**
   * The three byte classes are disjoint, none holds the 0 that stands for
   * the end of the input, and none holds a byte that starts an operator
   * or punctuation token, so the order of the lexer's cases does not
   * matter and every run stops at the end of the input.
   */
  predicate IsDigit(b: byte): (r: bool)
    ensures r ==> b != 0 && b !in OneByteKinds && b != '=' as byte && b != '!' as byte
  {
    '0' as byte <= b <= '9' as byte
  }

  predicate IsLetter(b: byte): (r: bool)
    ensures r ==> !IsDigit(b)
    ensures r ==> b != 0 && b !in OneByteKinds && b != '=' as byte && b != '!' as byte
  {
    ('a' as byte <= b <= 'z' as byte) || ('A' as byte <= b <= 'Z' as byte) || b == '_' as byte
  }

  predicate IsWhitespace(b: byte): (r: bool)
    ensures r ==> !IsLetter(b) && !IsDigit(b)
    ensures r ==> b != 0 && b !in OneByteKinds && b != '=' as byte && b != '!' as byte
  {
    b == ' ' as byte || b == '\t' as byte || b == '\n' as byte || b == '\r' as byte
  }

  /** The bytes that stand for a token of their own, and the kind of that token. */
  const OneByteKinds: map<byte, TokenType> := map[
    '+' as byte := Plus, '-' as byte := Minus,
    '/' as byte := Slash, '*' as byte := Asterisk,
    '<' as byte := Lt, '>' as byte := Gt,
    ';' as byte := Semicolon, ',' as byte := Comma,
    '{' as byte := LBrace, '}' as byte := RBrace,
    '(' as byte := LParen, ')' as byte := RParen]

  /** A token as the lexer makes it: the line is left at its zero value. */
  function NewToken(kind: TokenType, literal: Bytes): (t: Token)
    ensures t.kind == kind && t.literal == literal && t.line == 0
  {
    Token(kind, literal, 0)
  }

  /**
   * The text of a one-byte string converted from a byte value: the UTF-8
   * encoding of the code point with that value, so one byte below 0x80
   * and two bytes from 0x80 on.
   */
  function RuneBytes(c: byte): (r: Bytes)
    ensures 1 <= |r| <= 2
    ensures |r| == 1 <==> c < 0x80
    ensures |r| == 1 ==> r[0] == c
    ensures |r| == 2 ==> 0xC2 <= r[0] <= 0xC3 && 0x80 <= r[1] < 0xC0
    ensures |r| == 2 ==> (r[0] as int - 0xC0) * 64 + (r[1] as int - 0x80) == c as int
  {
    if c < 0x80 then [c]
    else [(0xC0 + c as int / 64) as byte, (0x80 + c as int % 64) as byte]
  }

  /**
   * The end of the run of bytes of one class that starts at `i`: the first
   * index from `i` on whose byte is not in the class. The end of the input
   * reads as byte 0, which no class contains, so a run never leaves the input.
   */
  function RunEnd(input: Bytes, i: nat, inClass: byte -> bool): (e: nat)
    requires !inClass(0)
    ensures i <= e
    ensures e == i || e <= |input|
    ensures forall k | i <= k < e :: inClass(At(input, k))
    ensures !inClass(At(input, e))
    decreases |input| - i
  {
    if inClass(At(input, i)) then RunEnd(input, i + 1, inClass) else i
  }

  /**
   * One call of `NextToken` on a lexer whose byte under examination is at
   * index `p`: the token it returns and the index of the byte under
   * examination afterwards. Whitespace is skipped first.
   */
  function Scan(input: Bytes, p: nat): (r: (Token, nat))
    ensures p < r.1
    ensures r.0.kind != Eof ==> r.1 <= |input|
    ensures r.0.kind != Blank && r.0.line == 0
  {
    ScanToken(input, RunEnd(input, p, IsWhitespace))
  }

  /** The token that starts at index `s`, and the index after it. */
  function ScanToken(input: Bytes, s: nat): (r: (Token, nat))
    ensures s < r.1
    ensures r.0.kind != Eof ==> r.1 <= |input|
    ensures r.0.kind != Blank && r.0.line == 0
  {
    var c := At(input, s);
    if c == '=' as byte then
      if At(input, s + 1) == '=' as byte then (NewToken(Eq, [c, At(input, s + 1)]), s + 2)
      else (NewToken(Assign, [c]), s + 1)
    else if c == '!' as byte then
      if At(input, s + 1) == '=' as byte then (NewToken(NotEq, [c, At(input, s + 1)]), s + 2)
      else (NewToken(Bang, [c]), s + 1)
    else if c in OneByteKinds then (NewToken(OneByteKinds[c], [c]), s + 1)
    else if c == 0 then (NewToken(Eof, []), s + 1)
    else if IsLetter(c) then ScanWord(input, s)
    else if IsDigit(c) then ScanNumber(input, s)
    else (NewToken(Illegal, RuneBytes(c)), s + 1)
  }

  /** An identifier or keyword: the run of letters from `s`. */
  function ScanWord(input: Bytes, s: nat): (r: (Token, nat))
    requires IsLetter(At(input, s))
    ensures s < r.1 <= |input|
  {
    var e := RunEnd(input, s, IsLetter);
    (NewToken(LookupIdent(input[s..e]), input[s..e]), e)
  }

  /** An integer: the run of decimal digits from `s`. */
  function ScanNumber(input: Bytes, s: nat): (r: (Token, nat))
    requires IsDigit(At(input, s))
    ensures s < r.1 <= |input|
  {
    var e := RunEnd(input, s, IsDigit);
    (NewToken(Int, input[s..e]), e)
  }

  /**
   * The tokens that successive calls of `NextToken` return, starting with
   * the byte under examination at `p`, up to and including the first
   * end-of-input token.
   */
  function TokensFrom(input: Bytes, p: nat): (ts: seq<Token>)
    ensures EofTerminated(ts)
    ensures ts[0] == Scan(input, p).0
    decreases |input| - p
  {
    var (t, q) := Scan(input, p);
    if t.kind == Eof then [t] else [t] + TokensFrom(input, q)
  }

  /**
   * The index of the byte under examination at each call of `NextToken`
   * that `TokensFrom(input, p)` lists: the call that returns the k-th token
   * starts at the k-th position, and leaves the lexer at the next one.
   */
  function PositionsFrom(input: Bytes, p: nat): (ps: seq<nat>)
    ensures |ps| == |TokensFrom(input, p)| && ps[0] == p
    decreases |input| - p
  {
    var (t, q) := Scan(input, p);
    if t.kind == Eof then [p] else [p] + PositionsFrom(input, q)
  }

  /**
   * The k-th token of the stream is what the call at the k-th position
   * returns, and that call leaves the lexer at the next position.
   */
  lemma {:induction false} PositionStep(input: Bytes, p: nat, k: nat)
    requires k < |TokensFrom(input, p)|
    ensures Scan(input, PositionsFrom(input, p)[k]).0 == TokensFrom(input, p)[k]
    ensures k + 1 < |TokensFrom(input, p)| ==>
      Scan(input, PositionsFrom(input, p)[k]).1 == PositionsFrom(input, p)[k + 1]
    decreases k
  {
    var (t, q) := Scan(input, p);
    if k > 0 {
      PositionStep(input, q, k - 1);
      assert TokensFrom(input, p)[k] == TokensFrom(input, q)[k - 1];
      assert PositionsFrom(input, p)[k] == PositionsFrom(input, q)[k - 1];
      if k + 1 < |TokensFrom(input, p)| {
        assert PositionsFrom(input, p)[k + 1] == PositionsFrom(input, q)[k];
      }
    } else if 1 < |TokensFrom(input, p)| {
      assert PositionsFrom(input, p)[1] == PositionsFrom(input, q)[0];
    }
  }

  /** `PositionStep` at every index of the stream. */
  lemma PositionsStep(input: Bytes, p: nat)
    ensures var ts, ps := TokensFrom(input, p), PositionsFrom(input, p);
      forall k | 0 <= k < |ts| :: Scan(input, ps[k]).0 == ts[k] && (k + 1 < |ts| ==> Scan(input, ps[k]).1 == ps[k + 1])
  {
    forall k | 0 <= k < |TokensFrom(input, p)|
      ensures Scan(input, PositionsFrom(input, p)[k]).0 == TokensFrom(input, p)[k]
      ensures k + 1 < |TokensFrom(input, p)| ==> Scan(input, PositionsFrom(input, p)[k]).1 == PositionsFrom(input, p)[k + 1]
    {
      PositionStep(input, p, k);
    }
  }

  class Lexer {
    const input: Bytes
    /** Index of the byte under examination. */
    var position: nat
    /** Index of the byte after it. */
    var readPosition: nat
    /** The byte under examination, 0 past the end of the input. */
    var ch: byte

    ghost predicate Valid()
      reads this
    {
      readPosition == position + 1 && ch == At(input, position)
    }

    /** A lexer over `input` with its first byte under examination. */
    constructor (input: Bytes)
      ensures Valid()
      ensures this.input == input && position == 0
    {
      this.input := input;
      position, readPosition, ch := 0, 0, 0;
      new;
      ReadChar();
    }

    /** Moves to the next byte, which reads as 0 past the end of the input. */
    method ReadChar()
      modifies this
      ensures position == old(readPosition) && readPosition == position + 1
      ensures ch == At(input, position)
      ensures Valid()
    {
      if readPosition >= |input| {
        ch := 0;
      } else {
        ch := input[readPosition];
      }
      position := readPosition;
      readPosition := readPosition + 1;
    }

    /** The byte after the one under examination, without moving. */
    function PeekChar(): (c: byte)
      reads this
      requires Valid()
      ensures c == At(input, position + 1)
    {
      if readPosition >= |input| then 0 else input[readPosition]
    }

    method SkipWhitespace()
      requires Valid()
      modifies this
      ensures Valid()
      ensures position == RunEnd(input, old(position), IsWhitespace)
    {
      while IsWhitespace(ch)
        invariant Valid()
        invariant RunEnd(input, position, IsWhitespace) == RunEnd(input, old(position), IsWhitespace)
        decreases |input| - position
      {
        ReadChar();
      }
    }

    /** Reads the run of letters that starts at the byte under examination. */
    method ReadIdentifier() returns (literal: Bytes)
      requires Valid() && IsLetter(ch)
      modifies this
      ensures Valid()
      ensures readPosition == RunEnd(input, old(position), IsLetter)
      ensures literal == input[old(position)..readPosition]
    {
      var start := position;
      while IsLetter(PeekChar())
        invariant Valid() && start <= position < |input|
        invariant IsLetter(ch)
        invariant RunEnd(input, position, IsLetter) == RunEnd(input, start, IsLetter)
        decreases |input| - position
      {
        ReadChar();
      }
      literal := input[start..readPosition];
    }

    /** Reads the run of decimal digits that starts at the byte under examination. */
    method ReadNumber() returns (literal: Bytes)
      requires Valid() && IsDigit(ch)
      modifies this
      ensures Valid()
      ensures readPosition == RunEnd(input, old(position), IsDigit)
      ensures literal == input[old(position)..readPosition]
    {
      var start := position;
      while IsDigit(PeekChar())
        invariant Valid() && start <= position < |input|
        invariant IsDigit(ch)
        invariant RunEnd(input, position, IsDigit) == RunEnd(input, start, IsDigit)
        decreases |input| - position
      {
        ReadChar();
      }
      literal := input[start..readPosition];
    }

    /** Skips whitespace, then reads and returns exactly one token. */
    method NextToken() returns (tok: Token)
      requires Valid()
      modifies this
      ensures Valid()
      ensures (tok, position) == Scan(input, old(position))
    {
      SkipWhitespace();
      if ch == '=' as byte {
        if PeekChar() == '=' as byte {
          var first := ch;
          ReadChar();
          tok := NewToken(Eq, [first, ch]);
        } else {
          tok := NewToken(Assign, [ch]);
        }
      } else if ch == '!' as byte {
        if PeekChar() == '=' as byte {
          var first := ch;
          ReadChar();
          tok := NewToken(NotEq, [first, ch]);
        } else {
          tok := NewToken(Bang, [ch]);
        }
      } else if ch in OneByteKinds {
        tok := NewToken(OneByteKinds[ch], [ch]);
      } else if ch == 0 {
        tok := NewToken(Eof, []);
      } else if IsLetter(ch) {
        var literal := ReadIdentifier();
        tok := NewToken(LookupIdent(literal), literal);
      } else if IsDigit(ch) {
        var literal := ReadNumber();
        tok := NewToken(Int, literal);
      } else {
        tok := NewToken(Illegal, RuneBytes(ch));
      }
      ReadChar();
    }
  }
}
