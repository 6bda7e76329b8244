/**
 * What one call of `NextToken` promises, stated about `Scan` and proved
 * for every input and every position.
 */
module LexerLaws {
  import opened Tokens
  import opened Lexer

  /** Where the token returned from position `p` begins: after the whitespace. */
  function TokenStart(input: Bytes, p: nat): nat {
    RunEnd(input, p, IsWhitespace)
  }

  /** `=` and `!` look one byte ahead: `==` and `!=` are read as one token. */
  lemma TwoByteOperators(input: Bytes, p: nat)
    ensures var s, r := TokenStart(input, p), Scan(input, p);
      && (At(input, s) == '=' as byte && At(input, s + 1) == '=' as byte ==>
            r == (NewToken(Eq, ['=' as byte, '=' as byte]), s + 2))
      && (At(input, s) == '=' as byte && At(input, s + 1) != '=' as byte ==>
            r == (NewToken(Assign, ['=' as byte]), s + 1))
      && (At(input, s) == '!' as byte && At(input, s + 1) == '=' as byte ==>
            r == (NewToken(NotEq, ['!' as byte, '=' as byte]), s + 2))
      && (At(input, s) == '!' as byte && At(input, s + 1) != '=' as byte ==>
            r == (NewToken(Bang, ['!' as byte]), s + 1))
  {
  }

  /**
   * Each of `+ - / * < > ; , { } ( )` is a token of its own kind, one byte
   * long, whatever follows it.
   */
  lemma OneByteTokens(input: Bytes, p: nat)
    ensures var s, r := TokenStart(input, p), Scan(input, p);
      At(input, s) in OneByteKinds ==> r == (NewToken(OneByteKinds[At(input, s)], [At(input, s)]), s + 1)
  {
  }

  /**
   * Whitespace before a token is skipped, and no literal contains a
   * whitespace byte.
   */
  lemma WhitespaceIsSkipped(input: Bytes, p: nat)
    ensures forall k | p <= k < TokenStart(input, p) :: IsWhitespace(At(input, k))
    ensures forall k | 0 <= k < |Scan(input, p).0.literal| :: !IsWhitespace(Scan(input, p).0.literal[k])
  {
    var s := TokenStart(input, p);
    var (tok, q) := Scan(input, p);
    var c := At(input, s);
    if IsLetter(c) {
      forall k | 0 <= k < |tok.literal| ensures !IsWhitespace(tok.literal[k]) {
        assert tok.literal[k] == At(input, s + k);
        assert IsLetter(At(input, s + k));
      }
    } else if IsDigit(c) {
      forall k | 0 <= k < |tok.literal| ensures !IsWhitespace(tok.literal[k]) {
        assert tok.literal[k] == At(input, s + k);
        assert IsDigit(At(input, s + k));
      }
    }
  }

  /**
   * Every token except end-of-input, and except an illegal byte from 0x80
   * on (whose text is the two-byte encoding of that byte as a code point),
   * is exactly the slice of input it consumed, between the skipped
   * whitespace and the byte now under examination.
   */
  lemma LiteralIsConsumedSlice(input: Bytes, p: nat)
    ensures var s, r := TokenStart(input, p), Scan(input, p);
      r.0.kind != Eof && !(r.0.kind == Illegal && At(input, s) >= 0x80) ==>
        s < r.1 <= |input| && r.0.literal == input[s..r.1]
  {
    var s := TokenStart(input, p);
    var (tok, q) := Scan(input, p);
    var c := At(input, s);
    if tok.kind != Eof && !(tok.kind == Illegal && c >= 0x80) {
      if c == '=' as byte || c == '!' as byte {
        if At(input, s + 1) == '=' as byte {
          assert tok.literal == [input[s], input[s + 1]] == input[s..s + 2];
        } else {
          assert tok.literal == [input[s]] == input[s..s + 1];
        }
      } else if c in OneByteKinds || (!IsLetter(c) && !IsDigit(c)) {
        assert tok.literal == [input[s]] == input[s..s + 1];
      }
    }
  }

  /**
   * An identifier or keyword is the longest run of `[A-Za-z_]` from where
   * it starts, so a digit ends it; its kind is what the keyword table gives
   * for its text.
   */
  lemma IdentifierIsLongestRun(input: Bytes, p: nat)
    requires IsLetter(At(input, TokenStart(input, p)))
    ensures var s, r := TokenStart(input, p), Scan(input, p);
      && s < r.1 <= |input|
      && r.0.literal == input[s..r.1]
      && (forall k | 0 <= k < |r.0.literal| :: IsLetter(r.0.literal[k]))
      && (r.1 == |input| || !IsLetter(input[r.1]))
      && r.0.kind == LookupIdent(r.0.literal)
  {
    var s := TokenStart(input, p);
    WordStart(input, p);
    var (tok, q) := ScanWord(input, s);
    forall k | 0 <= k < |tok.literal| ensures IsLetter(tok.literal[k]) {
      assert tok.literal[k] == At(input, s + k);
    }
  }

  /**
   * An integer is the longest run of decimal digits from where it starts,
   * kept as text: no sign, no conversion.
   */
  lemma IntegerIsLongestRun(input: Bytes, p: nat)
    requires IsDigit(At(input, TokenStart(input, p)))
    ensures var s, r := TokenStart(input, p), Scan(input, p);
      && r.0.kind == Int
      && s < r.1 <= |input|
      && r.0.literal == input[s..r.1]
      && (forall k | 0 <= k < |r.0.literal| :: IsDigit(r.0.literal[k]))
      && (r.1 == |input| || !IsDigit(input[r.1]))
  {
    var s := TokenStart(input, p);
    NumberStart(input, p);
    var (tok, q) := ScanNumber(input, s);
    forall k | 0 <= k < |tok.literal| ensures IsDigit(tok.literal[k]) {
      assert tok.literal[k] == At(input, s + k);
    }
  }

  /** A letter starts no operator or delimiter, so the token there is a word. */
  lemma WordStart(input: Bytes, p: nat)
    requires IsLetter(At(input, TokenStart(input, p)))
    ensures Scan(input, p) == ScanWord(input, TokenStart(input, p))
  {
    assert At(input, TokenStart(input, p)) !in OneByteKinds;
  }

  /** A digit starts no operator, delimiter or word, so the token there is a number. */
  lemma NumberStart(input: Bytes, p: nat)
    requires IsDigit(At(input, TokenStart(input, p)))
    ensures Scan(input, p) == ScanNumber(input, TokenStart(input, p))
  {
    assert At(input, TokenStart(input, p)) !in OneByteKinds;
  }

  /**
   * A byte that starts no token is one illegal token; the lexer reports no
   * failure and goes on with the next byte.
   */
  lemma OtherBytesAreIllegal(input: Bytes, p: nat)
    requires var c := At(input, TokenStart(input, p));
      c !in OneByteKinds && c != '=' as byte && c != '!' as byte && c != 0 && !IsLetter(c) && !IsDigit(c)
    ensures var s, r := TokenStart(input, p), Scan(input, p);
      r == (NewToken(Illegal, RuneBytes(At(input, s))), s + 1) && s < |input|
  {
  }

  /** The tokens of `n` successive calls of `NextToken`, the first at `p`. */
  function Calls(input: Bytes, p: nat, n: nat): (ts: seq<Token>)
    ensures |ts| == n
    decreases n
  {
    if n == 0 then [] else [Scan(input, p).0] + Calls(input, Scan(input, p).1, n - 1)
  }

  /**
   * Once the input is used up the lexer yields end-of-input with an empty
   * literal, and keeps yielding it on every later call.
   */
  lemma {:induction false} EndOfInputRepeats(input: Bytes, p: nat, n: nat)
    requires p >= |input|
    ensures forall k | 0 <= k < n :: Calls(input, p, n)[k] == NewToken(Eof, [])
    decreases n
  {
    if n > 0 {
      assert Scan(input, p) == (NewToken(Eof, []), p + 1);
      EndOfInputRepeats(input, p + 1, n - 1);
      assert Calls(input, p, n) == [NewToken(Eof, [])] + Calls(input, p + 1, n - 1);
    }
  }

  /**
   * A zero byte inside the input reads like the end of the input: it yields
   * end-of-input, so the token stream stops there.
   */
  lemma ZeroByteEndsTheStream(input: Bytes, p: nat)
    requires TokenStart(input, p) < |input| && input[TokenStart(input, p)] == 0
    ensures TokensFrom(input, p) == [NewToken(Eof, [])]
  {
  }

  /** The stream from `p` is the tokens of as many calls from `p` as it has: the calls up to the first end-of-input. */
  lemma {:induction false} StreamIsTheCallsUpToEof(input: Bytes, p: nat)
    ensures TokensFrom(input, p) == Calls(input, p, |TokensFrom(input, p)|)
    decreases |input| - p
  {
    var (t, q) := Scan(input, p);
    if t.kind != Eof {
      StreamIsTheCallsUpToEof(input, q);
    }
  }
}
