/** Token kinds, positioned tokens, their classification and the operator
    precedence table (the `TokenKind` enum and `Token` impl of src/tokeniser.rs). */
module Tokens {
  import opened Utils

  datatype TokenKind =
    | Invalid(b: byte)
    | Num(n: int)
    | Ident(name: seq<byte>)
    | Add | Sub | Mul | Div
    | LPar | RPar
    | Mod | And | Xor | Or
    | Assign
    | End

  /** A token with the 1-based line and column where it starts. */
  datatype Token = Token(kind: TokenKind, line: nat, column: nat)

  /** `is_operand`: a number or an identifier. */
  predicate IsOperand(t: Token)
  {
    t.kind.Num? || t.kind.Ident?
  }

  /** `is_paren`. */
  predicate IsParen(t: Token)
  {
    t.kind.LPar? || t.kind.RPar?
  }

  /** `is_operator`: the eight binary operators and `=`. */
  predicate IsOperator(t: Token)
  {
    match t.kind
    case Add | Sub | Mul | Div | And | Mod | Xor | Or | Assign => true
    case _ => false
  }

  /** The tokens `precedence` gives a value to, i.e. does not reach `unreachable!()` on. */
  predicate HasPrecedence(t: Token)
  {
    IsOperand(t) || IsOperator(t)
  }

  /** `precedence`: higher binds tighter. */
  function Precedence(t: Token): (p: int)
    requires HasPrecedence(t)
    ensures -1 <= p <= 6
    ensures p == 0 <==> IsOperand(t)
  {
    match t.kind
    case Assign => -1
    case Num(_) | Ident(_) => 0
    case Or => 1
    case Xor => 2
    case And => 3
    case Sub | Add => 5
    case Div | Mul | Mod => 6
  }

  /** A token `Tokeniser::collect` can hand on: neither `Invalid` nor `End`. */
  predicate IsLexeme(t: Token)
  {
    !t.kind.Invalid? && !t.kind.End?
  }

  /** No token of `s` is `Invalid` or `End`. */
  predicate Lexed(s: seq<Token>)
  {
    forall i :: 0 <= i < |s| ==> IsLexeme(s[i])
  }

  /** The three classes are pairwise exclusive; every kind but `Invalid` and
      `End` is in exactly one of them, and `Assign` is an operator. */
  lemma Classes(t: Token)
    ensures !(IsOperand(t) && IsParen(t))
    ensures !(IsOperand(t) && IsOperator(t))
    ensures !(IsParen(t) && IsOperator(t))
    ensures IsLexeme(t) <==> IsOperand(t) || IsParen(t) || IsOperator(t)
    ensures t.kind.Assign? ==> IsOperator(t)
  {
  }

  /** The precedence table: `* / %` over `+ -` over `&` over `^` over `|`
      over operands over `=`. */
  lemma PrecedenceTable(line: nat, column: nat)
    ensures Precedence(Token(Mul, line, column)) == 6
    ensures Precedence(Token(Div, line, column)) == 6
    ensures Precedence(Token(Mod, line, column)) == 6
    ensures Precedence(Token(Add, line, column)) == 5
    ensures Precedence(Token(Sub, line, column)) == 5
    ensures Precedence(Token(And, line, column)) == 3
    ensures Precedence(Token(Xor, line, column)) == 2
    ensures Precedence(Token(Or, line, column)) == 1
    ensures forall n :: Precedence(Token(Num(n), line, column)) == 0
    ensures forall x :: Precedence(Token(Ident(x), line, column)) == 0
    ensures Precedence(Token(Assign, line, column)) == -1
  {
  }

  /** The number of `(` tokens in `s`. */
  function LParCount(s: seq<Token>): (n: nat)
    ensures n <= |s|
  {
    if |s| == 0 then 0 else LParCount(s[..|s| - 1]) + (if s[|s| - 1].kind.LPar? then 1 else 0)
  }

  /** The number of `)` tokens in `s`. */
  function RParCount(s: seq<Token>): (n: nat)
    ensures n <= |s|
  {
    if |s| == 0 then 0 else RParCount(s[..|s| - 1]) + (if s[|s| - 1].kind.RPar? then 1 else 0)
  }

  /** Both counts add up over a concatenation. */
  lemma {:induction false} ParCountsAppend(a: seq<Token>, b: seq<Token>)
    ensures LParCount(a + b) == LParCount(a) + LParCount(b)
    ensures RParCount(a + b) == RParCount(a) + RParCount(b)
    decreases |b|
  {
    if |b| > 0 {
      var b' := b[..|b| - 1];
      assert (a + b)[..|a + b| - 1] == a + b';
      ParCountsAppend(a, b');
    } else {
      assert a + b == a;
    }
  }

  /** Counting parens one token at a time from the front. */
  lemma ParCountsCons(x: Token, s: seq<Token>)
    ensures LParCount([x] + s) == LParCount(s) + (if x.kind.LPar? then 1 else 0)
    ensures RParCount([x] + s) == RParCount(s) + (if x.kind.RPar? then 1 else 0)
  {
    ParCountsAppend([x], s);
    assert [x][..0] == [];
  }

  /** A sequence without `(` and `)` has both counts zero, and conversely. */
  lemma {:induction false} ParCountsZero(s: seq<Token>)
    ensures LParCount(s) == 0 <==> forall i :: 0 <= i < |s| ==> !s[i].kind.LPar?
    ensures RParCount(s) == 0 <==> forall i :: 0 <= i < |s| ==> !s[i].kind.RPar?
    decreases |s|
  {
    if |s| > 0 {
      ParCountsZero(s[..|s| - 1]);
    }
  }

  // ---------------------------------------------------------------------------
  // The texts of a token (`value` and `to_string`)

  /** A UTF-8 continuation byte. */
  predicate Continuation(b: byte)
  {
    0x80 <= b <= 0xBF
  }

  /** The second byte allowed after a three-byte lead: no overlong form after
      0xE0 and no surrogate after 0xED. */
  predicate SecondOfThree(lead: byte, b: byte)
  {
    if lead == 0xE0 then 0xA0 <= b <= 0xBF
    else if lead == 0xED then 0x80 <= b <= 0x9F
    else Continuation(b)
  }

  /** The second byte allowed after a four-byte lead: no overlong form after
      0xF0 and nothing beyond U+10FFFF after 0xF4. */
  predicate SecondOfFour(lead: byte, b: byte)
  {
    if lead == 0xF0 then 0x90 <= b <= 0xBF
    else if lead == 0xF4 then 0x80 <= b <= 0x8F
    else Continuation(b)
  }

  /** Well-formed UTF-8 as section 4 of RFC 3629 defines it, which is what
      `String::from_utf8` accepts. */
  predicate Utf8(b: seq<byte>)
    decreases |b|
  {
    if |b| == 0 then true
    else if b[0] < 0x80 then Utf8(b[1..])
    else if 0xC2 <= b[0] <= 0xDF then
      2 <= |b| && Continuation(b[1]) && Utf8(b[2..])
    else if 0xE0 <= b[0] <= 0xEF then
      3 <= |b| && SecondOfThree(b[0], b[1]) && Continuation(b[2]) && Utf8(b[3..])
    else if 0xF0 <= b[0] <= 0xF4 then
      4 <= |b| && SecondOfFour(b[0], b[1]) && Continuation(b[2]) && Continuation(b[3]) && Utf8(b[4..])
    else false
  }

  /** ASCII bytes, such as every identifier the tokeniser reads, are UTF-8. */
  lemma {:induction false} AsciiUtf8(b: seq<byte>)
    requires forall i :: 0 <= i < |b| ==> b[i] < 0x80
    ensures Utf8(b)
    decreases |b|
  {
    if |b| > 0 {
      AsciiUtf8(b[1..]);
    }
  }

  /** A stray continuation byte, a byte that never occurs, an overlong form and a
      surrogate are rejected; a three-byte character (U+20AC) is accepted. */
  lemma Utf8Examples()
    ensures !Utf8([0x80]) && !Utf8([0xFF]) && !Utf8([0xC0, 0x80]) && !Utf8([0xED, 0xA0, 0x80])
    ensures Utf8([0xE2, 0x82, 0xAC])
  {
    assert [0xE2, 0x82, 0xAC][3..] == [];
  }

  /** Every identifier of `s` is spelled in ASCII. */
  predicate AsciiIdents(s: seq<Token>)
  {
    forall i, k :: 0 <= i < |s| && s[i].kind.Ident? && 0 <= k < |s[i].kind.name| ==> s[i].kind.name[k] < 0x80
  }

  lemma AsciiIdentsAppend(a: seq<Token>, b: seq<Token>)
    requires AsciiIdents(a) && AsciiIdents(b)
    ensures AsciiIdents(a + b)
  {
    forall i | 0 <= i < |a + b|
      ensures (a + b)[i] == if i < |a| then a[i] else b[i - |a|]
    {
    }
  }

  /** The tokens `value` gives a text to: a number, and an identifier whose bytes
      `String::from_utf8(..).unwrap()` accepts. On anything else it panics. */
  predicate HasValue(t: Token)
  {
    t.kind.Num? || (t.kind.Ident? && Utf8(t.kind.name))
  }
}
