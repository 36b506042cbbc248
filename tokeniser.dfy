/** The position-tracking tokeniser (the `Tokeniser` struct of src/tokeniser.rs).
    The pure functions here say what one call of `tokenise` and a whole
    `collect` produce from the bytes and the current position; the class
    methods are proved to do exactly that. */
module Tokenisers {
  import opened Wrappers
  import opened Utils
  import opened Tokens
  import opened ROBuffers

  /** Where the tokeniser stands: the cursor's offset and the line/column counters. */
  datatype Pos = Pos(offset: nat, line: nat, column: nat)

  /** One token and the position after producing it. */
  datatype Scan = Scan(tok: Token, next: Pos)

  /** A whole `collect`: the tokens or the first `Invalid` one, and the final position. */
  datatype Lexing = Lexing(result: Result<seq<Token>, Token>, next: Pos)

  /** The two kinds of run the tokeniser reads: digits for `get_num`,
      alphanumerics for `get_ident`. */
  datatype RunKind = Digits | Alnums

  predicate InRun(c: byte, kind: RunKind)
  {
    match kind
    case Digits => IsDigit(c)
    case Alnums => IsAlnum(c)
  }

  /** The length of the maximal run of `kind` bytes that starts at `off`. */
  function RunLength(s: seq<byte>, off: nat, kind: RunKind): (k: nat)
    requires off <= |s|
    ensures off + k <= |s|
    ensures forall j :: off <= j < off + k ==> InRun(s[j], kind)
    ensures off + k < |s| ==> !InRun(s[off + k], kind)
    decreases |s| - off
  {
    if off == |s| || !InRun(s[off], kind) then 0 else 1 + RunLength(s, off + 1, kind)
  }

  /** A run is determined by its two defining facts. */
  lemma {:induction false} RunLengthUnique(s: seq<byte>, off: nat, kind: RunKind, k: nat)
    requires off + k <= |s|
    requires forall j :: off <= j < off + k ==> InRun(s[j], kind)
    requires off + k == |s| || !InRun(s[off + k], kind)
    ensures RunLength(s, off, kind) == k
    decreases k
  {
    if k > 0 {
      RunLengthUnique(s, off + 1, kind, k - 1);
    }
  }

  /** A run that starts on a byte of its kind is not empty. */
  lemma RunStarts(s: seq<byte>, off: nat, kind: RunKind)
    requires off < |s| && InRun(s[off], kind)
    ensures RunLength(s, off, kind) >= 1
  {
  }

  function Pow10(k: nat): (r: nat)
    ensures r >= 1
  {
    if k == 0 then 1 else 10 * Pow10(k - 1)
  }

  /** The number the bytes `s[lo..hi]` denote, accumulated as `get_num` does:
      multiply by ten, add the byte's distance from `'0'`. */
  function DecimalValue(s: seq<byte>, lo: nat, hi: nat): int
    requires lo <= hi <= |s|
    decreases hi - lo
  {
    if hi == lo then 0 else 10 * DecimalValue(s, lo, hi - 1) + (s[hi - 1] - '0' as int)
  }

  /** A run of `k` digits denotes a number from 0 to `10^k - 1`. */
  lemma {:induction false} DecimalValueBound(s: seq<byte>, lo: nat, hi: nat)
    requires lo <= hi <= |s|
    requires forall j :: lo <= j < hi ==> IsDigit(s[j])
    ensures 0 <= DecimalValue(s, lo, hi) < Pow10(hi - lo)
    decreases hi - lo
  {
    if hi > lo {
      DecimalValueBound(s, lo, hi - 1);
      assert DecimalValue(s, lo, hi) == 10 * DecimalValue(s, lo, hi - 1) + DigitValue(s[hi - 1]);
      assert Pow10(hi - lo) == 10 * Pow10(hi - 1 - lo);
    }
  }

  /** Positional notation: the digits before `mid` are worth `10^(hi - mid)` times
      more than those after it. */
  lemma {:induction false} DecimalValueSplit(s: seq<byte>, lo: nat, mid: nat, hi: nat)
    requires lo <= mid <= hi <= |s|
    ensures DecimalValue(s, lo, hi) == DecimalValue(s, lo, mid) * Pow10(hi - mid) + DecimalValue(s, mid, hi)
    decreases hi - mid
  {
    if hi > mid {
      DecimalValueSplit(s, lo, mid, hi - 1);
      var d := s[hi - 1] - '0' as int;
      assert DecimalValue(s, lo, hi) == 10 * DecimalValue(s, lo, hi - 1) + d;
      assert DecimalValue(s, mid, hi) == 10 * DecimalValue(s, mid, hi - 1) + d;
      assert Pow10(hi - mid) == 10 * Pow10(hi - 1 - mid);
      ShiftDigit(DecimalValue(s, lo, mid), Pow10(hi - 1 - mid), DecimalValue(s, mid, hi - 1), d);
    }
  }

  lemma ShiftDigit(va: int, p: int, vb: int, d: int)
    ensures 10 * (va * p + vb) + d == va * (10 * p) + (10 * vb + d)
  {
  }

  /** The single-byte arms of `tokenise`: operators, parens, and `Invalid` for any other byte. */
  function ByteKind(c: byte): (k: TokenKind)
    ensures !k.Num? && !k.Ident? && !k.End?
  {
    if c == '=' as int then Assign
    else if c == '+' as int then Add
    else if c == '-' as int then Sub
    else if c == '*' as int then Mul
    else if c == '/' as int then Div
    else if c == '(' as int then LPar
    else if c == ')' as int then RPar
    else if c == '%' as int then Mod
    else if c == '|' as int then Or
    else if c == '^' as int then Xor
    else if c == '&' as int then And
    else Invalid(c)
  }

  /** The column `get_num` and `get_ident` leave after a run of `k` bytes that
      began at column `col` and ended at offset `end`: `k - 1` further on when a
      byte follows (the loop read it, took the column step back and rewound), and
      `k` further on when the run reached the end of the input (no rewind). */
  function ColumnAfterGet(s: seq<byte>, end: nat, col: nat, k: nat): nat
    requires k >= 1
  {
    if end == |s| then col + k else col + k - 1
  }

  predicate IsBlank(c: byte)
  {
    IsSpace(c) || c == '\n' as int
  }

  /** The position after the blanks from `p`: each space, tab or CR moves one
      column on, each newline moves to column 1 of the next line. */
  function SkipBlanks(s: seq<byte>, p: Pos): (q: Pos)
    requires p.offset <= |s|
    ensures p.offset <= q.offset <= |s|
    ensures q.offset < |s| ==> !IsBlank(s[q.offset])
    decreases |s| - p.offset
  {
    if p.offset < |s| && IsSpace(s[p.offset]) then SkipBlanks(s, Pos(p.offset + 1, p.line, p.column + 1))
    else if p.offset < |s| && s[p.offset] == '\n' as int then SkipBlanks(s, Pos(p.offset + 1, p.line + 1, 1))
    else p
  }

  /** An identifier made of the `k` bytes at `p`, positioned at its first byte,
      after which the column is one past where `get_ident` leaves it. */
  function IdentScan(s: seq<byte>, p: Pos, k: nat): Scan
    requires 1 <= k && p.offset + k <= |s|
  {
    Scan(Token(Ident(s[p.offset..p.offset + k]), p.line, p.column),
         Pos(p.offset + k, p.line, ColumnAfterGet(s, p.offset + k, p.column, k) + 1))
  }

  /** A number: the decimal value of the `k` digits at `p`, positioned at its
      first digit, after which the column is one past where `get_num` leaves it. */
  function NumScan(s: seq<byte>, p: Pos, k: nat): Scan
    requires 1 <= k && p.offset + k <= |s|
  {
    Scan(Token(Num(DecimalValue(s, p.offset, p.offset + k)), p.line, p.column),
         Pos(p.offset + k, p.line, ColumnAfterGet(s, p.offset + k, p.column, k) + 1))
  }

  /** The token that starts at `p`, once the blanks are skipped: a letter starts
      the maximal alphanumeric run, a digit the maximal digit run. */
  function TokenAt(s: seq<byte>, p: Pos): (r: Scan)
    requires p.offset <= |s|
  {
    if p.offset == |s| then
      Scan(Token(End, p.line, p.column), p)
    else
      var c := s[p.offset];
      if IsLetter(c) then IdentScan(s, p, RunLength(s, p.offset, Alnums))
      else if IsDigit(c) then NumScan(s, p, RunLength(s, p.offset, Digits))
      else Scan(Token(ByteKind(c), p.line, p.column), Pos(p.offset + 1, p.line, p.column + 1))
  }

  /** What one call of `tokenise` yields from position `p`: `End` only with the
      input exhausted, and otherwise a token after which the cursor has moved on. */
  function NextToken(s: seq<byte>, p: Pos): (r: Scan)
    requires p.offset <= |s|
    ensures p.offset <= r.next.offset <= |s|
    ensures r.tok.kind.End? ==> r.next.offset == |s|
    ensures !r.tok.kind.End? ==> r.next.offset > p.offset
  {
    TokenAt(s, SkipBlanks(s, p))
  }

  /** Every token produced from position `p`, up to and including the `End`. */
  function Stream(s: seq<byte>, p: Pos): (ts: seq<Token>)
    requires p.offset <= |s|
    ensures |ts| >= 1 && ts[|ts| - 1].kind.End?
    ensures forall i :: 0 <= i < |ts| - 1 ==> !ts[i].kind.End?
    decreases |s| - p.offset
  {
    var r := NextToken(s, p);
    if r.tok.kind.End? then [r.tok] else [r.tok] + Stream(s, r.next)
  }

  /** `ts` put in front of a successful result. */
  function Prefixed(ts: seq<Token>, l: Lexing): Lexing
  {
    if l.result.Ok? then Lexing(Ok(ts + l.result.value), l.next) else l
  }

  /** What `collect` yields from position `p`: it stops at the first `Invalid` or at `End`. */
  function Collected(s: seq<byte>, p: Pos): (r: Lexing)
    requires p.offset <= |s|
    ensures p.offset <= r.next.offset <= |s|
    ensures r.result.Err? ==> r.result.error.kind.Invalid?
    decreases |s| - p.offset
  {
    var r := NextToken(s, p);
    if r.tok.kind.Invalid? then Lexing(Err(r.tok), r.next)
    else if r.tok.kind.End? then Lexing(Ok([]), r.next)
    else Prefixed([r.tok], Collected(s, r.next))
  }

  /** `tokenise` reads an identifier only from alphanumeric bytes, so it is ASCII. */
  lemma NextTokenAscii(s: seq<byte>, p: Pos)
    requires p.offset <= |s|
    ensures AsciiIdents([NextToken(s, p).tok])
  {
    var q := SkipBlanks(s, p);
    if q.offset < |s| && IsLetter(s[q.offset]) {
      var k := RunLength(s, q.offset, Alnums);
      var name := s[q.offset..q.offset + k];
      forall m | 0 <= m < |name|
        ensures name[m] < 0x80
      {
        assert name[m] == s[q.offset + m];
        assert InRun(s[q.offset + m], Alnums);
      }
    }
  }

  /** Every identifier `collect` returns is ASCII. */
  lemma {:induction false} CollectedAscii(s: seq<byte>, p: Pos)
    requires p.offset <= |s|
    ensures Collected(s, p).result.Ok? ==> AsciiIdents(Collected(s, p).result.value)
    decreases |s| - p.offset
  {
    var r := NextToken(s, p);
    if !r.tok.kind.Invalid? && !r.tok.kind.End? {
      CollectedAscii(s, r.next);
      NextTokenAscii(s, p);
      var l := Collected(s, r.next);
      if l.result.Ok? {
        AsciiIdentsAppend([r.tok], l.result.value);
      }
    }
  }

  /** `tokenise` yields `End` exactly when only spaces, tabs, CRs and newlines remain. */
  lemma {:induction false} EndOnlyAtBlankRest(s: seq<byte>, p: Pos)
    requires p.offset <= |s|
    ensures NextToken(s, p).tok.kind.End? <==> forall j :: p.offset <= j < |s| ==> IsBlank(s[j])
    decreases |s| - p.offset
  {
    if p.offset < |s| {
      var c := s[p.offset];
      if IsSpace(c) {
        EndOnlyAtBlankRest(s, Pos(p.offset + 1, p.line, p.column + 1));
      } else if c == '\n' as int {
        EndOnlyAtBlankRest(s, Pos(p.offset + 1, p.line + 1, 1));
      } else {
        assert SkipBlanks(s, p) == p;
        assert !IsBlank(s[p.offset]);
      }
    }
  }

  /** `ts[i]` is the first `Invalid` token of `ts`. */
  predicate FirstInvalid(ts: seq<Token>, i: nat)
  {
    i < |ts| && ts[i].kind.Invalid? && forall j :: 0 <= j < i ==> !ts[j].kind.Invalid?
  }

  /** When `collect` succeeds it has returned the produced tokens in order,
      without the `End`, and none of them was `Invalid`. */
  lemma {:induction false} CollectedOk(s: seq<byte>, p: Pos)
    requires p.offset <= |s|
    ensures Collected(s, p).result.Ok? ==>
              var ts := Stream(s, p);
              && Collected(s, p).result.value == ts[..|ts| - 1]
              && forall i :: 0 <= i < |ts| ==> !ts[i].kind.Invalid?
    decreases |s| - p.offset
  {
    var r := NextToken(s, p);
    var ts := Stream(s, p);
    if r.tok.kind.End? {
      assert ts == [r.tok];
    } else if !r.tok.kind.Invalid? {
      CollectedOk(s, r.next);
      var rest := Stream(s, r.next);
      assert ts == [r.tok] + rest;
      var l := Collected(s, r.next);
      assert Collected(s, p) == Prefixed([r.tok], l);
      if l.result.Ok? {
        assert ts[..|ts| - 1] == [r.tok] + rest[..|rest| - 1];
        forall i | 0 <= i < |ts| ensures !ts[i].kind.Invalid? {
          if i > 0 { assert ts[i] == rest[i - 1]; }
        }
      }
    }
  }

  /** When `collect` fails, it fails with the first `Invalid` token produced. */
  lemma {:induction false} CollectedErr(s: seq<byte>, p: Pos)
    requires p.offset <= |s|
    ensures Collected(s, p).result.Err? ==>
              exists i: nat :: FirstInvalid(Stream(s, p), i) && Stream(s, p)[i] == Collected(s, p).result.error
    decreases |s| - p.offset
  {
    var r := NextToken(s, p);
    var ts := Stream(s, p);
    if r.tok.kind.Invalid? {
      assert ts[0] == r.tok;
      assert FirstInvalid(ts, 0);
    } else if !r.tok.kind.End? {
      CollectedErr(s, r.next);
      var rest := Stream(s, r.next);
      assert ts == [r.tok] + rest;
      var l := Collected(s, r.next);
      assert Collected(s, p) == Prefixed([r.tok], l);
      if l.result.Err? {
        var i: nat :| FirstInvalid(rest, i) && rest[i] == l.result.error;
        assert ts[i + 1] == rest[i];
        assert FirstInvalid(ts, i + 1);
      }
    }
  }

  /** `collect` fails exactly when an `Invalid` token is produced before `End`, and
      it fails with the first one; otherwise it returns the produced tokens in order,
      without the `End`, and none of them is `Invalid` or `End`. */
  lemma CollectedIsStream(s: seq<byte>, p: Pos)
    requires p.offset <= |s|
    ensures Collected(s, p).result.Ok? <==> forall i :: 0 <= i < |Stream(s, p)| ==> !Stream(s, p)[i].kind.Invalid?
    ensures Collected(s, p).result.Ok? ==>
              var ts := Stream(s, p); Collected(s, p).result.value == ts[..|ts| - 1]
    ensures Collected(s, p).result.Ok? ==> Lexed(Collected(s, p).result.value)
    ensures Collected(s, p).result.Err? ==>
              exists i: nat :: FirstInvalid(Stream(s, p), i) && Stream(s, p)[i] == Collected(s, p).result.error
  {
    CollectedOk(s, p);
    CollectedErr(s, p);
    var ts := Stream(s, p);
    if Collected(s, p).result.Err? {
      var i: nat :| FirstInvalid(ts, i) && ts[i] == Collected(s, p).result.error;
    } else {
      var vs := Collected(s, p).result.value;
      forall i | 0 <= i < |vs| ensures IsLexeme(vs[i]) {
        assert vs[i] == ts[i];
      }
    }
  }

  /** Skipping blanks from a byte that is not blank goes nowhere. */
  lemma NoBlankSkip(s: seq<byte>, p: Pos)
    requires p.offset < |s| && !IsBlank(s[p.offset])
    ensures SkipBlanks(s, p) == p
  {
  }

  /** A blank byte produces no token: the scan goes on one byte later, on the
      next column, or at column 1 of the next line after a newline. */
  lemma SkipBlank(s: seq<byte>, p: Pos)
    requires p.offset < |s| && IsBlank(s[p.offset])
    ensures NextToken(s, p) == NextToken(s, if IsSpace(s[p.offset]) then Pos(p.offset + 1, p.line, p.column + 1)
                                            else Pos(p.offset + 1, p.line + 1, 1))
  {
  }

  /** At the end of the input the next token is `End`, where the cursor stands. */
  lemma NextTokenEnd(s: seq<byte>, p: Pos)
    requires p.offset == |s|
    ensures NextToken(s, p) == Scan(Token(End, p.line, p.column), p)
  {
  }

  /** A letter starts an identifier: the maximal alphanumeric run, byte for byte,
      positioned at its first byte, after which the column is one past where
      `get_ident` leaves it. */
  lemma NextTokenIdent(s: seq<byte>, p: Pos, k: nat)
    requires p.offset < |s| && IsLetter(s[p.offset])
    requires k == RunLength(s, p.offset, Alnums)
    ensures k >= 1
    ensures NextToken(s, p) == Scan(Token(Ident(s[p.offset..p.offset + k]), p.line, p.column),
                                    Pos(p.offset + k, p.line, ColumnAfterGet(s, p.offset + k, p.column, k) + 1))
  {
    NoBlankSkip(s, p);
    RunStarts(s, p.offset, Alnums);
    assert NextToken(s, p) == IdentScan(s, p, k);
  }

  /** A digit starts a number: the decimal value of the maximal digit run,
      positioned at its first digit, after which the column is one past where
      `get_num` leaves it. */
  lemma NextTokenNum(s: seq<byte>, p: Pos, k: nat)
    requires p.offset < |s| && IsDigit(s[p.offset])
    requires k == RunLength(s, p.offset, Digits)
    ensures k >= 1
    ensures NextToken(s, p) == Scan(Token(Num(DecimalValue(s, p.offset, p.offset + k)), p.line, p.column),
                                    Pos(p.offset + k, p.line, ColumnAfterGet(s, p.offset + k, p.column, k) + 1))
  {
    NoBlankSkip(s, p);
    RunStarts(s, p.offset, Digits);
    assert NextToken(s, p) == NumScan(s, p, k);
  }

  /** Any other byte that is not blank is a one-byte token at the current position. */
  lemma NextTokenSingle(s: seq<byte>, p: Pos)
    requires p.offset < |s| && !IsBlank(s[p.offset]) && !IsAlnum(s[p.offset])
    ensures NextToken(s, p) == Scan(Token(ByteKind(s[p.offset]), p.line, p.column), Pos(p.offset + 1, p.line, p.column + 1))
  {
    NoBlankSkip(s, p);
  }

  class Tokeniser {
    const buf: ROBuffer
    var line: nat
    var column: nat

    ghost predicate Valid()
      reads this, buf
    {
      buf.Valid()
    }

    /** The current position. */
    ghost function At(): Pos
      reads this, buf
    {
      Pos(buf.offset, line, column)
    }

    /** `Tokeniser::new`; the `unwrap` on the buffer makes ASCII input the caller's obligation. */
    constructor (expr: string)
      requires IsAscii(expr)
      ensures Valid() && fresh(buf)
      ensures buf.contents == AsciiBytes(expr) && At() == Pos(0, 1, 1)
    {
      var r := ROBuffer.New(expr);
      buf := r.value;
      line := 1;
      column := 1;
    }

    /** `get_num`, entered on a digit: the maximal digit run from the cursor, as a
        number positioned where the run starts. */
    method GetNum() returns (tok: Token)
      requires Valid()
      requires buf.offset < |buf.contents| && IsDigit(buf.contents[buf.offset])
      modifies this`column, buf`offset
      ensures Valid()
      ensures var s, p := buf.contents, old(At());
              var k := RunLength(s, p.offset, Digits);
              && k >= 1
              && tok == Token(Num(DecimalValue(s, p.offset, p.offset + k)), p.line, p.column)
              && buf.offset == p.offset + k
              && column == ColumnAfterGet(s, buf.offset, p.column, k)
    {
      var n := 0;
      var savedCol, savedRow := column, line;
      ghost var s, start := buf.contents, buf.offset;
      while true
        invariant Valid()
        invariant start <= buf.offset
        invariant forall j :: start <= j < buf.offset ==> IsDigit(s[j])
        invariant n == DecimalValue(s, start, buf.offset)
        invariant column == savedCol + (buf.offset - start)
        decreases |s| - buf.offset
      {
        var ch := buf.Next();
        if ch.None? {
          break;
        }
        if !IsDigit(ch.value) {
          column := column - 1;
          buf.Rewind();
          break;
        }
        n := n * 10 + DigitValue(ch.value);
        column := column + 1;
      }
      RunLengthUnique(s, start, Digits, buf.offset - start);
      tok := Token(Num(n), savedRow, savedCol);
    }

    /** `get_ident`, entered on a letter: the maximal alphanumeric run from the
        cursor, byte for byte, positioned where the run starts. */
    method GetIdent() returns (tok: Token)
      requires Valid()
      requires buf.offset < |buf.contents| && IsAlnum(buf.contents[buf.offset])
      modifies this`column, buf`offset
      ensures Valid()
      ensures var s, p := buf.contents, old(At());
              var k := RunLength(s, p.offset, Alnums);
              && k >= 1
              && tok == Token(Ident(s[p.offset..p.offset + k]), p.line, p.column)
              && buf.offset == p.offset + k
              && column == ColumnAfterGet(s, buf.offset, p.column, k)
    {
      var bvec: seq<byte> := [];
      var savedCol, savedRow := column, line;
      ghost var s, start := buf.contents, buf.offset;
      while true
        invariant Valid()
        invariant start <= buf.offset
        invariant bvec == s[start..buf.offset]
        invariant forall j :: start <= j < buf.offset ==> IsAlnum(s[j])
        invariant column == savedCol + (buf.offset - start)
        decreases |s| - buf.offset
      {
        var ch := buf.Next();
        if ch.None? {
          break;
        }
        if !IsAlnum(ch.value) {
          column := column - 1;
          buf.Rewind();
          break;
        }
        bvec := bvec + [ch.value];
        column := column + 1;
      }
      RunLengthUnique(s, start, Alnums, buf.offset - start);
      tok := Token(Ident(bvec), savedRow, savedCol);
    }

    /** The letter arm of `tokenise`: step back onto the letter just read, read
        the identifier with `get_ident`, and step the column past it. */
    method LexIdent(ghost here: Pos) returns (tok: Token)
      requires Valid() && here.offset < |buf.contents| && IsLetter(buf.contents[here.offset])
      requires buf.offset == here.offset + 1 && line == here.line && column == here.column
      modifies this`column, buf`offset
      ensures Valid()
      ensures NextToken(buf.contents, here) == Scan(tok, At())
    {
      ghost var s := buf.contents;
      ghost var k := RunLength(s, here.offset, Alnums);
      NextTokenIdent(s, here, k);
      buf.Rewind();
      tok := GetIdent();
      column := column + 1;
    }

    /** The digit arm of `tokenise`: step back onto the digit just read, read
        the number with `get_num`, and step the column past it. */
    method LexNum(ghost here: Pos) returns (tok: Token)
      requires Valid() && here.offset < |buf.contents| && IsDigit(buf.contents[here.offset])
      requires buf.offset == here.offset + 1 && line == here.line && column == here.column
      modifies this`column, buf`offset
      ensures Valid()
      ensures NextToken(buf.contents, here) == Scan(tok, At())
    {
      ghost var s := buf.contents;
      ghost var k := RunLength(s, here.offset, Digits);
      NextTokenNum(s, here, k);
      buf.Rewind();
      tok := GetNum();
      column := column + 1;
    }

    /** `tokenise`: skips blanks, then yields one token and moves past it. */
    method Tokenise() returns (tok: Token)
      requires Valid()
      modifies this`line, this`column, buf`offset
      ensures Valid()
      ensures NextToken(buf.contents, old(At())) == Scan(tok, At())
    {
      ghost var s, want := buf.contents, NextToken(buf.contents, At());
      while true
        invariant Valid()
        invariant NextToken(s, At()) == want
        decreases |s| - buf.offset
      {
        ghost var here := At();
        var ch := buf.Next();
        if ch.None? {
          NextTokenEnd(s, here);
          break;
        }
        var c := ch.value;
        if IsLetter(c) {
          tok := LexIdent(here);
          return;
        } else if IsDigit(c) {
          tok := LexNum(here);
          return;
        } else if IsSpace(c) {
          column := column + 1;
          SkipBlank(s, here);
          continue;
        } else if c == '\n' as int {
          column := 1;
          line := line + 1;
          SkipBlank(s, here);
          continue;
        }
        tok := Token(ByteKind(c), line, column);
        column := column + 1;
        NextTokenSingle(s, here);
        return;
      }
      tok := Token(End, line, column);
    }

    /** `collect`: tokens up to `End`, or the first `Invalid` one as the error. */
    method Collect() returns (r: Result<seq<Token>, Token>)
      requires Valid()
      modifies this`line, this`column, buf`offset
      ensures Valid()
      ensures Collected(buf.contents, old(At())) == Lexing(r, At())
    {
      var exprs: seq<Token> := [];
      ghost var s, start := buf.contents, At();
      PrefixedNil(Collected(s, start));
      while true
        invariant Valid()
        invariant Collected(s, start) == Prefixed(exprs, Collected(s, At()))
        decreases |s| - buf.offset
      {
        ghost var before := At();
        var t := Tokenise();
        if t.kind.Invalid? {
          return Err(t);
        }
        if t.kind.End? {
          assert Collected(s, before) == Lexing(Ok([]), At());
          assert exprs + [] == exprs;
          break;
        }
        assert Collected(s, before) == Prefixed([t], Collected(s, At()));
        PrefixedTwice(exprs, [t], Collected(s, At()));
        exprs := exprs + [t];
      }
      r := Ok(exprs);
    }
  }

  lemma PrefixedNil(l: Lexing)
    ensures Prefixed([], l) == l
  {
    if l.result.Ok? {
      assert [] + l.result.value == l.result.value;
    }
  }

  lemma PrefixedTwice(a: seq<Token>, b: seq<Token>, l: Lexing)
    ensures Prefixed(a, Prefixed(b, l)) == Prefixed(a + b, l)
  {
    if l.result.Ok? {
      assert a + (b + l.result.value) == (a + b) + l.result.value;
    }
  }

  // ---------------------------------------------------------------------------
  // Examples

  /** The bytes of `12 + 3`. */
  predicate TwelvePlusThree(s: seq<byte>)
  {
    |s| == 6 && s[0] == 0x31 && s[1] == 0x32 && s[2] == 0x20 && s[3] == 0x2B && s[4] == 0x20 && s[5] == 0x33
  }

  lemma TwelveFirst(s: seq<byte>)
    requires TwelvePlusThree(s)
    ensures NextToken(s, Pos(0, 1, 1)) == Scan(Token(Num(12), 1, 1), Pos(2, 1, 3))
  {
    RunLengthUnique(s, 0, Digits, 2);
    NextTokenNum(s, Pos(0, 1, 1), 2);
    assert DecimalValue(s, 0, 2) == 12;
  }

  lemma ThreeLast(s: seq<byte>)
    requires TwelvePlusThree(s)
    ensures Stream(s, Pos(4, 1, 5)) == [Token(Num(3), 1, 6), Token(End, 1, 8)]
  {
    SkipBlank(s, Pos(4, 1, 5));
    RunLengthUnique(s, 5, Digits, 1);
    NextTokenNum(s, Pos(5, 1, 6), 1);
    assert s[5..6] == [0x33];
    NextTokenEnd(s, Pos(6, 1, 8));
    assert Stream(s, Pos(6, 1, 8)) == [Token(End, 1, 8)];
  }

  /** `12 + 3`: `+` at column 4, `3` at column 6; after a number that ends the
      input the column has moved one further than the number's length. */
  lemma ExampleTwelvePlusThree(s: seq<byte>)
    requires TwelvePlusThree(s)
    ensures Stream(s, Pos(0, 1, 1))
            == [Token(Num(12), 1, 1), Token(Add, 1, 4), Token(Num(3), 1, 6), Token(End, 1, 8)]
  {
    TwelveFirst(s);
    SkipBlank(s, Pos(2, 1, 3));
    NextTokenSingle(s, Pos(3, 1, 4));
    assert ByteKind(0x2B) == Add;
    ThreeLast(s);
    var t1 := Stream(s, Pos(3, 1, 4));
    assert t1 == [Token(Add, 1, 4)] + Stream(s, Pos(4, 1, 5));
    assert Stream(s, Pos(2, 1, 3)) == t1;
    assert Stream(s, Pos(0, 1, 1)) == [Token(Num(12), 1, 1)] + t1;
  }

  /** `1 @ 2`: `collect` fails with the `Invalid` token at column 3. */
  lemma ExampleInvalidByte(s: seq<byte>)
    requires |s| == 5 && s[0] == 0x31 && s[1] == 0x20 && s[2] == 0x40 && s[3] == 0x20 && s[4] == 0x32
    ensures Collected(s, Pos(0, 1, 1)).result == Err(Token(Invalid(0x40), 1, 3))
  {
    RunLengthUnique(s, 0, Digits, 1);
    NextTokenNum(s, Pos(0, 1, 1), 1);
    assert s[0..1] == [0x31];
    SkipBlank(s, Pos(1, 1, 2));
    NextTokenSingle(s, Pos(2, 1, 3));
    assert Collected(s, Pos(2, 1, 3)).result == Err(Token(Invalid(0x40), 1, 3));
    assert Collected(s, Pos(0, 1, 1)) == Prefixed([Token(Num(1), 1, 1)], Collected(s, Pos(2, 1, 3)));
  }
}
