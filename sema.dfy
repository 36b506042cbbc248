/** The two semantic checks of src/sema.rs: `sema_infix` on the token sequence
    as written, and `sema_rpn` on the postfix sequence `to_rpn` produces. */
module Sema {
  import opened Wrappers
  import opened Tokens

  // ---------------------------------------------------------------------------
  // sema_infix

  /** The neighbour rule at position `i`: an operand must be last or be followed
      by neither an operand nor a paren (rule 1); an operator must not be last
      and must not be followed by an operator (rule 2); anything else (parens,
      `Invalid`, `End`) is never checked. */
  predicate AdjacentOk(s: seq<Token>, i: nat)
    requires i < |s|
  {
    if IsOperand(s[i]) then i + 1 == |s| || !(IsOperand(s[i + 1]) || IsParen(s[i + 1]))
    else if IsOperator(s[i]) then i + 1 < |s| && !IsOperator(s[i + 1])
    else true
  }

  /** What `sema_infix` accepts: as many `(` as `)` (rule 3), and the neighbour
      rule at every position. */
  predicate InfixOk(s: seq<Token>)
  {
    && LParCount(s) == RParCount(s)
    && forall i :: 0 <= i < |s| ==> AdjacentOk(s, i)
  }

  /** Where `sema_infix` panics instead of answering: the counts agree, and the
      first position that breaks the neighbour rule is an operand followed by an
      operand or a paren whose diagnostic asks for its `value`, and it has none
      (an identifier that is not UTF-8). The operator diagnostics use
      `to_string`, which has a text for every operator. */
  predicate InfixPanics(s: seq<Token>)
  {
    && LParCount(s) == RParCount(s)
    && exists i :: 0 <= i < |s| && IsOperand(s[i]) && !HasValue(s[i]) && !AdjacentOk(s, i)
                   && forall j :: 0 <= j < i ==> AdjacentOk(s, j)
  }

  /** `sema_infix`: first count the parens, then walk the tokens with an index. */
  method SemaInfix(expr: seq<Token>) returns (ok: bool)
    requires !InfixPanics(expr)
    ensures ok == InfixOk(expr)
  {
    var lpars, rpars := 0, 0;
    for i := 0 to |expr|
      invariant lpars == LParCount(expr[..i]) && rpars == RParCount(expr[..i])
    {
      assert expr[..i + 1][..i] == expr[..i];
      if expr[i].kind.LPar? {
        lpars := lpars + 1;
      } else if expr[i].kind.RPar? {
        rpars := rpars + 1;
      }
    }
    assert expr[..|expr|] == expr;
    if lpars != rpars {
      return false;
    }
    var idx := 0;
    while idx < |expr|
      invariant idx <= |expr|
      invariant forall j :: 0 <= j < idx ==> AdjacentOk(expr, j)
    {
      var atom := expr[idx];
      if IsOperand(atom) {
        if idx + 1 >= |expr| {
          // the last token of the expression
          break;
        }
        var next := expr[idx + 1];
        if IsOperand(next) || IsParen(next) {
          assert !AdjacentOk(expr, idx);
          return false;
        }
      } else if IsOperator(atom) {
        if idx + 1 >= |expr| {
          assert !AdjacentOk(expr, idx);
          return false;
        }
        if IsOperator(expr[idx + 1]) {
          assert !AdjacentOk(expr, idx);
          return false;
        }
      }
      idx := idx + 1;
    }
    return true;
  }

  /** The paren-free shape the neighbour rule describes, as a grammar:
      an optional operand, then any number of operator-operand pairs. */
  predicate InfixShape(s: seq<Token>)
    decreases |s|
  {
    if |s| == 0 then true
    else if |s| == 1 then IsOperand(s[0])
    else IsOperator(s[|s| - 2]) && IsOperand(s[|s| - 1]) && InfixShape(s[..|s| - 2])
  }

  /** No paren occurs in `s`, and every token is an operand or an operator. */
  predicate Flat(s: seq<Token>)
  {
    forall i :: 0 <= i < |s| ==> IsOperand(s[i]) || IsOperator(s[i])
  }

  /** Dropping the last two tokens keeps the neighbour rule when what is left
      ends in an operand, or is empty. */
  lemma AdjacentPrefix(s: seq<Token>, m: nat)
    requires m <= |s| && (forall i :: 0 <= i < |s| ==> AdjacentOk(s, i))
    requires m == 0 || IsOperand(s[m - 1])
    requires m < |s| ==> IsOperator(s[m])
    ensures forall i :: 0 <= i < m ==> AdjacentOk(s[..m], i)
  {
    forall i | 0 <= i < m
      ensures AdjacentOk(s[..m], i)
    {
      assert AdjacentOk(s, i);
      if i + 1 < m {
        assert s[..m][i + 1] == s[i + 1];
      }
    }
  }

  /** On tokens that are all operands or operators, the neighbour rule holds
      exactly for the sequences of the grammar. */
  lemma {:induction false} InfixShapeIff(s: seq<Token>)
    requires Flat(s)
    ensures (forall i :: 0 <= i < |s| ==> AdjacentOk(s, i)) <==> InfixShape(s)
    decreases |s|
  {
    var n := |s|;
    if n == 1 {
      assert AdjacentOk(s, 0) <==> IsOperand(s[0]);
    } else if n >= 2 {
      var t := s[..n - 2];
      assert Flat(t) by {
        assert forall i :: 0 <= i < n - 2 ==> t[i] == s[i];
      }
      InfixShapeIff(t);
      if forall i :: 0 <= i < n ==> AdjacentOk(s, i) {
        // an operator cannot be last, so the last two are an operator and an operand
        assert AdjacentOk(s, n - 1) && AdjacentOk(s, n - 2);
        if n > 2 {
          assert AdjacentOk(s, n - 3);
        }
        AdjacentPrefix(s, n - 2);
      }
      if InfixShape(s) {
        forall i | 0 <= i < n
          ensures AdjacentOk(s, i)
        {
          if i < n - 3 {
            assert AdjacentOk(t, i) && t[i] == s[i] && t[i + 1] == s[i + 1];
          } else if i == n - 3 {
            ShapeEndsInOperand(t);
          }
        }
      }
    }
  }

  /** A non-empty sequence of the grammar ends in an operand. */
  lemma ShapeEndsInOperand(s: seq<Token>)
    requires |s| > 0 && InfixShape(s)
    ensures IsOperand(s[|s| - 1])
  {
  }

  /** On tokens that are all operands or operators, `sema_infix` accepts exactly
      the grammar `[operand] (operator operand)*`. */
  lemma InfixFlat(s: seq<Token>)
    requires Flat(s)
    ensures InfixOk(s) <==> InfixShape(s)
  {
    InfixShapeIff(s);
    ParCountsZero(s);
  }

  // ---------------------------------------------------------------------------
  // sema_rpn

  /** The match arm `_` of `sema_rpn`: everything that is neither an operand nor
      a paren is run as a binary operator (`End` and `Invalid` too, as long as
      two values are there; see `RpnPanics`). */
  predicate ActsAsOperator(t: Token)
  {
    !IsOperand(t) && !IsParen(t)
  }

  /** How a token changes the depth of the virtual stack: an operand pushes one
      value, an operator pops two and pushes one. */
  function Delta(t: Token): int
  {
    if IsOperand(t) then 1 else if IsParen(t) then 0 else -1
  }

  /** The depth of the virtual stack after `s`, had nothing failed: operands
      minus operators. */
  function Depth(s: seq<Token>): int
  {
    if |s| == 0 then 0 else Depth(s[..|s| - 1]) + Delta(s[|s| - 1])
  }

  /** From depth `d`, `s` has no paren and never runs an operator on fewer than
      two values. */
  predicate Fits(d: int, s: seq<Token>)
  {
    && (forall i :: 0 <= i < |s| ==> !IsParen(s[i]))
    && (forall i :: 0 <= i < |s| && ActsAsOperator(s[i]) ==> d + Depth(s[..i]) >= 2)
  }

  /** What `sema_rpn` accepts: from an empty stack no paren and no underflow
      (rule 2), and exactly one value at the end (rule 1). */
  predicate RpnOk(s: seq<Token>)
  {
    Fits(0, s) && Depth(s) == 1
  }

  /** Where `sema_rpn` panics instead of answering: the run reaches, with fewer
      than two values, a token of the `_` arm that is not an operator (`End` or
      `Invalid`), and the diagnostic's `to_string` has no text for it. */
  predicate RpnPanics(s: seq<Token>)
  {
    exists i :: 0 <= i < |s| && ActsAsOperator(s[i]) && !IsOperator(s[i])
                && Fits(0, s[..i]) && Depth(s[..i]) < 2
  }

  /** `sema_rpn`, with the virtual stack of dummy values kept as its length. */
  method SemaRpn(expr: seq<Token>) returns (ok: bool)
    requires !RpnPanics(expr)
    ensures ok == RpnOk(expr)
  {
    var depth: nat := 0;
    for i := 0 to |expr|
      invariant depth == Depth(expr[..i])
      invariant forall j :: 0 <= j < i ==> !IsParen(expr[j])
      invariant forall j :: 0 <= j < i && ActsAsOperator(expr[j]) ==> Depth(expr[..j]) >= 2
    {
      assert expr[..i + 1][..i] == expr[..i];
      var e := expr[i];
      if IsOperand(e) {
        depth := depth + 1;
      } else if e.kind.LPar? {
        return false;
      } else if e.kind.RPar? {
        return false;
      } else {
        if depth == 0 {
          // the operator has no operands
          return false;
        }
        if depth == 1 {
          // the operator has one operand
          return false;
        }
        depth := depth - 1;
      }
    }
    assert expr[..|expr|] == expr;
    if depth != 1 {
      return false;
    }
    return true;
  }

  lemma {:induction false} DepthAppend(a: seq<Token>, b: seq<Token>)
    ensures Depth(a + b) == Depth(a) + Depth(b)
    decreases |b|
  {
    if |b| == 0 {
      assert a + b == a;
    } else {
      var b' := b[..|b| - 1];
      assert (a + b)[..|a + b| - 1] == a + b';
      DepthAppend(a, b');
    }
  }

  /** `Fits` one token at a time. */
  lemma FitsCons(d: int, s: seq<Token>)
    requires |s| > 0
    ensures Fits(d, s) <==>
              && !IsParen(s[0])
              && (ActsAsOperator(s[0]) ==> d >= 2)
              && Fits(d + Delta(s[0]), s[1..])
  {
    var x, t := s[0], s[1..];
    assert s[..0] == [];
    forall i | 0 <= i < |t|
      ensures d + Depth(s[..i + 1]) == d + Delta(x) + Depth(t[..i])
    {
      assert s[..i + 1] == [x] + t[..i];
      DepthAppend([x], t[..i]);
      assert [x][..0] == [];
    }
    if Fits(d, s) {
      forall i | 0 <= i < |t| && ActsAsOperator(t[i])
        ensures d + Delta(x) + Depth(t[..i]) >= 2
      {
        assert s[i + 1] == t[i];
      }
    }
    if !IsParen(x) && (ActsAsOperator(x) ==> d >= 2) && Fits(d + Delta(x), t) {
      forall i | 0 <= i < |s| && ActsAsOperator(s[i])
        ensures d + Depth(s[..i]) >= 2
      {
        if i > 0 {
          assert s[i] == t[i - 1];
        }
      }
    }
  }

  // ---------------------------------------------------------------------------
  // What an accepted postfix sequence is

  /** A binary expression tree over the tokens. */
  datatype Expr = Atom(t: Token) | Apply(op: Token, lhs: Expr, rhs: Expr)

  /** Operands at the leaves, tokens `sema_rpn` runs as operators at the nodes. */
  predicate WellFormed(e: Expr)
  {
    match e
    case Atom(t) => IsOperand(t)
    case Apply(op, l, r) => ActsAsOperator(op) && WellFormed(l) && WellFormed(r)
  }

  /** The postfix form of a tree. */
  function Postfix(e: Expr): seq<Token>
  {
    match e
    case Atom(t) => [t]
    case Apply(op, l, r) => Postfix(l) + Postfix(r) + [op]
  }

  /** The postfix forms of a stack of trees, bottom first. */
  function Flatten(st: seq<Expr>): seq<Token>
  {
    if |st| == 0 then [] else Flatten(st[..|st| - 1]) + Postfix(st[|st| - 1])
  }

  predicate AllWellFormed(st: seq<Expr>)
  {
    forall i :: 0 <= i < |st| ==> WellFormed(st[i])
  }

  /** Running `s` on a stack of trees rather than of dummies: an operand pushes
      a leaf, an operator pops its right then its left operand and pushes the
      node; `None` where `sema_rpn` returns false inside its loop. */
  function Reduce(st: seq<Expr>, s: seq<Token>): Option<seq<Expr>>
    decreases |s|
  {
    if |s| == 0 then Some(st)
    else if IsOperand(s[0]) then Reduce(st + [Atom(s[0])], s[1..])
    else if IsParen(s[0]) || |st| < 2 then None
    else Reduce(st[..|st| - 2] + [Apply(s[0], st[|st| - 2], st[|st| - 1])], s[1..])
  }

  /** Pushing a tree. */
  lemma PushTree(st: seq<Expr>, e: Expr)
    requires AllWellFormed(st) && WellFormed(e)
    ensures AllWellFormed(st + [e])
    ensures Flatten(st + [e]) == Flatten(st) + Postfix(e)
  {
    assert (st + [e])[..|st|] == st;
  }

  /** Replacing the top two trees by the node that applies `x` to them. */
  lemma ApplyTop(st: seq<Expr>, x: Token)
    requires AllWellFormed(st) && ActsAsOperator(x) && |st| >= 2
    ensures var n := |st|;
            var st' := st[..n - 2] + [Apply(x, st[n - 2], st[n - 1])];
            AllWellFormed(st') && Flatten(st') == Flatten(st) + [x]
  {
    var n := |st|;
    var below, a, b := st[..n - 2], st[n - 2], st[n - 1];
    assert AllWellFormed(below) by {
      assert forall i :: 0 <= i < n - 2 ==> below[i] == st[i];
    }
    PushTree(below, Apply(x, a, b));
    assert st[..n - 1][..n - 2] == below;
    assert Flatten(st) == Flatten(below) + Postfix(a) + Postfix(b);
  }

  /** The tree stack runs exactly when the counter does. */
  lemma {:induction false} ReduceRuns(st: seq<Expr>, s: seq<Token>)
    ensures Reduce(st, s).Some? <==> Fits(|st|, s)
    decreases |s|
  {
    if |s| > 0 {
      var x, t := s[0], s[1..];
      FitsCons(|st|, s);
      if IsOperand(x) {
        var st' := st + [Atom(x)];
        assert Reduce(st, s) == Reduce(st', t);
        ReduceRuns(st', t);
      } else if !IsParen(x) && |st| >= 2 {
        var n := |st|;
        var st' := st[..n - 2] + [Apply(x, st[n - 2], st[n - 1])];
        assert Reduce(st, s) == Reduce(st', t);
        ReduceRuns(st', t);
      } else {
        assert Reduce(st, s) == None;
      }
    }
  }

  /** A run of the tree stack ends as deep as the counter. */
  lemma {:induction false} ReduceDepth(st: seq<Expr>, s: seq<Token>)
    requires Reduce(st, s).Some?
    ensures |Reduce(st, s).value| == |st| + Depth(s)
    decreases |s|
  {
    if |s| > 0 {
      var x, t := s[0], s[1..];
      DepthAppend([x], t);
      assert [x] + t == s && [x][..0] == [];
      if IsOperand(x) {
        var st' := st + [Atom(x)];
        assert Reduce(st, s) == Reduce(st', t);
        ReduceDepth(st', t);
      } else {
        var n := |st|;
        var st' := st[..n - 2] + [Apply(x, st[n - 2], st[n - 1])];
        assert Reduce(st, s) == Reduce(st', t);
        ReduceDepth(st', t);
      }
    }
  }

  /** A run of the tree stack keeps the trees well formed and spells out what it
      has read. */
  lemma {:induction false} ReduceResult(st: seq<Expr>, s: seq<Token>)
    requires AllWellFormed(st) && Reduce(st, s).Some?
    ensures AllWellFormed(Reduce(st, s).value)
    ensures Flatten(Reduce(st, s).value) == Flatten(st) + s
    decreases |s|
  {
    if |s| == 0 {
      assert Flatten(st) + s == Flatten(st);
    } else {
      var x, t := s[0], s[1..];
      assert Flatten(st) + s == Flatten(st) + [x] + t;
      if IsOperand(x) {
        var st' := st + [Atom(x)];
        assert Reduce(st, s) == Reduce(st', t);
        PushTree(st, Atom(x));
        ReduceResult(st', t);
      } else {
        var n := |st|;
        var st' := st[..n - 2] + [Apply(x, st[n - 2], st[n - 1])];
        assert Reduce(st, s) == Reduce(st', t);
        ApplyTop(st, x);
        ReduceResult(st', t);
      }
    }
  }

  /** Reading the postfix form of a well-formed tree pushes that tree. */
  lemma {:induction false} ReducePostfix(st: seq<Expr>, e: Expr, rest: seq<Token>)
    requires WellFormed(e)
    ensures Reduce(st, Postfix(e) + rest) == Reduce(st + [e], rest)
    decreases e
  {
    match e
    case Atom(t) =>
      assert ([t] + rest)[1..] == rest;
    case Apply(op, l, r) =>
      var pl, pr := Postfix(l), Postfix(r);
      assert Postfix(e) + rest == pl + (pr + ([op] + rest));
      ReducePostfix(st, l, pr + ([op] + rest));
      ReducePostfix(st + [l], r, [op] + rest);
      var st2 := st + [l] + [r];
      assert st2[..|st2| - 2] == st && st2[|st2| - 2] == l && st2[|st2| - 1] == r;
      assert ([op] + rest)[0] == op && ([op] + rest)[1..] == rest;
  }

  /** `sema_rpn` accepts exactly the postfix forms of well-formed expression
      trees: a sequence of operands and operators that denotes one expression. */
  lemma RpnMeaning(s: seq<Token>)
    ensures RpnOk(s) <==> exists e :: WellFormed(e) && Postfix(e) == s
  {
    if RpnOk(s) {
      var e := RpnTree(s);
    }
    if e :| WellFormed(e) && Postfix(e) == s {
      TreeRpnOk(e);
    }
  }

  /** An accepted sequence is the postfix form of the one tree it reduces to. */
  lemma RpnTree(s: seq<Token>) returns (e: Expr)
    requires RpnOk(s)
    ensures WellFormed(e) && Postfix(e) == s
  {
    ReduceRuns([], s);
    ReduceDepth([], s);
    ReduceResult([], s);
    var r := Reduce([], s).value;
    assert |r| == 1 && WellFormed(r[0]);
    assert Flatten(r) == Postfix(r[0]) by {
      assert r[..0] == [];
    }
    assert [] + s == s;
    e := r[0];
  }

  /** The postfix form of a well-formed tree is accepted. */
  lemma TreeRpnOk(e: Expr)
    requires WellFormed(e)
    ensures RpnOk(Postfix(e))
  {
    var s := Postfix(e);
    ReducePostfix([], e, []);
    assert Postfix(e) + [] == s;
    ReduceRuns([], s);
    ReduceDepth([], s);
    assert [] + [e] == [e];
    assert |[e]| == 0 + Depth(s);
  }

  /** Neither check panics on what `collect` produces: tokens without `Invalid`
      and `End` whose identifiers are ASCII. */
  lemma NoPanicOnLexed(s: seq<Token>)
    requires Lexed(s) && AsciiIdents(s)
    ensures !InfixPanics(s) && !RpnPanics(s)
  {
    forall i | 0 <= i < |s| && s[i].kind.Ident?
      ensures HasValue(s[i])
    {
      AsciiUtf8(s[i].kind.name);
    }
  }

  /** `sema_infix` panics on the identifier 0xFF followed by a number. */
  lemma InfixPanicExample(id: Token, n: Token)
    requires id.kind == Ident([0xFF]) && n.kind.Num?
    ensures InfixPanics([id, n])
  {
    assert !Utf8([0xFF]);
    ParCountsZero([id, n]);
    assert !AdjacentOk([id, n], 0);
  }

  /** `sema_rpn` panics on `End`, on `Invalid` and on `1 End`, but runs `1 1 End`
      with `End` as a binary operator and accepts it. */
  lemma RpnPanicExamples(n: Token, e: Token, inv: Token)
    requires n.kind.Num? && e.kind.End? && inv.kind.Invalid?
    ensures RpnPanics([e]) && RpnPanics([inv]) && RpnPanics([n, e])
    ensures !RpnPanics([n, n, e]) && RpnOk([n, n, e])
  {
    assert [e][..0] == [] && [inv][..0] == [];
    assert [n, e][..1] == [n] && [n][..0] == [];
    var s := [n, n, e];
    FitsCons(0, s);
    assert s[1..] == [n, e] && [n, e][1..] == [e];
    FitsCons(1, [n, e]);
    FitsCons(2, [e]);
    DepthAppend([n, n], [e]);
    assert [n, n] + [e] == s;
    assert [n, n][..1] == [n] && [e][..0] == [];
  }

  // ---------------------------------------------------------------------------
  // Examples (at any line and column)

  /** Rule 1: `9 9 +`, `1 + 2 3 -` and `6 7 + 8 9` are rejected. */
  lemma ExamplesRule1(n1: Token, n2: Token, n3: Token, n4: Token, op1: Token, op2: Token)
    requires n1.kind.Num? && n2.kind.Num? && n3.kind.Num? && n4.kind.Num?
    requires op1.kind.Add? && op2.kind.Sub?
    ensures !InfixOk([n1, n2, op1])
    ensures !InfixOk([n1, op1, n2, n3, op2])
    ensures !InfixOk([n1, n2, op1, n3, n4])
  {
    assert !AdjacentOk([n1, n2, op1], 0);
    assert !AdjacentOk([n1, op1, n2, n3, op2], 2);
    assert !AdjacentOk([n1, n2, op1, n3, n4], 0);
  }

  /** Rule 2: `1 + - 9`, `2 - - 9` and `1 * & 8` are rejected. */
  lemma ExamplesRule2(n1: Token, n2: Token, add: Token, sub: Token, mul: Token, and: Token)
    requires n1.kind.Num? && n2.kind.Num?
    requires add.kind.Add? && sub.kind.Sub? && mul.kind.Mul? && and.kind.And?
    ensures !InfixOk([n1, add, sub, n2])
    ensures !InfixOk([n1, sub, sub, n2])
    ensures !InfixOk([n1, mul, and, n2])
  {
    assert !AdjacentOk([n1, add, sub, n2], 1);
    assert !AdjacentOk([n1, sub, sub, n2], 1);
    assert !AdjacentOk([n1, mul, and, n2], 1);
  }

  /** Rule 3: `((((1 + 2))` and `1 + 3 (( 8 + 9)` are rejected. */
  lemma ExamplesRule3(l: Token, r: Token, n1: Token, n2: Token, n3: Token, add: Token)
    requires l.kind.LPar? && r.kind.RPar? && n1.kind.Num? && n2.kind.Num? && n3.kind.Num? && add.kind.Add?
    ensures !InfixOk([l, l, l, l, n1, add, n2, r, r])
    ensures !InfixOk([n1, add, n2, l, l, n3, add, n3, r])
  {
    var e: seq<Token> := [];
    var r1 := [r] + e;
    var r2 := [r] + r1;
    ParCountsCons(r, e);
    ParCountsCons(r, r1);
    var v := [n1, add, n2];
    ParCountsZero(v);
    ParCountsAppend(v, r2);
    var t := v + r2;
    var t1 := [l] + t;
    var t2 := [l] + t1;
    var t3 := [l] + t2;
    var t4 := [l] + t3;
    ParCountsCons(l, t);
    ParCountsCons(l, t1);
    ParCountsCons(l, t2);
    ParCountsCons(l, t3);
    assert t4 == [l, l, l, l, n1, add, n2, r, r];
    var w := [n3, add, n3];
    ParCountsZero(w);
    ParCountsAppend(w, r1);
    var u := w + r1;
    var u1 := [l] + u;
    var u2 := [l] + u1;
    ParCountsCons(l, u);
    ParCountsCons(l, u1);
    ParCountsAppend(v, u2);
    assert v + u2 == [n1, add, n2, l, l, n3, add, n3, r];
  }

  /** The empty sequence is accepted, `1 + 2 * 3` is accepted, and `(1 + 2) * 3`
      is rejected: an operand may not be followed by `)`. */
  lemma ExamplesInfix(l: Token, r: Token, n1: Token, n2: Token, n3: Token, add: Token, mul: Token)
    requires l.kind.LPar? && r.kind.RPar? && n1.kind.Num? && n2.kind.Num? && n3.kind.Num?
    requires add.kind.Add? && mul.kind.Mul?
    ensures InfixOk([])
    ensures InfixOk([n1, add, n2, mul, n3])
    ensures !InfixOk([l, n1, add, n2, r, mul, n3])
  {
    var s := [n1, add, n2, mul, n3];
    assert Flat(s);
    assert InfixShape(s) by {
      assert s[..3] == [n1, add, n2] && s[..3][..1] == [n1];
    }
    InfixFlat(s);
    assert !AdjacentOk([l, n1, add, n2, r, mul, n3], 3);
  }

  /** `1 2 +` is accepted; `1 2`, `+` and the empty sequence are rejected. */
  lemma ExamplesRpn(n1: Token, n2: Token, add: Token)
    requires n1.kind.Num? && n2.kind.Num? && add.kind.Add?
    ensures RpnOk([n1, n2, add])
    ensures !RpnOk([n1, n2]) && !RpnOk([add]) && !RpnOk([])
  {
    var s := [n1, n2, add];
    FitsCons(0, s);
    assert s[1..] == [n2, add] && [n2, add][1..] == [add];
    FitsCons(1, [n2, add]);
    FitsCons(2, [add]);
    DepthAppend([n1, n2], [add]);
    assert [n1, n2] + [add] == s;
    assert [n1, n2][..1] == [n1] && [add][..0] == [] && [n1][..0] == [];
  }
}
