/** The shunting-yard conversion of src/expr_parser.rs: `add_operator` and `to_rpn`,
    with the operator stack and the output as sequences whose last element is the
    top (the ends `Vec::push` and `Vec::pop` work on). */
module ExprParser {
  import opened Wrappers
  import opened Tokens

  /** What `add_operator` can compare without reaching `unreachable!()`:
      a `(` (checked first) or a token with a precedence. */
  predicate Stackable(t: Token)
  {
    t.kind.LPar? || HasPrecedence(t)
  }

  /** The precondition `add_operator` needs of any stack it is handed: every
      entry can be compared. `to_rpn` keeps the stronger `OpStack` (no operand is
      ever pushed), which the lemmas about token counts use; `AddOperator` and
      `Step` ask only for this one, as the Rust function does. */
  predicate StackOk(st: seq<Token>)
  {
    forall i :: 0 <= i < |st| ==> Stackable(st[i])
  }

  /** `add_operator` moves `top` to the output before it pushes `op`: `top` is
      not a `(` and binds at least as tightly as `op`. */
  predicate Pops(top: Token, op: Token)
    requires Stackable(top) && HasPrecedence(op)
  {
    !top.kind.LPar? && Precedence(top) >= Precedence(op)
  }

  /** How many entries `add_operator` pops for `op`: the longest run at the top
      of the stack whose every entry `Pops`. */
  function PopCount(st: seq<Token>, op: Token): (k: nat)
    requires StackOk(st) && HasPrecedence(op)
    ensures k <= |st|
    ensures forall i :: |st| - k <= i < |st| ==> Pops(st[i], op)
    ensures k < |st| ==> !Pops(st[|st| - 1 - k], op)
    decreases |st|
  {
    if |st| == 0 || !Pops(st[|st| - 1], op) then 0 else 1 + PopCount(st[..|st| - 1], op)
  }

  /** The run length `PopCount` describes is the only one with its two properties. */
  lemma {:induction false} PopCountUnique(st: seq<Token>, op: Token, k: nat)
    requires StackOk(st) && HasPrecedence(op)
    requires k <= |st|
    requires forall i :: |st| - k <= i < |st| ==> Pops(st[i], op)
    requires k < |st| ==> !Pops(st[|st| - 1 - k], op)
    ensures PopCount(st, op) == k
    decreases |st|
  {
    if k > 0 {
      var front := st[..|st| - 1];
      assert forall i :: |front| - (k - 1) <= i < |front| ==> front[i] == st[i];
      PopCountUnique(front, op, k - 1);
    }
  }

  /** `s` back to front: the order in which a stack's entries are popped. */
  function Reversed(s: seq<Token>): (r: seq<Token>)
    ensures |r| == |s|
  {
    if |s| == 0 then [] else Reversed(s[1..]) + [s[0]]
  }

  /** Popping everything keeps every entry. */
  lemma {:induction false} ReversedMultiset(s: seq<Token>)
    ensures multiset(Reversed(s)) == multiset(s)
    decreases |s|
  {
    if |s| > 0 {
      ReversedMultiset(s[1..]);
      assert s == [s[0]] + s[1..];
    }
  }

  /** The `i`-th entry popped is the `i`-th from the top. */
  lemma {:induction false} ReversedAt(s: seq<Token>, i: nat)
    requires i < |s|
    ensures Reversed(s)[i] == s[|s| - 1 - i]
    decreases |s|
  {
    if i < |s| - 1 {
      ReversedAt(s[1..], i);
    }
  }

  /** The two sequences `to_rpn` works on: what it has emitted and its operator stack. */
  datatype Yard = Yard(output: seq<Token>, stack: seq<Token>)

  /** The effect of `add_operator(stack, output, op)`. */
  function Pushed(y: Yard, op: Token): (r: Yard)
    requires StackOk(y.stack) && HasPrecedence(op)
    ensures |r.stack| > 0 && r.stack[|r.stack| - 1] == op
    ensures y.output <= r.output
    ensures |r.output| + |r.stack| == |y.output| + |y.stack| + 1
  {
    var n, k := |y.stack|, PopCount(y.stack, op);
    Yard(y.output + Reversed(y.stack[n - k..]), y.stack[..n - k] + [op])
  }

  /** What `add_operator` promises: `op` ends on top; the entries it takes off are
      a run of non-`(` entries binding at least as tightly as `op`, and the entry
      left below them (if any) is a `(` or binds less tightly; they are appended
      to the output in pop order; everything below them, and the output so far,
      is unchanged, and the stack stays comparable. */
  lemma PushedMeaning(y: Yard, op: Token)
    requires StackOk(y.stack) && HasPrecedence(op)
    ensures var y', m := Pushed(y, op), |Pushed(y, op).stack| - 1;
            && 0 <= m <= |y.stack|
            && y'.stack == y.stack[..m] + [op]
            && y'.output == y.output + Reversed(y.stack[m..])
            && (forall i :: m <= i < |y.stack| ==> !y.stack[i].kind.LPar? && Precedence(y.stack[i]) >= Precedence(op))
            && (m > 0 ==> y.stack[m - 1].kind.LPar? || Precedence(y.stack[m - 1]) < Precedence(op))
            && StackOk(y'.stack)
  {
  }

  /** `add_operator` loses and invents no token: the output and the stack hold
      together what they held before, and `op`. */
  lemma PushedConserves(y: Yard, op: Token)
    requires StackOk(y.stack) && HasPrecedence(op)
    ensures multiset(Pushed(y, op).output) + multiset(Pushed(y, op).stack)
            == multiset(y.output) + multiset(y.stack) + multiset{op}
  {
    var n, k := |y.stack|, PopCount(y.stack, op);
    assert y.stack == y.stack[..n - k] + y.stack[n - k..];
    ReversedMultiset(y.stack[n - k..]);
  }

  /** `add_operator` never takes off a `(`: the stack up to and including any `(`
      is unchanged. */
  lemma PushedKeepsBarrier(y: Yard, op: Token, i: nat)
    requires StackOk(y.stack) && HasPrecedence(op)
    requires i < |y.stack| && y.stack[i].kind.LPar?
    ensures i + 1 < |Pushed(y, op).stack|
    ensures Pushed(y, op).stack[..i + 1] == y.stack[..i + 1]
  {
    var k := PopCount(y.stack, op);
    assert !Pops(y.stack[i], op);
  }

  /** `Pushed` once the place where popping stops is known. */
  lemma PushedAt(y: Yard, op: Token, m: nat)
    requires StackOk(y.stack) && HasPrecedence(op)
    requires m <= |y.stack|
    requires forall i :: m <= i < |y.stack| ==> Pops(y.stack[i], op)
    requires m > 0 ==> !Pops(y.stack[m - 1], op)
    ensures Pushed(y, op) == Yard(y.output + Reversed(y.stack[m..]), y.stack[..m] + [op])
  {
    PopCountUnique(y.stack, op, |y.stack| - m);
  }

  /** `add_operator`. The loop looks at the top entry at index `m - 1` instead of
      popping it and pushing it back when it is to stay; `opstack[m..]` is what it
      has taken off. */
  method AddOperator(opstack: seq<Token>, output: seq<Token>, op: Token) returns (stack: seq<Token>, out: seq<Token>)
    requires StackOk(opstack) && HasPrecedence(op)
    ensures Yard(out, stack) == Pushed(Yard(output, opstack), op)
  {
    var m := |opstack|;
    out := output;
    while m > 0
      invariant 0 <= m <= |opstack|
      invariant forall i :: m <= i < |opstack| ==> Pops(opstack[i], op)
      invariant out == output + Reversed(opstack[m..])
    {
      var top := opstack[m - 1];
      if top.kind.LPar? {
        // a new scope: nothing below the `(` may be popped
        break;
      }
      if Precedence(top) < Precedence(op) {
        break;
      }
      assert opstack[m - 1..] == [top] + opstack[m..];
      out := out + [top];
      m := m - 1;
    }
    PushedAt(Yard(output, opstack), op, m);
    stack := opstack[..m] + [op];
  }

  /** Where the topmost `(` of the stack is, if there is one. */
  function TopLPar(st: seq<Token>): (r: Option<nat>)
    ensures r.Some? ==> r.value < |st| && st[r.value].kind.LPar?
                        && forall j :: r.value < j < |st| ==> !st[j].kind.LPar?
    ensures r.None? ==> forall j :: 0 <= j < |st| ==> !st[j].kind.LPar?
  {
    if |st| == 0 then None
    else if st[|st| - 1].kind.LPar? then Some(|st| - 1)
    else TopLPar(st[..|st| - 1])
  }

  /** Splitting the stack at entry `i` and popping what is above it loses only that entry. */
  lemma SplitAtLPar(st: seq<Token>, i: nat)
    requires i < |st|
    ensures multiset(Reversed(st[i + 1..])) + multiset(st[..i]) + multiset{st[i]} == multiset(st)
  {
    assert st == st[..i] + [st[i]] + st[i + 1..];
    ReversedMultiset(st[i + 1..]);
  }

  /** A `(` with no `(` above it is the topmost one. */
  lemma TopLParAt(st: seq<Token>, k: nat)
    requires k < |st| && st[k].kind.LPar? && forall j :: k < j < |st| ==> !st[j].kind.LPar?
    ensures TopLPar(st) == Some(k)
  {
  }

  /** The effect of a `)`: the entries above the topmost `(` go to the output in
      pop order and that `(` is dropped; `None` when no `(` is on the stack. */
  function Closed(y: Yard): (r: Option<Yard>)
    ensures r.None? <==> forall j :: 0 <= j < |y.stack| ==> !y.stack[j].kind.LPar?
    ensures r.Some? ==> y.output <= r.value.output
                        && |r.value.output| + |r.value.stack| + 1 == |y.output| + |y.stack|
  {
    match TopLPar(y.stack)
    case None => None
    case Some(i) => Some(Yard(y.output + Reversed(y.stack[i + 1..]), y.stack[..i]))
  }

  /** What a `)` promises: it fails exactly when the stack holds no `(`; otherwise
      the `(` it removes is the topmost one, nothing below it changes, and what it
      moves to the output is exactly what stood above it, in pop order. */
  lemma ClosedMeaning(y: Yard)
    ensures Closed(y).None? <==> forall j :: 0 <= j < |y.stack| ==> !y.stack[j].kind.LPar?
    ensures Closed(y).Some? ==>
              var y', m := Closed(y).value, |Closed(y).value.stack|;
              && m < |y.stack| && y.stack[m].kind.LPar?
              && (forall j :: m < j < |y.stack| ==> !y.stack[j].kind.LPar?)
              && y'.stack == y.stack[..m]
              && y'.output == y.output + Reversed(y.stack[m + 1..])
  {
  }

  /** A `)` loses exactly one token, the `(` it closes: the output and the stack
      hold together what they held before, less that `(`. */
  lemma ClosedConserves(y: Yard)
    ensures Closed(y).Some? ==>
              var m := |Closed(y).value.stack|;
              && m < |y.stack| && y.stack[m].kind.LPar?
              && multiset(Closed(y).value.output) + multiset(Closed(y).value.stack) + multiset{y.stack[m]}
                 == multiset(y.output) + multiset(y.stack)
  {
    if Closed(y).Some? {
      SplitAtLPar(y.stack, TopLPar(y.stack).value);
    }
  }

  /** One iteration of the `'outer` loop of `to_rpn` on token `e`: an operand goes
      to the output, a `(` onto the stack, an operator through `add_operator`, and
      a `)` closes the innermost open `(`; with no `(` on the stack it is the
      mismatched-paren panic, reported as `Err(e)`. */
  function Step(y: Yard, e: Token): (r: Result<Yard, Token>)
    requires StackOk(y.stack) && IsLexeme(e)
    ensures r.Ok? ==> StackOk(r.value.stack)
    ensures r.Err? ==> r.error == e && e.kind.RPar?
  {
    if IsOperand(e) then Ok(Yard(y.output + [e], y.stack))
    else if e.kind.LPar? then Ok(Yard(y.output, y.stack + [e]))
    else if e.kind.RPar? then
      match Closed(y)
      case None => Err(e)
      case Some(y') => Ok(y')
    else
      PushedMeaning(y, e);
      Ok(Pushed(y, e))
  }
  /** The `'outer` loop over the tokens `es`, from yard `y`. */
  function Shunt(y: Yard, es: seq<Token>): (r: Result<Yard, Token>)
    requires StackOk(y.stack) && Lexed(es)
    ensures r.Ok? ==> StackOk(r.value.stack)
    ensures r.Err? ==> r.error in es && r.error.kind.RPar?
    decreases |es|
  {
    if |es| == 0 then Ok(y)
    else
      match Step(y, es[0])
      case Err(e) => Err(e)
      case Ok(y') => Shunt(y', es[1..])
  }

  /** What `to_rpn` returns: after the loop, the stack is drained onto the output. */
  function Rpn(expr: seq<Token>): (r: Result<seq<Token>, Token>)
    requires Lexed(expr)
    ensures r.Err? ==> r.error in expr && r.error.kind.RPar?
  {
    match Shunt(Yard([], []), expr)
    case Err(e) => Err(e)
    case Ok(y) => Ok(y.output + Reversed(y.stack))
  }

  /** `Shunt` from token `i` on is one `Step` on `expr[i]`, then `Shunt` from `i + 1` on. */
  lemma ShuntAt(y: Yard, expr: seq<Token>, i: nat)
    requires StackOk(y.stack) && Lexed(expr) && i < |expr|
    ensures Shunt(y, expr[i..]) == match Step(y, expr[i])
                                   case Err(e) => Err(e)
                                   case Ok(y') => Shunt(y', expr[i + 1..])
  {
    assert expr[i..][1..] == expr[i + 1..];
  }

  /** The `)` case of `to_rpn`: pop entries onto the output until a `(` is popped
      (`found`: `to_rpn` goes on with its next token) or the stack is empty. */
  method ClosePar(opstack: seq<Token>, output: seq<Token>) returns (stack: seq<Token>, out: seq<Token>, found: bool)
    ensures found <==> Closed(Yard(output, opstack)).Some?
    ensures found ==> Yard(out, stack) == Closed(Yard(output, opstack)).value
  {
    stack, out := opstack, output;
    while |stack| > 0
      invariant stack == opstack[..|stack|]
      invariant forall j :: |stack| <= j < |opstack| ==> !opstack[j].kind.LPar?
      invariant out == output + Reversed(opstack[|stack|..])
    {
      var op := stack[|stack| - 1];
      stack := stack[..|stack| - 1];
      if op.kind.LPar? {
        TopLParAt(opstack, |stack|);
        return stack, out, true;
      }
      assert opstack[|stack|..] == [op] + opstack[|stack| + 1..];
      out := out + [op];
    }
    return stack, out, false;
  }

  /** The final loop of `to_rpn`: pop every entry onto the output. */
  method Drain(opstack: seq<Token>, output: seq<Token>) returns (out: seq<Token>)
    ensures out == output + Reversed(opstack)
  {
    var stack := opstack;
    out := output;
    while |stack| > 0
      invariant stack == opstack[..|stack|]
      invariant out == output + Reversed(opstack[|stack|..])
    {
      var op := stack[|stack| - 1];
      stack := stack[..|stack| - 1];
      assert opstack[|stack|..] == [op] + opstack[|stack| + 1..];
      out := out + [op];
    }
  }

  /** `to_rpn`. The panic on a `)` without a matching `(` is the `Err` result. */
  method ToRpn(expr: seq<Token>) returns (r: Result<seq<Token>, Token>)
    requires Lexed(expr)
    ensures r == Rpn(expr)
  {
    var ret: seq<Token> := [];
    var opstack: seq<Token> := [];
    for i := 0 to |expr|
      invariant StackOk(opstack)
      invariant Shunt(Yard([], []), expr) == Shunt(Yard(ret, opstack), expr[i..])
    {
      var e := expr[i];
      ShuntAt(Yard(ret, opstack), expr, i);
      if IsOperand(e) {
        ret := ret + [e];
      } else if e.kind.LPar? {
        opstack := opstack + [e];
      } else if e.kind.RPar? {
        var found;
        opstack, ret, found := ClosePar(opstack, ret);
        if !found {
          return Err(e);
        }
      } else {
        opstack, ret := AddOperator(opstack, ret, e);
      }
    }
    ret := Drain(opstack, ret);
    return Ok(ret);
  }

  // ---------------------------------------------------------------------------
  // What `to_rpn` keeps and drops

  /** The operands of `s`, in order. */
  function Operands(s: seq<Token>): (r: seq<Token>)
    ensures |r| <= |s|
  {
    if |s| == 0 then [] else (if IsOperand(s[0]) then [s[0]] else []) + Operands(s[1..])
  }

  /** The tokens of `s` that are not parens, in order. */
  function NonParens(s: seq<Token>): (r: seq<Token>)
    ensures |r| <= |s|
  {
    if |s| == 0 then [] else (if IsParen(s[0]) then [] else [s[0]]) + NonParens(s[1..])
  }

  /** How many times the token `t` occurs in `s` when parens are not counted. */
  function Occ(s: seq<Token>, t: Token): nat
  {
    if |s| == 0 then 0 else (if !IsParen(s[0]) && s[0] == t then 1 else 0) + Occ(s[1..], t)
  }

  lemma {:induction false} OccIsMultiset(s: seq<Token>, t: Token)
    ensures Occ(s, t) == multiset(NonParens(s))[t]
    decreases |s|
  {
    if |s| > 0 {
      OccIsMultiset(s[1..], t);
      var h := if IsParen(s[0]) then [] else [s[0]];
      assert NonParens(s) == h + NonParens(s[1..]);
    }
  }

  lemma {:induction false} OperandsAppend(a: seq<Token>, b: seq<Token>)
    ensures Operands(a + b) == Operands(a) + Operands(b)
    decreases |a|
  {
    if |a| == 0 {
      assert a + b == b;
    } else {
      assert (a + b)[1..] == a[1..] + b;
      OperandsAppend(a[1..], b);
      var h := if IsOperand(a[0]) then [a[0]] else [];
      assert Operands(a + b) == h + Operands(a[1..] + b);
      assert Operands(a) == h + Operands(a[1..]);
    }
  }

  lemma {:induction false} OccAppend(a: seq<Token>, b: seq<Token>, t: Token)
    ensures Occ(a + b, t) == Occ(a, t) + Occ(b, t)
    decreases |a|
  {
    if |a| == 0 {
      assert a + b == b;
    } else {
      assert (a + b)[1..] == a[1..] + b;
      OccAppend(a[1..], b, t);
    }
  }

  /** Popping a whole stack onto the output keeps its non-paren tokens ... */
  lemma {:induction false} OccReversed(s: seq<Token>, t: Token)
    ensures Occ(Reversed(s), t) == Occ(s, t)
    decreases |s|
  {
    if |s| > 0 {
      OccReversed(s[1..], t);
      OccAppend(Reversed(s[1..]), [s[0]], t);
    }
  }

  /** ... and its numbers of `(` and `)`. */
  lemma {:induction false} ReversedParCounts(s: seq<Token>)
    ensures LParCount(Reversed(s)) == LParCount(s) && RParCount(Reversed(s)) == RParCount(s)
    decreases |s|
  {
    if |s| > 0 {
      var t := s[1..];
      ReversedParCounts(t);
      ParCountsAppend(Reversed(t), [s[0]]);
      assert s == [s[0]] + t;
      ParCountsAppend([s[0]], t);
      assert [s[0]][..0] == [];
    }
  }

  /** A sequence without operands, in either order, has no operands. */
  lemma {:induction false} NoOperands(s: seq<Token>)
    requires forall i :: 0 <= i < |s| ==> !IsOperand(s[i])
    ensures Operands(s) == [] && Operands(Reversed(s)) == []
    decreases |s|
  {
    if |s| > 0 {
      NoOperands(s[1..]);
      OperandsAppend(Reversed(s[1..]), [s[0]]);
    }
  }

  /** The invariant of the operator stack of `to_rpn`: `(` and operators only. */
  predicate OpStack(st: seq<Token>)
  {
    forall i :: 0 <= i < |st| ==> st[i].kind.LPar? || IsOperator(st[i])
  }

  lemma OpStackAppend(a: seq<Token>, b: seq<Token>)
    ensures OpStack(a + b) <==> OpStack(a) && OpStack(b)
  {
    if OpStack(a + b) {
      assert forall i :: 0 <= i < |a| ==> a[i] == (a + b)[i];
      assert forall i :: 0 <= i < |b| ==> b[i] == (a + b)[|a| + i];
    }
  }

  /** An operator stack, popped whole onto the output, brings no operand and no `)`,
      the same non-paren tokens and the same number of `(`. */
  lemma OpStackFacts(s: seq<Token>)
    requires OpStack(s)
    ensures Operands(s) == [] && Operands(Reversed(s)) == []
    ensures forall t :: Occ(Reversed(s), t) == Occ(s, t)
    ensures RParCount(s) == 0 && RParCount(Reversed(s)) == 0
    ensures LParCount(Reversed(s)) == LParCount(s)
  {
    NoOperands(s);
    forall t {
      OccReversed(s, t);
    }
    ReversedParCounts(s);
    ParCountsZero(s);
  }

  /** What a stretch of `to_rpn` from yard `y` over the tokens `es` to yard `y'`
      keeps: the stack holds only `(` and operators; the output gains exactly the
      operands of `es`, in order; every non-paren token of `es` lands on the stack
      or the output, once for each time it occurs; no `(` or `)` reaches the
      output; and each `)` removes one `(` from the stack. */
  ghost predicate Kept(y: Yard, es: seq<Token>, y': Yard)
  {
    && OpStack(y'.stack)
    && Operands(y'.output) == Operands(y.output) + Operands(es)
    && (forall t :: Occ(y'.output, t) + Occ(y'.stack, t) == Occ(y.output, t) + Occ(y.stack, t) + Occ(es, t))
    && LParCount(y'.output) == LParCount(y.output)
    && RParCount(y'.output) == RParCount(y.output)
    && LParCount(y'.stack) + RParCount(es) == LParCount(y.stack) + LParCount(es)
  }

  lemma OperandKept(y: Yard, e: Token)
    requires OpStack(y.stack) && IsOperand(e)
    ensures Kept(y, [e], Yard(y.output + [e], y.stack))
  {
    OperandsAppend(y.output, [e]);
    forall t {
      OccAppend(y.output, [e], t);
    }
    ParCountsAppend(y.output, [e]);
    assert [e][..0] == [];
  }

  lemma LParKept(y: Yard, e: Token)
    requires OpStack(y.stack) && e.kind.LPar?
    ensures Kept(y, [e], Yard(y.output, y.stack + [e]))
  {
    forall t {
      OccAppend(y.stack, [e], t);
    }
    OpStackAppend(y.stack, [e]);
    ParCountsAppend(y.stack, [e]);
    assert [e][..0] == [];
  }

  /** Operators only, as `add_operator` and a `)` move them from the stack. */
  predicate AllOperators(s: seq<Token>)
  {
    forall j :: 0 <= j < |s| ==> IsOperator(s[j])
  }

  /** Operators moved to the output in pop order. */
  lemma MovedOutput(out: seq<Token>, seg: seq<Token>)
    requires AllOperators(seg)
    ensures Operands(out + Reversed(seg)) == Operands(out)
    ensures forall t :: Occ(out + Reversed(seg), t) == Occ(out, t) + Occ(seg, t)
    ensures LParCount(out + Reversed(seg)) == LParCount(out)
    ensures RParCount(out + Reversed(seg)) == RParCount(out)
  {
    assert OpStack(seg);
    OpStackFacts(seg);
    ParCountsZero(seg);
    OperandsAppend(out, Reversed(seg));
    forall t {
      OccAppend(out, Reversed(seg), t);
    }
    ParCountsAppend(out, Reversed(seg));
  }

  /** A stack `below + mid + seg` that becomes `below + pushed`. */
  lemma MovedStack(below: seq<Token>, mid: seq<Token>, seg: seq<Token>, pushed: seq<Token>)
    requires AllOperators(seg)
    ensures forall t :: Occ(below + mid + seg, t) == Occ(below, t) + Occ(mid, t) + Occ(seg, t)
    ensures forall t :: Occ(below + pushed, t) == Occ(below, t) + Occ(pushed, t)
    ensures LParCount(below + mid + seg) == LParCount(below) + LParCount(mid)
    ensures LParCount(below + pushed) == LParCount(below) + LParCount(pushed)
  {
    ParCountsZero(seg);
    forall t
      ensures Occ(below + mid + seg, t) == Occ(below, t) + Occ(mid, t) + Occ(seg, t)
      ensures Occ(below + pushed, t) == Occ(below, t) + Occ(pushed, t)
    {
      OccAppend(below + mid, seg, t);
      OccAppend(below, mid, t);
      OccAppend(below, pushed, t);
    }
    ParCountsAppend(below + mid, seg);
    ParCountsAppend(below, mid);
    ParCountsAppend(below, pushed);
  }

  /** Moving the operators `seg` from the top of the stack to the output, and
      replacing what stood below them (`mid`) by `pushed`. */
  lemma MoveKept(y: Yard, e: Token, below: seq<Token>, mid: seq<Token>, seg: seq<Token>, pushed: seq<Token>)
    requires OpStack(y.stack) && y.stack == below + mid + seg
    requires AllOperators(seg) && OpStack(pushed)
    requires forall t :: Occ(mid, t) + Occ([e], t) == Occ(pushed, t)
    requires LParCount(pushed) + RParCount([e]) == LParCount(mid) + LParCount([e])
    requires Operands([e]) == []
    ensures Kept(y, [e], Yard(y.output + Reversed(seg), below + pushed))
  {
    MovedOutput(y.output, seg);
    MovedStack(below, mid, seg, pushed);
    OpStackAppend(below + mid, seg);
    OpStackAppend(below, mid);
    OpStackAppend(below, pushed);
  }

  lemma CloseKept(y: Yard, e: Token)
    requires OpStack(y.stack) && e.kind.RPar? && Closed(y).Some?
    ensures Kept(y, [e], Closed(y).value)
  {
    var i := TopLPar(y.stack).value;
    var seg := y.stack[i + 1..];
    assert y.stack == y.stack[..i] + [y.stack[i]] + seg;
    assert AllOperators(seg);
    assert [e][..0] == [] && [e][1..] == [];
    assert [y.stack[i]][..0] == [] && [y.stack[i]][1..] == [];
    assert y.stack[..i] + [] == y.stack[..i];
    MoveKept(y, e, y.stack[..i], [y.stack[i]], seg, []);
  }

  lemma PushKept(y: Yard, e: Token)
    requires OpStack(y.stack) && IsOperator(e)
    ensures Kept(y, [e], Pushed(y, e))
  {
    var m := |y.stack| - PopCount(y.stack, e);
    var seg := y.stack[m..];
    assert y.stack == y.stack[..m] + [] + seg;
    assert AllOperators(seg);
    assert [e][..0] == [] && [e][1..] == [];
    MoveKept(y, e, y.stack[..m], [], seg, [e]);
  }

  /** One step keeps `Kept`, and it fails exactly on a `)` when no `(` is open. */
  lemma StepKept(y: Yard, e: Token)
    requires OpStack(y.stack) && IsLexeme(e)
    ensures Step(y, e).Ok? ==> Kept(y, [e], Step(y, e).value)
    ensures Step(y, e).Err? <==> e.kind.RPar? && LParCount(y.stack) == 0
  {
    ParCountsZero(y.stack);
    if IsOperand(e) {
      OperandKept(y, e);
    } else if e.kind.LPar? {
      LParKept(y, e);
    } else if e.kind.RPar? {
      ClosedMeaning(y);
      if Closed(y).Some? {
        CloseKept(y, e);
      }
    } else {
      PushKept(y, e);
    }
  }

  /** `Kept` composes along the token sequence. */
  lemma KeptTrans(y: Yard, a: seq<Token>, y1: Yard, b: seq<Token>, y2: Yard)
    requires Kept(y, a, y1) && Kept(y1, b, y2)
    ensures Kept(y, a + b, y2)
  {
    OperandsAppend(a, b);
    forall t {
      OccAppend(a, b, t);
    }
    ParCountsAppend(a, b);
  }

  lemma {:induction false} ShuntKept(y: Yard, es: seq<Token>)
    requires OpStack(y.stack) && Lexed(es)
    ensures Shunt(y, es).Ok? ==> Kept(y, es, Shunt(y, es).value)
    decreases |es|
  {
    if |es| > 0 {
      StepKept(y, es[0]);
      if Step(y, es[0]).Ok? {
        var y1 := Step(y, es[0]).value;
        ShuntKept(y1, es[1..]);
        if Shunt(y1, es[1..]).Ok? {
          KeptTrans(y, [es[0]], y1, es[1..], Shunt(y1, es[1..]).value);
          assert [es[0]] + es[1..] == es;
        }
      }
    }
  }

  /** The tokens `NonParens` keeps are exactly the non-paren tokens of `s`. */
  lemma {:induction false} NonParensMembers(s: seq<Token>)
    ensures forall t :: t in NonParens(s) <==> t in s && !IsParen(t)
    decreases |s|
  {
    if |s| > 0 {
      NonParensMembers(s[1..]);
      assert s == [s[0]] + s[1..];
    }
  }

  /** Every token `to_rpn` emits is a `(` it left open or a token of its input. */
  lemma RpnFromInput(expr: seq<Token>)
    requires Lexed(expr) && Rpn(expr).Ok?
    ensures forall i :: 0 <= i < |Rpn(expr).value| ==> Rpn(expr).value[i].kind.LPar? || Rpn(expr).value[i] in expr
  {
    var out := Rpn(expr).value;
    RpnKeeps(expr);
    ParCountsZero(out);
    NonParensMembers(out);
    NonParensMembers(expr);
    forall i | 0 <= i < |out| && !out[i].kind.LPar?
      ensures out[i] in expr
    {
      assert out[i] in NonParens(out);
      assert out[i] in multiset(NonParens(out));
    }
  }

  /** What a successful `to_rpn` returns: the operands of the input in the same
      order; every non-paren token of the input exactly as often as it occurs
      there; no `)`; and a `(` for each `(` that no `)` closed. */
  lemma RpnKeeps(expr: seq<Token>)
    requires Lexed(expr) && Rpn(expr).Ok?
    ensures Operands(Rpn(expr).value) == Operands(expr)
    ensures multiset(NonParens(Rpn(expr).value)) == multiset(NonParens(expr))
    ensures RParCount(Rpn(expr).value) == 0
    ensures LParCount(Rpn(expr).value) == LParCount(expr) - RParCount(expr)
  {
    ShuntKept(Yard([], []), expr);
    var y := Shunt(Yard([], []), expr).value;
    var out := Rpn(expr).value;
    OpStackFacts(y.stack);
    OperandsAppend(y.output, Reversed(y.stack));
    ParCountsAppend(y.output, Reversed(y.stack));
    forall t
      ensures multiset(NonParens(out))[t] == multiset(NonParens(expr))[t]
    {
      OccAppend(y.output, Reversed(y.stack), t);
      OccIsMultiset(out, t);
      OccIsMultiset(expr, t);
    }
  }

  /** With as many `(` as `)`, a successful `to_rpn` emits no paren at all. */
  lemma RpnBalancedNoParens(expr: seq<Token>)
    requires Lexed(expr) && Rpn(expr).Ok? && LParCount(expr) == RParCount(expr)
    ensures forall i :: 0 <= i < |Rpn(expr).value| ==> !IsParen(Rpn(expr).value[i])
  {
    RpnKeeps(expr);
    ParCountsZero(Rpn(expr).value);
  }

  // ---------------------------------------------------------------------------
  // When `to_rpn` panics

  /** With `d` parens already open, the prefix `es[..i + 1]` closes more than are open. */
  predicate Over(es: seq<Token>, d: nat, i: nat)
  {
    i < |es| && d + LParCount(es[..i + 1]) < RParCount(es[..i + 1])
  }

  /** ... and `i` is the first position where that happens. */
  predicate FirstOver(es: seq<Token>, d: nat, i: nat)
  {
    Over(es, d, i) && forall j: nat :: j < i ==> !Over(es, d, j)
  }

  /** Passing the first token of `es` from `d` open parens to `d1`. */
  lemma OverShift(es: seq<Token>, d: nat, d1: nat, i: nat)
    requires |es| > 0 && d1 + RParCount([es[0]]) == d + LParCount([es[0]])
    ensures Over(es, d, i + 1) <==> Over(es[1..], d1, i)
  {
    if i + 1 < |es| {
      assert es[..i + 2] == [es[0]] + es[1..][..i + 1];
      ParCountsAppend([es[0]], es[1..][..i + 1]);
    }
  }

  /** The first over-closing place after the first token, seen from before it. */
  lemma FirstOverShift(es: seq<Token>, d: nat, d1: nat, i: nat)
    requires |es| > 0 && d1 + RParCount([es[0]]) == d + LParCount([es[0]])
    requires !Over(es, d, 0) && FirstOver(es[1..], d1, i)
    ensures FirstOver(es, d, i + 1)
  {
    forall j: nat | j < i + 1
      ensures !Over(es, d, j)
    {
      if j > 0 {
        OverShift(es, d, d1, j - 1);
      }
    }
    OverShift(es, d, d1, i);
  }

  lemma {:induction false} ShuntFails(y: Yard, es: seq<Token>)
    requires OpStack(y.stack) && Lexed(es)
    ensures forall i: nat :: Over(es, LParCount(y.stack), i) ==> Shunt(y, es).Err?
    ensures Shunt(y, es).Err? ==>
              exists i: nat :: FirstOver(es, LParCount(y.stack), i) && es[i] == Shunt(y, es).error
    decreases |es|
  {
    if |es| > 0 {
      var e, d := es[0], LParCount(y.stack);
      StepKept(y, e);
      assert es[..1] == [e];
      assert [e][..0] == [];
      if Step(y, e).Err? {
        assert FirstOver(es, d, 0);
      } else {
        var y1 := Step(y, e).value;
        var d1 := LParCount(y1.stack);
        assert !Over(es, d, 0);
        ShuntFails(y1, es[1..]);
        assert Shunt(y, es) == Shunt(y1, es[1..]);
        forall i: nat | Over(es, d, i)
          ensures Shunt(y, es).Err?
        {
          OverShift(es, d, d1, i - 1);
        }
        if Shunt(y, es).Err? {
          var i: nat :| FirstOver(es[1..], d1, i) && es[1..][i] == Shunt(y, es).error;
          FirstOverShift(es, d, d1, i);
        }
      }
    }
  }

  /** The first place that closes more parens than are open is a `)`. */
  lemma FirstOverIsRPar(es: seq<Token>, i: nat)
    requires FirstOver(es, 0, i)
    ensures es[i].kind.RPar?
  {
    assert es[..i + 1] == es[..i] + [es[i]];
    ParCountsAppend(es[..i], [es[i]]);
    ParCountsCons(es[i], []);
    assert [es[i]] + [] == [es[i]];
    if i > 0 {
      assert !Over(es, 0, i - 1);
      assert es[..i - 1 + 1] == es[..i];
    } else {
      assert es[..i] == [];
    }
  }

  /** `to_rpn` panics exactly when some prefix of the input has more `)` than
      `(`; the `)` it reports is the first one that has no `(` to close. */
  lemma RpnFails(expr: seq<Token>)
    requires Lexed(expr)
    ensures Rpn(expr).Err? <==> exists i: nat :: Over(expr, 0, i)
    ensures Rpn(expr).Err? ==>
              exists i: nat :: FirstOver(expr, 0, i) && expr[i].kind.RPar? && expr[i] == Rpn(expr).error
  {
    ShuntFails(Yard([], []), expr);
    assert LParCount([]) == 0;
    assert Rpn(expr).Err? <==> Shunt(Yard([], []), expr).Err?;
    if Rpn(expr).Err? {
      var i: nat :| FirstOver(expr, 0, i) && expr[i] == Rpn(expr).error;
      FirstOverIsRPar(expr, i);
    }
  }

  // ---------------------------------------------------------------------------
  // Worked examples (at any line and column)

  /** One turn of the `'outer` loop at the front of the input. */
  lemma ShuntCons(y: Yard, e: Token, es: seq<Token>, y': Yard)
    requires StackOk(y.stack) && IsLexeme(e) && Lexed(es) && Step(y, e) == Ok(y')
    ensures Lexed([e] + es)
    ensures Shunt(y, [e] + es) == Shunt(y', es)
  {
    assert ([e] + es)[0] == e && ([e] + es)[1..] == es;
  }

  /** Token displays built one token at a time from the front. The examples
      below unfold `Shunt` one `[e] + es` at a time; these equalities let them
      name the display they started from without the solver having to rebuild
      it from the concatenations on its own. */
  lemma ConsDisplay3(a: Token, b: Token, c: Token)
    ensures [a] + ([b] + ([c] + [])) == [a, b, c]
  {
  }

  lemma ConsDisplay5(a: Token, b: Token, c: Token, d: Token, e: Token)
    ensures [a] + ([b] + ([c] + ([d] + ([e] + [])))) == [a, b, c, d, e]
  {
  }

  lemma ConsDisplay7(a: Token, b: Token, c: Token, d: Token, e: Token, f: Token, g: Token)
    ensures [a] + ([b] + ([c] + ([d] + ([e] + ([f] + ([g] + [])))))) == [a, b, c, d, e, f, g]
  {
  }

  /** The `'outer` loop through a run of steps that all succeed, for inputs of
      three, five and seven tokens (the sizes of the worked examples). Each
      example states only the yards between steps and leaves the unfolding of
      `Shunt` to these, which keeps every proof small. */
  lemma ShuntTail3(y0: Yard, y1: Yard, y2: Yard, y3: Yard,
                    e0: Token, e1: Token, e2: Token)
    requires StackOk(y0.stack) && IsLexeme(e0) && IsLexeme(e1) && IsLexeme(e2)
    requires Step(y0, e0) == Ok(y1)
    requires Step(y1, e1) == Ok(y2)
    requires Step(y2, e2) == Ok(y3)
    ensures Lexed([e0, e1, e2])
    ensures Shunt(y0, [e0, e1, e2]) == Ok(y3)
  {
    var s3: seq<Token> := [];
    ShuntCons(y2, e2, s3, y3);
    var s2 := [e2] + s3;
    ShuntCons(y1, e1, s2, y2);
    var s1 := [e1] + s2;
    ShuntCons(y0, e0, s1, y1);
    ConsDisplay3(e0, e1, e2);
  }

  lemma ShuntTail5(y0: Yard, y1: Yard, y2: Yard, y3: Yard, y4: Yard, y5: Yard,
                    e0: Token, e1: Token, e2: Token, e3: Token, e4: Token)
    requires StackOk(y0.stack) && IsLexeme(e0) && IsLexeme(e1) && IsLexeme(e2) && IsLexeme(e3) && IsLexeme(e4)
    requires Step(y0, e0) == Ok(y1)
    requires Step(y1, e1) == Ok(y2)
    requires Step(y2, e2) == Ok(y3)
    requires Step(y3, e3) == Ok(y4)
    requires Step(y4, e4) == Ok(y5)
    ensures Lexed([e0, e1, e2, e3, e4])
    ensures Shunt(y0, [e0, e1, e2, e3, e4]) == Ok(y5)
  {
    var s5: seq<Token> := [];
    ShuntCons(y4, e4, s5, y5);
    var s4 := [e4] + s5;
    ShuntCons(y3, e3, s4, y4);
    var s3 := [e3] + s4;
    ShuntCons(y2, e2, s3, y3);
    var s2 := [e2] + s3;
    ShuntCons(y1, e1, s2, y2);
    var s1 := [e1] + s2;
    ShuntCons(y0, e0, s1, y1);
    ConsDisplay5(e0, e1, e2, e3, e4);
  }

  lemma ShuntTail7(y0: Yard, y1: Yard, y2: Yard, y3: Yard, y4: Yard, y5: Yard, y6: Yard, y7: Yard,
                    e0: Token, e1: Token, e2: Token, e3: Token, e4: Token, e5: Token, e6: Token)
    requires StackOk(y0.stack) && IsLexeme(e0) && IsLexeme(e1) && IsLexeme(e2) && IsLexeme(e3) && IsLexeme(e4) && IsLexeme(e5) && IsLexeme(e6)
    requires Step(y0, e0) == Ok(y1)
    requires Step(y1, e1) == Ok(y2)
    requires Step(y2, e2) == Ok(y3)
    requires Step(y3, e3) == Ok(y4)
    requires Step(y4, e4) == Ok(y5)
    requires Step(y5, e5) == Ok(y6)
    requires Step(y6, e6) == Ok(y7)
    ensures Lexed([e0, e1, e2, e3, e4, e5, e6])
    ensures Shunt(y0, [e0, e1, e2, e3, e4, e5, e6]) == Ok(y7)
  {
    var s7: seq<Token> := [];
    ShuntCons(y6, e6, s7, y7);
    var s6 := [e6] + s7;
    ShuntCons(y5, e5, s6, y6);
    var s5 := [e5] + s6;
    ShuntCons(y4, e4, s5, y5);
    var s4 := [e4] + s5;
    ShuntCons(y3, e3, s4, y4);
    var s3 := [e3] + s4;
    ShuntCons(y2, e2, s3, y3);
    var s2 := [e2] + s3;
    ShuntCons(y1, e1, s2, y2);
    var s1 := [e1] + s2;
    ShuntCons(y0, e0, s1, y1);
    ConsDisplay7(e0, e1, e2, e3, e4, e5, e6);
  }

  /** Token displays built one token at a time from the back, the way the
      examples' outputs grow by `out + [t]`. */
  lemma SnocDisplay2(a: Token, b: Token)
    ensures [] + [a] + [b] == [a, b]
  {
  }

  lemma SnocDisplay3(a: Token, b: Token, c: Token)
    ensures [] + [a] + [b] + [c] == [a, b, c]
  {
  }

  lemma SnocDisplay4(a: Token, b: Token, c: Token, d: Token)
    ensures [] + [a] + [b] + [c] + [d] == [a, b, c, d]
  {
  }

  /** `to_rpn` on `es` once its `'outer` loop has ended in `Yard(out, st)`. */
  lemma RpnOfYard(es: seq<Token>, out: seq<Token>, st: seq<Token>, r: seq<Token>)
    requires Lexed(es) && Shunt(Yard([], []), es) == Ok(Yard(out, st)) && out + Reversed(st) == r
    ensures Rpn(es) == Ok(r)
  {
  }

  lemma ReversedOne(a: Token)
    ensures Reversed([a]) == [a]
  {
    assert [a][1..] == [];
  }

  lemma ReversedTwo(a: Token, b: Token)
    ensures Reversed([a, b]) == [b, a]
  {
    assert [a, b][1..] == [b] && [b][1..] == [];
  }

  /** An operand goes straight to the output. */
  lemma StepOperand(y: Yard, e: Token)
    requires StackOk(y.stack) && IsOperand(e)
    ensures Step(y, e) == Ok(Yard(y.output + [e], y.stack))
  {
  }

  /** A `(` is pushed on the stack. */
  lemma StepLPar(y: Yard, e: Token)
    requires StackOk(y.stack) && e.kind.LPar?
    ensures Step(y, e) == Ok(Yard(y.output, y.stack + [e]))
  {
  }

  /** An operator pushed on an empty stack, or on an entry it does not pop. */
  lemma PushNoPop(y: Yard, e: Token)
    requires StackOk(y.stack) && IsOperator(e)
    requires |y.stack| == 0 || !Pops(y.stack[|y.stack| - 1], e)
    ensures Step(y, e) == Ok(Yard(y.output, y.stack + [e]))
  {
    var n := |y.stack|;
    PushedAt(y, e, n);
    assert y.stack[n..] == [] && y.stack[..n] == y.stack;
    assert y.output + Reversed(y.stack[n..]) == y.output;
  }

  /** An operator that pops exactly the top entry of the stack. */
  lemma PushPopOne(y: Yard, e: Token)
    requires StackOk(y.stack) && IsOperator(e) && |y.stack| > 0
    requires Pops(y.stack[|y.stack| - 1], e)
    requires |y.stack| == 1 || !Pops(y.stack[|y.stack| - 2], e)
    ensures Step(y, e) == Ok(Yard(y.output + [y.stack[|y.stack| - 1]], y.stack[..|y.stack| - 1] + [e]))
  {
    var n := |y.stack|;
    PushedAt(y, e, n - 1);
    assert y.stack[n - 1..] == [y.stack[n - 1]];
    ReversedOne(y.stack[n - 1]);
  }

  /** An operator that pops the only entry of the stack. */
  lemma PopOnlyEntry(y: Yard, e: Token)
    requires StackOk(y.stack) && IsOperator(e) && |y.stack| == 1 && Pops(y.stack[0], e)
    ensures Step(y, e) == Ok(Yard(y.output + [y.stack[0]], [e]))
  {
    PushPopOne(y, e);
    assert y.stack[..0] + [e] == [e];
  }

  /** A `)` whose `(` lies just below one operator. */
  lemma CloseOne(y: Yard, e: Token, below: seq<Token>, l: Token, op: Token)
    requires StackOk(y.stack) && e.kind.RPar? && l.kind.LPar? && IsOperator(op)
    requires y.stack == below + [l, op]
    ensures Step(y, e) == Ok(Yard(y.output + [op], below))
  {
    var n := |y.stack|;
    assert y.stack[..n - 1] == below + [l];
    assert TopLPar(y.stack) == Some(n - 2);
    assert y.stack[n - 1..] == [op] && y.stack[..n - 2] == below;
    assert Reversed([op]) == [op] by {
      assert [op][1..] == [];
    }
  }

  /** The `'outer` loop of `to_rpn` on `1 + 2 * 3`: `*` does not pop `+`. */
  lemma TighterRightShunt(one: Token, plus: Token, two: Token, star: Token, three: Token)
    requires one.kind == Num(1) && plus.kind == Add && two.kind == Num(2)
    requires star.kind == Mul && three.kind == Num(3)
    ensures Lexed([one, plus, two, star, three])
    ensures Shunt(Yard([], []), [one, plus, two, star, three]) == Ok(Yard([one, two, three], [plus, star]))
  {
    var y0 := Yard([], []);
    StepOperand(y0, one);
    var y1 := Yard(y0.output + [one], y0.stack);
    PushNoPop(y1, plus);
    var y2 := Yard(y1.output, y1.stack + [plus]);
    StepOperand(y2, two);
    var y3 := Yard(y2.output + [two], y2.stack);
    PushNoPop(y3, star);
    var y4 := Yard(y3.output, y3.stack + [star]);
    StepOperand(y4, three);
    var y5 := Yard(y4.output + [three], y4.stack);
    ShuntTail5(y0, y1, y2, y3, y4, y5, one, plus, two, star, three);
    SnocDisplay3(one, two, three);
    SnocDisplay2(plus, star);
  }

  /** `1 + 2 * 3` becomes `1 2 3 * +`. */
  lemma ExampleTighterRight(one: Token, plus: Token, two: Token, star: Token, three: Token)
    requires one.kind == Num(1) && plus.kind == Add && two.kind == Num(2)
    requires star.kind == Mul && three.kind == Num(3)
    ensures Rpn([one, plus, two, star, three]) == Ok([one, two, three, star, plus])
  {
    TighterRightShunt(one, plus, two, star, three);
    ReversedTwo(plus, star);
    assert [one, two, three] + [star, plus] == [one, two, three, star, plus];
    RpnOfYard([one, plus, two, star, three], [one, two, three], [plus, star], [one, two, three, star, plus]);
  }

  /** The `'outer` loop of `to_rpn` on `8 - 3 - 2`: the second `-` pops the first. */
  lemma LeftAssocShunt(eight: Token, minus1: Token, three: Token, minus2: Token, two: Token)
    requires eight.kind == Num(8) && minus1.kind == Sub && three.kind == Num(3)
    requires minus2.kind == Sub && two.kind == Num(2)
    ensures Lexed([eight, minus1, three, minus2, two])
    ensures Shunt(Yard([], []), [eight, minus1, three, minus2, two]) == Ok(Yard([eight, three, minus1, two], [minus2]))
  {
    var y0 := Yard([], []);
    StepOperand(y0, eight);
    var y1 := Yard(y0.output + [eight], y0.stack);
    PushNoPop(y1, minus1);
    var y2 := Yard(y1.output, y1.stack + [minus1]);
    StepOperand(y2, three);
    var y3 := Yard(y2.output + [three], y2.stack);
    assert y3.stack == [minus1];
    PopOnlyEntry(y3, minus2);
    var y4 := Yard(y3.output + [minus1], [minus2]);
    StepOperand(y4, two);
    var y5 := Yard(y4.output + [two], y4.stack);
    ShuntTail5(y0, y1, y2, y3, y4, y5, eight, minus1, three, minus2, two);
    SnocDisplay4(eight, three, minus1, two);
  }

  /** `8 - 3 - 2` becomes `8 3 - 2 -`: equal precedence associates to the left. */
  lemma ExampleLeftAssoc(eight: Token, minus1: Token, three: Token, minus2: Token, two: Token)
    requires eight.kind == Num(8) && minus1.kind == Sub && three.kind == Num(3)
    requires minus2.kind == Sub && two.kind == Num(2)
    ensures Rpn([eight, minus1, three, minus2, two]) == Ok([eight, three, minus1, two, minus2])
  {
    LeftAssocShunt(eight, minus1, three, minus2, two);
    ReversedOne(minus2);
    assert [eight, three, minus1, two] + [minus2] == [eight, three, minus1, two, minus2];
    RpnOfYard([eight, minus1, three, minus2, two], [eight, three, minus1, two], [minus2],
              [eight, three, minus1, two, minus2]);
  }

  /** The `'outer` loop of `to_rpn` on `(1 + 2) * 3`: `+` does not pop the `(`,
      and the `)` pops `+` and drops the `(`. */
  lemma ParensShunt(lpar: Token, one: Token, plus: Token, two: Token, rpar: Token, star: Token, three: Token)
    requires lpar.kind == LPar && one.kind == Num(1) && plus.kind == Add && two.kind == Num(2)
    requires rpar.kind == RPar && star.kind == Mul && three.kind == Num(3)
    ensures Lexed([lpar, one, plus, two, rpar, star, three])
    ensures Shunt(Yard([], []), [lpar, one, plus, two, rpar, star, three]) == Ok(Yard([one, two, plus, three], [star]))
  {
    var y0 := Yard([], []);
    StepLPar(y0, lpar);
    var y1 := Yard(y0.output, y0.stack + [lpar]);
    StepOperand(y1, one);
    var y2 := Yard(y1.output + [one], y1.stack);
    PushNoPop(y2, plus);
    var y3 := Yard(y2.output, y2.stack + [plus]);
    StepOperand(y3, two);
    var y4 := Yard(y3.output + [two], y3.stack);
    var none: seq<Token> := [];
    assert y4.stack == none + [lpar, plus];
    CloseOne(y4, rpar, none, lpar, plus);
    var y5 := Yard(y4.output + [plus], none);
    PushNoPop(y5, star);
    var y6 := Yard(y5.output, y5.stack + [star]);
    StepOperand(y6, three);
    var y7 := Yard(y6.output + [three], y6.stack);
    ShuntTail7(y0, y1, y2, y3, y4, y5, y6, y7, lpar, one, plus, two, rpar, star, three);
    SnocDisplay4(one, two, plus, three);
    assert y7.stack == [star];
  }

  /** `(1 + 2) * 3` becomes `1 2 + 3 *`: the parens are dropped. */
  lemma ExampleParens(lpar: Token, one: Token, plus: Token, two: Token, rpar: Token, star: Token, three: Token)
    requires lpar.kind == LPar && one.kind == Num(1) && plus.kind == Add && two.kind == Num(2)
    requires rpar.kind == RPar && star.kind == Mul && three.kind == Num(3)
    ensures Rpn([lpar, one, plus, two, rpar, star, three]) == Ok([one, two, plus, three, star])
  {
    ParensShunt(lpar, one, plus, two, rpar, star, three);
    ReversedOne(star);
    assert [one, two, plus, three] + [star] == [one, two, plus, three, star];
    RpnOfYard([lpar, one, plus, two, rpar, star, three], [one, two, plus, three], [star],
              [one, two, plus, three, star]);
  }

  /** The `'outer` loop of `to_rpn` on `( + )`: `+` does not pop the `(`, and
      the `)` pops `+`. */
  lemma EmptyParensShunt(lpar: Token, plus: Token, rpar: Token)
    requires lpar.kind == LPar && plus.kind == Add && rpar.kind == RPar
    ensures Lexed([lpar, plus, rpar])
    ensures Shunt(Yard([], []), [lpar, plus, rpar]) == Ok(Yard([plus], []))
  {
    var y0 := Yard([], []);
    StepLPar(y0, lpar);
    var y1 := Yard(y0.output, y0.stack + [lpar]);
    PushNoPop(y1, plus);
    var y2 := Yard(y1.output, y1.stack + [plus]);
    var none: seq<Token> := [];
    assert y2.stack == none + [lpar, plus];
    CloseOne(y2, rpar, none, lpar, plus);
    assert y2.output + [plus] == [plus];
    var y3 := Yard([plus], none);
    ShuntTail3(y0, y1, y2, y3, lpar, plus, rpar);
  }

  /** `( + )` becomes `+`: an operator with no operands gets through `to_rpn`. */
  lemma ExampleEmptyParens(lpar: Token, plus: Token, rpar: Token)
    requires lpar.kind == LPar && plus.kind == Add && rpar.kind == RPar
    ensures Rpn([lpar, plus, rpar]) == Ok([plus])
  {
    EmptyParensShunt(lpar, plus, rpar);
    var none: seq<Token> := [];
    assert [plus] + Reversed(none) == [plus];
    RpnOfYard([lpar, plus, rpar], [plus], none, [plus]);
  }

  /** `) + (` makes `to_rpn` panic on its first token. */
  lemma ExampleStrayRPar(rpar: Token, plus: Token, lpar: Token)
    requires rpar.kind == RPar && plus.kind == Add && lpar.kind == LPar
    ensures Rpn([rpar, plus, lpar]) == Err(rpar)
  {
    assert TopLPar([]) == None;
  }
}
