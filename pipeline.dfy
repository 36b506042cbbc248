/** How the parser and the two semantic checks meet. `sema_infix` is not a
    guard for `to_rpn`: it accepts inputs on which `to_rpn` panics, and inputs
    whose postfix form `sema_rpn` rejects. */
module Pipeline {
  import opened Wrappers
  import opened Tokens
  import opened Utils
  import Tokenisers
  import ExprParser
  import Sema

  /** Counting the parens of a three-token sequence. */
  lemma ParCounts3(a: Token, b: Token, c: Token)
    ensures LParCount([a, b, c]) == LParCount([a]) + LParCount([b]) + LParCount([c])
    ensures RParCount([a, b, c]) == RParCount([a]) + RParCount([b]) + RParCount([c])
  {
    ParCountsAppend([a, b], [c]);
    ParCountsAppend([a], [b]);
    assert [a, b] + [c] == [a, b, c] && [a] + [b] == [a, b];
    assert [a][..0] == [] && [b][..0] == [] && [c][..0] == [];
  }

  /** `) + (` passes `sema_infix`, yet `to_rpn` panics on its first token. */
  lemma StrayRParPasses(rpar: Token, plus: Token, lpar: Token)
    requires rpar.kind == RPar && plus.kind == Add && lpar.kind == LPar
    ensures Sema.InfixOk([rpar, plus, lpar])
    ensures ExprParser.Rpn([rpar, plus, lpar]) == Err(rpar)
  {
    ParCounts3(rpar, plus, lpar);
    ExprParser.ExampleStrayRPar(rpar, plus, lpar);
  }

  /** `( + )` passes `sema_infix`; `to_rpn` turns it into `+`, which `sema_rpn`
      rejects. */
  lemma EmptyParensPass(lpar: Token, plus: Token, rpar: Token)
    requires lpar.kind == LPar && plus.kind == Add && rpar.kind == RPar
    ensures Sema.InfixOk([lpar, plus, rpar])
    ensures ExprParser.Rpn([lpar, plus, rpar]) == Ok([plus])
    ensures !Sema.RpnOk([plus])
  {
    EmptyParensInfix(lpar, plus, rpar);
    ExprParser.ExampleEmptyParens(lpar, plus, rpar);
    assert [plus][..0] == [];
  }

  /** `( + )` meets both rules of `sema_infix`. */
  lemma EmptyParensInfix(lpar: Token, plus: Token, rpar: Token)
    requires lpar.kind == LPar && plus.kind == Add && rpar.kind == RPar
    ensures Sema.InfixOk([lpar, plus, rpar])
  {
    ParCounts3(lpar, plus, rpar);
  }

  /** Neither semantic check panics on what the front end gives it: `sema_infix`
      on what `collect` returns, `sema_rpn` on what `to_rpn` makes of that. */
  lemma ChecksDoNotPanic(s: seq<byte>, p: Tokenisers.Pos)
    requires p.offset <= |s| && Tokenisers.Collected(s, p).result.Ok?
    ensures Lexed(Tokenisers.Collected(s, p).result.value)
    ensures !Sema.InfixPanics(Tokenisers.Collected(s, p).result.value)
    ensures var ts := Tokenisers.Collected(s, p).result.value;
            ExprParser.Rpn(ts).Ok? ==> !Sema.RpnPanics(ExprParser.Rpn(ts).value)
  {
    var ts := Tokenisers.Collected(s, p).result.value;
    Tokenisers.CollectedIsStream(s, p);
    Tokenisers.CollectedAscii(s, p);
    Sema.NoPanicOnLexed(ts);
    if ExprParser.Rpn(ts).Ok? {
      var out := ExprParser.Rpn(ts).value;
      ExprParser.RpnFromInput(ts);
      assert Lexed(out) by {
        forall i | 0 <= i < |out|
          ensures IsLexeme(out[i])
        {
          if !out[i].kind.LPar? {
            var j :| 0 <= j < |ts| && ts[j] == out[i];
          }
        }
      }
      assert !Sema.RpnPanics(out);
    }
  }
}
