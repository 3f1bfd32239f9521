/** Printing and parsing are inverse: the printer inserts parentheses exactly where the grammar's
    precedence and left associativity would otherwise regroup the text. */
module ExprRoundTrip {
  import opened Wrappers
  import opened Doubles
  import opened ExprSyntax
  import opened ExprReading
  import G = ExprGrammar

  /** Printing then parsing gives the tree back. */
  lemma {:induction false} ParsePrinted(nums: Numerals, t: Expr)
    requires Lossless(nums) && Printable(t)
    ensures G.ParseExpr(nums, Print(nums, t)) == Success(t)
  {
    var s := Print(nums, t);
    assert s[0..0 + |s|] == s;
    NoOpsAtStop(s, |s|);
    PrintedParses(nums, s, 0, t, 1);
  }

  /** The round trip holds exactly for the printable trees. */
  lemma {:induction false} RoundTripExactly(nums: Numerals, t: Expr)
    requires Lossless(nums)
    ensures G.ParseExpr(nums, Print(nums, t)) == Success(t) <==> Printable(t)
  {
    if Printable(t) {
      ParsePrinted(nums, t);
    }
    LevelYieldsReadable(nums, Print(nums, t), 0, 1);
    if Readable(nums, t) { ReadableIsPrintable(nums, t); }
  }

  /** Whatever text a tree was read from, its printed form reads back to the same tree. */
  lemma {:induction false} ReprintReparses(nums: Numerals, s: string)
    requires Lossless(nums) && G.ParseExpr(nums, s).Success?
    ensures G.ParseExpr(nums, Print(nums, G.ParseExpr(nums, s).value)) == G.ParseExpr(nums, s)
  {
    LevelYieldsReadable(nums, s, 0, 1);
    ReadableIsPrintable(nums, G.ParseExpr(nums, s).value);
    ParsePrinted(nums, G.ParseExpr(nums, s).value);
  }
}
