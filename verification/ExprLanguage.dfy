/** The texts that both parsers accept are exactly the sentences of the rule language, each with its own tree. */
module ExprLanguage {
  import opened Wrappers
  import opened Doubles
  import opened ExprSyntax
  import opened ExprSentences
  import opened ExprGrammar
  import ExprReading
  import ExprAccepts
  import ExprDerives
  import ExprEval
  import ExprMeaning
  import ExprProgram

  /** `s` is a sentence, with white space around it, that stands for `t`. */
  ghost predicate Stands(nums: Numerals, s: string, t: Expr) {
    exists p: Padded :: PaddedText(p) == s && Spaced(p) && Proper(nums, p.body) && Tree(nums, p.body) == t
  }

  lemma {:induction false} SentenceParses(nums: Numerals, p: Padded)
    requires Spaced(p) && Proper(nums, p.body)
    ensures ParseExpr(nums, PaddedText(p)) == Success(Tree(nums, p.body))
  {
    hide Proper, Tree, Text, Spaced, Level;
    var s := PaddedText(p);
    assert s[0..0 + |s|] == s;
    assert ExprReading.At(s, 0, s);
    ExprAccepts.PaddedReads(nums, s, 0, p);
  }

  lemma {:induction false} ParsesExactly(nums: Numerals, s: string, t: Expr)
    ensures ParseExpr(nums, s) == Success(t) <==> Stands(nums, s, t)
  {
    hide Proper, Tree, Text, Spaced, Level, SkipWs;
    if ParseExpr(nums, s) == Success(t) {
      var r := Level(nums, s, 0, 1);
      var p := ExprDerives.LevelSpells(nums, s, 0, 1);
      p := ExprDerives.SpellsOn(nums, s, 0, r.pos, p, t);
      assert s[0..|s|] == s;
    }
    if Stands(nums, s, t) {
      var p: Padded :| PaddedText(p) == s && Spaced(p) && Proper(nums, p.body) && Tree(nums, p.body) == t;
      SentenceParses(nums, p);
    }
  }

  /** No text has two readings. */
  lemma {:induction false} Unambiguous(nums: Numerals, p: Padded, q: Padded)
    requires Spaced(p) && Proper(nums, p.body) && Spaced(q) && Proper(nums, q.body) && PaddedText(p) == PaddedText(q)
    ensures Tree(nums, p.body) == Tree(nums, q.body)
  {
    hide Proper, Tree, PaddedText, Spaced;
    SentenceParses(nums, p);
    SentenceParses(nums, q);
  }

  lemma {:induction false} PlainParses(nums: Numerals, e: Sentence)
    requires Proper(nums, e)
    ensures ParseExpr(nums, Text(e)) == Success(Tree(nums, e))
  {
    hide Proper, Tree, Text, ParseExpr;
    var p := Padded("", e, "");
    assert PaddedText(p) == Text(e);
    SentenceParses(nums, p);
  }

  // ----- names -----

  /** The three ways to write a tag: bare, in quotes, and `tag("..")`. */
  lemma {:induction false} TagForms(nums: Numerals, w: string)
    ensures Word(w) && w != "tag" ==> ParseExpr(nums, w) == Success(Tag(w))
    ensures w != "" && '"' !in w ==>
              && ParseExpr(nums, "\"" + w + "\"") == Success(Tag(w))
              && ParseExpr(nums, "tag(\"" + w + "\")") == Success(Tag(w))
  {
    hide ParseExpr;
    if Word(w) && w != "tag" { PlainParses(nums, Bare(w)); }
    if w != "" && '"' !in w {
      PlainParses(nums, Short(w));
      PlainParses(nums, Long("", "", w, ""));
      assert Text(Long("", "", w, "")) == "tag(\"" + w + "\")";
    }
  }

  // ----- grouping -----

  /** Two operators in a row: the tighter one takes its operands first, and equals group to the left. */
  lemma {:induction false} Grouping(nums: Numerals, x: Sentence, o: string, y: Sentence, o': string, z: Sentence)
    requires Proper(nums, x) && Proper(nums, y) && Proper(nums, z) && Rank(x) == Rank(y) == Rank(z) == 7
    requires Operator(o).Some? && Operator(o').Some?
    ensures var a, b, c := Tree(nums, x), Tree(nums, y), Tree(nums, z);
            var op, op' := Operator(o).value, Operator(o').value;
            ParseExpr(nums, Text(x) + " " + o + " " + Text(y) + " " + o' + " " + Text(z)) ==
            Success(if Tier(o) >= Tier(o') then Binary(op', Binary(op, a, b), c) else Binary(op, a, Binary(op', b, c)))
  {
    hide ParseExpr, Operator, Tier;
    var s := Text(x) + " " + o + " " + Text(y) + " " + o' + " " + Text(z);
    var e :=
      if Tier(o) >= Tier(o') then Infix(Infix(x, " ", o, " ", y), " ", o', " ", z)
      else Infix(x, " ", o, " ", Infix(y, " ", o', " ", z));
    RightText(Text(x), o, Text(y), o', Text(z));
    assert Text(e) == s;
    PlainParses(nums, e);
  }

  lemma {:induction false} RightText(x: string, o: string, y: string, o': string, z: string)
    ensures x + " " + o + " " + (y + " " + o' + " " + z) == x + " " + o + " " + y + " " + o' + " " + z
  {
  }

  /** A comparison of a tag with a number is 1.0 exactly when the tag's value is beyond the number. */
  lemma {:induction false} Threshold(
    nums: Numerals, A: ExprEval.Arith, tags: seq<ExprEval.TagValue>, w: string, d: string, k: nat)
    requires Word(w) && w != "tag" && NumeralWord(d) && nums.ofText(d).Some?
    requires k < |tags| && tags[k].name == w && forall i :: 0 <= i < k ==> tags[i].name != w
    ensures var t := Binary(Gt, Tag(w), Num(nums.ofText(d).value));
            && ParseExpr(nums, w + " > " + d) == Success(t)
            && ExprEval.Evaluated(A, tags, t) == if A.lt(nums.ofText(d).value, tags[k].value) then ONE else ZERO
  {
    hide ParseExpr, ExprProgram.Peak, ExprEval.Value;
    var e := Infix(Bare(w), " ", ">", " ", Numeral(d));
    var v := nums.ofText(d).value;
    assert Text(e) == w + " > " + d;
    PlainParses(nums, e);
    ExprMeaning.Leaves(A, tags, v, w, k);
    ExprMeaning.Comparisons(A, tags, Num(v), Tag(w));
    ExprMeaning.Mirrored(A, tags, Tag(w), Num(v));
    SmallPeak(Gt, Tag(w), Num(v));
  }

  lemma {:induction false} SmallPeak(op: BinOp, l: Expr, r: Expr)
    requires (l.Num? || l.Tag?) && (r.Num? || r.Tag?)
    ensures ExprProgram.Peak(Binary(op, l, r)) < ExprEval.MAX_STACK
  {
  }
}
