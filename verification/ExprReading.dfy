/** Reading printed expressions back, by the shape of the tree.

    A text is looked at where it stands inside a longer one (`At`), because a subtree is printed in the middle of its
    parent. Every printed subtree `Reads` back at each level of the grammar up to its own grade: numerals, names and
    calls at the lowest, a prefix operator above them, a binary operator at its precedence. What follows the text must
    not continue it, which is what `NoOps` says, and this is where the printer's parentheses are needed. The second half
    goes the other way: every tree that the grammar yields for any text is one the printer can print. */
module ExprReading {
  import opened Wrappers
  import opened Doubles
  import opened ExprSyntax
  import G = ExprGrammar

  // ----- texts inside a larger string -----

  /** `w` stands in `s` at `i`. */
  ghost predicate At(s: string, i: nat, w: string) {
    i + |w| <= |s| && s[i..i + |w|] == w
  }

  lemma {:induction false} AtConcat(s: string, i: nat, a: string, b: string)
    requires At(s, i, a + b)
    ensures At(s, i, a) && At(s, i + |a|, b)
  {
    assert s[i..i + |a|] == (a + b)[..|a|];
    assert s[i + |a|..i + |a| + |b|] == (a + b)[|a|..];
  }

  lemma {:induction false} AtChar(s: string, i: nat, w: string, k: nat)
    requires At(s, i, w) && k < |w|
    ensures i + k < |s| && s[i + k] == w[k]
  {
    assert s[i..i + |w|][k] == s[i + k];
  }

  /** A character that ends a numeral, an identifier and an operand. */
  ghost predicate Stops(s: string, j: nat) {
    j == |s| || (j < |s| && (s[j] == ' ' || s[j] == ')' || s[j] == ','))
  }

  /** No operator of a level in `lo..6` follows position `j`. */
  ghost predicate NoOps(s: string, j: nat, lo: nat)
    requires j <= |s|
  {
    forall m :: lo <= m <= 6 ==> G.MatchOp(s, j, m).None?
  }

  lemma {:induction false} SkipWsTwice(s: string, i: nat)
    requires i <= |s|
    ensures G.SkipWs(s, G.SkipWs(s, i)) == G.SkipWs(s, i)
  {
  }

  /** Parsing an operand ignores leading white space. */
  lemma {:induction false} LevelSkipsWs(nums: Numerals, s: string, i: nat, k: nat)
    requires i <= |s| && 1 <= k <= 7
    ensures G.Level(nums, s, i, k) == G.Level(nums, s, G.SkipWs(s, i), k)
    decreases 7 - k
  {
    hide G.UnaryExpr, G.Tail;
    if k < 7 {
      LevelSkipsWs(nums, s, i, k + 1);
    } else {
      UnarySkipsWs(nums, s, i);
    }
  }

  lemma {:induction false} UnarySkipsWs(nums: Numerals, s: string, i: nat)
    requires i <= |s|
    ensures G.UnaryExpr(nums, s, i) == G.UnaryExpr(nums, s, G.SkipWs(s, i))
  {
    SkipWsTwice(s, i);
  }

  lemma {:induction false} MatchOpSkipsWs(s: string, j: nat, k: nat)
    requires j <= |s|
    ensures G.MatchOp(s, G.SkipWs(s, j), k) == G.MatchOp(s, j, k)
  {
    SkipWsTwice(s, j);
  }

  /** So does looking for the next operator. */
  lemma {:induction false} TailSkipsWs(nums: Numerals, s: string, j: nat, k: nat, left: Expr)
    requires j <= |s| && 1 <= k <= 6
    ensures G.Tail(nums, s, G.SkipWs(s, j), k, left) == G.Tail(nums, s, j, k, left)
  {
    hide G.MatchOp, G.Level, G.SkipWs;
    SkipWsTwice(s, j);
    MatchOpSkipsWs(s, j, k);
  }

  /** With no operator of levels `k+1..m` behind it, an operand of level `m` is one of level `k`. */
  lemma {:induction false} Descend(nums: Numerals, s: string, i: nat, j: nat, k: nat, m: nat, t: Expr)
    requires i <= |s| && j <= |s| && 1 <= k <= m <= 6
    requires NoOps(s, j, k + 1)
    requires G.Level(nums, s, i, m) == G.Tail(nums, s, j, m, t)
    ensures G.Level(nums, s, i, k) == G.Tail(nums, s, j, k, t)
    decreases m - k
  {
    if k < m {
      assert G.MatchOp(s, j, m).None?;
      TailSkipsWs(nums, s, j, m - 1, t);
      Descend(nums, s, i, j, k, m - 1, t);
    }
  }

  /** The grammar reads `t` at `i` as an operand of level `k`, and stands at `j` right behind it. */
  ghost predicate Reads(nums: Numerals, s: string, i: nat, k: nat, j: nat, t: Expr)
    requires i <= |s| && j <= |s| && 1 <= k <= 7
  {
    if k == 7 then G.UnaryExpr(nums, s, i) == G.Ok(t, j)
    else G.Level(nums, s, i, k) == G.Tail(nums, s, j, k, t)
  }

  lemma {:induction false} AtomReads(nums: Numerals, s: string, i: nat, k: nat, j: nat, t: Expr)
    requires i <= |s| && j <= |s| && 1 <= k <= 7
    requires G.UnaryExpr(nums, s, i) == G.Ok(t, j) && NoOps(s, j, k + 1)
    ensures Reads(nums, s, i, k, j, t)
  {
    if k < 7 {
      assert G.Level(nums, s, i, 7) == G.Ok(t, j);
      Descend(nums, s, i, j, k, 6, t);
    }
  }

  // ----- the pieces of printed text -----

  lemma {:induction false} NumeralEnds(s: string, start: nat, i: nat, j: nat)
    requires start <= i <= j <= |s|
    requires forall k :: i <= k < j ==> IsNumeralChar(s, start, k)
    requires j < |s| ==> !IsNumeralChar(s, start, j)
    ensures G.ScanNumeral(s, start, i) == j
    decreases j - i
  {
    if i < j { NumeralEnds(s, start, i + 1, j); }
  }

  lemma {:induction false} IdentEnds(s: string, i: nat, j: nat)
    requires i <= j <= |s|
    requires forall k :: i <= k < j ==> IsIdentChar(s[k])
    requires j < |s| ==> !IsIdentChar(s[j])
    ensures G.ScanIdent(s, i) == j
    decreases j - i
  {
    if i < j { IdentEnds(s, i + 1, j); }
  }

  lemma {:induction false} QuoteEnds(s: string, i: nat, j: nat)
    requires i <= j < |s| && s[j] == '"'
    requires forall k :: i <= k < j ==> s[k] != '"'
    ensures G.ScanToQuote(s, i) == j
    decreases j - i
  {
    if i < j { QuoteEnds(s, i + 1, j); }
  }

  lemma {:induction false} NumeralAt(nums: Numerals, s: string, i: nat, v: Double)
    requires Lossless(nums) && NonNegativeFinite(v)
    requires At(s, i, nums.toText(v)) && Stops(s, i + |nums.toText(v)|)
    ensures G.UnaryExpr(nums, s, i) == G.Ok(Num(v), i + |nums.toText(v)|)
  {
    var w := nums.toText(v);
    assert IsNumeralText(w) && nums.ofText(w) == Some(v);
    forall k | i <= k < i + |w|
      ensures s[k] == w[k - i] && IsNumeralChar(s, i, k)
    {
      AtChar(s, i, w, k - i);
      assert IsNumeralChar(w, 0, k - i);
      if k > i { AtChar(s, i, w, k - i - 1); }
    }
    assert s[i] == w[0];
    NumeralEnds(s, i, i, i + |w|);
    assert G.Number(nums, s, i) == G.Ok(Num(v), i + |w|);
  }

  lemma {:induction false} QuotedAt(s: string, i: nat, name: string)
    requires name != "" && '"' !in name
    requires i + |name| + 1 < |s| && s[i] == '"' && s[i + 1 + |name|] == '"'
    requires At(s, i + 1, name)
    ensures G.Quoted(s, i) == G.Ok(Tag(name), i + |name| + 2)
  {
    var e := i + 1 + |name|;
    forall k | i + 1 <= k < e ensures s[k] != '"' {
      AtChar(s, i + 1, name, k - (i + 1));
      assert name[k - (i + 1)] in name;
    }
    QuoteEnds(s, i + 1, e);
  }

  /** `( text )`, given that the text inside parses to `t`. */
  lemma {:induction false} ParenthesizedAt(nums: Numerals, s: string, i: nat, j: nat, t: Expr)
    requires i < j < |s| && s[i] == '(' && s[j] == ')'
    requires Reads(nums, s, i + 1, 1, j, t)
    ensures G.UnaryExpr(nums, s, i) == G.Ok(t, j + 1)
  {
    assert G.Level(nums, s, i + 1, 1) == G.Ok(t, j);
    assert G.Primary(nums, s, i) == G.Ok(t, j + 1);
  }

  /** A closing parenthesis, a comma or the end of the text is never an operator. */
  lemma {:induction false} NoOpsAtStop(s: string, j: nat)
    requires j <= |s| && (j == |s| || s[j] == ')' || s[j] == ',')
    ensures NoOps(s, j, 1)
  {
    assert G.SkipWs(s, j) == j;
  }

  /** What the scanner sees at ` op `: exactly `op`, and nothing of a tighter level. */
  lemma {:induction false} OperatorAt(s: string, j: nat, op: BinOp)
    requires At(s, j, " " + Symbol(op) + " ")
    ensures var e := j + 1 + |Symbol(op)|;
            e < |s| && s[j] == ' ' && s[e] == ' ' && G.MatchOp(s, j, Precedence(op)) == Some((op, e))
    ensures NoOps(s, j, Precedence(op) + 1)
  {
    var w := " " + Symbol(op) + " ";
    AtChar(s, j, w, 0); AtChar(s, j, w, 1); AtChar(s, j, w, 2);
    if |w| == 4 { AtChar(s, j, w, 3); }
    assert G.SkipWs(s, j + 1) == j + 1;
    assert G.SkipWs(s, j) == j + 1;
  }

  lemma {:induction false} FuncNamesDiffer(f: Func, g: Func)
    requires FuncName(f) == FuncName(g)
    ensures f == g
  {
    var w := FuncName(f);
    assert |w| == |FuncName(g)| && w[0] == FuncName(g)[0] && w[1] == FuncName(g)[1];
    assert |w| >= 3 ==> w[2] == FuncName(g)[2];
  }

  lemma {:induction false} LookupFinds(fn: Func, table: seq<Func>)
    ensures fn in table ==> Lookup(FuncName(fn), table) == Some(fn)
    ensures fn !in table ==> Lookup(FuncName(fn), table) == None
  {
    if table != [] {
      if FuncName(table[0]) == FuncName(fn) { FuncNamesDiffer(table[0], fn); }
      LookupFinds(fn, table[1..]);
    }
  }

  lemma {:induction false} FuncNameFound(fn: Func)
    ensures FuncByName(FuncName(fn)) == Some(fn)
  {
    LookupFinds(fn, UNARY_FUNCS);
    LookupFinds(fn, BINARY_FUNCS);
    if Arity(fn) == 2 {
      assert fn in BINARY_FUNCS by {
        assert BINARY_FUNCS[0] == Pow && BINARY_FUNCS[1] == Min && BINARY_FUNCS[2] == Func.Max;
      }
    } else {
      assert fn in UNARY_FUNCS by { UnaryTableComplete(fn); }
    }
  }

  lemma {:induction false} UnaryTableComplete(fn: Func)
    requires Arity(fn) == 1
    ensures fn in UNARY_FUNCS
  {
    var u := UNARY_FUNCS;
    assert u[0] == Abs && u[1] == Floor && u[2] == Ceil && u[3] == Round && u[4] == Sqrt && u[5] == Sin && u[6] == Cos;
    assert u[7] == Tan && u[8] == Asin && u[9] == Acos && u[10] == Atan && u[11] == Ln && u[12] == Log && u[13] == Exp;
  }

  ghost predicate IsIdent(w: string) {
    w != "" && IsIdentStart(w[0]) && forall k :: 0 <= k < |w| ==> IsIdentChar(w[k])
  }

  lemma {:induction false} FuncNameIsIdent(fn: Func)
    ensures IsIdent(FuncName(fn)) && FuncName(fn) != "tag"
  {
    assert "tag"[2] == 'g';
  }

  lemma {:induction false} IdentAt(nums: Numerals, s: string, i: nat, w: string)
    requires IsIdent(w) && At(s, i, w + "(")
    ensures G.ScanIdent(s, i) == i + |w| && s[i..i + |w|] == w && G.Sees(s, i + |w|, '(')
    ensures G.UnaryExpr(nums, s, i) == G.Ident(nums, s, i)
  {
    AtConcat(s, i, w, "(");
    var p := i + |w|;
    AtChar(s, p, "(", 0);
    forall k | i <= k < p ensures s[k] == w[k - i] { AtChar(s, i, w, k - i); }
    IdentEnds(s, i, p);
    assert s[i] == w[0];
    assert G.Primary(nums, s, i) == G.Ident(nums, s, i);
  }

  lemma {:induction false} TagFormAt(s: string, i: nat, name: string)
    requires name != "" && '"' !in name
    requires At(s, i, "(\"") && At(s, i + 2, name) && At(s, i + 2 + |name|, "\")")
    ensures G.TagForm(s, i) == G.Ok(Tag(name), i + |name| + 4)
  {
    var e := i + 2 + |name|;
    AtChar(s, i, "(\"", 0); AtChar(s, i, "(\"", 1);
    AtChar(s, e, "\")", 0); AtChar(s, e, "\")", 1);
    QuotedAt(s, i + 1, name);
  }

  lemma {:induction false} TagTextAt(nums: Numerals, s: string, i: nat, name: string)
    requires At(s, i, Print(nums, Tag(name)))
    ensures At(s, i, "tag" + "(") && At(s, i + 3, "(\"") && At(s, i + 5, name) && At(s, i + 5 + |name|, "\")")
    ensures |Print(nums, Tag(name))| == |name| + 7
  {
    assert Print(nums, Tag(name)) == ("tag" + ("(\"" + name)) + "\")";
    AtConcat(s, i, "tag" + ("(\"" + name), "\")");
    AtConcat(s, i, "tag", "(\"" + name);
    AtConcat(s, i + 3, "(\"", name);
    AtChar(s, i + 3, "(\"", 0);
  }

  lemma {:induction false} TagAt(nums: Numerals, s: string, i: nat, name: string)
    requires name != "" && '"' !in name
    requires At(s, i, Print(nums, Tag(name)))
    ensures G.UnaryExpr(nums, s, i) == G.Ok(Tag(name), i + |Print(nums, Tag(name))|)
  {
    hide G.UnaryExpr, G.TagForm, G.SkipWs, Print, At;
    TagTextAt(nums, s, i, name);
    TagFormAt(s, i + 3, name);
    assert "tag"[0] == 't' && "tag"[1] == 'a' && "tag"[2] == 'g';
    IdentAt(nums, s, i, "tag");
  }

  lemma {:induction false} CallHeadAt(nums: Numerals, s: string, i: nat, fn: Func)
    requires At(s, i, FuncName(fn) + "(")
    ensures G.UnaryExpr(nums, s, i) == G.Arguments(nums, s, i + |FuncName(fn)| + 1, FuncName(fn))
  {
    hide FuncName, G.Arguments, IsIdent, G.UnaryExpr;
    FuncNameIsIdent(fn);
    var w := FuncName(fn);
    AtChar(s, i, w + "(", |w|);
    IdentAt(nums, s, i, w);
  }

  // ----- the induction -----

  ghost function Grade(t: Expr): (k: nat)
    ensures 1 <= k <= 7
  {
    if t.Binary? then Precedence(t.bop) else 7
  }

  /** The text of `t` stands at `i` (parenthesised if `wrap`), and no operator that would extend it
      at level `k` comes behind it. */
  ghost predicate Stands(nums: Numerals, s: string, i: nat, t: Expr, wrap: bool, k: nat) {
    && Lossless(nums) && Printable(t) && 1 <= k <= 7 && (!wrap ==> k <= Grade(t))
    && At(s, i, Parenthesized(wrap, Print(nums, t)))
    && Stops(s, i + |Parenthesized(wrap, Print(nums, t))|)
    && NoOps(s, i + |Parenthesized(wrap, Print(nums, t))|, k + 1)
  }

  /** Printed text parses, at any level loose enough for it, to the tree it came from. */
  lemma {:induction false} PrintedParses(nums: Numerals, s: string, i: nat, t: Expr, k: nat)
    requires Stands(nums, s, i, t, false, k)
    ensures Reads(nums, s, i, k, i + |Print(nums, t)|, t)
    decreases t, 1
  {
    hide G.Level, G.Tail, G.UnaryExpr, G.MatchOp, G.SkipWs, Lossless, At;
    var j := i + |Print(nums, t)|;
    match t {
      case Binary(op, l, r) =>
        BinaryParses(nums, s, i, t);
        Descend(nums, s, i, j, k, Precedence(op), t);
      case Num(v) =>
        NumeralAt(nums, s, i, v);
        AtomReads(nums, s, i, k, j, t);
      case Tag(name) =>
        TagAt(nums, s, i, name);
        AtomReads(nums, s, i, k, j, t);
      case Unary(op, arg) =>
        UnaryParses(nums, s, i, t);
        AtomReads(nums, s, i, k, j, t);
      case Call(fn, args) =>
        CallParses(nums, s, i, t);
        AtomReads(nums, s, i, k, j, t);
    }
  }

  /** The two parentheses of a wrapped operand and the text between them. */
  lemma {:induction false} WrappedAt(s: string, i: nat, w: string)
    requires At(s, i, Parenthesized(true, w))
    ensures var j := i + 1 + |w|; j < |s| && s[i] == '(' && s[j] == ')' && At(s, i + 1, w)
  {
    AtConcat(s, i, "(" + w, ")");
    AtConcat(s, i, "(", w);
    AtChar(s, i, "(", 0);
    AtChar(s, i + 1 + |w|, ")", 0);
  }

  lemma {:induction false} OperandParses(nums: Numerals, s: string, i: nat, t: Expr, wrap: bool, k: nat)
    requires Stands(nums, s, i, t, wrap, k)
    ensures Reads(nums, s, i, k, i + |Parenthesized(wrap, Print(nums, t))|, t)
    decreases t, 2
  {
    hide G.Level, G.Tail, G.UnaryExpr, G.MatchOp, G.SkipWs, Lossless, Reads, At, Print, Printable;
    if wrap {
      var w := Print(nums, t);
      var j := i + 1 + |w|;
      WrappedAt(s, i, w);
      NoOpsAtStop(s, j);
      assert Stands(nums, s, i + 1, t, false, 1);
      PrintedParses(nums, s, i + 1, t, 1);
      ParenthesizedAt(nums, s, i, j, t);
      AtomReads(nums, s, i, k, j + 1, t);
    } else {
      PrintedParses(nums, s, i, t, k);
    }
  }

  /** A left operand read at level `p`, the operator, and a right operand read one level tighter. */
  lemma {:induction false} BinaryReads(nums: Numerals, s: string, i: nat, m: nat, e: nat, j: nat, t: Expr)
    requires i <= m <= |s| && e < |s| && j <= |s| && t.Binary? && s[e] == ' '
    requires Reads(nums, s, i, Precedence(t.bop), m, t.left)
    requires G.MatchOp(s, m, Precedence(t.bop)) == Some((t.bop, e))
    requires Reads(nums, s, e + 1, Precedence(t.bop) + 1, j, t.right)
    requires NoOps(s, j, Precedence(t.bop) + 1)
    ensures Reads(nums, s, i, Precedence(t.bop), j, t)
  {
    hide Precedence, G.MatchOp, G.UnaryExpr, G.Primary;
    var p := Precedence(t.bop);
    assert G.SkipWs(s, e) == G.SkipWs(s, e + 1);
    LevelSkipsWs(nums, s, e, p + 1);
    LevelSkipsWs(nums, s, e + 1, p + 1);
    if p < 6 {
      assert G.MatchOp(s, j, p + 1).None?;
      assert G.Level(nums, s, e, p + 1) == G.Ok(t.right, G.SkipWs(s, j));
      TailSkipsWs(nums, s, j, p, t);
    } else {
      assert G.Level(nums, s, e, 7) == G.Ok(t.right, j);
    }
  }

  lemma {:induction false} BinaryAt(nums: Numerals, s: string, i: nat, t: Expr)
    requires t.Binary? && At(s, i, Print(nums, t))
    ensures var p := Precedence(t.bop);
            var lt := Parenthesized(NeedsParens(t.left, p, false), Print(nums, t.left));
            var rt := Parenthesized(NeedsParens(t.right, p, true), Print(nums, t.right));
            var m := i + |lt|;
            && At(s, i, lt) && At(s, m, " " + Symbol(t.bop) + " ") && At(s, m + |Symbol(t.bop)| + 2, rt)
            && |Print(nums, t)| == |lt| + |Symbol(t.bop)| + 2 + |rt|
  {
    hide Symbol;
    var Binary(op, l, r) := t;
    var p := Precedence(op);
    var lt := Parenthesized(NeedsParens(l, p, false), Print(nums, l));
    var rt := Parenthesized(NeedsParens(r, p, true), Print(nums, r));
    var mid := " " + Symbol(op) + " ";
    assert Print(nums, t) == (lt + mid) + rt;
    AtConcat(s, i, lt + mid, rt);
    AtConcat(s, i, lt, mid);
  }

  lemma {:induction false} BinaryParses(nums: Numerals, s: string, i: nat, t: Expr)
    requires t.Binary? && Stands(nums, s, i, t, false, Precedence(t.bop))
    ensures Reads(nums, s, i, Precedence(t.bop), i + |Print(nums, t)|, t)
    decreases t, 0
  {
    hide G.Level, G.Tail, G.UnaryExpr, G.MatchOp, G.SkipWs, Lossless, Reads, At, Print;
    var Binary(op, l, r) := t;
    var p := Precedence(op);
    var lw, rw := NeedsParens(l, p, false), NeedsParens(r, p, true);
    var lt, rt := Parenthesized(lw, Print(nums, l)), Parenthesized(rw, Print(nums, r));
    BinaryAt(nums, s, i, t);
    var m := i + |lt|;
    var e := m + 1 + |Symbol(op)|;
    OperatorAt(s, m, op);
    assert Stands(nums, s, i, l, lw, p);
    OperandParses(nums, s, i, l, lw, p);
    assert Stands(nums, s, e + 1, r, rw, p + 1);
    OperandParses(nums, s, e + 1, r, rw, p + 1);
    BinaryReads(nums, s, i, m, e, e + 1 + |rt|, t);
  }

  lemma {:induction false} UnaryReads(nums: Numerals, s: string, i: nat, j: nat, op: UnaryOp, arg: Expr)
    requires i < |s| && s[i] == (if op.Neg? then '-' else '!')
    requires G.UnaryExpr(nums, s, i + 1) == G.Ok(arg, j)
    ensures G.UnaryExpr(nums, s, i) == G.Ok(Unary(op, arg), j)
  {
    hide G.Primary;
    assert G.SkipWs(s, i) == i;
  }

  lemma {:induction false} UnaryAt(nums: Numerals, s: string, i: nat, t: Expr)
    requires t.Unary? && At(s, i, Print(nums, t))
    ensures i < |s| && s[i] == (if t.op.Neg? then '-' else '!')
    ensures var w := Parenthesized(t.arg.Binary?, Print(nums, t.arg));
            At(s, i + 1, w) && |Print(nums, t)| == 1 + |w|
  {
    var sign := if t.op.Neg? then "-" else "!";
    AtConcat(s, i, sign, Parenthesized(t.arg.Binary?, Print(nums, t.arg)));
    AtChar(s, i, sign, 0);
  }

  lemma {:induction false} UnaryParses(nums: Numerals, s: string, i: nat, t: Expr)
    requires t.Unary? && Stands(nums, s, i, t, false, 7)
    ensures G.UnaryExpr(nums, s, i) == G.Ok(t, i + |Print(nums, t)|)
    decreases t, 0
  {
    hide G.UnaryExpr, G.MatchOp, G.Level, G.Tail, Lossless, At, Print;
    UnaryAt(nums, s, i, t);
    assert Stands(nums, s, i + 1, t.arg, t.arg.Binary?, 7);
    OperandParses(nums, s, i + 1, t.arg, t.arg.Binary?, 7);
    UnaryReads(nums, s, i, i + |Print(nums, t)|, t.op, t.arg);
  }

  /** An operand that ends at a comma or a closing parenthesis, with or without a space in front. */
  lemma {:induction false} ReadsWhole(nums: Numerals, s: string, i: nat, j: nat, t: Expr)
    requires i <= |s| && j < |s| && (s[j] == ')' || s[j] == ',')
    requires Reads(nums, s, i, 1, j, t)
    ensures G.Level(nums, s, i, 1) == G.Ok(t, j)
    ensures i > 0 && s[i - 1] == ' ' ==> G.Level(nums, s, i - 1, 1) == G.Ok(t, j)
  {
    assert G.MatchOp(s, j, 1).None? && G.SkipWs(s, j) == j;
    if i > 0 && s[i - 1] == ' ' {
      assert G.SkipWs(s, i - 1) == G.SkipWs(s, i);
      LevelSkipsWs(nums, s, i - 1, 1);
      LevelSkipsWs(nums, s, i, 1);
    }
  }

  /** Reading the arguments up to the closing parenthesis at `e`. */
  lemma {:induction false} OneArgument(nums: Numerals, s: string, a: nat, e: nat, fn: Func, x: Expr)
    requires 0 < a <= |s| && e < |s| && s[e] == ')' && Arity(fn) == 1
    requires Reads(nums, s, a, 1, e, x)
    ensures G.Arguments(nums, s, a, FuncName(fn)) == G.Ok(Call(fn, [x]), e + 1)
  {
    hide FuncByName, FuncName, G.Level, G.Tail, Reads;
    FuncNameFound(fn);
    ReadsWhole(nums, s, a, e, x);
  }

  lemma {:induction false} TwoArguments(
    nums: Numerals, s: string, a: nat, c: nat, e: nat, fn: Func, x: Expr, y: Expr)
    requires 0 < a <= |s| && c + 1 < |s| && e < |s|
    requires s[c] == ',' && s[c + 1] == ' ' && s[e] == ')' && Arity(fn) == 2
    requires Reads(nums, s, a, 1, c, x) && Reads(nums, s, c + 2, 1, e, y)
    ensures G.Arguments(nums, s, a, FuncName(fn)) == G.Ok(Call(fn, [x, y]), e + 1)
  {
    hide FuncByName, FuncName, G.Level, G.Tail, Reads;
    FuncNameFound(fn);
    ReadsWhole(nums, s, a, c, x);
    ReadsWhole(nums, s, c + 2, e, y);
  }

  lemma {:induction false} CallAt(nums: Numerals, s: string, i: nat, t: Expr)
    requires t.Call? && At(s, i, Print(nums, t))
    ensures var a := i + |FuncName(t.fn)| + 1;
            var e := a + |PrintArgs(nums, t.args)|;
            && At(s, i, FuncName(t.fn) + "(") && At(s, a, PrintArgs(nums, t.args))
            && |Print(nums, t)| == e + 1 - i && e < |s| && s[e] == ')'
  {
    hide FuncName, PrintArgs;
    var head, inner := FuncName(t.fn) + "(", PrintArgs(nums, t.args);
    AtConcat(s, i, head + inner, ")");
    AtConcat(s, i, head, inner);
    AtChar(s, i + |head| + |inner|, ")", 0);
  }

  lemma {:induction false} PairAt(nums: Numerals, s: string, a: nat, args: seq<Expr>)
    requires |args| == 2 && At(s, a, PrintArgs(nums, args))
    ensures var c := a + |Print(nums, args[0])|;
            && c + 1 < |s| && s[c] == ',' && s[c + 1] == ' '
            && At(s, a, Print(nums, args[0])) && At(s, c + 2, Print(nums, args[1]))
            && |PrintArgs(nums, args)| == c + 2 - a + |Print(nums, args[1])|
  {
    var first, second := Print(nums, args[0]), Print(nums, args[1]);
    assert PrintArgs(nums, args[1..]) == second;
    assert PrintArgs(nums, args) == (first + ", ") + second;
    hide Print, PrintArgs;
    AtConcat(s, a, first + ", ", second);
    AtConcat(s, a, first, ", ");
    AtChar(s, a + |first|, ", ", 0);
    AtChar(s, a + |first|, ", ", 1);
  }

  lemma {:induction false} CallParses(nums: Numerals, s: string, i: nat, t: Expr)
    requires t.Call? && Stands(nums, s, i, t, false, 7)
    ensures G.UnaryExpr(nums, s, i) == G.Ok(t, i + |Print(nums, t)|)
    decreases t, 0
  {
    hide G.Level, G.Tail, G.UnaryExpr, G.MatchOp, G.SkipWs, G.Arguments, Lossless, Reads, FuncName, At, Print;
    var Call(fn, args) := t;
    CallAt(nums, s, i, t);
    CallHeadAt(nums, s, i, fn);
    var a := i + |FuncName(fn)| + 1;
    var e := a + |PrintArgs(nums, args)|;
    NoOpsAtStop(s, e);
    if Arity(fn) == 1 {
      assert PrintArgs(nums, args) == Print(nums, args[0]);
      PrintedParses(nums, s, a, args[0], 1);
      OneArgument(nums, s, a, e, fn, args[0]);
      assert args == [args[0]];
    } else {
      hide PrintArgs;
      PairAt(nums, s, a, args);
      var c := a + |Print(nums, args[0])|;
      NoOpsAtStop(s, c);
      PrintedParses(nums, s, a, args[0], 1);
      PrintedParses(nums, s, c + 2, args[1], 1);
      TwoArguments(nums, s, a, c, e, fn, args[0], args[1]);
      assert args == [args[0], args[1]];
    }
  }

  ghost predicate IsReading(nums: Numerals, w: string, v: Double) {
    nums.ofText(w) == Some(v)
  }

  /** What a parser can build: literals some numeral reads as, names the lexer lets through, and calls
      with their own arity. */
  ghost predicate Readable(nums: Numerals, t: Expr)
    decreases t
  {
    match t
    case Num(v) => exists w :: IsReading(nums, w, v)
    case Tag(name) => name != "" && '"' !in name
    case Unary(_, arg) => Readable(nums, arg)
    case Binary(_, l, r) => Readable(nums, l) && Readable(nums, r)
    case Call(fn, args) => |args| == Arity(fn) && forall i :: 0 <= i < |args| ==> Readable(nums, args[i])
  }

  lemma {:induction false} ReadableIsPrintable(nums: Numerals, t: Expr)
    requires Readable(nums, t)
    ensures Saturated(t)
    ensures Lossless(nums) ==> Printable(t)
    decreases t
  {
    match t
    case Num(v) =>
      var w :| IsReading(nums, w, v);
    case Tag(_) =>
    case Unary(_, arg) => ReadableIsPrintable(nums, arg);
    case Binary(_, l, r) =>
      ReadableIsPrintable(nums, l);
      ReadableIsPrintable(nums, r);
    case Call(_, args) =>
      forall i | 0 <= i < |args| ensures Saturated(args[i]) && (Lossless(nums) ==> Printable(args[i])) {
        ReadableIsPrintable(nums, args[i]);
      }
  }

  ghost predicate YieldsReadable(nums: Numerals, r: G.Parsed) {
    r.Ok? ==> Readable(nums, r.tree)
  }

  lemma {:induction false} LevelYieldsReadable(nums: Numerals, s: string, i: nat, k: nat)
    requires i <= |s| && 1 <= k <= 7
    ensures YieldsReadable(nums, G.Level(nums, s, i, k))
    decreases |s| - i, 10 - k
  {
    if k == 7 {
      UnaryYieldsReadable(nums, s, i);
    } else {
      LevelYieldsReadable(nums, s, i, k + 1);
      var r := G.Level(nums, s, i, k + 1);
      if r.Ok? { TailYieldsReadable(nums, s, r.pos, k, r.tree); }
    }
  }

  lemma {:induction false} TailYieldsReadable(nums: Numerals, s: string, j: nat, k: nat, left: Expr)
    requires j <= |s| && 1 <= k <= 6 && Readable(nums, left)
    ensures YieldsReadable(nums, G.Tail(nums, s, j, k, left))
    decreases |s| - j, 0
  {
    var m := G.MatchOp(s, j, k);
    if m.Some? {
      var (op, j') := m.value;
      LevelYieldsReadable(nums, s, j', k + 1);
      var r := G.Level(nums, s, j', k + 1);
      if r.Ok? { TailYieldsReadable(nums, s, r.pos, k, Binary(op, left, r.tree)); }
    }
  }

  lemma {:induction false} UnaryYieldsReadable(nums: Numerals, s: string, i: nat)
    requires i <= |s|
    ensures YieldsReadable(nums, G.UnaryExpr(nums, s, i))
    decreases |s| - i, 2
  {
    var j := G.SkipWs(s, i);
    if G.Sees(s, i, '!') || G.Sees(s, i, '-') {
      UnaryYieldsReadable(nums, s, j + 1);
    } else {
      PrimaryYieldsReadable(nums, s, j);
    }
  }

  lemma {:induction false} PrimaryYieldsReadable(nums: Numerals, s: string, i: nat)
    requires i <= |s|
    ensures YieldsReadable(nums, G.Primary(nums, s, i))
    decreases |s| - i, 1
  {
    if i < |s| {
      if s[i] == '(' {
        LevelYieldsReadable(nums, s, i + 1, 1);
      } else if s[i] == '"' {
        QuotedYieldsReadable(nums, s, i);
      } else if IsDigit(s[i]) || s[i] == '.' {
        var w := s[i..G.ScanNumeral(s, i, i)];
        assert nums.ofText(w).Some? ==> IsReading(nums, w, nums.ofText(w).value);
      } else if IsIdentStart(s[i]) {
        IdentYieldsReadable(nums, s, i);
      }
    }
  }

  lemma {:induction false} QuotedYieldsReadable(nums: Numerals, s: string, i: nat)
    requires i < |s| && s[i] == '"'
    ensures YieldsReadable(nums, G.Quoted(s, i))
  {
  }

  lemma {:induction false} IdentYieldsReadable(nums: Numerals, s: string, i: nat)
    requires i < |s| && IsIdentStart(s[i])
    ensures YieldsReadable(nums, G.Ident(nums, s, i))
    decreases |s| - i, 0
  {
    hide G.Arguments, G.Quoted, G.SkipWs;
    var j := G.ScanIdent(s, i);
    var name := s[i..j];
    assert j > i;
    if name == "tag" {
      if G.Sees(s, j, '(') {
        var q := G.SkipWs(s, j) + 1;
        if G.Sees(s, q, '"') { QuotedYieldsReadable(nums, s, G.SkipWs(s, q)); }
      }
    } else if G.Sees(s, j, '(') {
      ArgumentsYieldReadable(nums, s, G.SkipWs(s, j) + 1, name);
    } else {
      assert forall k :: 0 <= k < |name| ==> IsIdentChar(name[k]) && name[k] != '"';
    }
  }

  lemma {:induction false} ArgumentsYieldReadable(nums: Numerals, s: string, i: nat, name: string)
    requires 0 < i <= |s|
    ensures YieldsReadable(nums, G.Arguments(nums, s, i, name))
    decreases |s| - i, 20
  {
    hide FuncByName, G.Level;
    LevelYieldsReadable(nums, s, i, 1);
    var r := G.Level(nums, s, i, 1);
    if r.Ok? && G.Sees(s, r.pos, ',') {
      LevelYieldsReadable(nums, s, G.SkipWs(s, r.pos) + 1, 1);
    }
  }
}
