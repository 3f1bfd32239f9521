/** Every sentence is read as the tree it stands for.

    A sentence is looked at where it stands inside a longer text. What follows it must not run on into it: `Free` says
    that only an operator, a closing parenthesis, a comma or the end comes next, and `Cut` that a sign is not swallowed
    by an unfinished exponent. The induction is over the sentence. White space costs nothing, because positions are
    compared after skipping it: `Got` and `ReadAs` say where the grammar stands up to the white space behind it. */
module ExprAccepts {
  import opened Wrappers
  import opened ExprSyntax
  import opened ExprSentences
  import opened ExprReading
  import G = ExprGrammar

  // ----- what may follow -----

  ghost predicate Free(s: string, j: nat) {
    j <= |s| && (var p := G.SkipWs(s, j); p < |s| ==> s[p] in "),|&=!<>+-*/%")
  }

  ghost predicate Cut(s: string, j: nat, e: Sentence) {
    Open(e) && j < |s| ==> s[j] !in "+-"
  }

  // ----- white space -----

  lemma {:induction false} SkipsBlank(s: string, i: nat, gap: string)
    requires At(s, i, gap) && Blank(gap)
    ensures G.SkipWs(s, i) == G.SkipWs(s, i + |gap|)
    decreases |gap|
  {
    if gap != "" {
      AtChar(s, i, gap, 0);
      assert s[i + 1..i + |gap|] == gap[1..];
      SkipsBlank(s, i + 1, gap[1..]);
    }
  }

  lemma {:induction false} BlankTo(s: string, i: nat, gap: string)
    requires At(s, i, gap) && Blank(gap) && i + |gap| < |s| && !IsSpace(s[i + |gap|])
    ensures G.SkipWs(s, i) == i + |gap|
  {
    SkipsBlank(s, i, gap);
  }

  // ----- reading up to white space -----

  ghost predicate Got(s: string, r: G.Parsed, j: nat, t: Expr)
    requires j <= |s|
  {
    r.Ok? && r.tree == t && r.pos <= |s| && G.SkipWs(s, r.pos) == G.SkipWs(s, j)
  }

  ghost predicate ReadAs(nums: Numerals, s: string, i: nat, k: nat, j: nat, t: Expr)
    requires i <= |s| && j <= |s| && 1 <= k <= 7
  {
    if k == 7 then Got(s, G.UnaryExpr(nums, s, i), j, t)
    else G.Level(nums, s, i, k) == G.Tail(nums, s, G.SkipWs(s, j), k, t)
  }

  lemma {:induction false} NoOpsSkipsWs(s: string, j: nat, lo: nat)
    requires j <= |s|
    ensures NoOps(s, G.SkipWs(s, j), lo) <==> NoOps(s, j, lo)
  {
    hide G.MatchOp;
    forall m ensures G.MatchOp(s, G.SkipWs(s, j), m) == G.MatchOp(s, j, m) { MatchOpSkipsWs(s, j, m); }
  }

  lemma {:induction false} UnaryReadAs(nums: Numerals, s: string, i: nat, k: nat, j: nat, t: Expr)
    requires i <= |s| && j <= |s| && 1 <= k <= 7
    requires Got(s, G.UnaryExpr(nums, s, i), j, t) && NoOps(s, j, k + 1)
    ensures ReadAs(nums, s, i, k, j, t)
  {
    hide G.UnaryExpr, G.Tail, G.SkipWs, G.MatchOp;
    if k < 7 {
      var p := G.UnaryExpr(nums, s, i).pos;
      assert G.Level(nums, s, i, 7) == G.Ok(t, p);
      assert G.Level(nums, s, i, 6) == G.Tail(nums, s, p, 6, t);
      TailSkipsWs(nums, s, p, 6, t);
      NoOpsSkipsWs(s, j, k + 1);
      Descend(nums, s, i, G.SkipWs(s, j), k, 6, t);
    }
  }

  // ----- names and numerals -----

  lemma {:induction false} FreeEnds(s: string, j: nat)
    requires Free(s, j)
    ensures !G.Sees(s, j, '(')
    ensures j < |s| ==> !IsIdentChar(s[j]) && (IsSpace(s[j]) || s[j] in "),|&=!<>+-*/%")
  {
  }

  lemma {:induction false} NumeralReads(nums: Numerals, s: string, i: nat, w: string)
    requires Proper(nums, Numeral(w)) && At(s, i, w) && Free(s, i + |w|) && Cut(s, i + |w|, Numeral(w))
    ensures G.UnaryExpr(nums, s, i) == G.Ok(Num(nums.ofText(w).value), i + |w|)
  {
    var j := i + |w|;
    forall k | i <= k < j ensures s[k] == w[k - i] { AtChar(s, i, w, k - i); }
    forall k | i <= k < j ensures IsNumeralChar(s, i, k) {
      assert s[k] == w[k - i] && (k > i ==> s[k - 1] == w[k - i - 1]);
    }
    FreeEnds(s, j);
    assert s[j - 1] == w[|w| - 1];
    NumeralEnds(s, i, i, j);
    assert G.SkipWs(s, i) == i;
    assert G.Primary(nums, s, i) == G.Number(nums, s, i);
  }

  /** The word at `i`, whatever follows it. */
  lemma {:induction false} WordAt(nums: Numerals, s: string, i: nat, w: string)
    requires Word(w) && At(s, i, w) && (i + |w| < |s| ==> !IsIdentChar(s[i + |w|]))
    ensures i < |s| && IsIdentStart(s[i]) && G.ScanIdent(s, i) == i + |w| && s[i..i + |w|] == w
    ensures G.UnaryExpr(nums, s, i) == G.Ident(nums, s, i)
  {
    hide G.Ident;
    forall k | i <= k < i + |w| ensures s[k] == w[k - i] { AtChar(s, i, w, k - i); }
    IdentEnds(s, i, i + |w|);
    assert s[i] == w[0];
    assert G.SkipWs(s, i) == i;
    assert G.Primary(nums, s, i) == G.Ident(nums, s, i);
  }

  /** A bare word in place: where no more of the word and no parenthesis follows, it names a tag. */
  lemma {:induction false} BareReads(nums: Numerals, s: string, i: nat, w: string)
    requires Word(w) && w != "tag" && At(s, i, w)
    requires var j := i + |w|; (j < |s| ==> !IsIdentChar(s[j])) && !G.Sees(s, j, '(')
    ensures G.UnaryExpr(nums, s, i) == G.Ok(Tag(w), G.SkipWs(s, i + |w|))
  {
    hide G.SkipWs, G.UnaryExpr;
    WordAt(nums, s, i, w);
  }

  lemma {:induction false} ShortReads(nums: Numerals, s: string, i: nat, q: string)
    requires Proper(nums, Short(q)) && At(s, i, "\"" + q + "\"")
    ensures G.UnaryExpr(nums, s, i) == G.Ok(Tag(q), i + |q| + 2)
  {
    AtConcat(s, i, "\"" + q, "\"");
    AtConcat(s, i, "\"", q);
    AtChar(s, i, "\"", 0);
    AtChar(s, i + 1 + |q|, "\"", 0);
    QuotedAt(s, i, q);
    assert G.SkipWs(s, i) == i;
    assert G.Primary(nums, s, i) == G.Quoted(s, i);
  }

  /** Two texts, each closed by one character. */
  lemma {:induction false} MarkedParts(s: string, i: nat, w: string, a: string, x: string, b: string, y: string)
    requires |x| == |y| == 1 && At(s, i, w + a + x + b + y)
    ensures var j := i + |w| + |a|;
            && At(s, i, w) && At(s, i + |w|, a) && At(s, j + 1, b)
            && j + 1 + |b| < |s| && s[j] == x[0] && s[j + 1 + |b|] == y[0]
  {
    hide At;
    InfixParts(s, i, w, a, x, b, y);
    AtChar(s, i + |w| + |a|, x, 0);
    AtChar(s, i + |w| + |a| + 1 + |b|, y, 0);
  }

  /** Where the parts of `tag("name")` stand. */
  lemma {:induction false} LongParts(s: string, i: nat, a: string, b: string, q: string, c: string)
    requires At(s, i, "tag" + a + "(" + b + "\"" + q + "\"" + c + ")")
    ensures var j := i + 3 + |a| + 1; var n := j + |b| + 1 + |q|;
            && At(s, i, "tag") && At(s, i + 3, a) && At(s, j, b) && At(s, j + |b| + 1, q) && At(s, n + 1, c)
            && n + 1 + |c| < |s| && s[j - 1] == '(' && s[j + |b|] == '"' && s[n] == '"' && s[n + 1 + |c|] == ')'
  {
    hide At;
    MarkedParts(s, i, "tag" + a + "(" + b + "\"", q, "\"", c, ")");
    MarkedParts(s, i, "tag", a, "(", b, "\"");
  }

  lemma {:induction false} TagParens(s: string, i: nat, m: nat, n: nat, p: nat, q: string)
    requires i <= |s| && G.SkipWs(s, i) < m && m + 1 + |q| == n < |s| && n < p < |s|
    requires s[G.SkipWs(s, i)] == '(' && G.SkipWs(s, G.SkipWs(s, i) + 1) == m && s[m] == '"' && At(s, m + 1, q)
    requires s[n] == '"' && G.SkipWs(s, n + 1) == p && s[p] == ')' && q != "" && '"' !in q
    ensures G.TagForm(s, i) == G.Ok(Tag(q), p + 1)
  {
    hide G.SkipWs, G.Quoted;
    QuotedAt(s, m, q);
  }

  lemma {:induction false} LongReads(nums: Numerals, s: string, i: nat, e: Sentence)
    requires e.Long? && Proper(nums, e) && At(s, i, Text(e))
    ensures G.UnaryExpr(nums, s, i) == G.Ok(Tag(e.quoted), i + |Text(e)|)
  {
    hide G.SkipWs, G.UnaryExpr, G.TagForm, At, Blank;
    LongParts(s, i, e.gap, e.opening, e.quoted, e.closing);
    var j := i + 3 + |e.gap| + 1;
    var m := j + |e.opening|;
    var n := m + 1 + |e.quoted|;
    BlankTo(s, i + 3, e.gap);
    BlankTo(s, j, e.opening);
    BlankTo(s, n + 1, e.closing);
    TagParens(s, i + 3, m, n, n + 1 + |e.closing|, e.quoted);
    GapEndsWord(s, i + 3, e.gap);
    WordAt(nums, s, i, "tag");
  }

  lemma {:induction false} GapEndsWord(s: string, j: nat, gap: string)
    requires At(s, j, gap) && Blank(gap) && j + |gap| < |s| && s[j + |gap|] == '('
    ensures j < |s| && !IsIdentChar(s[j])
  {
    if gap != "" { AtChar(s, j, gap, 0); }
  }

  // ----- operators -----

  lemma {:induction false} SymbolAt(s: string, j: nat, w: string)
    requires At(s, j, w) && Operator(w).Some? && (j + |w| < |s| ==> s[j + |w|] != '=')
    ensures !IsSpace(s[j]) && s[j] in "),|&=!<>+-*/%" && G.SkipWs(s, j) == j
    ensures G.MatchOp(s, j, Tier(w)) == Some((Operator(w).value, j + |w|))
    ensures NoOps(s, j, Tier(w) + 1)
  {
    AtChar(s, j, w, 0);
    if |w| == 2 { AtChar(s, j, w, 1); }
    assert G.SkipWs(s, j) == j;
  }

  lemma {:induction false} FirstCharacter(nums: Numerals, e: Sentence)
    requires Proper(nums, e)
    ensures Text(e) != "" && !IsSpace(Text(e)[0]) && Text(e)[0] != '='
    decreases e
  {
    if e.Infix? { FirstCharacter(nums, e.first); }
    if e.One? { FunctionWord(e.word); }
    if e.Two? { FunctionWord(e.word); }
  }

  // ----- calls -----

  lemma {:induction false} FunctionWord(w: string)
    ensures Function1(w).Some? || Function2(w).Some? ==> Word(w) && w != "tag"
    ensures Function1(w).Some? ==> FuncByName(w) == Function1(w) && Arity(Function1(w).value) == 1
    ensures Function2(w).Some? ==> FuncByName(w) == Function2(w) && Arity(Function2(w).value) == 2
  {
    hide FuncByName;
    if Function1(w).Some? {
      assert w == FuncName(Function1(w).value);
      FuncNameFound(Function1(w).value);
      FuncNameIsIdent(Function1(w).value);
    } else if Function2(w).Some? {
      assert w == FuncName(Function2(w).value);
      FuncNameFound(Function2(w).value);
      FuncNameIsIdent(Function2(w).value);
    }
  }

  lemma {:induction false} CallHead(nums: Numerals, s: string, i: nat, w: string, gap: string)
    requires Word(w) && w != "tag" && Blank(gap) && At(s, i, w + gap + "(")
    ensures G.UnaryExpr(nums, s, i) == G.Arguments(nums, s, i + |w| + |gap| + 1, w)
  {
    hide G.SkipWs, G.UnaryExpr, G.Arguments;
    AtConcat(s, i, w + gap, "(");
    AtConcat(s, i, w, gap);
    var j := i + |w|;
    AtChar(s, j + |gap|, "(", 0);
    GapEndsWord(s, j, gap);
    BlankTo(s, j, gap);
    WordAt(nums, s, i, w);
  }

  // ----- sentences -----

  /** A left operand at level `m`, an operator of that level at `p`, and a right operand one level tighter at `q`. */
  lemma {:induction false} InfixReads(
    nums: Numerals, s: string, i: nat, m: nat, j1: nat, op: BinOp, p: nat, q: nat, j: nat, l: Expr, r: Expr)
    requires i <= |s| && j1 <= |s| && p <= |s| && q <= |s| && j <= |s| && 1 <= m <= 6
    requires ReadAs(nums, s, i, m, j1, l) && G.MatchOp(s, j1, m) == Some((op, p)) && G.SkipWs(s, p) == G.SkipWs(s, q)
    requires ReadAs(nums, s, q, m + 1, j, r) && NoOps(s, j, m + 1)
    ensures G.Level(nums, s, i, m) == G.Tail(nums, s, G.SkipWs(s, j), m, Binary(op, l, r))
  {
    hide G.MatchOp, G.UnaryExpr, G.SkipWs;
    LevelSkipsWs(nums, s, p, m + 1);
    LevelSkipsWs(nums, s, q, m + 1);
    MatchOpSkipsWs(s, j1, m);
    SkipWsTwice(s, j);
    NoOpsSkipsWs(s, j, m + 1);
    var right := G.Level(nums, s, p, m + 1);
    assert m < 6 ==> G.MatchOp(s, G.SkipWs(s, j), m + 1).None?;
    assert Got(s, right, j, r);
    TailSkipsWs(nums, s, right.pos, m, Binary(op, l, r));
  }

  ghost predicate Placed(s: string, i: nat, e: Sentence, k: nat) {
    && At(s, i, Text(e)) && 1 <= k <= Rank(e)
    && (var j := i + |Text(e)|; Free(s, j) && Cut(s, j, e) && NoOps(s, j, k + 1))
  }

  lemma {:induction false} SentenceReads(nums: Numerals, s: string, i: nat, e: Sentence, k: nat)
    requires Proper(nums, e) && Placed(s, i, e, k)
    ensures ReadAs(nums, s, i, k, i + |Text(e)|, Tree(nums, e))
    decreases e, 1
  {
    hide ReadAs, NoOps, G.UnaryExpr, G.SkipWs, At;
    var j := i + |Text(e)|;
    if e.Infix? {
      InfixSentence(nums, s, i, e, k);
    } else {
      match e {
        case Numeral(w) => NumeralReads(nums, s, i, w);
        case Bare(w) => FreeEnds(s, j); BareReads(nums, s, i, w); SkipWsTwice(s, j);
        case Short(q) => ShortReads(nums, s, i, q);
        case Long(_, _, _, _) => LongReads(nums, s, i, e);
        case Prefix(sign, gap, x) => OperandCut(s, j, e); PrefixSentence(nums, s, i, sign, gap, x);
        case Group(p) => GroupSentence(nums, s, i, p);
        case One(_, _, _) => OneSentence(nums, s, i, e);
        case Two(_, _, _, _) => TwoSentence(nums, s, i, e);
      }
      UnaryReadAs(nums, s, i, k, j, Tree(nums, e));
    }
  }

  /** Where the parts of an infix expression stand. */
  lemma {:induction false} InfixParts(s: string, i: nat, l: string, a: string, w: string, b: string, r: string)
    requires At(s, i, l + a + w + b + r)
    ensures var p := i + |l| + |a| + |w|;
            && At(s, i, l) && At(s, i + |l|, a) && At(s, i + |l| + |a|, w) && At(s, p, b) && At(s, p + |b|, r)
  {
    AtConcat(s, i, l + a + w + b, r);
    AtConcat(s, i, l + a + w, b);
    AtConcat(s, i, l + a, w);
    AtConcat(s, i, l, a);
  }

  /** The character behind an operator is white space or begins the right operand. */
  lemma {:induction false} BehindSymbol(nums: Numerals, s: string, p: nat, b: string, e: Sentence)
    requires At(s, p, b) && Blank(b) && At(s, p + |b|, Text(e)) && Proper(nums, e)
    ensures p < |s| && s[p] != '=' && G.SkipWs(s, p) == p + |b| && G.SkipWs(s, p + |b|) == p + |b|
  {
    FirstCharacter(nums, e);
    AtChar(s, p + |b|, Text(e), 0);
    if b != "" { AtChar(s, p, b, 0); }
    BlankTo(s, p, b);
  }

  /** What the scanner sees behind the left operand: that operator, and none that binds tighter. */
  lemma {:induction false} SymbolSeen(nums: Numerals, s: string, j: nat, a: string, w: string, b: string, e: Sentence)
    requires At(s, j, a) && Blank(a) && At(s, j + |a|, w) && Operator(w).Some? && Proper(nums, e)
    requires At(s, j + |a| + |w|, b) && Blank(b) && At(s, j + |a| + |w| + |b|, Text(e))
    ensures Free(s, j) && NoOps(s, j, Tier(w) + 1)
    ensures G.MatchOp(s, j, Tier(w)) == Some((Operator(w).value, j + |a| + |w|))
  {
    hide G.MatchOp, NoOps, Operator, Tier, At, Blank, Proper, G.SkipWs;
    BehindSymbol(nums, s, j + |a| + |w|, b, e);
    SymbolAt(s, j + |a|, w);
    SkipsBlank(s, j, a);
    MatchOpSkipsWs(s, j, Tier(w));
    NoOpsSkipsWs(s, j, Tier(w) + 1);
  }

  /** The left operand of an operator is placed at the operator's own level. */
  lemma {:induction false} LeftPlaced(nums: Numerals, s: string, i: nat, e: Sentence)
    requires e.Infix? && Proper(nums, e) && At(s, i, Text(e))
    ensures Placed(s, i, e.first, Tier(e.symbol))
    ensures var j1 := i + |Text(e.first)|; var p := j1 + |e.before| + |e.symbol|;
            && G.MatchOp(s, j1, Tier(e.symbol)) == Some((Operator(e.symbol).value, p))
            && At(s, p, e.after) && At(s, p + |e.after|, Text(e.second))
  {
    hide G.MatchOp, NoOps, Operator, Tier, At, Free, Cut, Blank;
    var j1 := i + |Text(e.first)|;
    InfixParts(s, i, Text(e.first), e.before, e.symbol, e.after, Text(e.second));
    SymbolSeen(nums, s, j1, e.before, e.symbol, e.after, e.second);
    LeftCut(s, j1, e);
  }

  lemma {:induction false} LeftCut(s: string, j1: nat, e: Sentence)
    requires e.Infix? && At(s, j1, e.before) && At(s, j1 + |e.before|, e.symbol) && Blank(e.before)
    requires Operator(e.symbol).Some? && !(Open(e.first) && e.before == "" && e.symbol in ["+", "-"])
    ensures Cut(s, j1, e.first)
  {
    if e.before != "" { AtChar(s, j1, e.before, 0); } else { AtChar(s, j1, e.symbol, 0); }
  }

  /** The right operand is placed one level tighter, behind the operator and its white space. */
  lemma {:induction false} RightPlaced(nums: Numerals, s: string, i: nat, e: Sentence, k: nat, p: nat)
    requires e.Infix? && Proper(nums, e) && Placed(s, i, e, k)
    requires At(s, p, e.after) && At(s, p + |e.after|, Text(e.second))
    requires p + |e.after| + |Text(e.second)| == i + |Text(e)|
    ensures Placed(s, p + |e.after|, e.second, Tier(e.symbol) + 1) && NoOps(s, i + |Text(e)|, Tier(e.symbol) + 1)
    ensures G.SkipWs(s, p) == G.SkipWs(s, p + |e.after|)
  {
    hide NoOps, G.SkipWs, At, Tier, Operator, Blank, Open;
    var j := i + |Text(e)|;
    BehindSymbol(nums, s, p, e.after, e.second);
    OperandCut(s, j, e);
    NoOpsTighter(s, j, k + 1, Tier(e.symbol) + 1);
    NoOpsTighter(s, j, k + 1, Tier(e.symbol) + 2);
  }

  lemma {:induction false} InfixSentence(nums: Numerals, s: string, i: nat, e: Sentence, k: nat)
    requires e.Infix? && Proper(nums, e) && Placed(s, i, e, k)
    ensures ReadAs(nums, s, i, k, i + |Text(e)|, Tree(nums, e))
    decreases e, 0
  {
    hide ReadAs, NoOps, G.MatchOp, G.Level, G.Tail, G.SkipWs, At, Tier, Operator, Blank, Cut, Open;
    var m := Tier(e.symbol);
    var j := i + |Text(e)|;
    var j1 := i + |Text(e.first)|;
    var p := j1 + |e.before| + |e.symbol|;
    LeftPlaced(nums, s, i, e);
    RightPlaced(nums, s, i, e, k, p);
    SentenceReads(nums, s, i, e.first, m);
    SentenceReads(nums, s, p + |e.after|, e.second, m + 1);
    var l, r := Tree(nums, e.first), Tree(nums, e.second);
    InfixReads(nums, s, i, m, j1, Operator(e.symbol).value, p, p + |e.after|, j, l, r);
    LoosenTo(nums, s, i, k, m, j, Tree(nums, e));
  }

  lemma {:induction false} NoOpsTighter(s: string, j: nat, lo: nat, hi: nat)
    requires j <= |s| && lo <= hi && NoOps(s, j, lo)
    ensures NoOps(s, j, hi)
  {
    hide G.MatchOp;
  }

  lemma {:induction false} LoosenTo(nums: Numerals, s: string, i: nat, k: nat, m: nat, j: nat, t: Expr)
    requires i <= |s| && j <= |s| && 1 <= k <= m <= 6 && NoOps(s, j, k + 1)
    requires G.Level(nums, s, i, m) == G.Tail(nums, s, G.SkipWs(s, j), m, t)
    ensures ReadAs(nums, s, i, k, j, t)
  {
    hide G.MatchOp, G.Level, G.Tail, G.SkipWs;
    NoOpsSkipsWs(s, j, k + 1);
    Descend(nums, s, i, G.SkipWs(s, j), k, m, t);
  }

  lemma {:induction false} PartsAt(s: string, i: nat, a: string, b: string, c: string)
    requires At(s, i, a + b + c)
    ensures At(s, i, a) && At(s, i + |a|, b) && At(s, i + |a| + |b|, c)
  {
    AtConcat(s, i, a + b, c);
    AtConcat(s, i, a, b);
  }

  lemma {:induction false} PrefixSentence(nums: Numerals, s: string, i: nat, sign: char, gap: string, x: Sentence)
    requires sign in "-!" && Blank(gap) && Proper(nums, x) && Rank(x) == 7 && At(s, i, [sign] + gap + Text(x))
    requires var j := i + 1 + |gap| + |Text(x)|; Free(s, j) && Cut(s, j, x)
    ensures var op := if sign == '-' then Neg else Not;
            Got(s, G.UnaryExpr(nums, s, i), i + 1 + |gap| + |Text(x)|, Unary(op, Tree(nums, x)))
    decreases x, 2
  {
    hide G.SkipWs, G.UnaryExpr, At, Blank, Free, Cut, G.MatchOp, ReadAs, Got, Proper, Text, Tree;
    PartsAt(s, i, [sign], gap, Text(x));
    AtChar(s, i, [sign], 0);
    BehindSymbol(nums, s, i + 1, gap, x);
    SentenceReads(nums, s, i + 1 + |gap|, x, 7);
    PrefixGot(nums, s, i, if sign == '-' then Neg else Not, i + 1 + |gap| + |Text(x)|, Tree(nums, x));
  }

  lemma {:induction false} PrefixGot(nums: Numerals, s: string, i: nat, op: UnaryOp, j: nat, t: Expr)
    requires i < |s| && s[i] == (if op.Neg? then '-' else '!') && j <= |s|
    requires ReadAs(nums, s, G.SkipWs(s, i + 1), 7, j, t)
    ensures Got(s, G.UnaryExpr(nums, s, i), j, Unary(op, t))
  {
    hide G.SkipWs, G.UnaryExpr;
    UnarySkipsWs(nums, s, i + 1);
    UnaryReads(nums, s, i, G.UnaryExpr(nums, s, i + 1).pos, op, t);
  }

  lemma {:induction false} OperandCut(s: string, j: nat, e: Sentence)
    requires Cut(s, j, e)
    ensures e.Prefix? ==> Cut(s, j, e.operand)
    ensures e.Infix? ==> Cut(s, j, e.second)
  {
  }

  // ----- padded sentences -----

  /** A sentence with white space around it that ends where the text, an argument or a parenthesis does. */
  lemma {:induction false} PaddedReads(nums: Numerals, s: string, i: nat, p: Padded)
    requires Spaced(p) && Proper(nums, p.body) && At(s, i, PaddedText(p))
    requires var z := i + |PaddedText(p)|; z == |s| || s[z] in "),"
    ensures G.Level(nums, s, i, 1) == G.Ok(Tree(nums, p.body), i + |PaddedText(p)|)
    decreases p, 0
  {
    hide G.SkipWs, G.UnaryExpr, G.Level, G.Tail, ReadAs, NoOps, At, Blank, Free, Cut, Proper, Text, Tree;
    var z := i + |PaddedText(p)|;
    var i1 := i + |p.lead|;
    var j := i1 + |Text(p.body)|;
    PartsAt(s, i, p.lead, Text(p.body), p.trail);
    BehindSymbol(nums, s, i, p.lead, p.body);
    PaddingEnds(s, j, z, p);
    NoOpsTighter(s, j, 1, 2);
    SentenceReads(nums, s, i1, p.body, 1);
    WholeLevel(nums, s, i, i1, j, Tree(nums, p.body));
  }

  lemma {:induction false} WholeLevel(nums: Numerals, s: string, i: nat, i1: nat, j: nat, t: Expr)
    requires i <= |s| && i1 <= |s| && j <= |s| && G.SkipWs(s, i) == i1 && ReadAs(nums, s, i1, 1, j, t) && NoOps(s, j, 1)
    ensures G.Level(nums, s, i, 1) == G.Ok(t, G.SkipWs(s, j))
  {
    hide G.SkipWs, G.UnaryExpr, G.Level, G.MatchOp;
    LevelSkipsWs(nums, s, i, 1);
    SkipWsTwice(s, j);
    NoOpsSkipsWs(s, j, 1);
    assert G.MatchOp(s, G.SkipWs(s, j), 1).None?;
  }

  lemma {:induction false} PaddingEnds(s: string, j: nat, z: nat, p: Padded)
    requires Spaced(p) && At(s, j, p.trail) && z == j + |p.trail| && (z == |s| || s[z] in "),")
    ensures G.SkipWs(s, j) == z && Free(s, j) && Cut(s, j, p.body) && NoOps(s, j, 1)
  {
    SkipsBlank(s, j, p.trail);
    assert G.SkipWs(s, z) == z;
    NoOpsAtStop(s, z);
    NoOpsSkipsWs(s, j, 1);
    if p.trail != "" { AtChar(s, j, p.trail, 0); }
  }

  lemma {:induction false} GroupSentence(nums: Numerals, s: string, i: nat, p: Padded)
    requires Proper(nums, Group(p)) && At(s, i, Text(Group(p)))
    ensures G.UnaryExpr(nums, s, i) == G.Ok(Tree(nums, p.body), i + |Text(Group(p))|)
    decreases p, 1
  {
    hide G.Level, G.UnaryExpr, At, Blank, PaddedText;
    var z := i + 1 + |PaddedText(p)|;
    PartsAt(s, i, "(", PaddedText(p), ")");
    AtChar(s, i, "(", 0);
    AtChar(s, z, ")", 0);
    PaddedReads(nums, s, i + 1, p);
    GroupCloses(nums, s, i, z, Tree(nums, p.body));
  }

  lemma {:induction false} GroupCloses(nums: Numerals, s: string, i: nat, z: nat, t: Expr)
    requires i < z < |s| && s[i] == '(' && s[z] == ')' && G.Level(nums, s, i + 1, 1) == G.Ok(t, z)
    ensures G.UnaryExpr(nums, s, i) == G.Ok(t, z + 1)
  {
    hide G.Level;
    assert G.SkipWs(s, i) == i && G.SkipWs(s, z) == z;
    assert G.Primary(nums, s, i) == G.Ok(t, z + 1);
  }

  lemma {:induction false} OneSentence(nums: Numerals, s: string, i: nat, e: Sentence)
    requires e.One? && Proper(nums, e) && At(s, i, Text(e))
    ensures G.UnaryExpr(nums, s, i) == G.Ok(Tree(nums, e), i + |Text(e)|)
    decreases e, 0
  {
    hide G.Level, G.UnaryExpr, FuncByName, Function1, At, Blank, Word;
    var head := e.word + e.gap + "(";
    var a := i + |head|;
    var z := a + |PaddedText(e.x)|;
    AtConcat(s, i, head + PaddedText(e.x), ")");
    AtConcat(s, i, head, PaddedText(e.x));
    AtChar(s, z, ")", 0);
    FunctionWord(e.word);
    CallHead(nums, s, i, e.word, e.gap);
    PaddedReads(nums, s, a, e.x);
    assert G.SkipWs(s, z) == z;
  }

  lemma {:induction false} TwoSentence(nums: Numerals, s: string, i: nat, e: Sentence)
    requires e.Two? && Proper(nums, e) && At(s, i, Text(e))
    ensures G.UnaryExpr(nums, s, i) == G.Ok(Tree(nums, e), i + |Text(e)|)
    decreases e, 0
  {
    hide G.Level, G.UnaryExpr, G.Arguments, FuncByName, Function2, At, Blank, Word, PaddedText;
    var head := e.word + e.gap + "(";
    var a := i + |head|;
    var c := a + |PaddedText(e.x)|;
    var z := c + 1 + |PaddedText(e.y)|;
    InfixParts(s, i, head, PaddedText(e.x), ",", PaddedText(e.y), ")");
    AtChar(s, c, ",", 0);
    AtChar(s, z, ")", 0);
    FunctionWord(e.word);
    CallHead(nums, s, i, e.word, e.gap);
    PaddedReads(nums, s, a, e.x);
    PaddedReads(nums, s, c + 1, e.y);
    TwoClose(nums, s, a, c, z, e.word, Tree(nums, e.x.body), Tree(nums, e.y.body));
  }

  lemma {:induction false} TwoClose(nums: Numerals, s: string, a: nat, c: nat, z: nat, w: string, x: Expr, y: Expr)
    requires 0 < a <= c < z < |s| && s[c] == ',' && s[z] == ')'
    requires FuncByName(w).Some? && Arity(FuncByName(w).value) == 2
    requires G.Level(nums, s, a, 1) == G.Ok(x, c) && G.Level(nums, s, c + 1, 1) == G.Ok(y, z)
    ensures G.Arguments(nums, s, a, w) == G.Ok(Call(FuncByName(w).value, [x, y]), z + 1)
  {
    hide G.Level, FuncByName;
    assert G.SkipWs(s, c) == c && G.SkipWs(s, z) == z;
  }
}
