/** Every text that is accepted is a sentence, and the tree it gives is the one the sentence stands for.

    The proof follows the grammar's own recursion and returns the sentence it found. `Spells` says that the characters
    read so far are that sentence with white space around it; a numeral that is still `Open` at the end of what was read
    has no sign behind it, because the scanner would have taken the sign. */
module ExprDerives {
  import opened Wrappers
  import opened ExprSyntax
  import opened ExprSentences
  import G = ExprGrammar

  ghost predicate Spells(nums: Numerals, s: string, i: nat, j: nat, p: Padded, t: Expr) {
    && i <= j <= |s| && s[i..j] == PaddedText(p) && Spaced(p)
    && Proper(nums, p.body) && Tree(nums, p.body) == t
    && (Open(p.body) && p.trail == "" && j < |s| ==> s[j] !in "+-")
  }

  ghost predicate SpellsAt(nums: Numerals, s: string, i: nat, k: nat, r: G.Parsed, p: Padded) {
    r.Ok? && Spells(nums, s, i, r.pos, p, r.tree) && k <= Rank(p.body)
  }

  // ----- pieces -----

  lemma {:induction false} SkippedIsBlank(s: string, j: nat)
    requires j <= |s|
    ensures Blank(s[j..G.SkipWs(s, j)])
  {
  }

  lemma {:induction false} BlankJoins(a: string, b: string)
    requires Blank(a) && Blank(b)
    ensures Blank(a + b)
  {
  }

  lemma {:induction false} SymbolMatched(s: string, j: nat, k: nat)
    requires j <= |s| && G.MatchOp(s, j, k).Some?
    ensures var (op, e) := G.MatchOp(s, j, k).value; var m := G.SkipWs(s, j);
            m < e <= |s| && Operator(s[m..e]) == Some(op) && Tier(s[m..e]) == k
  {
    var m := G.SkipWs(s, j);
    var e := G.MatchOp(s, j, k).value.1;
    if e == m + 1 {
      assert s[m..e] == [s[m]];
    } else {
      assert s[m..e] == [s[m], s[m + 1]];
    }
  }

  /** White space behind a sentence is part of its padding. */
  lemma {:induction false} SpellsOn(nums: Numerals, s: string, i: nat, j: nat, p: Padded, t: Expr) returns (q: Padded)
    requires Spells(nums, s, i, j, p, t)
    ensures q.body == p.body && Spells(nums, s, i, G.SkipWs(s, j), q, t)
    ensures i <= j <= G.SkipWs(s, j) && s[i..G.SkipWs(s, j)] == PaddedText(q)
    ensures Spaced(q) && Proper(nums, q.body) && Tree(nums, q.body) == t
  {
    hide G.SkipWs, Proper, Tree, Text, Blank;
    var m := G.SkipWs(s, j);
    SkippedIsBlank(s, j);
    BlankJoins(p.trail, s[j..m]);
    q := p.(trail := p.trail + s[j..m]);
    assert s[i..m] == s[i..j] + s[j..m];
    assert p.lead + Text(p.body) + (p.trail + s[j..m]) == PaddedText(p) + s[j..m];
  }

  /** A sentence without white space around it that does not end in a numeral. */
  lemma {:induction false} PlainSpells(nums: Numerals, s: string, i: nat, z: nat, e: Sentence)
    requires i <= z <= |s| && s[i..z] == Text(e) && Proper(nums, e) && !Open(e) && !e.Infix?
    ensures SpellsAt(nums, s, i, 7, G.Ok(Tree(nums, e), z), Padded("", e, ""))
  {
    hide Text, Proper, Tree, Open;
    assert PaddedText(Padded("", e, "")) == Text(e);
  }

  lemma {:induction false} Join(s: string, i: nat, j: nat, k: nat)
    requires i <= j <= k <= |s|
    ensures s[i..k] == s[i..j] + s[j..k]
  {
  }

  lemma {:induction false} JoinChar(s: string, i: nat, j: nat, w: string)
    requires i <= j < |s| && |w| == 1 && s[j] == w[0]
    ensures s[i..j + 1] == s[i..j] + w
  {
  }

  // ----- binary operators -----

  lemma {:induction false} LevelSpells(nums: Numerals, s: string, i: nat, k: nat) returns (p: Padded)
    requires i <= |s| && 1 <= k <= 7 && G.Level(nums, s, i, k).Ok?
    ensures SpellsAt(nums, s, i, k, G.Level(nums, s, i, k), p)
    decreases |s| - i, 10 - k
  {
    hide G.UnaryExpr, G.Tail, Spells;
    if k == 7 {
      p := UnarySpells(nums, s, i);
    } else {
      var r := G.Level(nums, s, i, k + 1);
      p := LevelSpells(nums, s, i, k + 1);
      p := TailSpells(nums, s, i, r.pos, k, r.tree, p);
    }
  }

  lemma {:induction false} TailSpells(nums: Numerals, s: string, i: nat, j: nat, k: nat, left: Expr, p: Padded)
    returns (q: Padded)
    requires Spells(nums, s, i, j, p, left) && i < j && 1 <= k <= 6 && k <= Rank(p.body)
    requires G.Tail(nums, s, j, k, left).Ok?
    ensures SpellsAt(nums, s, i, k, G.Tail(nums, s, j, k, left), q)
    decreases |s| - j, 0
  {
    hide G.MatchOp, G.Level, Spells;
    assert j <= |s| by { SpellsRange(nums, s, i, j, p, left); }
    var found := G.MatchOp(s, j, k);
    if found.None? {
      q := SpellsOn(nums, s, i, j, p, left);
    } else {
      var (op, e) := found.value;
      var r := G.Level(nums, s, e, k + 1);
      var right := LevelSpells(nums, s, e, k + 1);
      q := InfixSpells(nums, s, i, j, k, p, left, r, right);
      q := TailSpells(nums, s, i, r.pos, k, Binary(op, left, r.tree), q);
    }
  }

  lemma {:induction false} SpellsRange(nums: Numerals, s: string, i: nat, j: nat, p: Padded, t: Expr)
    requires Spells(nums, s, i, j, p, t)
    ensures i <= j <= |s|
  {
  }

  lemma {:induction false} InfixSpells(
    nums: Numerals, s: string, i: nat, j: nat, k: nat, p: Padded, left: Expr, r: G.Parsed, right: Padded)
    returns (q: Padded)
    requires Spells(nums, s, i, j, p, left) && k <= Rank(p.body) && G.MatchOp(s, j, k).Some?
    requires SpellsAt(nums, s, G.MatchOp(s, j, k).value.1, k + 1, r, right)
    ensures Spells(nums, s, i, r.pos, q, Binary(G.MatchOp(s, j, k).value.0, left, r.tree)) && Rank(q.body) == k
  {
    hide G.MatchOp, G.SkipWs, Blank, Operator, Tier;
    var (op, e) := G.MatchOp(s, j, k).value;
    var m := G.SkipWs(s, j);
    SymbolMatched(s, j, k);
    SkippedIsBlank(s, j);
    BlankJoins(p.trail, s[j..m]);
    var before, symbol := p.trail + s[j..m], s[m..e];
    SignApart(nums, s, i, j, p, left, m, e);
    q := Padded(p.lead, Infix(p.body, before, symbol, right.lead, right.body), right.trail);
    InfixJoins(s, i, j, m, e, r.pos, p, right);
  }

  /** A sign directly behind an open numeral would have been part of it. */
  lemma {:induction false} SignApart(nums: Numerals, s: string, i: nat, j: nat, p: Padded, t: Expr, m: nat, e: nat)
    requires Spells(nums, s, i, j, p, t) && j <= m < e <= |s|
    ensures !(Open(p.body) && p.trail + s[j..m] == "" && s[m..e] in ["+", "-"])
  {
    if p.trail + s[j..m] == "" {
      assert |p.trail| + (m - j) == 0;
      assert s[m..e][0] == s[j];
    }
  }

  lemma {:induction false} InfixJoins(s: string, i: nat, j: nat, m: nat, e: nat, z: nat, p: Padded, right: Padded)
    requires i <= j <= m <= e <= z <= |s| && s[i..j] == PaddedText(p) && s[e..z] == PaddedText(right)
    ensures var middle := Infix(p.body, p.trail + s[j..m], s[m..e], right.lead, right.body);
            s[i..z] == p.lead + Text(middle) + right.trail
  {
    hide Text;
    var l, r := Text(p.body), Text(right.body);
    var gap, w := s[j..m], s[m..e];
    Join(s, i, j, m);
    Join(s, i, m, e);
    Join(s, i, e, z);
    InfixText(p.body, p.trail + gap, w, right.lead, right.body);
    Regroup(p.lead, l, p.trail, gap, w, right.lead, r, right.trail);
  }

  lemma {:induction false} Regroup(
    a: string, l: string, b: string, gap: string, w: string, c: string, r: string, d: string)
    ensures ((a + l + b) + gap + w) + (c + r + d) == a + (l + (b + gap) + w + c + r) + d
  {
    assert (a + l + b) + gap == a + (l + (b + gap));
    assert a + (l + (b + gap)) + w == a + (l + (b + gap) + w);
    assert (a + (l + (b + gap) + w)) + (c + r) == a + (l + (b + gap) + w + c + r);
  }

  lemma {:induction false} InfixText(l: Sentence, a: string, w: string, b: string, r: Sentence)
    ensures Text(Infix(l, a, w, b, r)) == Text(l) + a + w + b + Text(r)
  {
  }

  // ----- prefix operators and operands -----

  lemma {:induction false} UnarySpells(nums: Numerals, s: string, i: nat) returns (p: Padded)
    requires i <= |s| && G.UnaryExpr(nums, s, i).Ok?
    ensures SpellsAt(nums, s, i, 7, G.UnaryExpr(nums, s, i), p)
    decreases |s| - i, 2
  {
    hide Spells, G.SkipWs, G.Primary;
    var m := G.SkipWs(s, i);
    if G.Sees(s, i, '!') || G.Sees(s, i, '-') {
      var r := G.UnaryExpr(nums, s, m + 1);
      p := UnarySpells(nums, s, m + 1);
      p := PrefixSpells(nums, s, i, r, p);
    } else {
      var r := G.Primary(nums, s, m);
      p := PrimarySpells(nums, s, m);
      p := SpellsFrom(nums, s, i, r, p);
    }
  }

  lemma {:induction false} PrefixSpells(nums: Numerals, s: string, i: nat, r: G.Parsed, p: Padded) returns (q: Padded)
    requires i <= |s| && (var m := G.SkipWs(s, i); m < |s| && s[m] in "-!" && SpellsAt(nums, s, m + 1, 7, r, p))
    ensures var op := if s[G.SkipWs(s, i)] == '-' then Neg else Not;
            SpellsAt(nums, s, i, 7, G.Ok(Unary(op, r.tree), r.pos), q)
  {
    hide G.SkipWs, Blank;
    var m := G.SkipWs(s, i);
    SkippedIsBlank(s, i);
    q := Padded(s[i..m], Prefix(s[m], p.lead, p.body), p.trail);
    assert s[i..r.pos] == s[i..m] + [s[m]] + s[m + 1..r.pos];
    assert s[i..r.pos] == PaddedText(q);
  }

  /** White space in front of a sentence that begins without any. */
  lemma {:induction false} SpellsFrom(nums: Numerals, s: string, i: nat, r: G.Parsed, p: Padded) returns (q: Padded)
    requires i <= |s| && SpellsAt(nums, s, G.SkipWs(s, i), 7, r, p)
    ensures SpellsAt(nums, s, i, 7, r, q)
  {
    hide G.SkipWs, Blank, Text, Tree, Proper, Open;
    var m := G.SkipWs(s, i);
    SkippedIsBlank(s, i);
    BlankJoins(s[i..m], p.lead);
    q := p.(lead := s[i..m] + p.lead);
    assert s[i..r.pos] == s[i..m] + s[m..r.pos];
    assert s[i..r.pos] == PaddedText(q);
  }

  lemma {:induction false} PrimarySpells(nums: Numerals, s: string, i: nat) returns (p: Padded)
    requires i <= |s| && G.Primary(nums, s, i).Ok?
    ensures SpellsAt(nums, s, i, 7, G.Primary(nums, s, i), p)
    decreases |s| - i, 1
  {
    hide Spells, G.Level, G.Quoted, G.Number, G.Ident, G.SkipWs;
    if s[i] == '(' {
      var r := G.Level(nums, s, i + 1, 1);
      p := LevelSpells(nums, s, i + 1, 1);
      p := GroupSpells(nums, s, i, r, p);
    } else if s[i] == '"' {
      p := QuotedSpells(nums, s, i);
    } else if IsDigit(s[i]) || s[i] == '.' {
      p := NumberSpells(nums, s, i);
    } else {
      p := IdentSpells(nums, s, i);
    }
  }

  lemma {:induction false} GroupSpells(nums: Numerals, s: string, i: nat, r: G.Parsed, p: Padded) returns (q: Padded)
    requires i < |s| && s[i] == '(' && SpellsAt(nums, s, i + 1, 1, r, p) && G.Sees(s, r.pos, ')')
    ensures SpellsAt(nums, s, i, 7, G.Ok(r.tree, G.SkipWs(s, r.pos) + 1), q)
  {
    hide G.SkipWs, Spaced, Spells, PaddedText;
    var inner := SpellsOn(nums, s, i + 1, r.pos, p, r.tree);
    var m := G.SkipWs(s, r.pos);
    q := Padded("", Group(inner), "");
    JoinChar(s, i, i, "(");
    Join(s, i, i + 1, m);
    JoinChar(s, i, m, ")");
    assert s[i..i] == "";
    PlainSpells(nums, s, i, m + 1, Group(inner));
  }

  lemma {:induction false} QuotedSpells(nums: Numerals, s: string, i: nat) returns (p: Padded)
    requires i < |s| && s[i] == '"' && G.Quoted(s, i).Ok?
    ensures SpellsAt(nums, s, i, 7, G.Quoted(s, i), p)
  {
    var j := G.ScanToQuote(s, i + 1);
    p := Padded("", Short(s[i + 1..j]), "");
    assert s[i..j + 1] == "\"" + s[i + 1..j] + "\"";
    assert s[i..j + 1] == PaddedText(p);
  }

  lemma {:induction false} NumberSpells(nums: Numerals, s: string, i: nat) returns (p: Padded)
    requires i < |s| && (IsDigit(s[i]) || s[i] == '.') && G.Number(nums, s, i).Ok?
    ensures SpellsAt(nums, s, i, 7, G.Number(nums, s, i), p)
  {
    var j := G.ScanNumeral(s, i, i);
    var w := s[i..j];
    NumeralScanned(s, i);
    p := Padded("", Numeral(w), "");
    assert PaddedText(p) == w;
    SignTaken(s, i, j);
  }

  lemma {:induction false} NumeralScanned(s: string, i: nat)
    requires i < |s| && (IsDigit(s[i]) || s[i] == '.')
    ensures var j := G.ScanNumeral(s, i, i); i < j && NumeralWord(s[i..j])
  {
    var j := G.ScanNumeral(s, i, i);
    var w := s[i..j];
    assert IsNumeralChar(s, i, i);
    forall k | 0 < k < |w|
      ensures Digit(w[k]) || w[k] == '.' || Exponent(w[k]) || (w[k] in "+-" && Exponent(w[k - 1]))
    {
      assert IsNumeralChar(s, i, i + k);
    }
  }

  lemma {:induction false} SignTaken(s: string, i: nat, j: nat)
    requires i < j <= |s| && (j < |s| ==> !IsNumeralChar(s, i, j))
    ensures s[i..j] != "" && (Exponent(s[i..j][j - i - 1]) && j < |s| ==> s[j] !in "+-")
  {
  }

  // ----- words -----

  lemma {:induction false} IdentSpells(nums: Numerals, s: string, i: nat) returns (p: Padded)
    requires i < |s| && IsIdentStart(s[i]) && G.Ident(nums, s, i).Ok?
    ensures SpellsAt(nums, s, i, 7, G.Ident(nums, s, i), p)
    decreases |s| - i, 0
  {
    hide Spells, G.SkipWs, G.TagForm, G.Arguments, Text, Proper;
    var j := G.ScanIdent(s, i);
    var name := s[i..j];
    assert j > i;
    if name == "tag" {
      p := TagSpells(nums, s, i, j);
    } else if G.Sees(s, j, '(') {
      p := CallSpells(nums, s, i, j);
    } else {
      p := BareSpells(nums, s, i);
    }
  }

  lemma {:induction false} BareSpells(nums: Numerals, s: string, i: nat) returns (p: Padded)
    requires i < |s| && IsIdentStart(s[i]) && s[i..G.ScanIdent(s, i)] != "tag"
    ensures var j := G.ScanIdent(s, i); SpellsAt(nums, s, i, 7, G.Ok(Tag(s[i..j]), G.SkipWs(s, j)), p)
  {
    var j := G.ScanIdent(s, i);
    assert j > i && s[i..j][0] == s[i];
    p := Padded("", Bare(s[i..j]), "");
    assert PaddedText(p) == s[i..j];
    p := SpellsOn(nums, s, i, j, p, Tag(s[i..j]));
  }

  lemma {:induction false} TagSpells(nums: Numerals, s: string, i: nat, j: nat) returns (p: Padded)
    requires i <= j <= |s| && s[i..j] == "tag" && G.TagForm(s, j).Ok?
    ensures SpellsAt(nums, s, i, 7, G.TagForm(s, j), p)
  {
    hide G.SkipWs, G.Quoted, Blank;
    var m := G.SkipWs(s, j);
    var n := G.SkipWs(s, m + 1);
    var e := G.Quoted(s, n).pos;
    var z := G.SkipWs(s, e);
    SkippedIsBlank(s, j);
    SkippedIsBlank(s, m + 1);
    SkippedIsBlank(s, e);
    QuotedShape(s, n);
    var long := Long(s[j..m], s[m + 1..n], s[n + 1..e - 1], s[e..z]);
    p := Padded("", long, "");
    LongJoins(s, i, j, m, n, e, z);
    PlainSpells(nums, s, i, z + 1, long);
  }

  lemma {:induction false} QuotedShape(s: string, n: nat)
    requires n < |s| && s[n] == '"' && G.Quoted(s, n).Ok?
    ensures var e := G.Quoted(s, n).pos;
            && n + 2 < e <= |s| && s[e - 1] == '"' && '"' !in s[n + 1..e - 1]
            && G.Quoted(s, n).tree == Tag(s[n + 1..e - 1])
  {
  }

  lemma {:induction false} LongJoins(s: string, i: nat, j: nat, m: nat, n: nat, e: nat, z: nat)
    requires i <= j <= m < n < e - 1 && e <= z < |s| && s[i..j] == "tag"
    requires s[m] == '(' && s[n] == '"' && s[e - 1] == '"' && s[z] == ')'
    ensures s[i..z + 1] == Text(Long(s[j..m], s[m + 1..n], s[n + 1..e - 1], s[e..z]))
  {
    Join(s, i, j, m);
    JoinChar(s, i, m, "(");
    Join(s, i, m + 1, n);
    JoinChar(s, i, n, "\"");
    Join(s, i, n + 1, e - 1);
    JoinChar(s, i, e - 1, "\"");
    Join(s, i, e, z);
    JoinChar(s, i, z, ")");
  }

  // ----- calls -----

  lemma {:induction false} NamedFunction(name: string)
    requires FuncByName(name).Some?
    ensures var f := FuncByName(name).value;
            if Arity(f) == 1 then Function1(name) == Some(f) else Function2(name) == Some(f)
  {
    hide Lookup;
    FoundByName(name, UNARY_FUNCS);
    FoundByName(name, BINARY_FUNCS);
  }

  lemma {:induction false} FoundByName(name: string, table: seq<Func>)
    ensures Lookup(name, table).Some? ==> FuncName(Lookup(name, table).value) == name
  {
    hide FuncName;
    if table != [] { FoundByName(name, table[1..]); }
  }

  lemma {:induction false} CallSpells(nums: Numerals, s: string, i: nat, j: nat) returns (p: Padded)
    requires i < j <= |s| && G.Sees(s, j, '(') && G.Arguments(nums, s, G.SkipWs(s, j) + 1, s[i..j]).Ok?
    ensures SpellsAt(nums, s, i, 7, G.Arguments(nums, s, G.SkipWs(s, j) + 1, s[i..j]), p)
    decreases |s| - j, 22
  {
    hide Spells, G.SkipWs, G.Level, FuncByName, Text, Proper;
    var a := G.SkipWs(s, j) + 1;
    var fn := FuncByName(s[i..j]).value;
    var r := G.Level(nums, s, a, 1);
    p := LevelSpells(nums, s, a, 1);
    if Arity(fn) == 1 {
      p := OneSpells(nums, s, i, j, r, p);
    } else {
      var c := G.SkipWs(s, r.pos) + 1;
      var r2 := G.Level(nums, s, c, 1);
      var p2 := LevelSpells(nums, s, c, 1);
      p := TwoSpells(nums, s, i, j, r, p, r2, p2);
    }
  }

  lemma {:induction false} OneSpells(nums: Numerals, s: string, i: nat, j: nat, r: G.Parsed, x: Padded)
    returns (p: Padded)
    requires i < j <= |s| && G.Sees(s, j, '(')
    requires SpellsAt(nums, s, G.SkipWs(s, j) + 1, 1, r, x) && G.Sees(s, r.pos, ')')
    requires FuncByName(s[i..j]).Some? && Arity(FuncByName(s[i..j]).value) == 1
    ensures SpellsAt(nums, s, i, 7, G.Ok(Call(FuncByName(s[i..j]).value, [r.tree]), G.SkipWs(s, r.pos) + 1), p)
  {
    hide G.SkipWs, FuncByName, Function1, Blank, Spaced, Spells, PaddedText;
    var a := G.SkipWs(s, j) + 1;
    var z := G.SkipWs(s, r.pos);
    NamedFunction(s[i..j]);
    SkippedIsBlank(s, j);
    var inner := SpellsOn(nums, s, a, r.pos, x, r.tree);
    var call := One(s[i..j], s[j..a - 1], inner);
    p := Padded("", call, "");
    Join(s, i, j, a - 1);
    JoinChar(s, i, a - 1, "(");
    Join(s, i, a, z);
    JoinChar(s, i, z, ")");
    PlainSpells(nums, s, i, z + 1, call);
  }

  lemma {:induction false} TwoSpells(
    nums: Numerals, s: string, i: nat, j: nat, r: G.Parsed, x: Padded, r2: G.Parsed, y: Padded) returns (p: Padded)
    requires i < j <= |s| && G.Sees(s, j, '(')
    requires SpellsAt(nums, s, G.SkipWs(s, j) + 1, 1, r, x) && G.Sees(s, r.pos, ',')
    requires SpellsAt(nums, s, G.SkipWs(s, r.pos) + 1, 1, r2, y) && G.Sees(s, r2.pos, ')')
    requires FuncByName(s[i..j]).Some? && Arity(FuncByName(s[i..j]).value) == 2
    ensures SpellsAt(
              nums, s, i, 7, G.Ok(Call(FuncByName(s[i..j]).value, [r.tree, r2.tree]), G.SkipWs(s, r2.pos) + 1), p)
  {
    hide G.SkipWs, FuncByName, Function2, Blank, Spaced, Spells, PaddedText;
    var a := G.SkipWs(s, j) + 1;
    var c := G.SkipWs(s, r.pos);
    var z := G.SkipWs(s, r2.pos);
    NamedFunction(s[i..j]);
    SkippedIsBlank(s, j);
    var first := SpellsOn(nums, s, a, r.pos, x, r.tree);
    var second := SpellsOn(nums, s, c + 1, r2.pos, y, r2.tree);
    var call := Two(s[i..j], s[j..a - 1], first, second);
    p := Padded("", call, "");
    TwoJoins(s, i, j, a - 1, c, z, first, second);
    assert Proper(nums, call);
    PlainSpells(nums, s, i, z + 1, call);
  }

  lemma {:induction false} TwoJoins(s: string, i: nat, j: nat, b: nat, c: nat, z: nat, x: Padded, y: Padded)
    requires i <= j <= b < c < z < |s| && s[b] == '(' && s[c] == ',' && s[z] == ')'
    requires s[b + 1..c] == PaddedText(x) && s[c + 1..z] == PaddedText(y)
    ensures s[i..z + 1] == Text(Two(s[i..j], s[j..b], x, y))
  {
    hide PaddedText;
    Join(s, i, j, b);
    JoinChar(s, i, b, "(");
    Join(s, i, b + 1, c);
    JoinChar(s, i, c, ",");
    Join(s, i, c + 1, z);
    JoinChar(s, i, z, ")");
  }
}
