/** Two conversions of numerals, one grammar: the Studio reads numerals with `Number`, the runtime with `std::stod`. */
module ExprNumerals {
  import opened Wrappers
  import opened ExprSyntax
  import opened ExprGrammar
  import ExprReading

  // ----- the numerals that the grammar reads -----

  /** Where numerals begin that are converted while level `k` is read from `i`. */
  ghost function LevelReads(nums: Numerals, s: string, i: nat, k: nat): set<nat>
    requires i <= |s| && 1 <= k <= 7
    decreases |s| - i, 10 - k
  {
    if k == 7 then UnaryReads(nums, s, i)
    else
      LevelReads(nums, s, i, k + 1) +
      match Level(nums, s, i, k + 1)
      case Err(_) => {}
      case Ok(_, j) => TailReads(nums, s, j, k)
  }

  ghost function TailReads(nums: Numerals, s: string, j: nat, k: nat): set<nat>
    requires j <= |s| && 1 <= k <= 6
    decreases |s| - j, 0
  {
    match MatchOp(s, j, k)
    case None => {}
    case Some((_, j')) =>
      LevelReads(nums, s, j', k + 1) +
      match Level(nums, s, j', k + 1)
      case Err(_) => {}
      case Ok(_, j'') => TailReads(nums, s, j'', k)
  }

  ghost function UnaryReads(nums: Numerals, s: string, i: nat): set<nat>
    requires i <= |s|
    decreases |s| - i, 2
  {
    var j := SkipWs(s, i);
    if Sees(s, i, '!') || Sees(s, i, '-') then UnaryReads(nums, s, j + 1) else PrimaryReads(nums, s, j)
  }

  ghost function PrimaryReads(nums: Numerals, s: string, i: nat): set<nat>
    requires i <= |s|
    decreases |s| - i, 1
  {
    if i == |s| then {}
    else if s[i] == '(' then LevelReads(nums, s, i + 1, 1)
    else if IsDigit(s[i]) || s[i] == '.' then {i}
    else if IsIdentStart(s[i]) then IdentReads(nums, s, i)
    else {}
  }

  ghost function IdentReads(nums: Numerals, s: string, i: nat): set<nat>
    requires i < |s| && IsIdentStart(s[i])
    decreases |s| - i, 0
  {
    var j := ScanIdent(s, i);
    if s[i..j] != "tag" && Sees(s, j, '(') then ArgumentReads(nums, s, SkipWs(s, j) + 1, s[i..j]) else {}
  }

  ghost function ArgumentReads(nums: Numerals, s: string, i: nat, name: string): set<nat>
    requires 0 < i <= |s|
    decreases |s| - i, 21
  {
    match FuncByName(name)
    case None => {}
    case Some(fn) =>
      LevelReads(nums, s, i, 1) +
      match Level(nums, s, i, 1)
      case Err(_) => {}
      case Ok(_, p) =>
        if Arity(fn) == 2 && Sees(s, p, ',') then LevelReads(nums, s, SkipWs(s, p) + 1, 1) else {}
  }

  /** Where the numerals begin that parsing the text converts: none inside a quoted name, none behind an error. */
  ghost function NumeralsRead(nums: Numerals, s: string): set<nat> {
    LevelReads(nums, s, 0, 1)
  }

  function NumeralAt(s: string, i: nat): string {
    if i <= |s| then s[i..ScanNumeral(s, i, i)] else ""
  }

  ghost predicate AgreeAt(a: Numerals, b: Numerals, s: string, at: set<nat>) {
    forall i :: i in at ==> a.ofText(NumeralAt(s, i)) == b.ofText(NumeralAt(s, i))
  }

  /** The two conversions agree on every numeral that is read with the first. */
  ghost predicate Alike(a: Numerals, b: Numerals, s: string) {
    AgreeAt(a, b, s, NumeralsRead(a, s))
  }

  // ----- parsing depends on nothing else -----

  lemma {:induction false} LevelAlike(a: Numerals, b: Numerals, s: string, i: nat, k: nat)
    requires i <= |s| && 1 <= k <= 7 && AgreeAt(a, b, s, LevelReads(a, s, i, k))
    ensures Level(a, s, i, k) == Level(b, s, i, k)
    decreases |s| - i, 10 - k
  {
    hide UnaryExpr, Tail, UnaryReads, TailReads, NumeralAt;
    if k == 7 {
      UnaryAlike(a, b, s, i);
    } else {
      LevelAlike(a, b, s, i, k + 1);
      match Level(a, s, i, k + 1)
      case Err(_) =>
      case Ok(left, j) => TailAlike(a, b, s, j, k, left);
    }
  }

  lemma {:induction false} TailAlike(a: Numerals, b: Numerals, s: string, j: nat, k: nat, left: Expr)
    requires j <= |s| && 1 <= k <= 6 && AgreeAt(a, b, s, TailReads(a, s, j, k))
    ensures Tail(a, s, j, k, left) == Tail(b, s, j, k, left)
    decreases |s| - j, 0
  {
    hide Level, LevelReads, MatchOp, NumeralAt;
    match MatchOp(s, j, k)
    case None =>
    case Some((op, j')) =>
      LevelAlike(a, b, s, j', k + 1);
      match Level(a, s, j', k + 1)
      case Err(_) =>
      case Ok(right, j'') => TailAlike(a, b, s, j'', k, Binary(op, left, right));
  }

  lemma {:induction false} UnaryAlike(a: Numerals, b: Numerals, s: string, i: nat)
    requires i <= |s| && AgreeAt(a, b, s, UnaryReads(a, s, i))
    ensures UnaryExpr(a, s, i) == UnaryExpr(b, s, i)
    decreases |s| - i, 2
  {
    hide Primary, PrimaryReads, AgreeAt;
    if Sees(s, i, '!') || Sees(s, i, '-') {
      UnaryAlike(a, b, s, SkipWs(s, i) + 1);
    } else {
      PrimaryAlike(a, b, s, SkipWs(s, i));
    }
  }

  lemma {:induction false} PrimaryAlike(a: Numerals, b: Numerals, s: string, i: nat)
    requires i <= |s| && AgreeAt(a, b, s, PrimaryReads(a, s, i))
    ensures Primary(a, s, i) == Primary(b, s, i)
    decreases |s| - i, 1
  {
    hide AgreeAt, Level, LevelReads, Ident, IdentReads, Quoted;
    if i < |s| {
      if s[i] == '(' {
        LevelAlike(a, b, s, i + 1, 1);
      } else if IsDigit(s[i]) || s[i] == '.' {
        NumberAlike(a, b, s, i);
      } else if IsIdentStart(s[i]) {
        IdentAlike(a, b, s, i);
      }
    }
  }

  lemma {:induction false} NumberAlike(a: Numerals, b: Numerals, s: string, i: nat)
    requires i < |s| && (IsDigit(s[i]) || s[i] == '.') && AgreeAt(a, b, s, {i})
    ensures Number(a, s, i) == Number(b, s, i)
  {
    assert a.ofText(NumeralAt(s, i)) == b.ofText(NumeralAt(s, i));
  }

  lemma {:induction false} IdentAlike(a: Numerals, b: Numerals, s: string, i: nat)
    requires i < |s| && IsIdentStart(s[i]) && AgreeAt(a, b, s, IdentReads(a, s, i))
    ensures Ident(a, s, i) == Ident(b, s, i)
    decreases |s| - i, 0
  {
    hide AgreeAt, Arguments, ArgumentReads, TagForm;
    var j := ScanIdent(s, i);
    if s[i..j] != "tag" && Sees(s, j, '(') { ArgumentsAlike(a, b, s, SkipWs(s, j) + 1, s[i..j]); }
  }

  lemma {:induction false} ArgumentsAlike(a: Numerals, b: Numerals, s: string, i: nat, name: string)
    requires 0 < i <= |s| && AgreeAt(a, b, s, ArgumentReads(a, s, i, name))
    ensures Arguments(a, s, i, name) == Arguments(b, s, i, name)
    decreases |s| - i, 21
  {
    hide Level, LevelReads, FuncByName, CloseCall, NumeralAt;
    if FuncByName(name).Some? {
      LevelAlike(a, b, s, i, 1);
      match Level(a, s, i, 1)
      case Err(_) =>
      case Ok(_, p) =>
        if Arity(FuncByName(name).value) == 2 && Sees(s, p, ',') { LevelAlike(a, b, s, SkipWs(s, p) + 1, 1); }
    }
  }

  /** Parsing does not depend on the conversion beyond the numerals it reads. */
  lemma {:induction false} ParseAlike(a: Numerals, b: Numerals, s: string)
    requires Alike(a, b, s)
    ensures ParseExpr(a, s) == ParseExpr(b, s)
  {
    hide AgreeAt, Level, LevelReads;
    LevelAlike(a, b, s, 0, 1);
  }

  /** A text that is one numeral parses to its value, or is reported as malformed. */
  lemma {:induction false} LoneNumeral(nums: Numerals, w: string)
    requires IsNumeralText(w)
    ensures ParseExpr(nums, w) ==
            match nums.ofText(w) { case None => Failure(MalformedNumber(w)) case Some(v) => Success(Num(v)) }
  {
    ExprReading.NumeralEnds(w, 0, 0, |w|);
    assert w[0..|w|] == w && SkipWs(w, 0) == 0 && SkipWs(w, |w|) == |w|;
    assert UnaryExpr(nums, w, 0) == Number(nums, w, 0);
    hide UnaryExpr, Number;
    if nums.ofText(w).Some? {
      ExprReading.NoOpsAtStop(w, |w|);
      ExprReading.AtomReads(nums, w, 0, 1, |w|, Num(nums.ofText(w).value));
    } else {
      ErrorClimbs(nums, w, 1, MalformedNumber(w));
    }
  }

  lemma {:induction false} ErrorClimbs(nums: Numerals, s: string, k: nat, e: ParseError)
    requires 1 <= k <= 7 && UnaryExpr(nums, s, 0) == Err(e)
    ensures Level(nums, s, 0, k) == Err(e)
    decreases 7 - k
  {
    hide UnaryExpr;
    if k < 7 { ErrorClimbs(nums, s, k + 1, e); }
  }

  /** So for such texts the two parsers agree exactly when the conversions do. */
  lemma {:induction false} NumeralSplits(a: Numerals, b: Numerals, w: string)
    requires IsNumeralText(w)
    ensures ParseExpr(a, w) == ParseExpr(b, w) <==> a.ofText(w) == b.ofText(w)
  {
    hide ParseExpr;
    LoneNumeral(a, w);
    LoneNumeral(b, w);
  }
}
