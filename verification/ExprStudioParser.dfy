/** The TypeScript parser (studio/src/exprAst.ts): a cursor over the text that builds the tree. A thrown
    ParseError is a Failure result. */
module ExprStudioParser {
  import opened Wrappers
  import opened ExprSyntax
  import opened ExprGrammar

  type Outcome = Result<Expr, ParseError>

  class Parser {
    const nums: Numerals
    const src: string
    var pos: nat

    constructor (nums: Numerals, src: string)
      ensures this.nums == nums && this.src == src && pos == 0
    {
      this.nums := nums;
      this.src := src;
      pos := 0;
    }

    /** The outcome and the cursor are what the grammar says. */
    ghost predicate Follows(r: Outcome, spec: Parsed, from: nat)
      reads this
    {
      && from <= pos <= |src|
      && match spec
         case Ok(t, p) => r == Success(t) && pos == p
         case Err(e) => r == Failure(e)
    }

    method SkipSpace()
      requires pos <= |src|
      modifies this
      ensures pos == SkipWs(src, old(pos))
    {
      while pos < |src| && IsSpace(src[pos])
        invariant old(pos) <= pos <= |src|
        invariant SkipWs(src, pos) == SkipWs(src, old(pos))
      {
        pos := pos + 1;
      }
    }

    method Match1(c: char) returns (b: bool)
      requires pos <= |src|
      modifies this
      ensures b == Sees(src, old(pos), c)
      ensures pos == SkipWs(src, old(pos)) + (if b then 1 else 0)
      ensures old(pos) <= pos <= |src|
    {
      SkipSpace();
      b := pos < |src| && src[pos] == c;
      if b { pos := pos + 1; }
    }

    method Match2(a: char, b: char) returns (m: bool)
      requires pos <= |src|
      modifies this
      ensures m == Sees2(src, old(pos), a, b)
      ensures pos == SkipWs(src, old(pos)) + (if m then 2 else 0)
      ensures old(pos) <= pos <= |src|
    {
      SkipSpace();
      m := pos + 1 < |src| && src[pos] == a && src[pos + 1] == b;
      if m { pos := pos + 2; }
    }

    /** The operator tests of `parseOr` .. `parseMul`, in the order each of them makes its own. */
    method MatchOperator(k: nat) returns (op: Option<BinOp>)
      requires pos <= |src| && 1 <= k <= 6
      modifies this
      ensures old(pos) <= pos <= |src|
      ensures MatchOp(src, old(pos), k) == if op.Some? then Some((op.value, pos)) else None
      ensures op.None? ==> pos == SkipWs(src, old(pos))
    {
      hide SkipWs;
      SkipSpace();
      var m := false;
      if k == 1 {
        m := Match2('|', '|');
        if m { return Some(Or); }
      } else if k == 2 {
        m := Match2('&', '&');
        if m { return Some(And); }
      } else if k == 3 {
        m := Match2('=', '=');
        if m { return Some(Eq); }
        m := Match2('!', '=');
        if m { return Some(Ne); }
      } else if k == 4 {
        m := Match2('<', '=');
        if m { return Some(Le); }
        m := Match2('>', '=');
        if m { return Some(Ge); }
        m := Match1('<');
        if m { return Some(Lt); }
        m := Match1('>');
        if m { return Some(Gt); }
      } else if k == 5 {
        m := Match1('+');
        if m { return Some(Add); }
        m := Match1('-');
        if m { return Some(Sub); }
      } else {
        m := Match1('*');
        if m { return Some(Mul); }
        m := Match1('/');
        if m { return Some(Div); }
        m := Match1('%');
        if m { return Some(Mod); }
      }
      op := None;
    }

    /** `parseOr` is level 1, `parseMul` level 6; level 7 is `parseUnary`. */
    method ParseLevel(k: nat) returns (r: Outcome)
      requires pos <= |src| && 1 <= k <= 7
      modifies this
      ensures Follows(r, Level(nums, src, old(pos), k), old(pos))
      decreases |src| - pos, 10 - k
    {
      hide MatchOp, SkipWs, UnaryExpr;
      if k == 7 {
        r := ParseUnary();
        return;
      }
      var left :- ParseLevel(k + 1);
      while true
        invariant old(pos) < pos <= |src|
        invariant Level(nums, src, old(pos), k) == Tail(nums, src, pos, k, left)
        decreases |src| - pos
      {
        var op := MatchOperator(k);
        if op.None? {
          return Success(left);
        }
        var right :- ParseLevel(k + 1);
        left := Binary(op.value, left, right);
      }
    }

    method ParseUnary() returns (r: Outcome)
      requires pos <= |src|
      modifies this
      ensures Follows(r, UnaryExpr(nums, src, old(pos)), old(pos))
      decreases |src| - pos, 2
    {
      SkipSpace();
      var bang := Match1('!');
      if bang {
        var arg :- ParseUnary();
        return Success(Expr.Unary(Not, arg));
      }
      var dash := Match1('-');
      if dash {
        var arg :- ParseUnary();
        return Success(Expr.Unary(Neg, arg));
      }
      r := ParsePrimary();
    }

    method ParsePrimary() returns (r: Outcome)
      requires pos <= |src|
      modifies this
      ensures Follows(r, Primary(nums, src, SkipWs(src, old(pos))), old(pos))
      decreases |src| - pos, 1
    {
      SkipSpace();
      if pos == |src| {
        return Failure(UnexpectedChar(pos));
      }
      var c := src[pos];
      if c == '(' {
        pos := pos + 1;
        var tree :- ParseLevel(1);
        SkipSpace();
        var close := Match1(')');
        return if close then Success(tree) else Failure(ExpectedClose);
      }
      if c == '"' {
        r := ParseStringBody();
      } else if IsDigit(c) || c == '.' {
        r := ParseNumber();
      } else if IsIdentStart(c) {
        r := ParseIdent();
      } else {
        r := Failure(UnexpectedChar(pos));
      }
    }

    method ParseNumber() returns (r: Outcome)
      requires pos < |src| && (IsDigit(src[pos]) || src[pos] == '.')
      modifies this
      ensures Follows(r, Number(nums, src, old(pos)), old(pos))
    {
      var start := pos;
      while pos < |src| && IsNumeralChar(src, start, pos)
        invariant start <= pos <= |src|
        invariant ScanNumeral(src, start, pos) == ScanNumeral(src, start, start)
      {
        pos := pos + 1;
      }
      var num := src[start..pos];
      var v := nums.ofText(num);
      r := if v.Some? then Success(Num(v.value)) else Failure(MalformedNumber(num));
    }

    /** The part of `parseIdent` that follows the word `tag`. */
    method ParseTagForm() returns (r: Outcome)
      requires pos <= |src|
      modifies this
      ensures Follows(r, TagForm(src, old(pos)), old(pos))
    {
      hide Quoted;
      SkipSpace();
      var open := Match1('(');
      if !open { return Failure(ExpectedOpenAfterTag); }
      SkipSpace();
      if pos == |src| || src[pos] != '"' { return Failure(ExpectedQuotedName); }
      var node :- ParseStringBody();
      SkipSpace();
      var close := Match1(')');
      r := if close then Success(node) else Failure(ExpectedCloseTag);
    }

    method ParseIdent() returns (r: Outcome)
      requires pos < |src| && IsIdentStart(src[pos])
      modifies this
      ensures Follows(r, Ident(nums, src, old(pos)), old(pos))
      decreases |src| - pos, 0
    {
      hide TagForm, Arguments;
      var start := pos;
      while pos < |src| && IsIdentChar(src[pos])
        invariant start <= pos <= |src|
        invariant ScanIdent(src, pos) == ScanIdent(src, start)
      {
        pos := pos + 1;
      }
      var ident := src[start..pos];
      if ident == "tag" {
        r := ParseTagForm();
        return;
      }
      SkipSpace();
      if pos < |src| && src[pos] == '(' {
        r := ParseFunctionCall(ident);
      } else {
        r := Success(Tag(ident));
      }
    }

    method ParseFunctionCall(name: string) returns (r: Outcome)
      requires pos < |src| && src[pos] == '('
      modifies this
      ensures Follows(r, Arguments(nums, src, old(pos) + 1, name), old(pos))
      decreases |src| - pos, 0, 0
    {
      hide Level, Lookup, SkipWs;
      var fn := FuncByName(name);
      if fn.None? { return Failure(UnknownFunction(name)); }
      pos := pos + 1;
      var first :- ParseLevel(1);
      var args := [first];
      if Arity(fn.value) == 2 {
        SkipSpace();
        var comma := Match1(',');
        if !comma { return Failure(TooFewArguments(name)); }
        var second :- ParseLevel(1);
        args := [first, second];
      }
      SkipSpace();
      var close := Match1(')');
      r := if close then Success(Call(fn.value, args)) else Failure(ExpectedCloseCall(name));
    }

    method ParseStringBody() returns (r: Outcome)
      requires pos < |src| && src[pos] == '"'
      modifies this
      ensures Follows(r, Quoted(src, old(pos)), old(pos))
    {
      pos := pos + 1;
      var start := pos;
      while pos < |src| && src[pos] != '"'
        invariant start <= pos <= |src|
        invariant ScanToQuote(src, pos) == ScanToQuote(src, start)
      {
        pos := pos + 1;
      }
      if pos == |src| { return Failure(UnterminatedString); }
      var name := src[start..pos];
      pos := pos + 1;
      r := if name == "" then Failure(EmptyTagName) else Success(Tag(name));
    }

    method Parse() returns (r: Outcome)
      requires pos == 0
      modifies this
      ensures r == ParseExpr(nums, src)
    {
      var tree :- ParseLevel(1);
      SkipSpace();
      r := if pos == |src| then Success(tree) else Failure(TrailingInput(pos));
    }
  }

  /** `parseExpr` */
  method StudioParse(nums: Numerals, src: string) returns (r: Outcome)
    ensures r == ParseExpr(nums, src)
  {
    var p := new Parser(nums, src);
    r := p.Parse();
  }
}
