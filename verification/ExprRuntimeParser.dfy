/** The C++ parser (include/aero/nodes/expr_rule_node.hpp): it emits RPN while it recurses and never
    throws. After the first failure it keeps running with `failed` set. */
module ExprRuntimeParser {
  import opened Wrappers
  import opened Doubles
  import opened ExprSyntax
  import opened ExprGrammar
  import opened ExprProgram

  /** `Program`: on failure the code and names are cleared and `error` is the first one reported. */
  datatype Program =
    Program(code: seq<Instr>, names: seq<string>, maxDepth: int, ok: bool, error: Option<ParseError>)

  class Parser {
    const nums: Numerals
    const src: string
    var pos: nat
    var failed: bool
    var error: Option<ParseError>
    var code: seq<Instr>
    var names: seq<string>
    var depth: int
    var maxDepth: int

    constructor (nums: Numerals, src: string)
      ensures this.nums == nums && this.src == src && pos == 0 && !failed && error == None && Out() == EMPTY
    {
      this.nums := nums;
      this.src := src;
      pos, failed, error := 0, false, None;
      code, names, depth, maxDepth := [], [], 0, 0;
    }

    ghost function Out(): Emission
      reads this
    {
      Emission(code, names, depth, maxDepth)
    }

    /** Starting unfailed at `from` with output `out`, the parser did what the grammar says: emitted the
        tree it read, or failed with the error the grammar reports. A failure never goes away. */
    ghost predicate Did(spec: Parsed, from: nat, out: Emission, hadFailed: bool, hadError: Option<ParseError>)
      reads this
    {
      && from <= pos <= |src|
      && (failed <==> error.Some?)
      && (hadFailed ==> failed && error == hadError)
      && (!hadFailed ==>
            match spec
            case Ok(t, p) => !failed && pos == p && Out() == EmitTree(out, t)
            case Err(e) => failed && error == Some(e))
    }

    ghost predicate Valid()
      reads this
    {
      pos <= |src| && (failed <==> error.Some?)
    }

    // ----- lexing -----

    method SkipSpace()
      requires pos <= |src|
      modifies this`pos
      ensures pos == SkipWs(src, old(pos))
    {
      while pos < |src| && IsSpace(src[pos])
        invariant old(pos) <= pos <= |src|
        invariant SkipWs(src, pos) == SkipWs(src, old(pos))
      {
        pos := pos + 1;
      }
    }

    method Match1(c: char) returns (b: bool)
      requires pos <= |src|
      modifies this`pos
      ensures b == Sees(src, old(pos), c)
      ensures pos == SkipWs(src, old(pos)) + (if b then 1 else 0)
      ensures old(pos) <= pos <= |src|
    {
      SkipSpace();
      b := pos < |src| && src[pos] == c;
      if b { pos := pos + 1; }
    }

    method Match2(a: char, b: char) returns (m: bool)
      requires pos <= |src|
      modifies this`pos
      ensures m == Sees2(src, old(pos), a, b)
      ensures pos == SkipWs(src, old(pos)) + (if m then 2 else 0)
      ensures old(pos) <= pos <= |src|
    {
      SkipSpace();
      m := pos + 1 < |src| && src[pos] == a && src[pos + 1] == b;
      if m { pos := pos + 2; }
    }

    /** The operator tests of `parse_or` .. `parse_mul`, in the order each of them makes its own. */
    method MatchOperator(k: nat) returns (op: Option<BinOp>)
      requires pos <= |src| && 1 <= k <= 6
      modifies this`pos
      ensures old(pos) <= pos <= |src|
      ensures MatchOp(src, old(pos), k) == if op.Some? then Some((op.value, pos)) else None
      ensures op.None? ==> pos == SkipWs(src, old(pos))
    {
      hide SkipWs;
      SkipSpace();
      var m := false;
      if k == 1 {
        m := Match2('|', '|');
        if m { return Some(Or); }
      } else if k == 2 {
        m := Match2('&', '&');
        if m { return Some(And); }
      } else if k == 3 {
        m := Match2('=', '=');
        if m { return Some(Eq); }
        m := Match2('!', '=');
        if m { return Some(Ne); }
      } else if k == 4 {
        m := Match2('<', '=');
        if m { return Some(Le); }
        m := Match2('>', '=');
        if m { return Some(Ge); }
        m := Match1('<');
        if m { return Some(Lt); }
        m := Match1('>');
        if m { return Some(Gt); }
      } else if k == 5 {
        m := Match1('+');
        if m { return Some(Add); }
        m := Match1('-');
        if m { return Some(Sub); }
      } else {
        m := Match1('*');
        if m { return Some(Mul); }
        m := Match1('/');
        if m { return Some(Div); }
        m := Match1('%');
        if m { return Some(Mod); }
      }
      op := None;
    }

    // ----- emitting -----

    method Fail(e: ParseError)
      requires Valid()
      modifies this`failed, this`error
      ensures Valid() && failed && error == if old(failed) then old(error) else Some(e)
    {
      if !failed {
        failed, error := true, Some(e);
      }
    }

    method Push()
      modifies this`depth, this`maxDepth
      ensures depth == old(depth) + 1 && maxDepth == Larger(old(maxDepth), old(depth) + 1)
    {
      depth := depth + 1;
      if depth > maxDepth { maxDepth := depth; }
    }

    method AddConst(v: Double)
      modifies this`code, this`depth, this`maxDepth
      ensures Out() == EmitConst(old(Out()), v)
    {
      code := code + [Const(v)];
      Push();
    }

    method AddTag(name: string)
      modifies this`code, this`names, this`depth, this`maxDepth
      ensures Out() == EmitTag(old(Out()), name)
    {
      var idx := 0;
      while idx < |names| && names[idx] != name
        invariant 0 <= idx <= |names|
        invariant forall k :: 0 <= k < idx ==> names[k] != name
      {
        idx := idx + 1;
      }
      if idx == |names| { names := names + [name]; }
      assert IndexOf(names, name) == idx;
      code := code + [Load(idx)];
      Push();
    }

    method AddOp(op: Op)
      modifies this`code, this`depth
      ensures Out() == if failed then old(Out()) else EmitOp(old(Out()), op)
    {
      if failed { return; }
      code := code + [Apply(op)];
      if !IsUnaryOp(op) { depth := depth - 1; }
    }

    // ----- parsing -----

    /** `parse_or` is level 1, `parse_mul` level 6; level 7 is `parse_unary`. */
    method ParseLevel(k: nat)
      requires Valid() && 1 <= k <= 7
      modifies this
      ensures Did(Level(nums, src, old(pos), k), old(pos), old(Out()), old(failed), old(error))
      decreases |src| - pos, 10 - k
    {
      hide MatchOp, SkipWs, UnaryExpr, EmitTree;
      if k == 7 {
        ParseUnary();
        return;
      }
      ParseLevel(k + 1);
      ghost var whole := Level(nums, src, old(pos), k);
      ghost var operand := Level(nums, src, old(pos), k + 1);
      ghost var left := if operand.Ok? then operand.tree else Tag("");
      var more := true;
      while more
        invariant old(pos) <= pos && Valid()
        invariant old(failed) ==> failed && error == old(error)
        invariant !old(failed) && failed ==> whole == Err(error.value)
        invariant !failed ==> old(pos) < pos && Out() == EmitTree(old(Out()), left)
        invariant !failed ==> whole == if more then Tail(nums, src, pos, k, left) else Ok(left, pos)
        decreases more, |src| - pos
      {
        hide Level, Tail, EmitTree;
        more, left := NextOperand(k, left, old(Out()));
      }
    }

    /** One round of the loop in `parse_or` .. `parse_mul`: an operator and its right operand, if there is one. */
    method NextOperand(k: nat, ghost left: Expr, ghost out: Emission) returns (more: bool, ghost left': Expr)
      requires Valid() && 1 <= k <= 6 && (!failed ==> Out() == EmitTree(out, left))
      modifies this
      ensures Valid() && old(pos) <= pos && (more ==> old(pos) < pos)
      ensures old(failed) ==> failed && error == old(error)
      ensures !old(failed) && failed ==> Tail(nums, src, old(pos), k, left) == Err(error.value)
      ensures !failed ==> Out() == EmitTree(out, left')
      ensures !failed ==>
                Tail(nums, src, old(pos), k, left) == if more then Tail(nums, src, pos, k, left') else Ok(left', pos)
      decreases |src| - pos, 0
    {
      hide MatchOp, SkipWs, Level;
      more, left' := false, left;
      var op := MatchOperator(k);
      if op.None? { return; }
      ghost var right := Level(nums, src, pos, k + 1);
      ParseLevel(k + 1);
      AddOp(Infix(op.value));
      more := true;
      if right.Ok? { left' := Binary(op.value, left, right.tree); }
    }

    method ParseUnary()
      requires Valid()
      modifies this
      ensures Did(UnaryExpr(nums, src, old(pos)), old(pos), old(Out()), old(failed), old(error))
      decreases |src| - pos, 2
    {
      hide Primary, SkipWs, EmitTree;
      SkipSpace();
      var bang := Match1('!');
      if bang {
        ParseSigned(Not);
        return;
      }
      var dash := Match1('-');
      if dash {
        ParseSigned(Neg);
        return;
      }
      ParsePrimary();
    }

    /** The operand of a `!` or `-`, and the operator it emits. */
    method ParseSigned(op: UnaryOp)
      requires Valid()
      modifies this
      ensures Did(match UnaryExpr(nums, src, old(pos))
                  case Err(e) => Err(e)
                  case Ok(t, p) => Ok(Expr.Unary(op, t), p),
                  old(pos), old(Out()), old(failed), old(error))
      decreases |src| - pos, 3
    {
      hide UnaryExpr;
      ParseUnary();
      AddOp(Sign(op));
    }

    method ParsePrimary()
      requires Valid()
      modifies this
      ensures Did(Primary(nums, src, SkipWs(src, old(pos))), old(pos), old(Out()), old(failed), old(error))
      decreases |src| - pos, 1
    {
      hide Level, Quoted, Number, Ident, EmitTree;
      SkipSpace();
      if failed { return; }
      if pos == |src| {
        Fail(UnexpectedChar(pos));
        return;
      }
      var c := src[pos];
      if c == '(' {
        pos := pos + 1;
        ParseLevel(1);
        SkipSpace();
        var close := Match1(')');
        if !close { Fail(ExpectedClose); }
        return;
      }
      if c == '"' {
        ParseStringBody();
      } else if IsDigit(c) || c == '.' {
        ParseNumber();
      } else if IsIdentStart(c) {
        ParseIdent();
      } else {
        Fail(UnexpectedChar(pos));
      }
    }

    method ParseNumber()
      requires Valid() && !failed && pos < |src| && (IsDigit(src[pos]) || src[pos] == '.')
      modifies this
      ensures Did(Number(nums, src, old(pos)), old(pos), old(Out()), false, None)
    {
      var start := pos;
      while pos < |src| && IsNumeralChar(src, start, pos)
        invariant start <= pos <= |src|
        invariant ScanNumeral(src, start, pos) == ScanNumeral(src, start, start)
        modifies this`pos
      {
        pos := pos + 1;
      }
      var num := src[start..pos];
      var v := nums.ofText(num);
      if v.Some? { AddConst(v.value); } else { Fail(MalformedNumber(num)); }
    }

    method ParseIdent()
      requires Valid() && !failed && pos < |src| && IsIdentStart(src[pos])
      modifies this
      ensures Did(Ident(nums, src, old(pos)), old(pos), old(Out()), false, None)
      decreases |src| - pos, 0
    {
      hide TagForm, Arguments;
      var start := pos;
      while pos < |src| && IsIdentChar(src[pos])
        invariant start <= pos <= |src|
        invariant ScanIdent(src, pos) == ScanIdent(src, start)
        modifies this`pos
      {
        pos := pos + 1;
      }
      var ident := src[start..pos];
      if ident == "tag" {
        ParseTagForm();
        return;
      }
      SkipSpace();
      if pos < |src| && src[pos] == '(' {
        ParseFunctionCall(ident);
      } else {
        AddTag(ident);
      }
    }

    /** The part of `parse_ident` that follows the word `tag`. */
    method ParseTagForm()
      requires Valid() && !failed
      modifies this
      ensures Did(TagForm(src, old(pos)), old(pos), old(Out()), false, None)
    {
      hide Quoted;
      SkipSpace();
      var open := Match1('(');
      if !open {
        Fail(ExpectedOpenAfterTag);
        return;
      }
      SkipSpace();
      if pos == |src| || src[pos] != '"' {
        Fail(ExpectedQuotedName);
        return;
      }
      ParseStringBody();
      SkipSpace();
      var close := Match1(')');
      if !close { Fail(ExpectedCloseTag); }
    }

    method ParseFunctionCall(name: string)
      requires Valid() && !failed && pos < |src| && src[pos] == '('
      modifies this
      ensures Did(Arguments(nums, src, old(pos) + 1, name), old(pos), old(Out()), false, None)
      decreases |src| - pos, 0, 0
    {
      hide Lookup, ArgumentsOf;
      var fn := FuncByName(name);
      if fn.None? {
        Fail(UnknownFunction(name));
        return;
      }
      pos := pos + 1;
      ParseArguments(fn.value, name);
    }

    method ParseArguments(fn: Func, name: string)
      requires Valid() && !failed && 0 < pos
      modifies this
      ensures Did(ArgumentsOf(nums, src, old(pos), fn, name), old(pos), old(Out()), false, None)
      decreases |src| - pos, 20
    {
      hide ArgumentsOf, SecondOf, Level, SkipWs, EmitTree, CloseCall, EmitOp;
      ghost var first, out := Level(nums, src, pos, 1), Out();
      ArgumentsSplit(nums, src, pos, fn, name);
      ParseLevel(1);
      ghost var a := if first.Ok? then first.tree else Tag("");
      if Arity(fn) == 2 {
        SecondArgument(fn, name, out, a);
      } else {
        EmitArguments(out, fn, a, a);
        FinishCall(fn, name, out, [a]);
      }
    }

    /** The comma and the second argument of a two-argument call. */
    method SecondArgument(fn: Func, name: string, ghost out: Emission, ghost a: Expr)
      requires Valid() && Arity(fn) == 2 && (!failed ==> 0 < pos && Out() == EmitTree(out, a))
      modifies this
      ensures Did(SecondOf(nums, src, old(pos), fn, name, a), old(pos), out, old(failed), old(error))
      decreases |src| - pos, 19
    {
      hide Level, SkipWs, EmitTree, CloseCall;
      SkipSpace();
      var comma := Match1(',');
      if !comma {
        Fail(TooFewArguments(name));
        return;
      }
      ghost var second := Level(nums, src, pos, 1);
      ParseLevel(1);
      ghost var b := if second.Ok? then second.tree else Tag("");
      EmitArguments(out, fn, a, b);
      FinishCall(fn, name, out, [a, b]);
    }

    /** The closing parenthesis of a call, and the operator it emits. */
    method FinishCall(fn: Func, name: string, ghost out: Emission, ghost args: seq<Expr>)
      requires Valid()
      requires !failed ==> EmitOp(Out(), Math(fn)) == EmitTree(out, Call(fn, args))
      modifies this
      ensures Did(CloseCall(src, old(pos), fn, name, args), old(pos), out, old(failed), old(error))
    {
      hide EmitTree;
      SkipSpace();
      var close := Match1(')');
      if !close {
        Fail(ExpectedCloseCall(name));
        return;
      }
      AddOp(Math(fn));
    }

    method ParseStringBody()
      requires Valid() && !failed && pos < |src| && src[pos] == '"'
      modifies this
      ensures Did(Quoted(src, old(pos)), old(pos), old(Out()), false, None)
    {
      pos := pos + 1;
      var start := pos;
      while pos < |src| && src[pos] != '"'
        invariant start <= pos <= |src|
        invariant ScanToQuote(src, pos) == ScanToQuote(src, start)
        modifies this`pos
      {
        pos := pos + 1;
      }
      if pos == |src| {
        Fail(UnterminatedString);
        return;
      }
      var name := src[start..pos];
      pos := pos + 1;
      if name == "" { Fail(EmptyTagName); } else { AddTag(name); }
    }

    method Parse() returns (p: Program)
      requires Valid() && !failed && pos == 0 && Out() == EMPTY
      modifies this
      ensures p == CompiledProgram(ParseExpr(nums, src))
    {
      ParseLevel(1);
      SkipSpace();
      if !failed && pos != |src| { Fail(TrailingInput(pos)); }
      p := if failed then Program([], [], 0, false, error) else Program(code, names, maxDepth, true, None);
    }
  }

  /** What the grammar says after the first argument `a`, which ends at `p`, of a two-argument call. */
  ghost function SecondOf(nums: Numerals, s: string, p: nat, fn: Func, name: string, a: Expr): Parsed
    requires p <= |s|
  {
    if !Sees(s, p, ',') then Err(TooFewArguments(name))
    else
      match Level(nums, s, SkipWs(s, p) + 1, 1)
      case Err(e) => Err(e)
      case Ok(b, q) => CloseCall(s, q, fn, name, [a, b])
  }

  lemma {:induction false} ArgumentsSplit(nums: Numerals, s: string, i: nat, fn: Func, name: string)
    requires 0 < i <= |s|
    ensures var first := Level(nums, s, i, 1);
            ArgumentsOf(nums, s, i, fn, name) ==
            if first.Err? then first
            else if Arity(fn) == 2 then SecondOf(nums, s, first.pos, fn, name, first.tree)
            else CloseCall(s, first.pos, fn, name, [first.tree])
  {
    hide Level, CloseCall;
  }

  lemma {:induction false} EmitArguments(e: Emission, fn: Func, a: Expr, b: Expr)
    ensures EmitTree(e, Call(fn, [a])) == EmitOp(EmitTree(e, a), Math(fn))
    ensures EmitTree(e, Call(fn, [a, b])) == EmitOp(EmitTree(EmitTree(e, a), b), Math(fn))
  {
    assert [a][1..] == [] && [a, b][1..] == [b] && [b][1..] == [];
    var e', e'' := EmitTree(e, a), EmitTree(EmitTree(e, a), b);
    assert EmitTrees(e', []) == e' && EmitTrees(e'', []) == e'';
    assert EmitTrees(e', [b]) == e'';
  }

  ghost function CompiledProgram(r: Result<Expr, ParseError>): Program {
    match r
    case Failure(e) => Program([], [], 0, false, Some(e))
    case Success(t) =>
      var out := EmitTree(EMPTY, t);
      Program(out.code, out.names, out.maxDepth, true, None)
  }

  /** `ExprRuleNode::compile` */
  method Compile(nums: Numerals, src: string) returns (p: Program)
    ensures p == CompiledProgram(ParseExpr(nums, src))
  {
    var parser := new Parser(nums, src);
    p := parser.Parse();
  }
}
