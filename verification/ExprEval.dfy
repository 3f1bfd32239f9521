/** Evaluating compiled expressions on the fixed 128-slot value stack
    (include/aero/nodes/expr_rule_node.hpp), and the value of a tree it must agree with. */
module ExprEval {
  import opened Wrappers
  import opened Doubles
  import opened ExprSyntax
  import opened ExprGrammar
  import opened ExprProgram
  import opened ExprRuntimeParser
  import ExprRoundTrip

  const MAX_STACK: nat := 128

  /** The floating-point primitives, any functions whatever. */
  datatype Arith = Arith(
    neg: Double -> Double,
    math: (Func, Double) -> Double,
    add: (Double, Double) -> Double,
    sub: (Double, Double) -> Double,
    mul: (Double, Double) -> Double,
    div: (Double, Double) -> Double,
    fmod: (Double, Double) -> Double,
    pow: (Double, Double) -> Double,
    lt: (Double, Double) -> bool,
    le: (Double, Double) -> bool,
    eq: (Double, Double) -> bool)

  datatype TagValue = TagValue(name: string, value: Double)

  /** The first tag of that name; a missing tag reads as 0.0. */
  function TagLookup(tags: seq<TagValue>, name: string): Double {
    if tags == [] then ZERO
    else if tags[0].name == name then tags[0].value
    else TagLookup(tags[1..], name)
  }

  function ApplyUnary(A: Arith, op: Op, a: Double): Double
    requires IsUnaryOp(op)
  {
    match op
    case Sign(Neg) => A.neg(a)
    case Sign(Not) => FromBool(IsZero(a))
    case Math(f) => A.math(f, a)
  }

  /** Division and modulo by zero give 0.0; comparisons and connectives give 1.0 or 0.0. */
  function ApplyBinary(A: Arith, op: Op, a: Double, b: Double): Double
    requires !IsUnaryOp(op)
  {
    match op
    case Math(f) =>
      if f.Pow? then A.pow(a, b)
      else if f.Min? then (if A.lt(b, a) then b else a)
      else (if A.lt(a, b) then b else a)
    case Infix(Add) => A.add(a, b)
    case Infix(Sub) => A.sub(a, b)
    case Infix(Mul) => A.mul(a, b)
    case Infix(Div) => if IsZero(b) then ZERO else A.div(a, b)
    case Infix(Mod) => if IsZero(b) then ZERO else A.fmod(a, b)
    case Infix(Lt) => FromBool(A.lt(a, b))
    case Infix(Gt) => FromBool(A.lt(b, a))
    case Infix(Le) => FromBool(A.le(a, b))
    case Infix(Ge) => FromBool(A.le(b, a))
    case Infix(Eq) => FromBool(A.eq(a, b))
    case Infix(Ne) => FromBool(!A.eq(a, b))
    case Infix(And) => FromBool(!IsZero(a) && !IsZero(b))
    case Infix(Or) => FromBool(!IsZero(a) || !IsZero(b))
  }

  // ----- the meaning of a tree -----

  /** A tree as the machine sees it: a leaf, or an operator on one or two operands. */
  datatype Shape = Leaf | One(op: Op, x: Expr) | Two(op: Op, x: Expr, y: Expr)

  function ShapeOf(t: Expr): (s: Shape)
    requires Saturated(t)
    ensures s.One? ==> IsUnaryOp(s.op)
    ensures s.Two? ==> !IsUnaryOp(s.op) && s.y < t && Saturated(s.y)
    ensures !s.Leaf? ==> s.x < t && Saturated(s.x)
  {
    match t
    case Num(_) => Leaf
    case Tag(_) => Leaf
    case Unary(op, x) => One(Sign(op), x)
    case Binary(op, x, y) => Two(Infix(op), x, y)
    case Call(fn, args) => if Arity(fn) == 1 then One(Math(fn), args[0]) else Two(Math(fn), args[0], args[1])
  }

  function Value(A: Arith, tags: seq<TagValue>, t: Expr): Double
    requires Saturated(t)
    decreases t
  {
    match ShapeOf(t)
    case Leaf => if t.Num? then t.value else TagLookup(tags, t.name)
    case One(op, x) => ApplyUnary(A, op, Value(A, tags, x))
    case Two(op, x, y) => ApplyBinary(A, op, Value(A, tags, x), Value(A, tags, y))
  }

  /** Does the tree or any part of it evaluate to NaN? */
  predicate AnyNaN(A: Arith, tags: seq<TagValue>, t: Expr)
    requires Saturated(t)
    decreases t
  {
    || IsNaN(Value(A, tags, t))
    || match ShapeOf(t)
       case Leaf => false
       case One(_, x) => AnyNaN(A, tags, x)
       case Two(_, x, y) => AnyNaN(A, tags, x) || AnyNaN(A, tags, y)
  }

  // ----- the stack machine -----

  /** Every operator finds its operands, starting with `n` values on the stack. */
  predicate StackSafe(syms: seq<Sym>, n: nat)
    decreases |syms|
  {
    if syms == [] then true
    else if !syms[0].Do? then StackSafe(syms[1..], n + 1)
    else if IsUnaryOp(syms[0].op) then n >= 1 && StackSafe(syms[1..], n)
    else n >= 2 && StackSafe(syms[1..], n - 1)
  }

  function Step(A: Arith, tags: seq<TagValue>, sym: Sym, stack: seq<Double>): (s: seq<Double>)
    requires StackSafe([sym], |stack|)
    ensures |s| > 0
  {
    var n := |stack|;
    match sym
    case Lit(v) => stack + [v]
    case Ref(name) => stack + [TagLookup(tags, name)]
    case Do(op) =>
      if IsUnaryOp(op) then stack[..n - 1] + [ApplyUnary(A, op, stack[n - 1])]
      else stack[..n - 2] + [ApplyBinary(A, op, stack[n - 2], stack[n - 1])]
  }

  /** The evaluator's loop: it stops early once the stack holds MAX_STACK values. */
  function Run(A: Arith, tags: seq<TagValue>, syms: seq<Sym>, stack: seq<Double>, nan: bool): (seq<Double>, bool)
    requires StackSafe(syms, |stack|)
    decreases |syms|
  {
    if syms == [] then (stack, nan)
    else
      var s := Step(A, tags, syms[0], stack);
      var nan' := nan || IsNaN(s[|s| - 1]);
      if |s| >= MAX_STACK then (s, nan') else Run(A, tags, syms[1..], s, nan')
  }

  function LeafSym(t: Expr): Sym
    requires Saturated(t) && ShapeOf(t).Leaf?
  {
    if t.Num? then Lit(t.value) else Ref(t.name)
  }

  /** Postfix form and peak by shape. */
  lemma {:induction false} PostfixByShape(t: Expr)
    requires Saturated(t)
    ensures match ShapeOf(t)
            case Leaf => Postfix(t) == [LeafSym(t)] && Peak(t) == 1
            case One(op, x) => Postfix(t) == Postfix(x) + [Do(op)] && Peak(t) == Peak(x)
            case Two(op, x, y) =>
              Postfix(t) == Postfix(x) + Postfix(y) + [Do(op)] && Peak(t) == Larger(Peak(x), 1 + Peak(y))
  {
    if t.Call? {
      var args := t.args;
      PeakPositive(args[0]);
      if |args| == 1 {
        assert args == [args[0]] && args[1..] == [];
        assert PostfixOf([]) == [] && PeakOf([]) == 0;
        assert PostfixOf(args) == Postfix(args[0]) + [];
      } else {
        PeakPositive(args[1]);
        assert args[1..] == [args[1]] && args[1..][1..] == [];
        assert PostfixOf([args[1]]) == Postfix(args[1]) + [] && PeakOf([args[1]]) == Peak(args[1]);
        assert PostfixOf(args) == Postfix(args[0]) + Postfix(args[1]);
      }
    }
  }

  lemma {:induction false} PostfixSafe(t: Expr, rest: seq<Sym>, n: nat)
    requires Saturated(t) && StackSafe(rest, n + 1)
    ensures StackSafe(Postfix(t) + rest, n)
    decreases t
  {
    hide Postfix, StackSafe, Saturated, Peak;
    PostfixByShape(t);
    match ShapeOf(t)
    case Leaf =>
      PushSafe(LeafSym(t), rest, n);
    case One(op, x) =>
      OperatorSafe(op, rest, n + 1);
      PostfixSafe(x, [Do(op)] + rest, n);
      assert Postfix(t) + rest == Postfix(x) + ([Do(op)] + rest);
    case Two(op, x, y) =>
      OperatorSafe(op, rest, n + 2);
      PostfixSafe(y, [Do(op)] + rest, n + 1);
      PostfixSafe(x, Postfix(y) + ([Do(op)] + rest), n);
      assert Postfix(t) + rest == Postfix(x) + (Postfix(y) + ([Do(op)] + rest));
  }

  lemma {:induction false} PushSafe(sym: Sym, rest: seq<Sym>, n: nat)
    requires !sym.Do? && StackSafe(rest, n + 1)
    ensures StackSafe([sym] + rest, n)
  {
    assert ([sym] + rest)[1..] == rest;
  }

  lemma {:induction false} OperatorSafe(op: Op, rest: seq<Sym>, n: nat)
    requires n >= (if IsUnaryOp(op) then 1 else 2)
    requires StackSafe(rest, if IsUnaryOp(op) then n else n - 1)
    ensures StackSafe([Do(op)] + rest, n)
  {
    assert ([Do(op)] + rest)[1..] == rest;
  }

  // ----- agreement -----

  /** One instruction at the head of the code, when the stack stays below the limit. */
  lemma {:induction false} RunHead(
    A: Arith, tags: seq<TagValue>, sym: Sym, rest: seq<Sym>, stack: seq<Double>, nan: bool)
    requires StackSafe([sym] + rest, |stack|)
    ensures StackSafe([sym], |stack|) && StackSafe(rest, |Step(A, tags, sym, stack)|)
    ensures var s := Step(A, tags, sym, stack);
            var nan' := nan || IsNaN(s[|s| - 1]);
            Run(A, tags, [sym] + rest, stack, nan) ==
            if |s| >= MAX_STACK then (s, nan') else Run(A, tags, rest, s, nan')
  {
    assert ([sym] + rest)[1..] == rest;
    assert [sym][1..] == [];
  }

  /** Running a tree's code pushes the tree's value, and notices exactly the NaNs inside it. */
  lemma {:induction false} RunTree(
    A: Arith, tags: seq<TagValue>, t: Expr, rest: seq<Sym>, stack: seq<Double>, nan: bool)
    requires Saturated(t) && StackSafe(rest, |stack| + 1) && |stack| + Peak(t) < MAX_STACK
    ensures StackSafe(Postfix(t) + rest, |stack|)
    ensures Run(A, tags, Postfix(t) + rest, stack, nan) ==
            Run(A, tags, rest, stack + [Value(A, tags, t)], nan || AnyNaN(A, tags, t))
    decreases t
  {
    hide Postfix, Run, StackSafe, Saturated, Peak, ApplyUnary, ApplyBinary, TagLookup, IsUnaryOp;
    PostfixSafe(t, rest, |stack|);
    PostfixByShape(t);
    PeakPositive(t);
    var v := Value(A, tags, t);
    match ShapeOf(t)
    case Leaf =>
      RunHead(A, tags, LeafSym(t), rest, stack, nan);
    case One(op, x) =>
      OperatorSafe(op, rest, |stack| + 1);
      assert Postfix(t) + rest == Postfix(x) + ([Do(op)] + rest);
      RunTree(A, tags, x, [Do(op)] + rest, stack, nan);
      var s := stack + [Value(A, tags, x)];
      RunHead(A, tags, Do(op), rest, s, nan || AnyNaN(A, tags, x));
      assert Step(A, tags, Do(op), s) == stack + [v];
    case Two(op, x, y) =>
      OperatorSafe(op, rest, |stack| + 2);
      PostfixSafe(y, [Do(op)] + rest, |stack| + 1);
      assert Postfix(t) + rest == Postfix(x) + (Postfix(y) + ([Do(op)] + rest));
      RunTree(A, tags, x, Postfix(y) + ([Do(op)] + rest), stack, nan);
      var nx := nan || AnyNaN(A, tags, x);
      RunTree(A, tags, y, [Do(op)] + rest, stack + [Value(A, tags, x)], nx);
      var s := stack + [Value(A, tags, x)] + [Value(A, tags, y)];
      RunHead(A, tags, Do(op), rest, s, nx || AnyNaN(A, tags, y));
      assert Step(A, tags, Do(op), s) == stack + [v];
  }

  /** The leaf whose push brings the stack up to `room` more values. */
  function CutLeaf(t: Expr, room: nat): (leaf: Expr)
    requires Saturated(t) && 1 <= room <= Peak(t)
    ensures Saturated(leaf) && ShapeOf(leaf).Leaf?
    decreases t
  {
    PostfixByShape(t);
    match ShapeOf(t)
    case Leaf => t
    case One(_, x) => CutLeaf(x, room)
    case Two(_, x, y) => PeakPositive(x); if room <= Peak(x) then CutLeaf(x, room) else CutLeaf(y, room - 1)
  }

  /** Is the leaf that brings the stack up to `room` more values a NaN, or any subexpression completed before it? */
  predicate CutNaN(A: Arith, tags: seq<TagValue>, t: Expr, room: nat)
    requires Saturated(t) && 1 <= room <= Peak(t)
    decreases t
  {
    PostfixByShape(t);
    match ShapeOf(t)
    case Leaf => IsNaN(Value(A, tags, t))
    case One(_, x) => CutNaN(A, tags, x, room)
    case Two(_, x, y) =>
      PeakPositive(x);
      if room <= Peak(x) then CutNaN(A, tags, x, room) else AnyNaN(A, tags, x) || CutNaN(A, tags, y, room - 1)
  }

  /** A tree too deep for the stack: evaluation stops at the leaf that fills the last slot. */
  lemma {:induction false} RunCut(A: Arith, tags: seq<TagValue>, t: Expr, rest: seq<Sym>, stack: seq<Double>, nan: bool)
    requires Saturated(t) && StackSafe(rest, |stack| + 1) && |stack| < MAX_STACK <= |stack| + Peak(t)
    ensures StackSafe(Postfix(t) + rest, |stack|)
    ensures var (r, nan') := Run(A, tags, Postfix(t) + rest, stack, nan);
            && |r| == MAX_STACK && r[MAX_STACK - 1] == Value(A, tags, CutLeaf(t, MAX_STACK - |stack|))
            && nan' == (nan || CutNaN(A, tags, t, MAX_STACK - |stack|))
    decreases t
  {
    hide Postfix, Run, StackSafe, Saturated, Peak, ApplyUnary, ApplyBinary, TagLookup, AnyNaN, IsUnaryOp;
    PostfixSafe(t, rest, |stack|);
    PostfixByShape(t);
    match ShapeOf(t)
    case Leaf =>
      RunHead(A, tags, LeafSym(t), rest, stack, nan);
    case One(op, x) =>
      OperatorSafe(op, rest, |stack| + 1);
      assert Postfix(t) + rest == Postfix(x) + ([Do(op)] + rest);
      RunCut(A, tags, x, [Do(op)] + rest, stack, nan);
    case Two(op, x, y) =>
      OperatorSafe(op, rest, |stack| + 2);
      PostfixSafe(y, [Do(op)] + rest, |stack| + 1);
      var rest' := Postfix(y) + ([Do(op)] + rest);
      assert Postfix(t) + rest == Postfix(x) + rest';
      if MAX_STACK <= |stack| + Peak(x) {
        RunCut(A, tags, x, rest', stack, nan);
      } else {
        RunTree(A, tags, x, rest', stack, nan);
        PeakPositive(x);
        RunCut(A, tags, y, [Do(op)] + rest, stack + [Value(A, tags, x)], nan || AnyNaN(A, tags, x));
      }
  }

  /** The greatest height the stack reaches while unlimited code runs from height `n`. */
  function MaxHeight(syms: seq<Sym>, n: int): int
    decreases |syms|
  {
    if syms == [] then n
    else
      var step := if !syms[0].Do? then 1 else if IsUnaryOp(syms[0].op) then 0 else -1;
      Larger(n, MaxHeight(syms[1..], n + step))
  }

  lemma {:induction false} MaxHeightHead(sym: Sym, rest: seq<Sym>, n: int)
    ensures MaxHeight([sym] + rest, n) ==
            Larger(n, MaxHeight(rest, n + (if !sym.Do? then 1 else if IsUnaryOp(sym.op) then 0 else -1)))
    ensures MaxHeight(rest, n) >= n
  {
    assert ([sym] + rest)[1..] == rest;
  }

  /** `Peak` is the exact peak of the tree's code. */
  lemma {:induction false} PeakIsExact(t: Expr, rest: seq<Sym>, n: int)
    requires Saturated(t)
    ensures MaxHeight(Postfix(t) + rest, n) == Larger(n + Peak(t), MaxHeight(rest, n + 1))
    decreases t
  {
    hide Postfix, Peak, MaxHeight, Saturated, IsUnaryOp;
    PostfixByShape(t);
    PeakPositive(t);
    match ShapeOf(t)
    case Leaf =>
      MaxHeightHead(LeafSym(t), rest, n);
      MaxHeightHead(LeafSym(t), rest, n + 1);
    case One(op, x) =>
      assert Postfix(t) + rest == Postfix(x) + ([Do(op)] + rest);
      PeakIsExact(x, [Do(op)] + rest, n);
      MaxHeightHead(Do(op), rest, n + 1);
    case Two(op, x, y) =>
      assert Postfix(t) + rest == Postfix(x) + (Postfix(y) + ([Do(op)] + rest));
      PeakIsExact(x, Postfix(y) + ([Do(op)] + rest), n);
      PeakIsExact(y, [Do(op)] + rest, n + 1);
      MaxHeightHead(Do(op), rest, n + 2);
      MaxHeightHead(Do(op), rest, n + 1);
      PeakPositive(y);
  }

  /** What `evaluate` answers for a tree, exactly: its value while the peak is below 128, and otherwise
      the value of the leaf that fills the last slot. */
  function Evaluated(A: Arith, tags: seq<TagValue>, t: Expr): Double
    requires Saturated(t)
  {
    if Peak(t) < MAX_STACK then Value(A, tags, t) else Value(A, tags, CutLeaf(t, MAX_STACK))
  }

  /** Which NaN `evaluate` notices, exactly. */
  predicate Noticed(A: Arith, tags: seq<TagValue>, t: Expr)
    requires Saturated(t)
  {
    if Peak(t) < MAX_STACK then AnyNaN(A, tags, t) else CutNaN(A, tags, t, MAX_STACK)
  }

  lemma {:induction false} NothingUnsafe(height: nat)
    ensures StackSafe([], height)
  {
  }

  lemma {:induction false} RunProgram(A: Arith, tags: seq<TagValue>, t: Expr)
    requires Saturated(t)
    ensures StackSafe(Postfix(t), 0)
    ensures var (s, nan) := Run(A, tags, Postfix(t), [], false);
            && |s| == (if Peak(t) < MAX_STACK then 1 else MAX_STACK)
            && s[|s| - 1] == Evaluated(A, tags, t) && nan == Noticed(A, tags, t)
  {
    hide Postfix, AnyNaN, Value, Peak, Saturated, Run, StackSafe, CutLeaf, CutNaN;
    assert Postfix(t) + [] == Postfix(t);
    assert StackSafe([], 1) by { NothingUnsafe(1); }
    PostfixSafe(t, [], 0);
    if Peak(t) < MAX_STACK {
      RunTree(A, tags, t, [], [], false);
      RunNothing(A, tags, [Value(A, tags, t)], AnyNaN(A, tags, t));
      assert [] + [Value(A, tags, t)] == [Value(A, tags, t)];
    } else {
      RunCut(A, tags, t, [], [], false);
    }
  }

  // ----- the limit matters: a deep rule that fires although its expression is false -----

  /** `1 && (1 && ( .. 1))` with `n` connectives. */
  function Conjunction(n: nat): (t: Expr)
    ensures Saturated(t) && Printable(t) && Peak(t) == n + 1
  {
    if n == 0 then Num(ONE) else Binary(And, Num(ONE), Conjunction(n - 1))
  }

  lemma {:induction false} ConjunctionIsTrue(A: Arith, tags: seq<TagValue>, n: nat)
    ensures Value(A, tags, Conjunction(n)) == ONE
  {
    hide IsZero, ShapeOf, Peak;
    if n > 0 {
      ConjunctionIsTrue(A, tags, n - 1);
      var t := Conjunction(n);
      assert ShapeOf(t) == Two(Infix(And), Num(ONE), Conjunction(n - 1)) by {
        ShapeOfBinary(And, Num(ONE), Conjunction(n - 1));
      }
      assert Value(A, tags, Num(ONE)) == ONE by { ShapeOfNum(ONE); }
      OneIsTrue();
    } else {
      ShapeOfNum(ONE);
    }
  }

  lemma {:induction false} OneIsTrue()
    ensures !IsZero(ONE) && FromBool(IsZero(ONE)) == ZERO
  {
  }

  lemma {:induction false} ShapeOfBinary(op: BinOp, l: Expr, r: Expr)
    requires Saturated(Binary(op, l, r))
    ensures ShapeOf(Binary(op, l, r)) == Two(Infix(op), l, r)
  {
  }

  lemma {:induction false} ShapeOfNum(v: Double)
    ensures ShapeOf(Num(v)) == Leaf
  {
  }

  lemma {:induction false} ConjunctionCut(n: nat, room: nat)
    requires 1 <= room <= n + 1
    ensures CutLeaf(Conjunction(n), room) == Num(ONE)
    decreases n
  {
    hide CutLeaf, ShapeOf, Peak, Saturated, Printable;
    OneIsLeaf();
    if n > 0 {
      ShapeOfBinary(And, Num(ONE), Conjunction(n - 1));
      CutTwo(Conjunction(n), room, Num(ONE), Conjunction(n - 1));
      if room > 1 { ConjunctionCut(n - 1, room - 1); }
    }
  }

  lemma {:induction false} OneIsLeaf()
    ensures Saturated(Num(ONE)) && Peak(Num(ONE)) == 1 && CutLeaf(Num(ONE), 1) == Num(ONE)
  {
  }

  lemma {:induction false} CutTwo(t: Expr, room: nat, x: Expr, y: Expr)
    requires Saturated(t) && ShapeOf(t).Two? && ShapeOf(t).x == x && ShapeOf(t).y == y
    requires 1 <= room <= Peak(t)
    ensures Saturated(x) && Saturated(y)
    ensures room <= Peak(x) ==> CutLeaf(t, room) == CutLeaf(x, room)
    ensures room > Peak(x) ==> 1 <= room - 1 <= Peak(y) && CutLeaf(t, room) == CutLeaf(y, room - 1)
  {
    PostfixByShape(t);
    PeakPositive(x);
  }

  /** The parser accepts `!(1 && (1 && .. ))` with 128 ones; its value is 0.0 under every arithmetic,
      yet evaluation answers 1.0. */
  lemma {:induction false} DeepExpressionMisread(nums: Numerals, A: Arith, tags: seq<TagValue>)
    requires Lossless(nums)
    ensures var t := Unary(Not, Conjunction(127));
            && ParseExpr(nums, Print(nums, t)) == Success(t)
            && Peak(t) == MAX_STACK && Value(A, tags, t) == ZERO && Evaluated(A, tags, t) == ONE
  {
    hide IsZero, Conjunction, ParseExpr, Print, Lossless;
    ExprRoundTrip.ParsePrinted(nums, Unary(Not, Conjunction(127)));
    ConjunctionIsTrue(A, tags, 127);
    ConjunctionCut(127, MAX_STACK);
    OneIsTrue();
    ShapeOfNum(ONE);
  }

  // ----- the evaluator -----

  /** One instruction on the array, `sp` being the number of values it holds. */
  method Execute(p: Program, instr: Instr, A: Arith, tags: seq<TagValue>, stack: array<Double>, sp: nat, ghost sym: Sym)
    returns (sp': nat)
    requires stack.Length == MAX_STACK && sp < MAX_STACK
    requires Denotes([instr], p.names, [sym]) && StackSafe([sym], sp)
    modifies stack
    ensures sp' <= MAX_STACK && stack[..sp'] == Step(A, tags, sym, old(stack[..sp]))
  {
    assert Denotes([instr], p.names, [sym]) && [instr][0] == instr && [sym][0] == sym;
    match instr {
      case Const(k) =>
        stack[sp] := k;
        sp' := sp + 1;
      case Load(tag) =>
        var value := FindTag(tags, p.names[tag]);
        stack[sp] := value;
        sp' := sp + 1;
      case Apply(op) =>
        hide ApplyUnary, ApplyBinary;
        if IsUnaryOp(op) {
          var r := ExecuteUnary(A, op, stack[sp - 1]);
          stack[sp - 1] := r;
          sp' := sp;
        } else {
          var b := stack[sp - 1];
          var a := stack[sp - 2];
          var r := ExecuteBinary(A, op, a, b);
          stack[sp - 2] := r;
          sp' := sp - 1;
        }
    }
  }

  /** The unary part of the switch. */
  method ExecuteUnary(A: Arith, op: Op, a: Double) returns (r: Double)
    requires IsUnaryOp(op)
    ensures r == ApplyUnary(A, op, a)
  {
    match op {
      case Sign(Neg) => r := A.neg(a);
      case Sign(Not) => r := if IsZero(a) then ONE else ZERO;
      case Math(f) => r := A.math(f, a);
    }
  }

  /** The binary part of the switch. */
  method ExecuteBinary(A: Arith, op: Op, a: Double, b: Double) returns (r: Double)
    requires !IsUnaryOp(op)
    ensures r == ApplyBinary(A, op, a, b)
  {
    r := ZERO;
    match op {
      case Infix(Add) => r := A.add(a, b);
      case Infix(Sub) => r := A.sub(a, b);
      case Infix(Mul) => r := A.mul(a, b);
      case Infix(Div) => if !IsZero(b) { r := A.div(a, b); }
      case Infix(Mod) => if !IsZero(b) { r := A.fmod(a, b); }
      case Math(Pow) => r := A.pow(a, b);
      case Math(Min) => r := if A.lt(b, a) then b else a;
      case Math(Max) => r := if A.lt(a, b) then b else a;
      case Infix(Lt) => if A.lt(a, b) { r := ONE; }
      case Infix(Gt) => if A.lt(b, a) { r := ONE; }
      case Infix(Le) => if A.le(a, b) { r := ONE; }
      case Infix(Ge) => if A.le(b, a) { r := ONE; }
      case Infix(Eq) => if A.eq(a, b) { r := ONE; }
      case Infix(Ne) => if !A.eq(a, b) { r := ONE; }
      case Infix(And) => if !IsZero(a) && !IsZero(b) { r := ONE; }
      case Infix(Or) => if !IsZero(a) || !IsZero(b) { r := ONE; }
      case _ =>
    }
  }

  /** `Program::evaluate`; `syms` is the code with its tag indices resolved. */
  method Evaluate(p: Program, A: Arith, tags: seq<TagValue>, ghost syms: seq<Sym>)
    returns (v: Double, sawNaN: bool)
    requires Denotes(p.code, p.names, syms) && StackSafe(syms, 0)
    ensures var (s, nan) := Run(A, tags, syms, [], false);
            v == (if |s| > 0 then s[|s| - 1] else ZERO) && sawNaN == nan
  {
    hide Step, IsNaN, Run;
    var stack := new Double[MAX_STACK](_ => ZERO);
    var sp := 0;
    sawNaN := false;
    ghost var final := Run(A, tags, syms, [], false);
    assert syms[0..] == syms && stack[..0] == [];
    var i := 0;
    while i < |p.code|
      invariant 0 <= i <= |p.code| && 0 <= sp < MAX_STACK
      invariant StackSafe(syms[i..], sp)
      invariant Run(A, tags, syms[i..], stack[..sp], sawNaN) == final
    {
      ghost var before, sym := stack[..sp], syms[i];
      assert syms[i..] == [sym] + syms[i + 1..];
      RunHead(A, tags, sym, syms[i + 1..], before, sawNaN);
      sp := Execute(p, p.code[i], A, tags, stack, sp, sym);
      if IsNaN(stack[sp - 1]) { sawNaN := true; }
      i := i + 1;
      if sp >= MAX_STACK {
        return stack[sp - 1], sawNaN;
      }
    }
    RunNothing(A, tags, stack[..sp], sawNaN);
    assert syms[i..] == [];
    v := if sp > 0 then stack[sp - 1] else ZERO;
  }

  lemma {:induction false} RunNothing(A: Arith, tags: seq<TagValue>, stack: seq<Double>, nan: bool)
    ensures Run(A, tags, [], stack, nan) == (stack, nan)
  {
  }

  /** `tag_value`: the value of the first tag of that name, and 0.0 if there is none. */
  method FindTag(tags: seq<TagValue>, name: string) returns (v: Double)
    ensures v == TagLookup(tags, name)
    ensures (forall i :: 0 <= i < |tags| ==> tags[i].name != name) ==> v == ZERO
    ensures forall k :: 0 <= k < |tags| && tags[k].name == name && (forall i :: 0 <= i < k ==> tags[i].name != name) ==>
              v == tags[k].value
  {
    var i := 0;
    while i < |tags|
      invariant 0 <= i <= |tags| && TagLookup(tags, name) == TagLookup(tags[i..], name)
      invariant forall k :: 0 <= k < i ==> tags[k].name != name
    {
      if tags[i].name == name { return tags[i].value; }
      i := i + 1;
    }
    v := ZERO;
  }
}
