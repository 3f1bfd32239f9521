/** The compiled form of an expression: flat RPN code with interned tag names
    (include/aero/nodes/expr_rule_node.hpp), and what compiling a tree emits: its postfix form, its names in order of
    first use, one value more on the stack, and the peak that the depth counter records on the way. */
module ExprProgram {
  import opened Wrappers
  import opened Sequences
  import opened Doubles
  import opened ExprSyntax

  /** The operators of the RPN code: the unary signs, the math functions and the binary operators. */
  datatype Op = Sign(u: UnaryOp) | Math(f: Func) | Infix(b: BinOp)

  datatype Instr = Const(k: Double) | Load(tag: nat) | Apply(op: Op)

  /** Code, names and the value-stack depth bookkeeping while a program is being emitted. */
  datatype Emission = Emission(code: seq<Instr>, names: seq<string>, depth: int, maxDepth: int)

  const EMPTY: Emission := Emission([], [], 0, 0)

  predicate IsUnaryOp(op: Op) {
    op.Sign? || (op.Math? && Arity(op.f) == 1)
  }

  function IndexOf(names: seq<string>, name: string): (i: nat)
    requires name in names
    ensures i < |names| && names[i] == name
    ensures forall k :: 0 <= k < i ==> names[k] != name
  {
    if names[0] == name then 0 else 1 + IndexOf(names[1..], name)
  }

  function Intern(names: seq<string>, name: string): seq<string> {
    if name in names then names else names + [name]
  }

  function PushDepth(e: Emission): Emission {
    e.(depth := e.depth + 1, maxDepth := Larger(e.maxDepth, e.depth + 1))
  }

  function EmitConst(e: Emission, v: Double): Emission {
    PushDepth(e.(code := e.code + [Const(v)]))
  }

  function EmitTag(e: Emission, name: string): Emission {
    var names := Intern(e.names, name);
    PushDepth(e.(names := names, code := e.code + [Load(IndexOf(names, name))]))
  }

  function EmitOp(e: Emission, op: Op): Emission {
    e.(code := e.code + [Apply(op)], depth := e.depth - (if IsUnaryOp(op) then 0 else 1))
  }

  /** What a parser emits while it reads a tree, operands before operators. */
  function EmitTree(e: Emission, t: Expr): Emission
    decreases t, 0
  {
    match t
    case Num(v) => EmitConst(e, v)
    case Tag(name) => EmitTag(e, name)
    case Unary(op, arg) => EmitOp(EmitTree(e, arg), Sign(op))
    case Binary(op, l, r) => EmitOp(EmitTree(EmitTree(e, l), r), Infix(op))
    case Call(fn, args) => EmitOp(EmitTrees(e, args), Math(fn))
  }

  function EmitTrees(e: Emission, args: seq<Expr>): Emission
    decreases args, 1
  {
    if args == [] then e else EmitTrees(EmitTree(e, args[0]), args[1..])
  }

  // ----- the declarative picture of the same thing -----

  /** RPN code with tag names still spelled out. */
  datatype Sym = Lit(v: Double) | Ref(name: string) | Do(op: Op)

  function Postfix(t: Expr): seq<Sym>
    decreases t, 0
  {
    match t
    case Num(v) => [Lit(v)]
    case Tag(name) => [Ref(name)]
    case Unary(op, arg) => Postfix(arg) + [Do(Sign(op))]
    case Binary(op, l, r) => Postfix(l) + Postfix(r) + [Do(Infix(op))]
    case Call(fn, args) => PostfixOf(args) + [Do(Math(fn))]
  }

  function PostfixOf(args: seq<Expr>): seq<Sym>
    decreases args, 1
  {
    if args == [] then [] else Postfix(args[0]) + PostfixOf(args[1..])
  }

  /** The largest number of values a tree ever needs on the stack. */
  function Peak(t: Expr): (n: nat)
    decreases t, 0
  {
    match t
    case Num(_) => 1
    case Tag(_) => 1
    case Unary(_, arg) => Peak(arg)
    case Binary(_, l, r) => Larger(Peak(l), 1 + Peak(r))
    case Call(_, args) => PeakOf(args)
  }

  function PeakOf(args: seq<Expr>): nat
    decreases args, 1
  {
    if args == [] then 0 else Larger(Peak(args[0]), 1 + PeakOf(args[1..]))
  }

  /** Code whose tag indices stand for the given symbols. */
  ghost predicate Denotes(code: seq<Instr>, names: seq<string>, syms: seq<Sym>) {
    && |code| == |syms|
    && forall i :: 0 <= i < |code| ==>
         match code[i]
         case Const(k) => syms[i] == Lit(k)
         case Load(tag) => tag < |names| && syms[i] == Ref(names[tag])
         case Apply(op) => syms[i] == Do(op)
  }

  /** The names of `refs` appended in order of first occurrence. */
  function InternAll(names: seq<string>, refs: seq<string>): seq<string>
    decreases |refs|
  {
    if refs == [] then names else InternAll(Intern(names, refs[0]), refs[1..])
  }

  lemma {:induction false} InternAllConcat(names: seq<string>, a: seq<string>, b: seq<string>)
    ensures InternAll(names, a + b) == InternAll(InternAll(names, a), b)
    decreases |a|
  {
    if a == [] {
      assert a + b == b;
    } else {
      assert (a + b)[1..] == a[1..] + b;
      InternAllConcat(Intern(names, a[0]), a[1..], b);
    }
  }

  lemma {:induction false} InternAllExtends(names: seq<string>, refs: seq<string>)
    ensures names <= InternAll(names, refs)
    ensures Distinct(names) ==> Distinct(InternAll(names, refs))
    ensures forall r :: r in InternAll(names, refs) <==> r in names || r in refs
    ensures forall r :: r in refs ==> InternAll(names, refs)[IndexOf(InternAll(names, refs), r)] == r
    decreases |refs|
  {
    if refs != [] {
      InternAllExtends(Intern(names, refs[0]), refs[1..]);
    }
  }

  /** The emission `e'` adds exactly the code of `syms` to `e`, naming `refs`, with peak height `peak`. */
  ghost predicate Adds(e: Emission, e': Emission, syms: seq<Sym>, refs: seq<string>, peak: nat, values: int) {
    && e.code <= e'.code && Denotes(e'.code[|e.code|..], e'.names, syms)
    && e'.names == InternAll(e.names, refs)
    && e'.depth == e.depth + values && e'.maxDepth == Larger(e.maxDepth, e.depth + peak)
  }

  lemma {:induction false} AddsThenAdds(
    e: Emission, e': Emission, e'': Emission, s: seq<Sym>, s': seq<Sym>, r: seq<string>, r': seq<string>,
    p: nat, p': nat, v: int, v': int)
    requires Adds(e, e', s, r, p, v) && Adds(e', e'', s', r', p', v')
    requires 0 <= v
    ensures Adds(e, e'', s + s', r + r', Larger(p, v + p'), v + v')
  {
    InternAllConcat(e.names, r, r');
    InternAllExtends(e'.names, r');
    var a, b := e'.code[|e.code|..], e''.code[|e'.code|..];
    assert e''.code[|e.code|..] == a + b;
    assert Denotes(a, e''.names, s);
  }

  lemma {:induction false} AddsOp(
    e: Emission, e': Emission, op: Op, s: seq<Sym>, r: seq<string>, p: nat, v: int)
    requires Adds(e, e', s, r, p, v)
    ensures Adds(e, EmitOp(e', op), s + [Do(op)], r, p, v - (if IsUnaryOp(op) then 0 else 1))
  {
    var e'' := EmitOp(e', op);
    assert e''.code[|e.code|..] == e'.code[|e.code|..] + [Apply(op)];
  }

  /** Compiling a tree emits its postfix form, interns its tag names in order of first use, leaves one
      value more on the stack and records the exact peak. */
  lemma {:induction false} EmitTreeAdds(e: Emission, t: Expr)
    requires Saturated(t) && e.depth <= e.maxDepth
    ensures Adds(e, EmitTree(e, t), Postfix(t), TagRefs(t), Peak(t), 1)
    ensures EmitTree(e, t).depth <= EmitTree(e, t).maxDepth
    decreases t, 0
  {
    PeakPositive(t);
    match t
    case Num(v) =>
      assert EmitTree(e, t).code[|e.code|..] == [Const(v)];
    case Tag(name) =>
      var e' := EmitTree(e, t);
      assert e'.code[|e.code|..] == [Load(IndexOf(e'.names, name))];
      assert TagRefs(t)[1..] == [] && InternAll(e'.names, []) == e'.names;
    case Unary(op, arg) =>
      EmitTreeAdds(e, arg);
      AddsOp(e, EmitTree(e, arg), Sign(op), Postfix(arg), TagRefs(arg), Peak(arg), 1);
    case Binary(op, l, r) =>
      hide Adds;
      var e1 := EmitTree(e, l);
      var e2 := EmitTree(e1, r);
      EmitTreeAdds(e, l);
      EmitTreeAdds(e1, r);
      AddsThenAdds(e, e1, e2, Postfix(l), Postfix(r), TagRefs(l), TagRefs(r), Peak(l), Peak(r), 1, 1);
      AddsOp(e, e2, Infix(op), Postfix(l) + Postfix(r), TagRefs(l) + TagRefs(r), Peak(t), 2);
    case Call(fn, args) =>
      hide Adds;
      EmitTreesAdd(e, args);
      AddsOp(e, EmitTrees(e, args), Math(fn), PostfixOf(args), TagRefsOf(args), PeakOf(args), |args|);
  }

  lemma {:induction false} EmitTreesAdd(e: Emission, args: seq<Expr>)
    requires forall i :: 0 <= i < |args| ==> Saturated(args[i])
    requires e.depth <= e.maxDepth
    ensures Adds(e, EmitTrees(e, args), PostfixOf(args), TagRefsOf(args), PeakOf(args), |args|)
    ensures EmitTrees(e, args).depth <= EmitTrees(e, args).maxDepth
    decreases args, 1
  {
    if args == [] {
      assert e.code[|e.code|..] == [];
    } else {
      hide Adds;
      var e' := EmitTree(e, args[0]);
      EmitTreeAdds(e, args[0]);
      PeakPositive(args[0]);
      EmitTreesAdd(e', args[1..]);
      AddsThenAdds(e, e', EmitTrees(e, args), Postfix(args[0]), PostfixOf(args[1..]),
                   TagRefs(args[0]), TagRefsOf(args[1..]), Peak(args[0]), PeakOf(args[1..]), 1, |args| - 1);
    }
  }

  lemma {:induction false} PeakPositive(t: Expr)
    requires Saturated(t)
    ensures Peak(t) >= 1
    decreases t
  {
    match t
    case Num(_) =>
    case Tag(_) =>
    case Unary(_, arg) => PeakPositive(arg);
    case Binary(_, l, _) => PeakPositive(l);
    case Call(_, args) => PeakPositive(args[0]);
  }
}
