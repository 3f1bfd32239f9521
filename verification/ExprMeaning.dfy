/** What each operator and function means (include/aero/nodes/expr_rule_node.hpp), in terms of the floating-point
    primitives and of the values of the operands. */
module ExprMeaning {
  import opened Wrappers
  import opened Doubles
  import opened ExprSyntax
  import opened ExprProgram
  import opened ExprEval

  // ----- leaves -----

  /** A literal is its value; a tag is the first of its name, and 0.0 if there is none. */
  lemma {:induction false} Leaves(A: Arith, tags: seq<TagValue>, v: Double, name: string, k: nat)
    requires k <= |tags| && (forall i :: 0 <= i < k ==> tags[i].name != name) && (k < |tags| ==> tags[k].name == name)
    ensures Value(A, tags, Num(v)) == v
    ensures Value(A, tags, Tag(name)) == if k < |tags| then tags[k].value else ZERO
    decreases k
  {
    if k > 0 {
      Leaves(A, tags[1..], v, name, k - 1);
    }
  }

  // ----- comparisons -----

  /** A comparison gives 1.0 where the primitive holds of left and right in that order, and 0.0 otherwise. */
  lemma {:induction false} Comparisons(A: Arith, tags: seq<TagValue>, l: Expr, r: Expr)
    requires Saturated(l) && Saturated(r)
    ensures var a, b := Value(A, tags, l), Value(A, tags, r);
            && Value(A, tags, Binary(Lt, l, r)) == (if A.lt(a, b) then ONE else ZERO)
            && Value(A, tags, Binary(Le, l, r)) == (if A.le(a, b) then ONE else ZERO)
            && Value(A, tags, Binary(Eq, l, r)) == (if A.eq(a, b) then ONE else ZERO)
  {
  }

  /** `>` and `>=` are `<` and `<=` the other way round. */
  lemma {:induction false} Mirrored(A: Arith, tags: seq<TagValue>, l: Expr, r: Expr)
    requires Saturated(l) && Saturated(r)
    ensures Value(A, tags, Binary(Gt, l, r)) == Value(A, tags, Binary(Lt, r, l))
    ensures Value(A, tags, Binary(Ge, l, r)) == Value(A, tags, Binary(Le, r, l))
  {
  }

  // ----- connectives -----

  /** The connectives see only whether their operands are zero, and give 1.0 or 0.0. */
  lemma {:induction false} Connectives(A: Arith, tags: seq<TagValue>, l: Expr, r: Expr)
    requires Saturated(l) && Saturated(r)
    ensures Value(A, tags, Unary(Not, l)) == if IsZero(Value(A, tags, l)) then ONE else ZERO
    ensures Value(A, tags, Binary(And, l, r)) ==
            if IsZero(Value(A, tags, l)) || IsZero(Value(A, tags, r)) then ZERO else ONE
    ensures Value(A, tags, Binary(Or, l, r)) ==
            if IsZero(Value(A, tags, l)) && IsZero(Value(A, tags, r)) then ZERO else ONE
  {
  }

  /** `!=` is the negation of `==`. */
  lemma {:induction false} Unequal(A: Arith, tags: seq<TagValue>, l: Expr, r: Expr)
    requires Saturated(l) && Saturated(r)
    ensures Value(A, tags, Binary(Ne, l, r)) == Value(A, tags, Unary(Not, Binary(Eq, l, r)))
  {
    hide IsZero;
    OneIsTrue();
    ZeroIsFalse();
    Connectives(A, tags, Binary(Eq, l, r), r);
    Comparisons(A, tags, l, r);
  }

  lemma {:induction false} DeMorgan(A: Arith, tags: seq<TagValue>, l: Expr, r: Expr)
    requires Saturated(l) && Saturated(r)
    ensures Value(A, tags, Unary(Not, Binary(And, l, r))) == Value(A, tags, Binary(Or, Unary(Not, l), Unary(Not, r)))
    ensures Value(A, tags, Unary(Not, Binary(Or, l, r))) == Value(A, tags, Binary(And, Unary(Not, l), Unary(Not, r)))
  {
    hide IsZero, Value;
    OneIsTrue();
    ZeroIsFalse();
    Connectives(A, tags, l, r);
    Connectives(A, tags, r, l);
    Connectives(A, tags, Unary(Not, l), Unary(Not, r));
    Connectives(A, tags, Binary(And, l, r), r);
    Connectives(A, tags, Binary(Or, l, r), r);
  }

  lemma {:induction false} ZeroIsFalse()
    ensures IsZero(ZERO)
  {
  }

  // ----- arithmetic -----

  lemma {:induction false} Arithmetic(A: Arith, tags: seq<TagValue>, l: Expr, r: Expr)
    requires Saturated(l) && Saturated(r)
    ensures var a, b := Value(A, tags, l), Value(A, tags, r);
            && Value(A, tags, Binary(Add, l, r)) == A.add(a, b)
            && Value(A, tags, Binary(Sub, l, r)) == A.sub(a, b)
            && Value(A, tags, Binary(Mul, l, r)) == A.mul(a, b)
            && Value(A, tags, Unary(Neg, l)) == A.neg(a)
  {
  }

  /** Division and remainder are guarded: a divisor of zero, of either sign, gives 0.0, and where the primitives give no
      zero of their own nothing else does. */
  lemma {:induction false} Division(A: Arith, tags: seq<TagValue>, l: Expr, r: Expr)
    requires Saturated(l) && Saturated(r)
    ensures var a, b := Value(A, tags, l), Value(A, tags, r);
            var quotient, remainder := Value(A, tags, Binary(Div, l, r)), Value(A, tags, Binary(Mod, l, r));
            && (!IsZero(b) ==> quotient == A.div(a, b) && remainder == A.fmod(a, b))
            && (IsZero(b) ==> quotient == ZERO && remainder == ZERO)
            && (A.div(a, b) != ZERO ==> (quotient == ZERO <==> IsZero(b)))
            && (A.fmod(a, b) != ZERO ==> (remainder == ZERO <==> IsZero(b)))
  {
  }

  // ----- functions -----

  lemma {:induction false} UnaryFunctions(A: Arith, tags: seq<TagValue>, f: Func, x: Expr)
    requires Saturated(x) && f !in {Pow, Min, Max}
    ensures Saturated(Call(f, [x])) && Value(A, tags, Call(f, [x])) == A.math(f, Value(A, tags, x))
  {
    SaturatedCall(f, [x]);
  }

  lemma {:induction false} SaturatedCall(f: Func, args: seq<Expr>)
    requires |args| == Arity(f) && forall i :: 0 <= i < |args| ==> Saturated(args[i])
    ensures Saturated(Call(f, args))
  {
  }

  /** `pow` is the primitive; `min` and `max` give one of their operands, one that the other does not beat, and the
      first where neither beats the other. */
  lemma {:induction false} BinaryFunctions(A: Arith, tags: seq<TagValue>, x: Expr, y: Expr)
    requires Saturated(x) && Saturated(y)
    ensures Saturated(Call(Pow, [x, y])) && Saturated(Call(Min, [x, y])) && Saturated(Call(Max, [x, y]))
    ensures var a, b := Value(A, tags, x), Value(A, tags, y);
            var least, greatest := Value(A, tags, Call(Min, [x, y])), Value(A, tags, Call(Max, [x, y]));
            && Value(A, tags, Call(Pow, [x, y])) == A.pow(a, b)
            && least in {a, b} && greatest in {a, b}
            && (A.lt(b, a) ==> least == b) && (!A.lt(b, a) ==> least == a)
            && (A.lt(a, b) ==> greatest == b) && (!A.lt(a, b) ==> greatest == a)
  {
    SaturatedCall(Pow, [x, y]);
    SaturatedCall(Min, [x, y]);
    SaturatedCall(Max, [x, y]);
  }

  // ----- NaN -----

  /** The binary64 format: NaN has an exponent of all ones and a fraction other than 0; zero has neither; 1.0 has the
      biased exponent 1023. */
  lemma {:induction false} Format(d: Double)
    ensures var exponent, fraction := d as int / 0x10_0000_0000_0000 % 2048, d as int % 0x10_0000_0000_0000;
            && (IsNaN(d) <==> exponent == 2047 && fraction != 0)
            && (IsZero(d) <==> exponent == 0 && fraction == 0)
            && (d == ONE <==> d as int == 1023 * 0x10_0000_0000_0000)
  {
  }

  /** The tree and everything in it. */
  ghost function Parts(t: Expr): set<Expr>
    decreases t
  {
    match t
    case Num(_) => {t}
    case Tag(_) => {t}
    case Unary(_, x) => {t} + Parts(x)
    case Binary(_, l, r) => {t} + Parts(l) + Parts(r)
    case Call(_, args) =>
      {t} + (if 1 <= |args| <= 2 then Parts(args[0]) else {}) + (if |args| == 2 then Parts(args[1]) else {})
  }

  /** A NaN is seen exactly when some part of the tree evaluates to one. */
  lemma {:induction false} SeesNaN(A: Arith, tags: seq<TagValue>, t: Expr)
    requires Saturated(t)
    ensures AnyNaN(A, tags, t) <==> exists u :: u in Parts(t) && Saturated(u) && IsNaN(Value(A, tags, u))
    decreases t
  {
    hide Value, IsNaN;
    assert t in Parts(t);
    match t
    case Num(_) =>
    case Tag(_) =>
    case Unary(_, x) => SeesNaN(A, tags, x);
    case Binary(_, l, r) => SeesNaN(A, tags, l); SeesNaN(A, tags, r);
    case Call(_, args) =>
      SeesNaN(A, tags, args[0]);
      if |args| == 2 { SeesNaN(A, tags, args[1]); }
  }
}
