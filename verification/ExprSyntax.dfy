/** IEEE 754 binary64 values, represented by their bit patterns. Rounding never matters here: every
    arithmetic operation is a parameter, and only sign, zero and NaN are read off the bits. */
module Doubles {
  newtype Double = b: int | 0 <= b < 0x1_0000_0000_0000_0000

  const SIGN_BIT: int := 0x8000_0000_0000_0000
  const INFINITY_BITS: int := 0x7FF0_0000_0000_0000
  const ZERO: Double := 0
  const ONE: Double := 0x3FF0_0000_0000_0000

  predicate IsNaN(d: Double) {
    d as int % SIGN_BIT > INFINITY_BITS
  }

  /** `d == 0.0`: both signed zeros. */
  predicate IsZero(d: Double) {
    d as int % SIGN_BIT == 0
  }

  /** Sign bit clear and exponent not all ones. */
  predicate NonNegativeFinite(d: Double) {
    (d as int) < INFINITY_BITS
  }

  function FromBool(b: bool): Double {
    if b then ONE else ZERO
  }
}

/** The expression DSL's tree (studio/src/exprAst.ts) and its printer. */
module ExprSyntax {
  import opened Wrappers
  import opened Doubles

  datatype BinOp = Add | Sub | Mul | Div | Mod | Lt | Gt | Le | Ge | Eq | Ne | And | Or

  datatype UnaryOp = Neg | Not

  datatype Func =
    | Abs | Floor | Ceil | Round | Sqrt | Sin | Cos | Tan | Asin | Acos | Atan | Ln | Log | Exp
    | Pow | Min | Max

  datatype Expr =
    | Num(value: Double)
    | Tag(name: string)
    | Unary(op: UnaryOp, arg: Expr)
    | Binary(bop: BinOp, left: Expr, right: Expr)
    | Call(fn: Func, args: seq<Expr>)

  /** A conversion between numeral text and doubles; each parser has its own. `ofText` is applied to a
      whole scanned numeral and yields None where the source rejects it as malformed. */
  datatype Numerals = Numerals(ofText: string -> Option<Double>, toText: Double -> string)

  function Precedence(op: BinOp): (p: nat)
    ensures 1 <= p <= 6
  {
    match op
    case Or => 1
    case And => 2
    case Eq => 3
    case Ne => 3
    case Lt => 4
    case Gt => 4
    case Le => 4
    case Ge => 4
    case Add => 5
    case Sub => 5
    case Mul => 6
    case Div => 6
    case Mod => 6
  }

  function Symbol(op: BinOp): string {
    match op
    case Or => "||"
    case And => "&&"
    case Eq => "=="
    case Ne => "!="
    case Lt => "<"
    case Gt => ">"
    case Le => "<="
    case Ge => ">="
    case Add => "+"
    case Sub => "-"
    case Mul => "*"
    case Div => "/"
    case Mod => "%"
  }

  function FuncName(fn: Func): string {
    match fn
    case Abs => "abs"
    case Floor => "floor"
    case Ceil => "ceil"
    case Round => "round"
    case Sqrt => "sqrt"
    case Sin => "sin"
    case Cos => "cos"
    case Tan => "tan"
    case Asin => "asin"
    case Acos => "acos"
    case Atan => "atan"
    case Ln => "ln"
    case Log => "log"
    case Exp => "exp"
    case Pow => "pow"
    case Min => "min"
    case Max => "max"
  }

  function Arity(fn: Func): (n: nat) {
    if fn.Pow? || fn.Min? || fn.Max? then 2 else 1
  }

  const UNARY_FUNCS: seq<Func> :=
    [Abs, Floor, Ceil, Round, Sqrt, Sin, Cos, Tan, Asin, Acos, Atan, Ln, Log, Exp]
  const BINARY_FUNCS: seq<Func> := [Pow, Min, Max]

  function Lookup(name: string, table: seq<Func>): Option<Func> {
    if table == [] then None
    else if FuncName(table[0]) == name then Some(table[0])
    else Lookup(name, table[1..])
  }

  /** The name tables: unary functions first, then binary ones. */
  function FuncByName(name: string): Option<Func> {
    match Lookup(name, UNARY_FUNCS)
    case Some(fn) => Some(fn)
    case None => Lookup(name, BINARY_FUNCS)
  }

  // ----- characters -----

  predicate IsSpace(c: char) { c == ' ' || c == '\t' || c == '\n' || c == '\r' }

  predicate IsDigit(c: char) { '0' <= c <= '9' }

  predicate IsIdentStart(c: char) { 'a' <= c <= 'z' || 'A' <= c <= 'Z' || c == '_' }

  predicate IsIdentChar(c: char) { IsIdentStart(c) || IsDigit(c) || c == '.' }

  /** May `s[i]` belong to a numeral that begins at `start`? A sign only counts right after e/E. */
  predicate IsNumeralChar(s: string, start: nat, i: nat)
    requires start <= i < |s|
  {
    || IsDigit(s[i]) || s[i] == '.' || s[i] == 'e' || s[i] == 'E'
    || ((s[i] == '+' || s[i] == '-') && i > start && (s[i - 1] == 'e' || s[i - 1] == 'E'))
  }

  // ----- printing -----

  predicate NeedsParens(child: Expr, parentPrec: nat, onRight: bool) {
    child.Binary? &&
    (if onRight then Precedence(child.bop) <= parentPrec else Precedence(child.bop) < parentPrec)
  }

  function Parenthesized(wrap: bool, text: string): string {
    if wrap then "(" + text + ")" else text
  }

  function Print(nums: Numerals, t: Expr): string
    decreases t, 0
  {
    match t
    case Num(v) => nums.toText(v)
    case Tag(name) => "tag(\"" + name + "\")"
    case Unary(op, arg) =>
      (if op.Neg? then "-" else "!") + Parenthesized(arg.Binary?, Print(nums, arg))
    case Binary(op, l, r) =>
      var p := Precedence(op);
      Parenthesized(NeedsParens(l, p, false), Print(nums, l))
      + (" " + Symbol(op) + " ")
      + Parenthesized(NeedsParens(r, p, true), Print(nums, r))
    case Call(fn, args) => FuncName(fn) + "(" + PrintArgs(nums, args) + ")"
  }

  /** `args.map(serializeExpr).join(", ")` */
  function PrintArgs(nums: Numerals, args: seq<Expr>): string
    decreases args, 1
  {
    if args == [] then ""
    else if |args| == 1 then Print(nums, args[0])
    else Print(nums, args[0]) + ", " + PrintArgs(nums, args[1..])
  }

  /** The trees the printer is meant for: literals JavaScript prints without a sign, tag names the
      lexer can carry, and calls with their own arity. */
  predicate Printable(t: Expr)
    decreases t
  {
    match t
    case Num(v) => NonNegativeFinite(v)
    case Tag(name) => name != "" && '"' !in name
    case Unary(_, arg) => Printable(arg)
    case Binary(_, l, r) => Printable(l) && Printable(r)
    case Call(fn, args) => |args| == Arity(fn) && forall i :: 0 <= i < |args| ==> Printable(args[i])
  }

  /** Every call has its function's arity. */
  predicate Saturated(t: Expr)
    decreases t
  {
    match t
    case Num(_) => true
    case Tag(_) => true
    case Unary(_, arg) => Saturated(arg)
    case Binary(_, l, r) => Saturated(l) && Saturated(r)
    case Call(fn, args) => |args| == Arity(fn) && forall i :: 0 <= i < |args| ==> Saturated(args[i])
  }

  /** A text the number scanner takes whole. */
  predicate IsNumeralText(w: string) {
    w != "" && (IsDigit(w[0]) || w[0] == '.') && forall i :: 0 <= i < |w| ==> IsNumeralChar(w, 0, i)
  }

  /** What JavaScript guarantees of `String(v)` and `Number(text)`: an unsigned finite double prints as
      one numeral that reads back to the same double, and numerals only ever read as such doubles. */
  ghost predicate Lossless(nums: Numerals) {
    && (forall v :: NonNegativeFinite(v) ==>
          IsNumeralText(nums.toText(v)) && nums.ofText(nums.toText(v)) == Some(v))
    && (forall w :: nums.ofText(w).Some? ==> NonNegativeFinite(nums.ofText(w).value))
  }

  /** Tag names in left-to-right order, repetitions kept (`collectTagRefs`). */
  function TagRefs(t: Expr): seq<string>
    decreases t, 0
  {
    match t
    case Num(_) => []
    case Tag(name) => [name]
    case Unary(_, arg) => TagRefs(arg)
    case Binary(_, l, r) => TagRefs(l) + TagRefs(r)
    case Call(_, args) => TagRefsOf(args)
  }

  function TagRefsOf(args: seq<Expr>): seq<string>
    decreases args, 1
  {
    if args == [] then [] else TagRefs(args[0]) + TagRefsOf(args[1..])
  }
}
