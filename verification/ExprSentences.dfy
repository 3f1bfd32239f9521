/** The rule language as a set of texts (studio/src/exprAst.ts, include/aero/nodes/expr_rule_node.hpp): how each
    construct is written, with white space wherever it is allowed, and the tree it stands for. */
module ExprSentences {
  import opened Wrappers
  import opened ExprSyntax

  datatype Sentence =
    | Numeral(digits: string)
    | Bare(word: string)
    | Short(quoted: string)
    | Long(gap: string, opening: string, quoted: string, closing: string)
    | Prefix(sign: char, gap: string, operand: Sentence)
    | Infix(first: Sentence, before: string, symbol: string, after: string, second: Sentence)
    | Group(inner: Padded)
    | One(word: string, gap: string, x: Padded)
    | Two(word: string, gap: string, x: Padded, y: Padded)

  datatype Padded = Padded(lead: string, body: Sentence, trail: string)

  // ----- how it is written -----

  function Text(e: Sentence): string {
    match e
    case Numeral(digits) => digits
    case Bare(word) => word
    case Short(quoted) => "\"" + quoted + "\""
    case Long(gap, opening, quoted, closing) => "tag" + gap + "(" + opening + "\"" + quoted + "\"" + closing + ")"
    case Prefix(sign, gap, operand) => [sign] + gap + Text(operand)
    case Infix(first, before, symbol, after, second) => Text(first) + before + symbol + after + Text(second)
    case Group(inner) => "(" + PaddedText(inner) + ")"
    case One(word, gap, x) => word + gap + "(" + PaddedText(x) + ")"
    case Two(word, gap, x, y) => word + gap + "(" + PaddedText(x) + "," + PaddedText(y) + ")"
  }

  function PaddedText(p: Padded): string {
    p.lead + Text(p.body) + p.trail
  }

  // ----- the alphabet -----

  predicate Blank(w: string) {
    forall i :: 0 <= i < |w| ==> w[i] in {' ', '\t', '\n', '\r'}
  }

  predicate Letter(c: char) {
    'a' <= c <= 'z' || 'A' <= c <= 'Z' || c == '_'
  }

  predicate Digit(c: char) {
    '0' <= c <= '9'
  }

  predicate Word(w: string) {
    w != "" && Letter(w[0]) && forall i :: 0 <= i < |w| ==> Letter(w[i]) || Digit(w[i]) || w[i] == '.'
  }

  predicate Exponent(c: char) {
    c == 'e' || c == 'E'
  }

  /** Digits, points and exponent marks; a sign only right behind an exponent mark. */
  predicate NumeralWord(w: string) {
    && w != "" && (Digit(w[0]) || w[0] == '.')
    && forall i :: 0 < i < |w| ==>
         Digit(w[i]) || w[i] == '.' || Exponent(w[i]) || (w[i] in "+-" && Exponent(w[i - 1]))
  }

  // ----- the tables -----

  function Operator(symbol: string): Option<BinOp> {
    if symbol == "||" then Some(Or)
    else if symbol == "&&" then Some(And)
    else if symbol == "==" then Some(Eq)
    else if symbol == "!=" then Some(Ne)
    else if symbol == "<" then Some(Lt)
    else if symbol == "<=" then Some(Le)
    else if symbol == ">" then Some(Gt)
    else if symbol == ">=" then Some(Ge)
    else if symbol == "+" then Some(Add)
    else if symbol == "-" then Some(Sub)
    else if symbol == "*" then Some(Mul)
    else if symbol == "/" then Some(Div)
    else if symbol == "%" then Some(Mod)
    else None
  }

  /** How tightly an operator binds. */
  function Tier(symbol: string): (k: nat)
    ensures 1 <= k <= 6
  {
    if symbol == "||" then 1
    else if symbol == "&&" then 2
    else if symbol in ["==", "!="] then 3
    else if symbol in ["<", "<=", ">", ">="] then 4
    else if symbol in ["+", "-"] then 5
    else 6
  }

  function Function1(word: string): Option<Func> {
    if word == "abs" then Some(Abs)
    else if word == "floor" then Some(Floor)
    else if word == "ceil" then Some(Ceil)
    else if word == "round" then Some(Round)
    else if word == "sqrt" then Some(Sqrt)
    else if word == "sin" then Some(Sin)
    else if word == "cos" then Some(Cos)
    else if word == "tan" then Some(Tan)
    else if word == "asin" then Some(Asin)
    else if word == "acos" then Some(Acos)
    else if word == "atan" then Some(Atan)
    else if word == "ln" then Some(Ln)
    else if word == "log" then Some(Log)
    else if word == "exp" then Some(Exp)
    else None
  }

  function Function2(word: string): Option<Func> {
    if word == "pow" then Some(Pow)
    else if word == "min" then Some(Min)
    else if word == "max" then Some(Max)
    else None
  }

  // ----- which of them are sentences -----

  function Rank(e: Sentence): (k: nat)
    ensures 1 <= k <= 7
  {
    if e.Infix? then Tier(e.symbol) else 7
  }

  /** The text ends in a numeral whose last character is an exponent mark: a sign right behind it would belong to it. */
  predicate Open(e: Sentence) {
    match e
    case Numeral(digits) => digits != "" && Exponent(digits[|digits| - 1])
    case Prefix(_, _, operand) => Open(operand)
    case Infix(_, _, _, _, second) => Open(second)
    case _ => false
  }

  predicate Proper(nums: Numerals, e: Sentence) {
    match e
    case Numeral(digits) => NumeralWord(digits) && nums.ofText(digits).Some?
    case Bare(word) => Word(word) && word != "tag"
    case Short(quoted) => quoted != "" && '"' !in quoted
    case Long(gap, opening, quoted, closing) =>
      Blank(gap) && Blank(opening) && quoted != "" && '"' !in quoted && Blank(closing)
    case Prefix(sign, gap, operand) => sign in "-!" && Blank(gap) && Proper(nums, operand) && Rank(operand) == 7
    case Infix(first, before, symbol, after, second) =>
      && Operator(symbol).Some? && Blank(before) && Blank(after)
      && Proper(nums, first) && Tier(symbol) <= Rank(first)
      && Proper(nums, second) && Tier(symbol) < Rank(second)
      && !(Open(first) && before == "" && symbol in ["+", "-"])
    case Group(inner) => Spaced(inner) && Proper(nums, inner.body)
    case One(word, gap, x) => Function1(word).Some? && Blank(gap) && Spaced(x) && Proper(nums, x.body)
    case Two(word, gap, x, y) =>
      && Function2(word).Some? && Blank(gap)
      && Spaced(x) && Proper(nums, x.body)
      && Spaced(y) && Proper(nums, y.body)
  }

  predicate Spaced(p: Padded) {
    Blank(p.lead) && Blank(p.trail)
  }

  // ----- what it stands for -----

  function Tree(nums: Numerals, e: Sentence): Expr
    requires Proper(nums, e)
  {
    match e
    case Numeral(digits) => Num(nums.ofText(digits).value)
    case Bare(word) => Tag(word)
    case Short(quoted) => Tag(quoted)
    case Long(_, _, quoted, _) => Tag(quoted)
    case Prefix(sign, _, operand) => Unary(if sign == '-' then Neg else Not, Tree(nums, operand))
    case Infix(first, _, symbol, _, second) =>
      Binary(Operator(symbol).value, Tree(nums, first), Tree(nums, second))
    case Group(inner) => Tree(nums, inner.body)
    case One(word, _, x) => Call(Function1(word).value, [Tree(nums, x.body)])
    case Two(word, _, x, y) => Call(Function2(word).value, [Tree(nums, x.body), Tree(nums, y.body)])
  }
}
