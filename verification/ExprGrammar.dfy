/** The reference grammar: one recursive-descent parser over the six binary precedence levels, at
    character level. Both real parsers are proved to compute exactly this function. */
module ExprGrammar {
  import opened Wrappers
  import opened ExprSyntax

  datatype ParseError =
    | TrailingInput(at: nat)
    | UnexpectedChar(at: nat)
    | ExpectedClose
    | MalformedNumber(text: string)
    | ExpectedOpenAfterTag
    | ExpectedQuotedName
    | ExpectedCloseTag
    | UnterminatedString
    | EmptyTagName
    | UnknownFunction(name: string)
    | TooFewArguments(name: string)
    | ExpectedCloseCall(name: string)

  datatype Parsed = Ok(tree: Expr, pos: nat) | Err(error: ParseError)

  // ----- lexing -----

  function SkipWs(s: string, i: nat): (j: nat)
    requires i <= |s|
    ensures i <= j <= |s|
    ensures j < |s| ==> !IsSpace(s[j])
    ensures forall k :: i <= k < j ==> IsSpace(s[k])
    decreases |s| - i
  {
    if i < |s| && IsSpace(s[i]) then SkipWs(s, i + 1) else i
  }

  /** Is the next character after white space `c`? */
  predicate Sees(s: string, i: nat, c: char)
    requires i <= |s|
  {
    var j := SkipWs(s, i);
    j < |s| && s[j] == c
  }

  predicate Sees2(s: string, i: nat, a: char, b: char)
    requires i <= |s|
  {
    var j := SkipWs(s, i);
    j + 1 < |s| && s[j] == a && s[j + 1] == b
  }

  function ScanNumeral(s: string, start: nat, i: nat): (j: nat)
    requires start <= i <= |s|
    ensures i <= j <= |s|
    ensures j < |s| ==> !IsNumeralChar(s, start, j)
    ensures forall k :: i <= k < j ==> IsNumeralChar(s, start, k)
    decreases |s| - i
  {
    if i < |s| && IsNumeralChar(s, start, i) then ScanNumeral(s, start, i + 1) else i
  }

  function ScanIdent(s: string, i: nat): (j: nat)
    requires i <= |s|
    ensures i <= j <= |s|
    ensures j < |s| ==> !IsIdentChar(s[j])
    ensures forall k :: i <= k < j ==> IsIdentChar(s[k])
    decreases |s| - i
  {
    if i < |s| && IsIdentChar(s[i]) then ScanIdent(s, i + 1) else i
  }

  function ScanToQuote(s: string, i: nat): (j: nat)
    requires i <= |s|
    ensures i <= j <= |s|
    ensures j < |s| ==> s[j] == '"'
    ensures forall k :: i <= k < j ==> s[k] != '"'
    decreases |s| - i
  {
    if i < |s| && s[i] != '"' then ScanToQuote(s, i + 1) else i
  }

  /** The operator of precedence level `k` that comes next, with the position after it. */
  function MatchOp(s: string, i: nat, k: nat): (r: Option<(BinOp, nat)>)
    requires i <= |s|
    ensures r.Some? ==> i < r.value.1 <= |s| && Precedence(r.value.0) == k
  {
    var j := SkipWs(s, i);
    match k
    case 1 => if Sees2(s, i, '|', '|') then Some((Or, j + 2)) else None
    case 2 => if Sees2(s, i, '&', '&') then Some((And, j + 2)) else None
    case 3 =>
      if Sees2(s, i, '=', '=') then Some((Eq, j + 2))
      else if Sees2(s, i, '!', '=') then Some((Ne, j + 2))
      else None
    case 4 =>
      if Sees2(s, i, '<', '=') then Some((Le, j + 2))
      else if Sees2(s, i, '>', '=') then Some((Ge, j + 2))
      else if Sees(s, i, '<') then Some((Lt, j + 1))
      else if Sees(s, i, '>') then Some((Gt, j + 1))
      else None
    case 5 =>
      if Sees(s, i, '+') then Some((Add, j + 1))
      else if Sees(s, i, '-') then Some((Sub, j + 1))
      else None
    case 6 =>
      if Sees(s, i, '*') then Some((Mul, j + 1))
      else if Sees(s, i, '/') then Some((Div, j + 1))
      else if Sees(s, i, '%') then Some((Mod, j + 1))
      else None
    case _ => None
  }

  // ----- parsing -----

  /** An operand followed by any number of level-`k` operators; level 7 is `unary`. */
  function Level(nums: Numerals, s: string, i: nat, k: nat): (r: Parsed)
    requires i <= |s| && 1 <= k <= 7
    ensures r.Ok? ==> i < r.pos <= |s|
    decreases |s| - i, 10 - k
  {
    if k == 7 then UnaryExpr(nums, s, i)
    else
      match Level(nums, s, i, k + 1)
      case Err(e) => Err(e)
      case Ok(left, j) => Tail(nums, s, j, k, left)
  }

  function Tail(nums: Numerals, s: string, j: nat, k: nat, left: Expr): (r: Parsed)
    requires j <= |s| && 1 <= k <= 6
    ensures r.Ok? ==> j <= r.pos <= |s|
    decreases |s| - j, 0
  {
    match MatchOp(s, j, k)
    case None => Ok(left, SkipWs(s, j))
    case Some((op, j')) =>
      match Level(nums, s, j', k + 1)
      case Err(e) => Err(e)
      case Ok(right, j'') => Tail(nums, s, j'', k, Binary(op, left, right))
  }

  function UnaryExpr(nums: Numerals, s: string, i: nat): (r: Parsed)
    requires i <= |s|
    ensures r.Ok? ==> i < r.pos <= |s|
    decreases |s| - i, 2
  {
    var j := SkipWs(s, i);
    if Sees(s, i, '!') then
      match UnaryExpr(nums, s, j + 1)
      case Err(e) => Err(e)
      case Ok(t, p) => Ok(Expr.Unary(Not, t), p)
    else if Sees(s, i, '-') then
      match UnaryExpr(nums, s, j + 1)
      case Err(e) => Err(e)
      case Ok(t, p) => Ok(Expr.Unary(Neg, t), p)
    else Primary(nums, s, j)
  }

  function Primary(nums: Numerals, s: string, i: nat): (r: Parsed)
    requires i <= |s|
    ensures r.Ok? ==> i < r.pos <= |s|
    decreases |s| - i, 1
  {
    if i == |s| then Err(UnexpectedChar(i))
    else if s[i] == '(' then
      match Level(nums, s, i + 1, 1)
      case Err(e) => Err(e)
      case Ok(t, p) => if Sees(s, p, ')') then Ok(t, SkipWs(s, p) + 1) else Err(ExpectedClose)
    else if s[i] == '"' then Quoted(s, i)
    else if IsDigit(s[i]) || s[i] == '.' then Number(nums, s, i)
    else if IsIdentStart(s[i]) then Ident(nums, s, i)
    else Err(UnexpectedChar(i))
  }

  function Number(nums: Numerals, s: string, i: nat): (r: Parsed)
    requires i < |s| && (IsDigit(s[i]) || s[i] == '.')
    ensures r.Ok? ==> i < r.pos <= |s|
  {
    var j := ScanNumeral(s, i, i);
    match nums.ofText(s[i..j])
    case None => Err(MalformedNumber(s[i..j]))
    case Some(v) => Ok(Num(v), j)
  }

  /** A `"..."` tag name whose opening quote is at `i`. */
  function Quoted(s: string, i: nat): (r: Parsed)
    requires i < |s| && s[i] == '"'
    ensures r.Ok? ==> i < r.pos <= |s|
  {
    var j := ScanToQuote(s, i + 1);
    if j == |s| then Err(UnterminatedString)
    else if j == i + 1 then Err(EmptyTagName)
    else Ok(Tag(s[i + 1..j]), j + 1)
  }

  function Ident(nums: Numerals, s: string, i: nat): (r: Parsed)
    requires i < |s| && IsIdentStart(s[i])
    ensures r.Ok? ==> i < r.pos <= |s|
    decreases |s| - i, 0
  {
    var j := ScanIdent(s, i);
    var name := s[i..j];
    if name == "tag" then TagForm(s, j)
    else if Sees(s, j, '(') then Arguments(nums, s, SkipWs(s, j) + 1, name)
    else Ok(Tag(name), SkipWs(s, j))
  }

  /** The `("name")` that must follow the word `tag`. */
  function TagForm(s: string, j: nat): (r: Parsed)
    requires j <= |s|
    ensures r.Ok? ==> j < r.pos <= |s|
  {
    if !Sees(s, j, '(') then Err(ExpectedOpenAfterTag)
    else
      var q := SkipWs(s, j) + 1;
      if !Sees(s, q, '"') then Err(ExpectedQuotedName)
      else
        match Quoted(s, SkipWs(s, q))
        case Err(e) => Err(e)
        case Ok(t, p) => if Sees(s, p, ')') then Ok(t, SkipWs(s, p) + 1) else Err(ExpectedCloseTag)
  }

  /** The arguments of a call to `name`, whose opening parenthesis ends at `i`. */
  function Arguments(nums: Numerals, s: string, i: nat, name: string): (r: Parsed)
    requires 0 < i <= |s|
    ensures r.Ok? ==> i < r.pos <= |s|
    decreases |s| - i, 21
  {
    match FuncByName(name)
    case None => Err(UnknownFunction(name))
    case Some(fn) => ArgumentsOf(nums, s, i, fn, name)
  }

  function ArgumentsOf(nums: Numerals, s: string, i: nat, fn: Func, name: string): (r: Parsed)
    requires 0 < i <= |s|
    ensures r.Ok? ==> i < r.pos <= |s|
    decreases |s| - i, 20
  {
    match Level(nums, s, i, 1)
    case Err(e) => Err(e)
    case Ok(a, p) =>
      if Arity(fn) == 1 then CloseCall(s, p, fn, name, [a])
      else if !Sees(s, p, ',') then Err(TooFewArguments(name))
      else
        match Level(nums, s, SkipWs(s, p) + 1, 1)
        case Err(e) => Err(e)
        case Ok(b, q) => CloseCall(s, q, fn, name, [a, b])
  }

  function CloseCall(s: string, p: nat, fn: Func, name: string, args: seq<Expr>): (r: Parsed)
    requires p <= |s|
    ensures r.Ok? ==> p < r.pos <= |s|
  {
    if Sees(s, p, ')') then Ok(Call(fn, args), SkipWs(s, p) + 1) else Err(ExpectedCloseCall(name))
  }

  function ParseExpr(nums: Numerals, s: string): Result<Expr, ParseError> {
    match Level(nums, s, 0, 1)
    case Err(e) => Failure(e)
    case Ok(t, p) => if SkipWs(s, p) == |s| then Success(t) else Failure(TrailingInput(SkipWs(s, p)))
  }
}
