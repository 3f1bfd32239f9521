/** The two parsers side by side, and the rule node that compiles and evaluates an expression. */
module ExprRule {
  import opened Wrappers
  import opened Sequences
  import opened Doubles
  import opened ExprSyntax
  import opened ExprGrammar
  import opened ExprProgram
  import opened ExprEval
  import Rt = ExprRuntimeParser
  import Studio = ExprStudioParser
  import ExprReading
  import ExprNumerals

  /** The program is the postfix flattening of the tree: tag indices resolve to the tree's tag names,
      listed once each in order of first use, and `maxDepth` is the tree's peak. */
  ghost predicate Flattens(p: Rt.Program, t: Expr) {
    && Saturated(t) && Denotes(p.code, p.names, Postfix(t))
    && Distinct(p.names) && p.names == InternAll([], TagRefs(t))
    && p.maxDepth == Peak(t)
  }

  lemma {:induction false} CompiledFlattens(nums: Numerals, src: string)
    requires ParseExpr(nums, src).Success?
    ensures Flattens(Rt.CompiledProgram(ParseExpr(nums, src)), ParseExpr(nums, src).value)
  {
    var t := ParseExpr(nums, src).value;
    ExprReading.LevelYieldsReadable(nums, src, 0, 1);
    ExprReading.ReadableIsPrintable(nums, t);
    EmitTreeAdds(EMPTY, t);
    InternAllExtends([], TagRefs(t));
    var out := EmitTree(EMPTY, t);
    assert out.code[0..] == out.code;
  }

  /** Each parser with its own conversion of numerals. The runtime's RPN is the flattening of the tree that the grammar
      reads with the runtime's conversion. Where the conversions agree on the text's numerals, both parsers accept or
      reject it together: on acceptance the RPN is the flattening of the Studio's tree, on rejection the errors are
      the same. */
  method ParseBoth(studio: Numerals, runtime: Numerals, src: string) returns (tree: Studio.Outcome, prog: Rt.Program)
    ensures tree == ParseExpr(studio, src)
    ensures prog.ok <==> ParseExpr(runtime, src).Success?
    ensures prog.ok ==> Flattens(prog, ParseExpr(runtime, src).value)
    ensures !prog.ok ==> prog.error == Some(ParseExpr(runtime, src).error) && prog.code == [] && prog.names == []
    ensures ExprNumerals.Alike(studio, runtime, src) ==>
              && (prog.ok <==> tree.Success?)
              && (tree.Success? ==> Flattens(prog, tree.value))
              && (tree.Failure? ==> prog.error == Some(tree.error))
  {
    hide ParseExpr, Flattens, ExprNumerals.Alike;
    tree := Studio.StudioParse(studio, src);
    prog := Rt.Compile(runtime, src);
    if ParseExpr(runtime, src).Success? { CompiledFlattens(runtime, src); }
    if ExprNumerals.Alike(studio, runtime, src) { ExprNumerals.ParseAlike(studio, runtime, src); }
  }

  datatype Event = Event(kind: string, value: Double)

  datatype NodeResult = Continue | Stop | Error

  /** `ExprRuleNode::process` on a freshly compiled text: the rule fires exactly when the evaluated tree is
      non-zero, and stages its alarm and NaN events. */
  method ProcessRule(nums: Numerals, src: string, alarm: string, A: Arith, tags: seq<TagValue>)
    returns (r: NodeResult, events: seq<Event>)
    ensures ParseExpr(nums, src).Failure? ==> r == Error && events == []
    ensures ParseExpr(nums, src).Success? ==>
              var t := ParseExpr(nums, src).value;
              && Saturated(t)
              && var v := Evaluated(A, tags, t);
              && (r == if IsZero(v) then Continue else Stop)
              && events == (if Noticed(A, tags, t) then [Event("ExprNaN", v)] else []) +
                           (if IsZero(v) then [] else [Event(alarm, v)])
  {
    hide ParseExpr, Value, AnyNaN, IsZero, Run, Peak, Saturated, Postfix, StackSafe, EmitTree, Denotes, Evaluated,
      Noticed;
    var p := Rt.Compile(nums, src);
    events := [];
    if !p.ok { return Error, events; }
    ghost var t := ParseExpr(nums, src).value;
    CompiledFlattens(nums, src);
    RunProgram(A, tags, t);
    var v, sawNaN := Evaluate(p, A, tags, Postfix(t));
    if sawNaN { events := events + [Event("ExprNaN", v)]; }
    if !IsZero(v) {
      events := events + [Event(alarm, v)];
      r := Stop;
    } else {
      r := Continue;
    }
  }
}
