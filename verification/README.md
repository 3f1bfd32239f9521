# AeroEdge: a verified model

AeroEdge runs low-code flows on factory edge nodes and carries its own MQTT broker. This project models, in
Dafny, the parts whose correctness is hardest to see by reading, and proves what they promise for every input
and every run. Check it with `dafny verify dfyconfig.toml`.

**The flow language.** An expression has two independent parsers, one in the Studio (a tree) and one in the
runtime (flat RPN), a printer and a fixed-stack evaluator. `ExprGrammar` is the reference both parsers are proved
against. `ExprSentences` says what is written and what it stands for, with tables of its own, and `ExprAccepts`,
`ExprDerives` and `ExprLanguage` prove that exactly these texts are accepted. `ExprReading` and `ExprRoundTrip` prove the
printer and the parser inverse; `ExprNumerals` compares the two conversions of numerals; `ExprProgram`, `ExprEval` and
`ExprRule` carry the meaning from text to rule, and `ExprMeaning` fixes what each operator means. `FlowGraph`,
`FlowOrdering` and `FlowCompiler` model the deploy-time ordering, `StudioValidator` the Studio's own check and its
agreement with it, `FlowPlan` the shape, wiring and tag-writer checks,
`FlowExecutor` execution, `FlowTermination` and `EndlessLoops` when a run ends, `LoopTrips` trip counts,
`SwitchBranches` which branches one run can take, `TreeFlows` and `Deployments` two applications followed from deploy
to run. `LoopCavity`, `LoopEditing` and `LoopBody` model the loop editor.

**The broker.** `TopicMatch`, `TopicIndex`, `TopicRouter` and `IndexLag` model subscription routing; `TopicAlias`,
`AliasLaws` and `AliasQueue` topic-alias compression; `OutboundDrain` the non-blocking write path; `Takeover` client-id ownership and
stored sessions; `BrokerCluster` the cross-node broadcast.

**Compact pieces.** `Outbox` and `OutboxKeys` model the durable MES outbox under crashes, `ModbusCrc` the Modbus RTU
checksum, and `CrcPolynomial` proves that it is a polynomial remainder.

Objects that the code updates in place are classes whose methods are proved equal to a step function; properties
over runs are proved of that function. Doubles in expressions are bit patterns under an arbitrary arithmetic;
counters and trip counts are reals. Clocks, sockets, the MES and the thread interleaving are parameters or
explicit steps, and every statement holds for all of them.

Where the code does not keep a promise, the model keeps the code, gives an input or a run that shows it and states
when the promise holds:

- Evaluation stops when the stack reaches 128 values, and the parser does not bound the depth although a comment
  at the cut says it does (`DeepExpressionMisread`, `RunProgram`).
- The compiler checks neither which node a loop edge leaves nor where it leads; the flow can run for ever
  (`DeployEndless`, `EndsExactlyWhenSafe`, `CompiledEnds`).
- Only the sources of labelled edges count as switches, so a second switch defeats the one-writer check
  (`DeployCrossed`, `CrossedWritesTwice`, `InterferenceExact`, `OneWriterPerTag`).
- The Studio looks neither at port names nor at repeated ids (`UnknownPortSlipsThrough`, `DuplicateIdSlipsThrough`,
  `ValidateBoth`).
- Should `Number` and `std::stod` convert a numeral differently, the two parsers differ on it (`NumeralSplits`,
  `ParseBoth`); no such numeral is exhibited, since the conversions are parameters.
- A PUBLISH dropped for its size, or overtaken in the queue, leaves the client without the alias it needs
  (`SizeDropLosesAlias`, `OvertakingLosesAlias`, `RunRecoversExactly`).
- A kicked session can still take the stored session of its client-id (`StateStolen`, `HandoverExactly`).
- A caller's own key can meet a generated one (`KeyReused`, `SharedKeyExactly`, `OutboxCorrect`).
- While a SUBSCRIBE is under way the index lags behind the session's filters (`RoutingLags`).

## Model

| member | source | states |
|---|---|---|
| `ExprRoundTrip.ParsePrinted` | studio/src/exprAst.ts:310-344 | printing a printable tree and parsing the text gives exactly that tree: parentheses stand wherever precedence or associativity needs them |
| `ExprRoundTrip.RoundTripExactly` | studio/src/exprAst.ts:316-344 | the round trip succeeds if and only if the tree is printable: literals non-negative and finite, tag names non-empty without a quote, calls with the right number of arguments |
| `ExprRoundTrip.ReprintReparses` | studio/src/exprAst.ts:299-344 | whatever text a tree was parsed from, its printed form parses back to the same tree |
| `ExprReading.PrintedParses` | studio/src/exprAst.ts:316-344 | at any place in a longer text, a printed subtree is read back whole at every precedence level up to its own grade |
| `ExprReading.OperandParses` | studio/src/exprAst.ts:310-338 | an operand printed with or without parentheses is read back at the level its operator needs |
| `ExprReading.BinaryParses` | studio/src/exprAst.ts:186-203 | a printed binary operation is read back with the same operator and operands, so left-associativity is respected |
| `ExprReading.LevelYieldsReadable` | studio/src/exprAst.ts:150-296 | every tree the grammar yields is one the printer can print |
| `ExprLanguage.ParsesExactly` | studio/src/exprAst.ts:118-306 | a text is accepted with a tree if and only if it is a sentence of the rule language, with white space wherever it is allowed, that stands for that tree; the sentences have their own tables of operator signs, precedences, function names, name characters and numeral characters |
| `ExprLanguage.SentenceParses` | include/aero/nodes/expr_rule_node.hpp:172-354 | every sentence is read as the tree it stands for |
| `ExprLanguage.Unambiguous` | studio/src/exprAst.ts:118-306 | no text has two readings |
| `ExprLanguage.TagForms` | include/aero/nodes/expr_rule_node.hpp:288-306 | a bare word other than `tag`, a name in quotes and `tag("..")` all read as the tag of that name |
| `ExprLanguage.Grouping` | studio/src/exprAst.ts:150-203 | of two operators in a row the tighter takes its operands first, and equals group to the left, for all 13 signs and any operands |
| `ExprLanguage.Threshold` | include/aero/nodes/expr_rule_node.hpp:137 | `name > number` evaluates to 1.0 exactly when the number is less than the value of the first tag of that name, and to 0.0 otherwise |
| `ExprAccepts.BareReads` | include/aero/nodes/expr_rule_node.hpp:288-306 | anywhere in a text, a bare word that no parenthesis follows reads as the tag of that name |
| `ExprAccepts.SentenceReads` | include/aero/nodes/expr_rule_node.hpp:192-267 | a sentence inside a longer text is read whole at every level up to its own, where what follows does not run on into it |
| `ExprAccepts.PaddedReads` | include/aero/nodes/expr_rule_node.hpp:251-340 | a sentence with white space around it is read up to the comma, parenthesis or end behind it |
| `ExprDerives.LevelSpells` | studio/src/exprAst.ts:150-203 | whatever is read at a precedence level spells a sentence of that level, which stands for the tree read |
| `ExprDerives.IdentSpells` | studio/src/exprAst.ts:249-284 | whatever is read at a word spells a bare name, a tag form or a call |
| `ExprStudioParser.Parser.ParseLevel` | studio/src/exprAst.ts:150-203 | the loops of `parseOr` to `parseMul` read what the reference grammar says at that level |
| `ExprStudioParser.Parser.ParseUnary` | studio/src/exprAst.ts:205-210 | prefix operators, against the reference grammar |
| `ExprStudioParser.Parser.ParsePrimary` | studio/src/exprAst.ts:211-225 | parenthesised, quoted, numeric and identifier operands, against the reference grammar |
| `ExprStudioParser.Parser.ParseNumber` | studio/src/exprAst.ts:226-248 | the numeral scan and its conversion, against the reference grammar |
| `ExprStudioParser.Parser.ParseIdent` | studio/src/exprAst.ts:249-267 | identifiers, the `tag("..")` form and calls, against the reference grammar; what that grammar reads there is fixed by `ParsesExactly` and `TagForms` |
| `ExprStudioParser.Parser.ParseFunctionCall` | studio/src/exprAst.ts:271-284 | call arguments by arity, against the reference grammar |
| `ExprStudioParser.Parser.ParseStringBody` | studio/src/exprAst.ts:287-296 | a quoted tag name or its errors, against the reference grammar |
| `ExprStudioParser.Parser.Parse` | studio/src/exprAst.ts:118-125 | a whole text, with trailing input rejected |
| `ExprStudioParser.StudioParse` | studio/src/exprAst.ts:299-306 | the Studio parser computes exactly the reference parse of every text, so by `ParsesExactly` it accepts exactly the sentences |
| `ExprProgram.EmitTreeAdds` | include/aero/nodes/expr_rule_node.hpp:356-373 | emitting a tree appends exactly its postfix form, interns its tag names in order of first use, leaves one more value on the stack and records the exact peak |
| `ExprProgram.InternAllExtends` | include/aero/nodes/expr_rule_node.hpp:358-367 | interning keeps earlier names in place, lists every name once and finds each by its index |
| `ExprRuntimeParser.Parser.AddTag` | include/aero/nodes/expr_rule_node.hpp:358-367 | the name scan of `emit_tag` finds or appends the name |
| `ExprRuntimeParser.Parser.AddOp` | include/aero/nodes/expr_rule_node.hpp:368-373 | an operator and its effect on the tracked depth |
| `ExprRuntimeParser.Parser.Fail` | include/aero/nodes/expr_rule_node.hpp:398 | the first failure is kept |
| `ExprRuntimeParser.Parser.ParseLevel` | include/aero/nodes/expr_rule_node.hpp:192-244 | `parse_or` to `parse_mul` emit the code of exactly the tree the reference grammar reads, or fail with its error |
| `ExprRuntimeParser.Parser.NextOperand` | include/aero/nodes/expr_rule_node.hpp:194-197 | one round of such a loop extends the tree read so far by an operator and its operand |
| `ExprRuntimeParser.Parser.ParseUnary` | include/aero/nodes/expr_rule_node.hpp:245-250 | prefix operators, code and failure against the reference grammar |
| `ExprRuntimeParser.Parser.ParsePrimary` | include/aero/nodes/expr_rule_node.hpp:251-267 | operands, code and failure against the reference grammar |
| `ExprRuntimeParser.Parser.ParseNumber` | include/aero/nodes/expr_rule_node.hpp:269-286 | the numeral scan, code and failure against the reference grammar; a conversion that throws, malformed or out of range, is one that yields nothing |
| `ExprRuntimeParser.Parser.ParseIdent` | include/aero/nodes/expr_rule_node.hpp:288-306 | identifiers, the tag form and calls, against the reference grammar; what that grammar reads there is fixed by `ParsesExactly` and `TagForms` |
| `ExprRuntimeParser.Parser.ParseFunctionCall` | include/aero/nodes/expr_rule_node.hpp:311-340 | calls by arity, code and failure against the reference grammar |
| `ExprRuntimeParser.Parser.ParseStringBody` | include/aero/nodes/expr_rule_node.hpp:345-354 | quoted tag names, against the reference grammar |
| `ExprRuntimeParser.Parser.Parse` | include/aero/nodes/expr_rule_node.hpp:172-190 | the program of a whole text, empty with the error on failure |
| `ExprRuntimeParser.Compile` | include/aero/nodes/expr_rule_node.hpp:430-432 | the runtime compiler yields the program of the reference parse of every text, so by `ParsesExactly` it accepts exactly the sentences |
| `ExprRule.CompiledFlattens` | include/aero/nodes/expr_rule_node.hpp:172-373 | a compiled program is the postfix flattening of the tree: indices resolve to the tree's tag names, each listed once, and `max_depth` is the tree's peak |
| `ExprRule.ParseBoth` | include/aero/nodes/expr_rule_node.hpp:172-190 | each parser with its own conversion of numerals: the RPN always flattens the tree the grammar reads with the runtime's conversion, or carries its error; where the conversions agree on the numerals read both parsers accept or reject together, the RPN flattens the Studio's tree and the errors agree |
| `ExprNumerals.ParseAlike` | studio/src/exprAst.ts:226-248 | two conversions that agree on every numeral the parser reads, none of them inside a quoted name or behind an error, give the text the same parse |
| `ExprNumerals.LoneNumeral` | include/aero/nodes/expr_rule_node.hpp:269-286 | a text that is one numeral parses to its value, or is refused as malformed where the conversion refuses it |
| `ExprNumerals.NumeralSplits` | include/aero/nodes/expr_rule_node.hpp:276-283 | on such a text the two parsers agree if and only if the conversions do |
| `ExprEval.PostfixSafe` | include/aero/nodes/expr_rule_node.hpp:93-152 | the code of a saturated tree never underflows the evaluator's stack |
| `ExprEval.PeakIsExact` | include/aero/nodes/expr_rule_node.hpp:368-373 | the tracked peak is the exact maximum height of the stack, from any starting height |
| `ExprEval.RunTree` | include/aero/nodes/expr_rule_node.hpp:93-152 | while the peak fits, running a tree's code pushes the tree's value and records a NaN exactly when some subexpression is NaN |
| `ExprEval.RunCut` | include/aero/nodes/expr_rule_node.hpp:149-150 | when the peak does not fit, evaluation stops with the value of the leaf that fills the last slot, and records a NaN exactly when that leaf or a subexpression completed before it is one |
| `ExprEval.RunProgram` | include/aero/nodes/expr_rule_node.hpp:93-153 | the result and the NaN flag of a whole program, for every tree: of the tree while `max_depth` is below 128, and of the cut otherwise |
| `ExprEval.DeepExpressionMisread` | include/aero/nodes/expr_rule_node.hpp:150 | a text that the parser accepts, whose tree has peak 128 and value 0 but evaluates to 1 |
| `ExprEval.Execute` | include/aero/nodes/expr_rule_node.hpp:98-148 | one instruction on the 128-slot array, by its own switch over the opcodes, is one step on the stack, in bounds; what each operator means is fixed by the laws of `ExprMeaning` |
| `ExprEval.ExecuteUnary` | include/aero/nodes/expr_rule_node.hpp:102-122 | the switch over the prefix operators and the functions of one argument |
| `ExprEval.ExecuteBinary` | include/aero/nodes/expr_rule_node.hpp:127-145 | the switch over the binary operators and the functions of two arguments |
| `ExprMeaning.Leaves` | include/aero/nodes/expr_rule_node.hpp:100-101 | a literal is its value; a tag is the first of its name, and 0.0 if there is none |
| `ExprMeaning.Comparisons` | include/aero/nodes/expr_rule_node.hpp:136-140 | `<`, `<=` and `==` are 1.0 exactly when the primitive holds of left and right in that order, and 0.0 otherwise |
| `ExprMeaning.Mirrored` | include/aero/nodes/expr_rule_node.hpp:137-139 | `l > r` has the value of `r < l`, and `l >= r` that of `r <= l` |
| `ExprMeaning.Unequal` | include/aero/nodes/expr_rule_node.hpp:141 | `l != r` has the value of `!(l == r)` |
| `ExprMeaning.Connectives` | include/aero/nodes/expr_rule_node.hpp:142-143 | `!`, `&&` and `||` see only whether their operands are zero and give 1.0 or 0.0 |
| `ExprMeaning.DeMorgan` | include/aero/nodes/expr_rule_node.hpp:142-143 | the negation of a conjunction is the disjunction of the negations, and the other way round |
| `ExprMeaning.Arithmetic` | include/aero/nodes/expr_rule_node.hpp:128-130 | `+`, `-`, `*` and the sign are the primitives on left and right in that order |
| `ExprMeaning.Division` | include/aero/nodes/expr_rule_node.hpp:131-132 | `/` and `%` give 0.0 for a zero divisor of either sign and the primitive otherwise; where the primitive gives no zero they give 0.0 exactly for a zero divisor |
| `ExprMeaning.UnaryFunctions` | include/aero/nodes/expr_rule_node.hpp:109-122 | each of the 14 functions of one argument is its own primitive on the argument |
| `ExprMeaning.BinaryFunctions` | include/aero/nodes/expr_rule_node.hpp:133-135 | `pow` is the primitive; `min` and `max` give one of their operands, one the other does not beat, the first where neither beats the other |
| `ExprMeaning.SeesNaN` | include/aero/nodes/expr_rule_node.hpp:149 | a NaN is seen exactly when some part of the tree evaluates to one |
| `ExprMeaning.Format` | include/aero/nodes/expr_rule_node.hpp:103 | the bit patterns that are NaN, zero and 1.0 |
| `ExprEval.Evaluate` | include/aero/nodes/expr_rule_node.hpp:93-153 | the array loop computes the run of the resolved code and stays within its 128 slots |
| `ExprEval.FindTag` | include/aero/nodes/expr_rule_node.hpp:156-162 | the value of the first tag of that name, and 0 if there is none |
| `ExprRule.ProcessRule` | include/aero/nodes/expr_rule_node.hpp:437-449 | for every text, a rule fires exactly when the evaluated tree is non-zero, and stages exactly its alarm and NaN events |
| `FlowGraph.RankedIsAcyclic` | include/aero/runtime/flow_compiler.hpp:290-292 | a graph whose edges all climb a numbering has no cycle |
| `FlowGraph.AcyclicHasRanks` | include/aero/runtime/flow_compiler.hpp:290-292 | a graph without cycles has such a numbering |
| `FlowGraph.NoSourceMeansCycle` | include/aero/runtime/flow_compiler.hpp:394-396 | a non-empty set of nodes all entered from within contains a cycle: what Kahn's leftover nodes witness |
| `FlowGraph.AllReachable` | include/aero/runtime/flow_compiler.hpp:372-376 | in a topological order in which every later node is entered, every node is reachable from the first |
| `FlowOrdering.Relax` | include/aero/runtime/flow_compiler.hpp:387-392 | relaxing one outgoing edge keeps the queue exactly the nodes with nothing pending, in topological order |
| `FlowOrdering.Drained` | include/aero/runtime/flow_compiler.hpp:394-396 | when the queue is drained and some node is missing, the forward edges contain a cycle |
| `FlowCompiler.IndexIds` | include/aero/runtime/flow_compiler.hpp:302-308 | the id table exists exactly when ids are distinct |
| `FlowCompiler.CollectEdges` | include/aero/runtime/flow_compiler.hpp:310-366 | the edge loop succeeds exactly on known endpoints, known ports, one loop edge and one branching node, and builds the forward adjacency and in-degrees |
| `FlowCompiler.FindRoots` | include/aero/runtime/flow_compiler.hpp:368-371 | the queue starts with exactly the nodes no forward edge enters |
| `FlowCompiler.RelaxNode` | include/aero/runtime/flow_compiler.hpp:385-393 | one node's outgoing edges in the order listed: counters, queue and incoming labels |
| `FlowCompiler.RunKahn` | include/aero/runtime/flow_compiler.hpp:380-393 | the queue loop ends with everything orderable ordered, in exactly the order in which the queue hands the nodes out, and all incoming labels recorded |
| `FlowCompiler.NodeLabels` | include/aero/runtime/flow_compiler.hpp:398-409 | a label for every node exactly when the labels into each node agree |
| `FlowCompiler.CheckLoopStarts` | include/aero/runtime/flow_compiler.hpp:416-422 | an error exactly when some loop_start carries a label |
| `FlowCompiler.LabelNodes` | include/aero/runtime/flow_compiler.hpp:398-422 | both label checks together |
| `FlowCompiler.OrderNodes` | include/aero/runtime/flow_compiler.hpp:327-396 | ordering succeeds exactly on well-formed edges, one Source root and no cycle; the cycle error implies a cycle |
| `FlowCompiler.OrderFlowGraph` | include/aero/runtime/flow_compiler.hpp:292-425 | success if and only if ids are distinct and the graph is schedulable; then the order is a permutation, every forward edge goes forward, it starts at the one Source root, every node is reachable from it and labels are those of the incoming edges; among the possible orders it is the one of a first-in first-out queue fed by the edges as listed; the cycle error occurs only on a real cycle |
| `StudioValidator.CheckEndpoints` | studio/src/application.ts:215-219 | an error exactly when some edge names an unknown node |
| `StudioValidator.SplitEdges` | studio/src/application.ts:227-231 | exactly the loop_back edges and exactly the others, each in order |
| `StudioValidator.Adjacency` | studio/src/application.ts:234-240 | outgoing targets and in-degrees of the forward edges |
| `StudioValidator.CountVisited` | studio/src/application.ts:241-253 | the queue loop visits every node exactly when the forward edges have no cycle |
| `StudioValidator.CheckRoot` | studio/src/application.ts:269-277 | no error exactly when the only root is a Source, the first node of each id counting |
| `StudioValidator.CheckLabels` | studio/src/application.ts:284-291 | no error exactly when the labels into each node agree |
| `StudioValidator.CheckBranches` | studio/src/application.ts:297-303 | no error exactly when labelled edges leave one node |
| `StudioValidator.CheckLoopStarts` | studio/src/application.ts:308-319 | no error exactly when no loop_start is reached by one label only, the first node of each id counting |
| `StudioValidator.CheckOrder` | studio/src/application.ts:234-277 | the cycle and root checks together |
| `StudioValidator.CheckRouting` | studio/src/application.ts:284-319 | the label, branch and loop-start checks together |
| `StudioValidator.ValidateGraph` | studio/src/application.ts:208-322 | for every graph with an edge, no error if and only if the graph is schedulable apart from port names, of several nodes with one id the first counting |
| `StudioValidator.SeenWhole` | studio/src/application.ts:213 | with distinct ids every node counts |
| `StudioValidator.ValidateBoth` | studio/src/application.ts:208-322 | for every graph with an edge, the runtime accepts if and only if the Studio reports no error, ids are distinct and every port is known |
| `StudioValidator.UnknownPortSlipsThrough` | studio/src/application.ts:227-231 | a graph with an unknown port passes the Studio although the runtime refuses it |
| `StudioValidator.DuplicateIdSlipsThrough` | studio/src/application.ts:213 | a graph with two nodes under one id passes the Studio although the runtime refuses it |
| `FlowExecutor.LookupOverwritten` | include/aero/nodes/loop_nodes.hpp:28-36 | the counter reads back what was written |
| `FlowExecutor.OverwriteOrAppend` | include/aero/nodes/loop_nodes.hpp:28-36 | the first tag of that name gets the value in its place, or a new one is appended, and every other tag stays where and as it was |
| `FlowExecutor.PutsExactly` | include/aero/nodes/loop_nodes.hpp:28-36 | that describes the result completely: there is exactly one such list of tags |
| `FlowExecutor.PutsKeepsOthers` | include/aero/nodes/loop_nodes.hpp:28-36 | every other name reads as before |
| `FlowExecutor.LookupReads` | include/aero/nodes/expr_rule_node.hpp:156-162 | a name reads as the value of the first tag that has it, and as 0.0 if none has |
| `FlowExecutor.ReadCounter` | include/aero/nodes/loop_nodes.hpp:111-117 | the scan for the counter's value |
| `FlowExecutor.StartLaw` | include/aero/nodes/loop_nodes.hpp:53-63 | a loop_start puts the start value in its counter and opens the budget and the deadline; nothing else changes |
| `FlowExecutor.BackLaw` | include/aero/nodes/loop_nodes.hpp:104-141 | a loop_back adds the step to its counter; it fails exactly when the advanced counter has not passed the end, read afterwards and included, and this was the last pass of the budget or the time is up; otherwise it asks for another pass exactly when the end is not passed |
| `FlowExecutor.SwitchLaw` | include/aero/nodes/switch_node.hpp:32-41 | a switch only picks the branch, false exactly for 0 |
| `FlowExecutor.ProcessLoopBack` | include/aero/nodes/loop_nodes.hpp:104-141 | the statements of the node, one after the other, against its step function |
| `FlowExecutor.ProcessNode` | include/aero/nodes/loop_nodes.hpp:53-63 | a node's `process` against its step function |
| `FlowExecutor.RunSparesTag` | include/aero/core/compiled_flow.hpp:41-67 | over any run, a tag that no node writes reads the same throughout |
| `FlowExecutor.RunExplained` | include/aero/core/compiled_flow.hpp:52-57 | over any run, a halt without failure is the last node's Stop and one with failure its Error, recorded at that step |
| `FlowTermination.RoundMoves` | include/aero/core/compiled_flow.hpp:43-66 | what a round of a plan whose one jump may leave any node does to the budget and to loop_continue |
| `FlowTermination.RoundBurns` | include/aero/core/compiled_flow.hpp:43-66 | where no loop_back that can decide about the jump wins back a budget of two, every round uses up fuel, whatever the nodes, the labels and the clock do |
| `FlowTermination.RunEnds` | include/aero/core/compiled_flow.hpp:41-67 | every run of such a plan ends within its fuel, from any context |
| `FlowTermination.CallBound` | include/aero/core/compiled_flow.hpp:41-67 | with one loop_start before the jump target and the target at or before the jumping loop_back, a run makes at most n + (max_iterations - 1)(b - t + 1) node calls |
| `FlowTermination.Execute` | include/aero/core/compiled_flow.hpp:41-67 | the loop over the plan is the run of its rounds, and terminates on every bounded plan |
| `EndlessLoops.EndsExactlyWhenSafe` | include/aero/runtime/flow_compiler.hpp:71-83 | whatever node the jump leaves and however many loop nodes there are, labelled or not: every plan with these loop nodes and this jump ends from a reset context, if and only if no loop_back that can decide about the jump and that it runs again finds a budget of two both at first and around again; provided that no loop_back before the target can decide with a budget of two while one behind it can decide too |
| `EndlessLoops.UnlabelledIsSettled` | include/aero/runtime/flow_compiler.hpp:411-422 | that proviso holds where no loop node carries a label |
| `EndlessLoops.OwnJumpIsSettled` | include/aero/runtime/flow_compiler.hpp:337-345 | where the jump leaves a loop_back |
| `EndlessLoops.BehindTargetIsSettled` | include/aero/runtime/flow_compiler.hpp:71-83 | and where no loop_back stands before the target |
| `EndlessLoops.SafeIsNeeded` | include/aero/runtime/flow_compiler.hpp:71-83 | without that proviso, a placement that is not safe has a plan with a run that never ends |
| `EndlessLoops.UnlabelledEndsExactly` | include/aero/runtime/flow_compiler.hpp:411-422 | the same without further conditions where no loop node carries a label |
| `EndlessLoops.OwnJumpEndsExactly` | include/aero/runtime/flow_compiler.hpp:337-345 | where the jump leaves a loop_back, every run from every context ends if and only if that loop_back wins back no budget of two |
| `EndlessLoops.LoneBackSafe` | include/aero/runtime/flow_compiler.hpp:71-83 | one unlabelled loop_back: unsafe if and only if the jump runs it again, the last loop_start before it allows two passes, and so does the last one before it on the way around |
| `EndlessLoops.SafeEnds` | include/aero/core/compiled_flow.hpp:41-67 | every run of a safe placement ends |
| `EndlessLoops.CirclesForever` | include/aero/nodes/loop_nodes.hpp:53-63 | an unsafe placement has a plan with a run that never ends |
| `LoopTrips.ExactTripCount` | include/aero/nodes/loop_nodes.hpp:104-141 | every unlabelled step of the loop runs exactly max(1, floor((end - start)/step) + 1) times when the budget allows it, upward or downward, and otherwise the run fails in the last allowed pass; only calls of loop_back must come before the deadline |
| `LoopTrips.WantsUntilTrips` | include/aero/nodes/loop_nodes.hpp:123-124 | loop_back asks for another pass after k of them exactly while k is below that count |
| `LoopTrips.ZeroStep` | include/aero/nodes/loop_nodes.hpp:104-141 | a zero step runs once if the start is past the end and otherwise exhausts the budget |
| `LoopTrips.AnyClock` | include/aero/nodes/loop_nodes.hpp:126-141 | on any clock: the loop ends at the earliest pass that asks for no more, has used up the budget or is late, with every unlabelled step called that often, and fails exactly in the latter two cases |
| `LoopTrips.WholeLoop` | include/aero/core/compiled_flow.hpp:41-67 | any count of wanted passes, followed through the whole plan, when no call of loop_back is late |
| `LoopTrips.BriskIsPunctual` | include/aero/nodes/loop_nodes.hpp:126-131 | a clock whose readings within the call bound stay within max_duration of each other makes no call of loop_back late |
| `FlowPlan.Wire` | include/aero/runtime/flow_compiler.hpp:67-83 | the plan runs the nodes in order with their labels, and only the loop edge's source jumps, to the step of its target |
| `FlowPlan.GroupWriters` | include/aero/runtime/flow_compiler.hpp:223-228 | the writers of each tag, all of them, in flow order |
| `FlowPlan.CheckGroup` | include/aero/runtime/flow_compiler.hpp:231-242 | a group passes exactly when its writers are pairwise exclusive |
| `FlowPlan.ValidateTagWriters` | include/aero/runtime/flow_compiler.hpp:218-244 | success if and only if no two different nodes write one tag unless they stand on different branches |
| `FlowPlan.HasKind` | include/aero/runtime/flow_compiler.hpp:440-469 | whether the flow has a node of a kind |
| `FlowPlan.FirstIndices` | include/aero/runtime/flow_compiler.hpp:262-264 | the first node of each id |
| `FlowPlan.ValidateTerminalPlacement` | include/aero/runtime/flow_compiler.hpp:249-274 | success if and only if nothing follows a terminal node: it is the last in array order, and in a graph no edge leaves it |
| `FlowPlan.CompileFlow` | include/aero/runtime/flow_compiler.hpp:462-504 | array-order flows compile exactly with a Source, an Output, terminal nodes last, no loop nodes and no collision; graphs exactly with the first three, distinct ids, a schedulable graph and no collision under the labels of the incoming edges, which are those labels whether it compiles or not; and the plan is wired in the queue's topological order |
| `SwitchBranches.RunRouted` | include/aero/nodes/switch_node.hpp:32-41 | every run, jumps or not, keeps: a labelled call comes after a switch that always runs, and between two calls on opposite branches a switch was called that leaves the first one's branch |
| `SwitchBranches.BranchesApart` | include/aero/core/compiled_flow.hpp:43-66 | two labelled steps called in one run without a jump back are on one branch, or they interfere |
| `SwitchBranches.InterferenceExact` | include/aero/core/compiled_flow.hpp:43-66 | a plan of a given shape without jumps can call steps of both branches in one run if and only if two steps interfere: opposite labels, an unlabelled switch before the first, and from the first on and before the second a switch unlabelled or labelled like the first |
| `FlowPlan.OneWriterPerTag` | include/aero/runtime/flow_compiler.hpp:218-244 | in any run of an accepted flow, loops included, that takes no jump back, two nodes that run and are known to write one tag stand at interfering steps; with at most one switch there are none |
| `TreeFlows.QueueOrder` | include/aero/runtime/flow_compiler.hpp:380-393 | a graph drawn as a tree level by level leaves the queue in the order drawn |
| `TreeFlows.RunsAsDrawn` | include/aero/runtime/flow_compiler.hpp:292-425 | so deploy runs its nodes in the order drawn |
| `TreeFlows.Labels` | include/aero/runtime/flow_compiler.hpp:398-409 | and a node's label is that of the edge it hangs by |
| `Deployments.DeployCrossed` | include/aero/runtime/flow_compiler.hpp:317-318 | an application of built-in nodes with two switches, two exclusive writers of one tag and an output is accepted and compiles to this plan, for any ids |
| `Deployments.CrossedWritesTwice` | include/aero/runtime/flow_compiler.hpp:218-244 | in every run of that plan both writers run and the second overwrites the first |
| `Deployments.DeployEndless` | include/aero/runtime/flow_compiler.hpp:337-345 | an application of built-in nodes with an output, whose loop edge leads back to its loop_start and leaves the loop_back or the node behind it, is accepted and compiles, for any ids, to a plan with a run that never ends once two passes are allowed |
| `FlowPlan.DrawnLoopIsSafe` | include/aero/runtime/flow_compiler.hpp:71-83 | if the jump target lies on a forward path from loop_start to loop_back, any compiled order runs them in that order |
| `FlowPlan.DrawnLoopEnds` | include/aero/core/compiled_flow.hpp:41-67 | so every run of such a deployed flow ends within the call bound |
| `FlowPlan.WiredIsPlaced` | include/aero/runtime/flow_compiler.hpp:67-83 | a compiled plan has the flow's loop nodes in running order, and its jump goes where the loop edge goes |
| `FlowPlan.CompiledEnds` | include/aero/core/compiled_flow.hpp:41-67 | every run of a compiled flow ends if it has no loop edge, or one whose placement is tame or safe |
| `LoopCavity.BuildTables` | studio/src/loopCavity.ts:43-49 | outgoing edges and incoming counts of every node |
| `LoopCavity.WalkBody` | studio/src/loopCavity.ts:60-75 | the walk from the back edge's target to loop_back |
| `LoopCavity.AddBackEdge` | studio/src/loopCavity.ts:56-89 | one back edge: its pair, its reverse entry and its members' positions |
| `LoopCavity.ComputeLoops` | studio/src/loopCavity.ts:42-92 | all back edges, in order, the first of each loop_back counting |
| `LoopEditing.ResolveExactly` | studio/src/loopCavity.ts:60-85 | the walk recognises exactly the closed chains of single unlabelled edges with single entries |
| `LoopEditing.BuiltIsRecognised` | studio/src/loopCavity.ts:85-88 | such a chain is the one pair found, with exactly its nodes as members at their positions |
| `LoopBody.AttachAppends` | studio/src/loopCavity.ts:164-199 | attaching an edge-free node yields members ++ [x]; the loop stays recognised, the back edge stays at the head, and no forward cycle appears |
| `LoopBody.DetachRemoves` | studio/src/loopCavity.ts:127-156 | detaching any member removes only it; the back edge goes to the new head, or to loop_back itself when the body is empty, and no forward cycle appears |
| `LoopBody.DetachUndoesAttach` | studio/src/loopCavity.ts:127-199 | detaching the attached node restores the graph up to edge ids and edge order |
| `LoopBody.ShapeEdit` | studio/src/application.ts:155-169 | deleting by id and adding edges conserves all other edges |
| `TopicMatch.Split` | include/aero/broker/topic_match.hpp:21-34 | the levels of a name |
| `TopicMatch.JoinLevels` | include/aero/broker/topic_match.hpp:21-34 | levels joined with '/' give the name back |
| `TopicMatch.LevelsInjective` | include/aero/broker/topic_match.hpp:21-34 | different names have different levels |
| `TopicMatch.TopicMatches` | include/aero/broker/topic_match.hpp:20-45 | true if and only if all levels agree up to '+', or those before some '#' do |
| `TopicMatch.PlainFilter` | include/aero/broker/native_broker.hpp:2004-2005 | without '+' and '#' a filter matches its own text and nothing else |
| `TopicMatch.HashBelow` | include/aero/broker/topic_match.hpp:20-45 | `name/#` matches the name itself and everything below it, and nothing else |
| `TopicMatch.PlusOneLevel` | include/aero/broker/topic_match.hpp:20-45 | `a/+/b` matches exactly `a/w/b` for one level `w` |
| `TopicIndex.StepSound` | include/aero/broker/native_broker.hpp:2015-2019 | accept, subscribe, session restore and teardown keep the index exactly the live sessions' filters, without empty lists |
| `TopicIndex.RunSound` | include/aero/broker/native_broker.hpp:2015-2019 | so does every run of them |
| `TopicIndex.MatchingIsListed` | include/aero/broker/native_broker.hpp:2053-2061 | a session with a matching filter is under the topic or among the wildcard subscribers |
| `TopicIndex.IndexRefinesScan` | include/aero/broker/native_broker.hpp:2053-2065 | the candidates yield the same multiset of direct deliveries with their QoS, and of shared subscriptions, as a scan of all live sessions |
| `TopicIndex.RoutingIsExact` | include/aero/broker/native_broker.hpp:1683-1742 | the same over every run |
| `IndexLag.BlockTracked` | include/aero/broker/native_broker.hpp:1401-1412 | lock by lock: every block of SUBSCRIBE, restore and teardown keeps each session listed under exactly the filters entered for it |
| `IndexLag.RestingIsSound` | include/aero/broker/native_broker.hpp:2015-2019 | while no session is in the middle of anything the index is exact |
| `IndexLag.RoutingLags` | include/aero/broker/native_broker.hpp:1401-1412 | over every interleaving of blocks, routing through the index differs from a scan of all live sessions only by sessions in a SUBSCRIBE not yet acknowledged, of which nothing entered so far matches, and by leaving ones |
| `TopicRouter.Router.IndexSubscription` | include/aero/broker/native_broker.hpp:2032-2038 | one filter enters the exact or the wildcard table |
| `TopicRouter.Router.HandleSubscribe` | include/aero/broker/native_broker.hpp:1401-1412 | the granted filters join the session and the index |
| `TopicRouter.Router.RestoreSession` | include/aero/broker/native_broker.hpp:1310-1318 | restored filters become the session's and enter the index |
| `TopicRouter.Router.RemoveSession` | include/aero/broker/native_broker.hpp:1960-1991 | the session leaves every list it stood in |
| `TopicRouter.Router.Candidates` | include/aero/broker/native_broker.hpp:2053-2065 | the listed sessions, each once |
| `TopicIndex.ScanDue` | include/aero/broker/native_broker.hpp:1695-1708 | what a scan picks is exactly what is due: for each matching subscription of a live session the subscription itself if it is shared, and otherwise a delivery at the lower of the two QoS levels |
| `TopicRouter.Router.CollectSession` | include/aero/broker/native_broker.hpp:1695-1708 | one session's matching subscriptions, direct or shared |
| `TopicRouter.Router.RoutePublish` | include/aero/broker/native_broker.hpp:1694-1709 | the selection loop picks exactly what a scan of all live sessions would pick; every direct delivery is at most at the publish's QoS and at most at that of a matching unshared subscription of the session, and at one of the two, and nothing due is missing |
| `SortedUnique.SortUnique` | include/aero/broker/native_broker.hpp:2062-2063 | strictly increasing with the same elements |
| `TopicAlias.Sender.Build` | include/aero/broker/native_broker.hpp:1876-1897 | the alias and Topic Name of the next PUBLISH and the new table |
| `TopicAlias.Receiver.Receive` | include/aero/broker/native_broker.hpp:1498-1520 | the resolved topic and the new table, or a disconnect |
| `TopicAlias.TableInjective` | include/aero/broker/native_broker.hpp:1885-1890 | aliases are distinct numbers within 1..max, after any sequence of builds |
| `AliasLaws.AliasByRank` | include/aero/broker/native_broker.hpp:1881-1897 | after any sequence of builds, the r-th topic to come up has alias r if the client accepts that many and none otherwise; the full name goes out the first time and wherever there is no alias |
| `AliasLaws.ReceivesMeaning` | include/aero/broker/native_broker.hpp:1498-1520 | after any packets, one with a name stands for that name and a bare alias for the name last sent with it; refused are exactly aliases outside 1 to 16 and bare ones never named |
| `TopicAlias.RecoversExactly` | include/aero/broker/native_broker.hpp:1498-1520 | whatever packets reach the wire in whatever order, the receiver recovers every topic in order if and only if every bare alias comes after its establishing packet |
| `TopicAlias.RoundTrip` | include/aero/broker/native_broker.hpp:1876-1899 | with nothing dropped and nothing overtaking, any sequence of non-empty topics is recovered |
| `AliasQueue.RunRecoversExactly` | include/aero/broker/native_broker.hpp:801-824 | for every run of the session's queue the client recovers all topics sent in order, if and only if no step sends a packet of a topic whose alias an earlier step gave with a packet it dropped for its size, or with a publish_to that still waits behind the queued PUBLISH sent |
| `AliasQueue.FanOutRoundTrip` | include/aero/broker/native_broker.hpp:786-793 | fan-out deliveries, none too big, always arrive with their topics |
| `AliasQueue.SizeDropLosesAlias` | include/aero/broker/native_broker.hpp:1923-1930 | a packet dropped for its size after taking an alias makes the next one unresolvable |
| `AliasQueue.OvertakingLosesAlias` | include/aero/broker/native_broker.hpp:1940-1953 | a PUBLISH built at once but queued behind a logical one is overtaken by a bare alias |
| `OutboundDrain.SendIntact` | include/aero/broker/native_broker.hpp:840-852 | after a short or full write the socket's own record of accepted bytes has grown by exactly those that count as sent |
| `OutboundDrain.DrainKeeps` | include/aero/broker/native_broker.hpp:801-867 | a drain keeps the byte stream and leaves the session at rest, or ends in an error with a clean prefix accepted |
| `OutboundDrain.StreamIntegrity` | include/aero/broker/native_broker.hpp:786-867 | for every interleaving of enqueues and writable events and any short writes and would-blocks: the bytes the socket accepted, by its own record of what it was offered, are a prefix of the packets in order, each the item itself or what was built for it; there is an error exactly if a send failed; until one nothing is lost or reordered, write interest is on exactly while a packet is unfinished and only after a would-block, and items wait only behind one |
| `OutboundDrain.ReactorSession.NextPacket` | include/aero/broker/native_broker.hpp:803-824 | items leave the queue until one yields a packet |
| `OutboundDrain.ReactorSession.SendSome` | include/aero/broker/native_broker.hpp:840-845 | one send: the socket records the bytes offered, and accepts a first part of them or none |
| `OutboundDrain.ReactorSession.OfferRest` | include/aero/broker/native_broker.hpp:840-845 | what is offered is exactly the unsent rest of the current packet |
| `OutboundDrain.ReactorSession.Accept` | include/aero/broker/native_broker.hpp:846-852 | a short or full write |
| `OutboundDrain.ReactorSession.Round` | include/aero/broker/native_broker.hpp:802-866 | one round of the drain loop, with the offer it makes on the socket's record |
| `OutboundDrain.ReactorSession.TryDrain` | include/aero/broker/native_broker.hpp:801-867 | the drain loop ends and computes the drain, which `DrainKeeps` ties to the socket's record |
| `OutboundDrain.ReactorSession.Enqueue` | include/aero/broker/native_broker.hpp:1837-1849 | enqueue and drain keep the stream |
| `OutboundDrain.ReactorSession.OnWritable` | include/aero/broker/native_broker.hpp:657-660 | a writable event keeps the stream |
| `Takeover.OwnedStep` | include/aero/broker/native_broker.hpp:1267-1309 | every step keeps: a named session owns its id or is kicked; owners are live and unkicked; a finished owner leaves no stored session |
| `Takeover.MovedStep` | include/aero/broker/native_broker.hpp:1287-1307 | every step keeps stored states distinct and never both stored and taken over, nor taken over twice |
| `Takeover.TakeoverSafety` | include/aero/broker/native_broker.hpp:1015-1039 | over every interleaving: non-owners are kicked, two unkicked sessions never share an id, a finished owner has no stored session, no state is restored twice |
| `Takeover.HoldsExactly` | include/aero/broker/native_broker.hpp:1287-1307 | a stored state survives a run if and only if no step of it consumes it |
| `Takeover.HandoverExactly` | include/aero/broker/native_broker.hpp:1267-1307 | a session takes over the state stored at its claim if and only if it keeps state, the state has not expired and nothing between its two blocks consumed it |
| `Takeover.LateFinishSteals` | include/aero/broker/native_broker.hpp:1287-1307 | in any state, a session whose id is claimed by another and whose second block then runs first takes the stored state |
| `Takeover.StateStolen` | include/aero/broker/native_broker.hpp:1267-1307 | from an empty broker: a run after which a kicked session holds the stored state and the id's owner, which asked to keep it, has none |
| `Takeover.SessionTables.ClaimClientId` | include/aero/broker/native_broker.hpp:1267-1285 | the first block, keeping the invariants |
| `Takeover.SessionTables.RestoreStored` | include/aero/broker/native_broker.hpp:1287-1307 | the second block, keeping the invariants |
| `Takeover.SessionTables.TeardownOwnership` | include/aero/broker/native_broker.hpp:1015-1039 | the locked part of teardown, keeping the invariants |
| `BrokerCluster.RelayRoundTrip` | include/aero/broker/broker_cluster.hpp:424-445 | a peer receives the content sent if and only if the remaining seconds fit 32 bits; otherwise only they differ, 0 for an expired message and the remainder modulo 2^32 for any other |
| `BrokerCluster.Broadcast` | include/aero/broker/broker_cluster.hpp:447-459 | one frame to every member but the sender |
| `BrokerCluster.OneFramePerPeer` | include/aero/broker/broker_cluster.hpp:410-459 | in a full cluster: none to self, exactly one to each other node even if listed twice, n - 1 in all |
| `BrokerCluster.BroadcastNeverLoops` | include/aero/broker/broker_cluster.hpp:424-459 | over every run with delay, reordering and loss: frames are exactly those of client publishes, a node handles a publish at most once with the content sent, and retains only what its own clients retained |
| `BrokerCluster.RetainedIsLatest` | include/aero/broker/native_broker.hpp:1597-1603 | a node keeps for each topic the last PUBLISH its own clients retained, unless that was empty |
| `BrokerCluster.BroadcastReachesAll` | include/aero/broker/broker_cluster.hpp:424-459 | when nothing is lost and nothing is under way every node has handled every publish |
| `BrokerCluster.StaticBrokerMembership.constructor` | include/aero/broker/broker_cluster.hpp:116-120 | the roster sorted and without repetition |
| `BrokerCluster.Node.constructor` | include/aero/broker/broker_cluster.hpp:410-414 | self and the listed peers form the roster |
| `BrokerCluster.Node.DeliverPublish` | include/aero/broker/native_broker.hpp:1595-1620 | retain, handle, broadcast |
| `BrokerCluster.Node.DeliverRemotePublish` | include/aero/broker/native_broker.hpp:302-315 | handle only; the retained store is not in its frame |
| `OutboxKeys.KeysInjective` | include/aero/mes/outbox.hpp:102-104 | a generated key determines line, kind and sequence number |
| `OutboxKeys.KeySpells` | include/aero/mes/outbox.hpp:102-104 | a generated key is the line, the word for the kind and the number in decimal without leading zeros, with colons between |
| `Outbox.EntryOf` | include/aero/mes/outbox.hpp:65-73 | the entry is the caller's report under its number with only an empty key filled in |
| `Outbox.SharedKeyExactly` | include/aero/mes/outbox.hpp:65-73 | reports under different numbers get one key if and only if the caller of one supplied the key of the other |
| `Outbox.KeyReused` | include/aero/mes/outbox.hpp:65-93 | a run from an empty outbox that sends two different reports under one key |
| `Outbox.StepSafe` | include/aero/mes/outbox.hpp:65-93 | every step between which a crash may come keeps the outbox invariant |
| `Outbox.OutboxCorrect` | include/aero/mes/outbox.hpp:58-104 | over every run with crashes anywhere: a returned report is answered or durably pending, sequence numbers are sent in non-decreasing order, one generated key means one report, different sent reports share a key if and only if the caller of one supplied the other's, and every durable number is answered or pending; and every entry sent is what its caller staged, with only an empty key filled in |
| `Outbox.OutboxActor.constructor` | include/aero/core/persistent_actor.hpp:42-56 | activation loads the last checkpoint |
| `Outbox.OutboxActor.Stage` | include/aero/mes/outbox.hpp:65-73 | the report is durable under the next number when the call returns, and the key is its own |
| `Outbox.OutboxActor.DrainFront` | include/aero/mes/outbox.hpp:83-90 | one report is sent; answered for good it is dropped durably, to be retried it stays |
| `Outbox.OutboxActor.Drain` | include/aero/mes/outbox.hpp:79-93 | pending reports are sent in order up to the first to be retried; those before it are dropped durably; the count is that of the delivered ones |
| `ModbusCrc.Crc16` | include/aero/drivers/modbus_rtu_driver.hpp:314-324 | the nested loops compute the register fold, which `RemainderIsCrc` ties to division by the generator polynomial |
| `CrcPolynomial.CrcIsRemainder` | include/aero/drivers/modbus_rtu_driver.hpp:314-324 | for every message the checksum is the remainder of x^16 times the message, its first 16 bits inverted, modulo x^16 + x^15 + x^2 + 1 over the two-element field, bits taken lowest first |
| `CrcPolynomial.RemainderUnique` | include/aero/drivers/modbus_rtu_driver.hpp:314-324 | a polynomial has only one remainder |
| `CrcPolynomial.RemainderIsCrc` | include/aero/drivers/modbus_rtu_driver.hpp:314-324 | a word is the checksum of a message if and only if it is that remainder |
| `CrcPolynomial.SameCrcExactly` | include/aero/drivers/modbus_rtu_driver.hpp:314-324 | two messages have one checksum if and only if their polynomials differ by a multiple of the generator |
| `CrcPolynomial.CheckValue` | include/aero/drivers/modbus_rtu_driver.hpp:314-324 | the checksum of the characters 1 to 9 is 0x4B37, the published check value of CRC-16/MODBUS |
| `ModbusCrc.AdjacentErrorsChangeCrc` | include/aero/drivers/modbus_rtu_driver.hpp:314-324 | strings of one length that differ only within two adjacent bytes have different checksums, at every length |
| `ModbusCrc.AcceptsIffZero` | include/aero/drivers/modbus_rtu_driver.hpp:411-419 | the frame check holds if and only if the checksum of the whole frame is zero |
| `ModbusCrc.SealedFrameAccepted` | include/aero/drivers/modbus_rtu_driver.hpp:355-357 | a body followed by its checksum, low byte first, is accepted and has checksum zero |
| `ModbusCrc.AdjacentErrorsRejected` | include/aero/drivers/modbus_rtu_driver.hpp:411-419 | no accepted frame becomes another accepted one by changes within two adjacent bytes |
| `ModbusCrc.BuildReadRequest` | include/aero/drivers/modbus_rtu_driver.hpp:350-357 | the read request is laid out as required and accepted |
| `ModbusCrc.CheckResponse` | include/aero/drivers/modbus_rtu_driver.hpp:411-419 | a response is taken if and only if its last two bytes are its checksum |

## Left out

- Sockets, epoll, TLS, serial ports and dynamic loading: foreign calls; a send is an outcome given from outside.
- The MQTT packet and property codec, the Quark engine, its store and its placement: only what the call sites use.
- OPC-UA drivers, RabbitMQ and HTTP sinks, the REST API, the command line: thin wrappers over libraries.
- Modbus transactions beyond the checksum: branch-by-branch status handling.
- OTA and fleet updates: straight-line code with easier facts.
- Floating-point rounding and the math library: expressions hold for every arithmetic; trip counts are over reals.
- Numeral text: the two conversions are arbitrary functions, assumed lossless where a round trip needs it; which numerals `Number` and `std::stod` treat differently is not modelled.
- Non-ASCII text: characters are compared one by one as both parsers do for ASCII.
- The six precedence levels are one method with a level argument, since the code repeats one loop six times.
- Synthesised node ids: ids are taken as given; where array order implies edges they are a parameter.
- static_tag_write and node behaviour other than switch and loop nodes: which tag a node is known to write, and what it does, are parameters.
- Node configuration checks and unknown types in compile_flow: the nodes and what the registry says of their types are parameters.
- Shared-subscription arbitration: which member of a group is served; the candidates are modelled.
- Offline queues, retained replay, wills, access control and QoS acknowledgements.
- Routing reads the index and each candidate's filters under separate locks; a publish is taken as one step.
- Cross-thread timing of the reactor's posts: only the flag is modelled, and a session is not followed past a hard error.
- Sequence numbers are unbounded; 64-bit overflow is not modelled. One outbox activation runs at a time and checkpoints succeed, so fencing is not modelled.
- EndlessLoops.EndsExactlyWhenSafe: not stated where the jump leaves a node other than a loop_back, a loop_back before its target can decide with a budget of two and a labelled one behind the target can too; there Tame suffices (FlowTermination.RunEnds) and Safe is necessary (EndlessLoops.SafeIsNeeded), because which is exact depends on where switches can stand and what they read.
- LoopBody.Detach and LoopBody.Attach: for graphs with at most one back edge, the one loop per flow the compiler accepts; with two loops sharing a start the source reads past a member list.
- Studio components, layout, other block editing, and the switch cavity editor.
