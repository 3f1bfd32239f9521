/** Two applications that deploy accepts and that do not do what their author may expect: one whose switches cross,
    one whose loop never ends. */
module Deployments {
  import opened Wrappers
  import opened Sequences
  import opened FlowGraph
  import FlowOrdering
  import FlowCompiler
  import opened FlowExecutor
  import opened FlowTermination
  import opened EndlessLoops
  import opened SwitchBranches
  import opened TreeFlows
  import opened FlowPlan

  const SOURCE_TYPE := "aero.source.json"
  const SET_TYPE := "aero.transform.set"
  const MEAN_TYPE := "aero.transform.mean"
  const OUTPUT_TYPE := "aero.output.sum"

  /** A registry with the built-in nodes. The sum output may or may not be terminal; the others are not. */
  ghost predicate BuiltIn(types: Types) {
    && types.isSource(SOURCE_TYPE) && types.isOutput(OUTPUT_TYPE)
    && !types.isTerminal(SOURCE_TYPE) && !types.isTerminal(SET_TYPE) && !types.isTerminal(MEAN_TYPE)
    && !types.isTerminal(SWITCH_TYPE) && !types.isTerminal(LOOP_START_TYPE) && !types.isTerminal(LOOP_BACK_TYPE)
  }

  /** The nodes made for the application: switches and loop nodes exactly where it says so. */
  ghost predicate Typed(app: App, nodes: seq<FlowExecutor.Node>) {
    && |nodes| == |app.flow|
    && forall i :: 0 <= i < |nodes| ==>
         && (nodes[i].Switch? <==> app.flow[i].typeId == SWITCH_TYPE)
         && (nodes[i].LoopStart? <==> app.flow[i].typeId == LOOP_START_TYPE)
         && (nodes[i].LoopBack? <==> app.flow[i].typeId == LOOP_BACK_TYPE)
  }

  /** None of the built-in types that matters here is taken for another. */
  lemma {:induction false} TypesDiffer()
    ensures SOURCE_TYPE !in {SWITCH_TYPE, LOOP_START_TYPE, LOOP_BACK_TYPE}
    ensures SET_TYPE !in {SWITCH_TYPE, LOOP_START_TYPE, LOOP_BACK_TYPE}
    ensures MEAN_TYPE !in {SWITCH_TYPE, LOOP_START_TYPE, LOOP_BACK_TYPE}
    ensures OUTPUT_TYPE !in {SWITCH_TYPE, LOOP_START_TYPE, LOOP_BACK_TYPE}
    ensures SWITCH_TYPE != LOOP_START_TYPE && LOOP_START_TYPE != LOOP_BACK_TYPE && LOOP_BACK_TYPE != SWITCH_TYPE
  {
    assert SOURCE_TYPE[5] == 's' && SET_TYPE[5] == 't' && MEAN_TYPE[5] == 't' && OUTPUT_TYPE[5] == 'o';
    assert SWITCH_TYPE[5] == 'f' && LOOP_START_TYPE[5] == 'f' && LOOP_BACK_TYPE[5] == 'f';
    assert |SWITCH_TYPE| == 16 && |LOOP_START_TYPE| == 20 && |LOOP_BACK_TYPE| == 19;
  }

  lemma {:induction false} PortsDiffer()
    ensures "" != LOOP_BACK && "true" != LOOP_BACK && "false" != LOOP_BACK
    ensures "" != "true" && "" != "false" && "true" != "false"
  {
    assert |LOOP_BACK| == 9 && |"false"| == 5 && |"true"| == 4 && |""| == 0;
  }

  lemma {:induction false} ForwardOnly(edges: seq<Edge>)
    requires forall i :: 0 <= i < |edges| ==> edges[i].port != LOOP_BACK
    ensures Forward(edges) == edges
    decreases |edges|
  {
    hide Forward;
    if edges == [] {
      ForwardNone();
    } else {
      var n := |edges| - 1;
      ForwardOnly(edges[..n]);
      FlowCompiler.ForwardLast(edges[..n], edges[n]);
      assert edges == edges[..n] + [edges[n]];
    }
  }

  lemma {:induction false} ForwardNone()
    ensures Forward([]) == []
  {
  }

  /** Schedulable, once the drawing is known. */
  lemma {:induction false} DrawnSchedulable(app: App, d: Drawing, isSource: string -> bool)
    requires Draws(app, d) && isSource(app.flow[0].typeId) && EndpointsKnown(app) && PortsKnown(app)
    requires OneLoopEdge(app.edges) && OneBranchSource(app.edges) && LoopStartsUnlabelled(app)
    ensures Schedulable(app, isSource)
  {
    hide Forward, HasCycle, SourceRooted, LabelsAgree, Ids, IsRoot, OneLoopEdge, OneBranchSource, LoopStartsUnlabelled,
      EndpointsKnown, PortsKnown, Drawn;
    Acyclic(d);
    OneRoot(app, d, isSource);
    LabelsFit(app, d);
  }

  /** A well-shaped drawing without collisions compiles to its nodes in the order drawn. */
  lemma {:induction false} DrawnCompiles(
    app: App, d: Drawing, types: Types, nodes: seq<FlowExecutor.Node>, writes: seq<Option<string>>,
    plan: Option<Plan>, order: seq<nat>, labels: seq<string>, loopEdge: Option<(nat, nat)>)
    requires |nodes| == |writes| == |labels| == |app.flow| == |d.ids|
    requires GraphCompiled(app, types, nodes, writes, plan, order, labels, loopEdge) && Draws(app, d)
    requires WellShaped(app, types) && Schedulable(app, types.isSource) && types.isSource(app.flow[0].typeId)
    requires |d.ports| + 1 == |writes| && NoCollision(writes, [""] + d.ports)
    ensures plan.Some? && labels == [""] + d.ports && IsOrder(order, |nodes|)
    ensures FlowCompiler.IsOrderOf(app, types.isSource, order, loopEdge)
    ensures Wires(plan.value, nodes, order, labels, loopEdge) && forall k :: 0 <= k < |order| ==> order[k] == k
  {
    hide Forward, Schedulable, NoCollision, FlowCompiler.IsOrderOf, FlowCompiler.LabelledBy, WellShaped, Draws, Drawn,
      Distinct, Wires, Ids;
    DrawnIds(app, d);
    DistinctIds(d);
    Labels(d, labels);
    OrderSize(order, |nodes|);
    RunsAsDrawn(app, d, types.isSource, order, loopEdge);
  }

  lemma {:induction false} OrderSize(order: seq<nat>, n: nat)
    requires IsOrder(order, n)
    ensures |order| == n
  {
  }

  // ----- crossed switches -----

  /** A source feeds switch A. A's "true" side writes a tag, then switch B runs, then A's "false" side writes it; an
      output stands behind B. */
  function CrossedApp(ids: seq<Id>): App
    requires |ids| == 6
  {
    App([Node(ids[0], SOURCE_TYPE), Node(ids[1], "aero.flow.switch"), Node(ids[2], SET_TYPE),
         Node(ids[3], "aero.flow.switch"), Node(ids[4], SET_TYPE), Node(ids[5], OUTPUT_TYPE)], CrossedEdges(ids))
  }

  function CrossedEdges(ids: seq<Id>): seq<Edge>
    requires |ids| == 6
  {
    [Edge(ids[0], "", ids[1]), Edge(ids[1], "true", ids[2]), Edge(ids[1], "", ids[3]), Edge(ids[1], "false", ids[4]),
     Edge(ids[3], "", ids[5])]
  }

  function SetTag(tag: string, v: real): FlowExecutor.Node {
    Other((ctx: Ctx) => (Continue, Overwritten(ctx.tags, tag, v)))
  }

  function CrossedNodes(tag: string): seq<FlowExecutor.Node> {
    [IDLE, Toward("true"), SetTag(tag, 1.0), Toward("false"), SetTag(tag, 2.0), IDLE]
  }

  const CROSSED_LABELS: seq<string> := ["", "", "true", "", "false", ""]

  function CrossedPlan(tag: string): Plan {
    [Step(IDLE, "", None), Step(Toward("true"), "", None), Step(SetTag(tag, 1.0), "true", None),
     Step(Toward("false"), "", None), Step(SetTag(tag, 2.0), "false", None), Step(IDLE, "", None)]
  }

  function CrossedWrites(tag: string): seq<Option<string>> {
    [None, None, Some(tag), None, Some(tag), None]
  }

  function CrossedDrawing(ids: seq<Id>): Drawing {
    Drawing(ids, [0, 1, 1, 1, 3], ["", "true", "", "false", ""])
  }

  lemma {:induction false} CrossedArcs(ids: seq<Id>)
    requires |ids| == 6 && Distinct(ids)
    ensures Drawn(CrossedDrawing(ids)) && Arcs(CrossedDrawing(ids)) == CrossedEdges(ids)
  {
    hide Distinct;
    assert Drawn(CrossedDrawing(ids));
    var arcs, es := Arcs(CrossedDrawing(ids)), CrossedEdges(ids);
    assert arcs[0] == es[0] && arcs[1] == es[1] && arcs[2] == es[2] && arcs[3] == es[3] && arcs[4] == es[4];
  }

  lemma {:induction false} CrossedDrawn(ids: seq<Id>)
    requires |ids| == 6 && Distinct(ids)
    ensures Draws(CrossedApp(ids), CrossedDrawing(ids))
  {
    hide Forward, Distinct, Drawn, Arcs;
    CrossedArcs(ids);
    PortsDiffer();
    ForwardOnly(CrossedEdges(ids));
    assert Ids(CrossedApp(ids)) == ids;
  }

  lemma {:induction false} CrossedShaped(ids: seq<Id>, types: Types)
    requires |ids| == 6 && Distinct(ids) && BuiltIn(types)
    ensures WellShaped(CrossedApp(ids), types)
  {
    var app := CrossedApp(ids);
    assert types.isSource(app.flow[0].typeId) && types.isOutput(app.flow[5].typeId);
    forall e, i: nat | e in app.edges && IsFirst(app.flow, i) && app.flow[i].id == e.from
      ensures !types.isTerminal(app.flow[i].typeId)
    {
      assert i != 5;
    }
  }

  lemma {:induction false} CrossedEndpoints(ids: seq<Id>)
    requires |ids| == 6
    ensures EndpointsKnown(CrossedApp(ids)) && PortsKnown(CrossedApp(ids)) && OneLoopEdge(CrossedApp(ids).edges)
  {
    PortsDiffer();
    hide Forward;
    assert Ids(CrossedApp(ids)) == ids;
    assert ids[0] in ids && ids[1] in ids && ids[2] in ids && ids[3] in ids && ids[4] in ids && ids[5] in ids;
  }

  lemma {:induction false} CrossedSchedulable(ids: seq<Id>, types: Types)
    requires |ids| == 6 && Distinct(ids) && BuiltIn(types)
    ensures Schedulable(CrossedApp(ids), types.isSource)
  {
    hide Forward, Schedulable, Draws, Distinct, EndpointsKnown, PortsKnown, OneLoopEdge, Ids;
    var app := CrossedApp(ids);
    CrossedDrawn(ids);
    CrossedEndpoints(ids);
    TypesDiffer();
    assert forall i :: 0 <= i < 6 ==> app.flow[i].typeId != LOOP_START_TYPE;
    DrawnSchedulable(app, CrossedDrawing(ids), types.isSource);
  }

  lemma {:induction false} DrawnIds(app: App, d: Drawing)
    requires Draws(app, d)
    ensures Ids(app) == d.ids && Drawn(d) && Forward(app.edges) == Arcs(d)
  {
  }

  lemma {:induction false} CrossedCollides(tag: string)
    ensures NoCollision(CrossedWrites(tag), CROSSED_LABELS)
  {
    PortsDiffer();
    forall a: nat, b: nat ensures !Collide(CrossedWrites(tag), CROSSED_LABELS, a, b) {
    }
  }

  lemma {:induction false} CrossedWired(tag: string, order: seq<nat>, plan: Plan)
    requires IsOrder(order, 6) && (forall k :: 0 <= k < 6 ==> order[k] == k)
    requires Wires(plan, CrossedNodes(tag), order, CROSSED_LABELS, None)
    ensures plan == CrossedPlan(tag)
  {
    var nodes, whole := CrossedNodes(tag), CrossedPlan(tag);
    forall k | 0 <= k < 6 ensures plan[k] == whole[k] {
      assert plan[k].node == nodes[order[k]] && plan[k].branch == CROSSED_LABELS[order[k]] && plan[k].jump.None?;
    }
  }

  /** Deploy accepts the application, whatever its ids, and compiles it to this plan. */
  method DeployCrossed(ids: seq<Id>, types: Types, tag: string) returns (plan: Option<Plan>)
    requires |ids| == 6 && Distinct(ids) && BuiltIn(types)
    ensures plan == Some(CrossedPlan(tag)) && Typed(CrossedApp(ids), CrossedNodes(tag))
  {
    hide GraphCompiled, Schedulable, NoCollision, FlowCompiler.IsOrderOf, WellShaped, Draws, Distinct, Wires, IsOrder;
    var app := CrossedApp(ids);
    var order, labels, loopEdge;
    plan, order, labels, loopEdge := CompileFlow(app, types, CrossedNodes(tag), CrossedWrites(tag));
    CrossedDrawn(ids);
    CrossedShaped(ids, types);
    CrossedSchedulable(ids, types);
    CrossedCollides(tag);
    assert CROSSED_LABELS == [""] + CrossedDrawing(ids).ports;
    DrawnCompiles(app, CrossedDrawing(ids), types, CrossedNodes(tag), CrossedWrites(tag),
      plan, order, labels, loopEdge);
    CrossedUnlooped(ids, types, order, loopEdge);
    OrderSize(order, 6);
    CrossedWired(tag, order, plan.value);
    CrossedTyped(ids, tag);
  }

  lemma {:induction false} CrossedTyped(ids: seq<Id>, tag: string)
    requires |ids| == 6
    ensures Typed(CrossedApp(ids), CrossedNodes(tag))
  {
    TypesDiffer();
  }

  lemma {:induction false} CrossedUnlooped(ids: seq<Id>, types: Types, order: seq<nat>, loopEdge: Option<(nat, nat)>)
    requires |ids| == 6 && FlowCompiler.IsOrderOf(CrossedApp(ids), types.isSource, order, loopEdge)
    ensures loopEdge == None
  {
    hide Forward, IsRoot, Reachable, IsTopological, FlowOrdering.InQueueOrder;
    PortsDiffer();
  }

  /** Both writers run in one pass, although their labels are exclusive, and the second overwrites the first. */
  lemma {:induction false} CrossedWritesTwice(tag: string, clock: nat -> int, ctx: Ctx)
    ensures var plan := CrossedPlan(tag);
            var st := Run(plan, clock, Begin(ctx), 6);
            && st.trace == [0, 1, 2, 3, 4, 5] && !st.halted && Lookup(st.ctx.tags, tag) == 2.0
            && Exclusive(CROSSED_LABELS, 2, 4)
            && CrossedWrites(tag)[2] == CrossedWrites(tag)[4] == Some(tag)
            && Interferes(ShapeOf(plan), 2, 4)
  {
    hide Run, Lookup;
    CrossedRun(tag, clock, ctx, Begin(ctx), 0);
    PortsDiffer();
    CrossedShape(tag);
  }

  /** Where the run of the crossed plan stands after `k` rounds. */
  ghost predicate CrossedAt(tag: string, ctx: Ctx, st: State, k: nat) {
    && st.i == k <= 6 && !st.halted && st.trace == [0, 1, 2, 3, 4, 5][..k]
    && st.ctx.activeBranch == (if k < 2 then ctx.activeBranch else if k < 4 then "true" else "false")
    && (k >= 5 ==> Lookup(st.ctx.tags, tag) == 2.0)
  }

  lemma {:induction false} CrossedRound(tag: string, clock: nat -> int, ctx: Ctx, st: State, k: nat)
    requires k < 6 && CrossedAt(tag, ctx, st, k)
    ensures CrossedAt(tag, ctx, Round(CrossedPlan(tag), clock, st), k + 1)
  {
    hide Lookup, Overwritten;
    assert [0, 1, 2, 3, 4, 5][..k + 1] == [0, 1, 2, 3, 4, 5][..k] + [k];
    LookupOverwritten(st.ctx.tags, tag, 2.0);
  }

  lemma {:induction false} CrossedRun(tag: string, clock: nat -> int, ctx: Ctx, st: State, k: nat)
    requires CrossedAt(tag, ctx, st, k)
    ensures CrossedAt(tag, ctx, Run(CrossedPlan(tag), clock, st, 6 - k), 6)
    decreases 6 - k
  {
    hide Round, Lookup;
    if k < 6 {
      CrossedRound(tag, clock, ctx, st, k);
      CrossedRun(tag, clock, ctx, Round(CrossedPlan(tag), clock, st), k + 1);
    }
  }

  lemma {:induction false} CrossedShape(tag: string)
    ensures Interferes(ShapeOf(CrossedPlan(tag)), 2, 4)
  {
    var shape := ShapeOf(CrossedPlan(tag));
    assert shape[1] == Spot(true, "") && shape[3] == Spot(true, "");
    assert shape[2].branch == "true" && shape[4].branch == "false";
  }

  // ----- an endless loop -----

  /** A source, a loop_start, a loop_back, another node and an output in a row; the loop edge leads from node `from`
      back to the loop_start. */
  function EndlessApp(ids: seq<Id>, from: nat): App
    requires |ids| == 5 && from < 5
  {
    App([Node(ids[0], SOURCE_TYPE), Node(ids[1], "aero.flow.loop_start"), Node(ids[2], "aero.flow.loop_back"),
         Node(ids[3], MEAN_TYPE), Node(ids[4], OUTPUT_TYPE)],
        EndlessArcs(ids) + [Edge(ids[from], "loop_back", ids[1])])
  }

  function EndlessArcs(ids: seq<Id>): seq<Edge>
    requires |ids| == 5
  {
    [Edge(ids[0], "", ids[1]), Edge(ids[1], "", ids[2]), Edge(ids[2], "", ids[3]), Edge(ids[3], "", ids[4])]
  }

  function EndlessNodes(m: nat): seq<FlowExecutor.Node> {
    [IDLE, Starter(m), INSATIABLE, IDLE, IDLE]
  }

  /** Its loop_start allows `m` passes. */
  function EndlessMarks(m: nat): Marks {
    [Plain, Start(m, true), Back(true), Plain, Plain]
  }

  function EndlessDrawing(ids: seq<Id>): Drawing {
    Drawing(ids, [0, 1, 2, 3], ["", "", "", ""])
  }

  lemma {:induction false} EndlessDrawingArcs(ids: seq<Id>)
    requires |ids| == 5 && Distinct(ids)
    ensures Drawn(EndlessDrawing(ids)) && Arcs(EndlessDrawing(ids)) == EndlessArcs(ids)
  {
    hide Distinct;
    assert Drawn(EndlessDrawing(ids));
    var arcs, es := Arcs(EndlessDrawing(ids)), EndlessArcs(ids);
    assert arcs[0] == es[0] && arcs[1] == es[1] && arcs[2] == es[2] && arcs[3] == es[3];
  }

  lemma {:induction false} EndlessForward(ids: seq<Id>, from: nat)
    requires |ids| == 5 && from < 5
    ensures Forward(EndlessApp(ids, from).edges) == EndlessArcs(ids)
  {
    hide Forward;
    PortsDiffer();
    ForwardOnly(EndlessArcs(ids));
    FlowCompiler.ForwardLast(EndlessArcs(ids), Edge(ids[from], LOOP_BACK, ids[1]));
  }

  lemma {:induction false} EndlessDrawn(ids: seq<Id>, from: nat)
    requires |ids| == 5 && Distinct(ids) && from < 5
    ensures Draws(EndlessApp(ids, from), EndlessDrawing(ids))
  {
    hide Forward, Distinct, Drawn, Arcs, EndlessArcs;
    EndlessDrawingArcs(ids);
    EndlessForward(ids, from);
    assert Ids(EndlessApp(ids, from)) == ids;
  }

  lemma {:induction false} EndlessShaped(ids: seq<Id>, from: nat, types: Types)
    requires |ids| == 5 && Distinct(ids) && from < 4 && BuiltIn(types)
    ensures WellShaped(EndlessApp(ids, from), types)
  {
    var app := EndlessApp(ids, from);
    assert types.isSource(app.flow[0].typeId) && types.isOutput(app.flow[4].typeId);
    forall e, i: nat | e in app.edges && IsFirst(app.flow, i) && app.flow[i].id == e.from
      ensures !types.isTerminal(app.flow[i].typeId)
    {
      assert i != 4;
    }
  }

  lemma {:induction false} EndlessEdges(ids: seq<Id>, from: nat)
    requires |ids| == 5 && Distinct(ids) && from < 5
    ensures EndpointsKnown(EndlessApp(ids, from)) && PortsKnown(EndlessApp(ids, from))
    ensures OneLoopEdge(EndlessApp(ids, from).edges)
  {
    hide Distinct;
    PortsDiffer();
    assert Ids(EndlessApp(ids, from)) == ids;
    assert ids[0] in ids && ids[1] in ids && ids[2] in ids && ids[3] in ids && ids[4] in ids;
  }

  lemma {:induction false} EndlessSchedulable(ids: seq<Id>, from: nat, types: Types)
    requires |ids| == 5 && Distinct(ids) && from < 5 && BuiltIn(types)
    ensures Schedulable(EndlessApp(ids, from), types.isSource)
  {
    hide Forward, Schedulable, Draws, Distinct, EndpointsKnown, PortsKnown, OneLoopEdge, Ids;
    var app, d := EndlessApp(ids, from), EndlessDrawing(ids);
    EndlessDrawn(ids, from);
    EndlessEdges(ids, from);
    DrawnIds(app, d);
    forall e | e in Arcs(d) ensures e.port == "" { var k := EnteredOnce(d, e); }
    DrawnSchedulable(app, d, types.isSource);
  }

  lemma {:induction false} EndlessLoopEdge(ids: seq<Id>, from: nat, loopEdge: Option<(nat, nat)>)
    requires |ids| == 5 && Distinct(ids) && from < 5
    requires loopEdge.None? ==> forall e :: e in EndlessApp(ids, from).edges ==> e.port != LOOP_BACK
    requires loopEdge.Some? ==>
               && loopEdge.value.0 < 5 && loopEdge.value.1 < 5
               && Edge(ids[loopEdge.value.0], LOOP_BACK, ids[loopEdge.value.1]) in EndlessApp(ids, from).edges
    ensures loopEdge == Some((from, 1))
  {
    var es := EndlessApp(ids, from).edges;
    assert es[4] in es && es[4].port == LOOP_BACK;
    PortsDiffer();
    var (a, b) := loopEdge.value;
    var e := Edge(ids[a], LOOP_BACK, ids[b]);
    var k :| 0 <= k < 5 && es[k] == e;
    assert k == 4;
  }

  lemma {:induction false} EndlessWired(m: nat, from: nat, plan: Plan)
    requires from in {2, 3} && IsOrder([0, 1, 2, 3, 4], 5)
    requires Wires(plan, EndlessNodes(m), [0, 1, 2, 3, 4], ["", "", "", "", ""], Some((from, 1)))
    ensures plan == Endless(EndlessMarks(m), from, 1, 2, 5)
  {
    var nodes, order, whole := EndlessNodes(m), [0, 1, 2, 3, 4], Endless(EndlessMarks(m), from, 1, 2, 5);
    forall k | 0 <= k < 5 ensures plan[k] == whole[k] {
      assert plan[k].node == nodes[order[k]] && plan[k].branch == "";
      assert plan[k].jump.Some? <==> k == from;
    }
  }

  lemma {:induction false} EndlessRestless(m: nat, from: nat)
    requires m >= 2 && from in {2, 3}
    ensures Restless(EndlessMarks(m), from, 1, 2) && First(EndlessMarks(m), from, 2) >= 2 && Opens(EndlessMarks(m), 5)
  {
    var marks := EndlessMarks(m);
    assert Budget(marks, from, 2, 2, m) == m;
    assert forall r :: Budget(marks, from, 1, 2, r) == m;
    assert Budget(marks, from, 0, 2, 0) == m;
  }

  /** Deploy accepts the application, whatever its ids and whether the loop edge leaves the loop_back or the node behind
      it, and compiles it to a plan that need not end. */
  method DeployEndless(ids: seq<Id>, from: nat, types: Types, m: nat) returns (plan: Option<Plan>)
    requires |ids| == 5 && Distinct(ids) && from in {2, 3} && BuiltIn(types)
    ensures plan == Some(Endless(EndlessMarks(m), from, 1, 2, 5)) && Typed(EndlessApp(ids, from), EndlessNodes(m))
    ensures m >= 2 ==> !Ends(plan.value, STILL, FRESH)
  {
    hide GraphCompiled, Schedulable, FlowCompiler.IsOrderOf, Ends, WellShaped, Restless, First, Opens, Endless,
      Draws, Distinct, Wires, IsOrder, NoCollision;
    var none: seq<Option<string>> := [None, None, None, None, None];
    var app := EndlessApp(ids, from);
    var order, labels, loopEdge;
    plan, order, labels, loopEdge := CompileFlow(app, types, EndlessNodes(m), none);
    EndlessDrawn(ids, from);
    EndlessShaped(ids, from, types);
    EndlessSchedulable(ids, from, types);
    NobodyCollides(none, [""] + EndlessDrawing(ids).ports);
    DrawnCompiles(app, EndlessDrawing(ids), types, EndlessNodes(m), none, plan, order, labels, loopEdge);
    OrderSize(order, 5);
    assert order == [0, 1, 2, 3, 4] && labels == ["", "", "", "", ""];
    EndlessLooped(ids, from, types, order, loopEdge);
    EndlessWired(m, from, plan.value);
    EndlessTyped(ids, from, m);
    if m >= 2 {
      EndlessRestless(m, from);
      NeverEnds(EndlessMarks(m), from, 1, 2, 5);
    }
  }

  lemma {:induction false} NobodyCollides(writes: seq<Option<string>>, labels: seq<string>)
    requires |writes| == |labels| && forall i :: 0 <= i < |writes| ==> writes[i].None?
    ensures NoCollision(writes, labels)
  {
  }

  lemma {:induction false} EndlessTyped(ids: seq<Id>, from: nat, m: nat)
    requires |ids| == 5 && from < 5
    ensures Typed(EndlessApp(ids, from), EndlessNodes(m))
  {
    TypesDiffer();
  }

  lemma {:induction false} EndlessLooped(
    ids: seq<Id>, from: nat, types: Types, order: seq<nat>, loopEdge: Option<(nat, nat)>)
    requires |ids| == 5 && Distinct(ids) && from < 5
    requires FlowCompiler.IsOrderOf(EndlessApp(ids, from), types.isSource, order, loopEdge)
    ensures loopEdge == Some((from, 1))
  {
    hide Forward, IsRoot, Reachable, IsTopological, FlowOrdering.InQueueOrder;
    assert Ids(EndlessApp(ids, from)) == ids;
    EndlessLoopEdge(ids, from, loopEdge);
  }
}
