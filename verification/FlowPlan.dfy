/** From an ordered graph to a running plan: `CompiledPlan::wire`, `validate_tag_writers` and the order of checks
    in `compile_flow` (include/aero/runtime/flow_compiler.hpp), and what they guarantee at run time. */
module FlowPlan {
  import opened Wrappers
  import opened Sequences
  import opened FlowGraph
  import FlowCompiler
  import opened FlowExecutor
  import opened FlowTermination
  import opened EndlessLoops
  import opened SwitchBranches

  // ----- wiring -----

  ghost predicate IsOrder(order: seq<nat>, n: nat) {
    |order| == n && Distinct(order) && forall k :: 0 <= k < n ==> order[k] < n
  }

  /** The step at which node `v` runs. */
  ghost predicate RunsAt(order: seq<nat>, v: nat, k: nat) {
    k < |order| && order[k] == v
  }

  /** The plan runs the nodes in order, each with its label; only the loop's source jumps, and it jumps to the
      step of the loop's target. */
  ghost predicate Wires(
    plan: Plan, nodes: seq<FlowExecutor.Node>, order: seq<nat>, labels: seq<string>, loopEdge: Option<(nat, nat)>)
    requires IsOrder(order, |nodes|) && |labels| == |nodes|
  {
    && |plan| == |nodes|
    && forall k :: 0 <= k < |plan| ==>
         && plan[k].node == nodes[order[k]] && plan[k].branch == labels[order[k]]
         && (plan[k].jump.Some? <==> loopEdge.Some? && loopEdge.value.0 == order[k])
         && (plan[k].jump.Some? ==> RunsAt(order, loopEdge.value.1, plan[k].jump.value))
  }

  /** `wire`, for a non-empty order. */
  method Wire(nodes: seq<FlowExecutor.Node>, order: seq<nat>, labels: seq<string>, loopEdge: Option<(nat, nat)>)
    returns (plan: Plan)
    requires IsOrder(order, |nodes|) && |labels| == |nodes|
    requires loopEdge.Some? ==> loopEdge.value.1 in order
    ensures Wires(plan, nodes, order, labels, loopEdge)
  {
    var positionOf := seq(|nodes|, _ => 0);
    for k := 0 to |order|
      invariant |positionOf| == |nodes|
      invariant forall m :: 0 <= m < k ==> positionOf[order[m]] == m
    {
      positionOf := positionOf[order[k] := k];
    }
    plan := [];
    for k := 0 to |order|
      invariant |plan| == k
      invariant forall m :: 0 <= m < k ==>
                  && plan[m].node == nodes[order[m]] && plan[m].branch == labels[order[m]]
                  && (plan[m].jump.Some? <==> loopEdge.Some? && loopEdge.value.0 == order[m])
                  && (plan[m].jump.Some? ==> RunsAt(order, loopEdge.value.1, plan[m].jump.value))
    {
      var idx := order[k];
      var jump := None;
      if loopEdge.Some? && loopEdge.value.0 == idx {
        jump := Some(positionOf[loopEdge.value.1]);
        assert RunsAt(order, loopEdge.value.1, jump.value) by {
          var m :| 0 <= m < |order| && order[m] == loopEdge.value.1;
        }
      }
      plan := plan + [Step(nodes[idx], labels[idx], jump)];
    }
  }

  // ----- tag writers -----

  /** The two nodes are the "true" and the "false" side of the switch. */
  predicate Exclusive(labels: seq<string>, a: nat, b: nat)
    requires a < |labels| && b < |labels|
  {
    labels[a] != "" && labels[b] != "" && labels[a] != labels[b]
  }

  /** Two different nodes write one tag although both may run. */
  ghost predicate Collide(writes: seq<Option<string>>, labels: seq<string>, a: nat, b: nat)
    requires |writes| == |labels|
  {
    a < b < |writes| && writes[a].Some? && writes[a] == writes[b] && !Exclusive(labels, a, b)
  }

  ghost predicate Writers(writes: seq<Option<string>>, upTo: nat, tag: string, ws: seq<nat>)
    requires upTo <= |writes|
  {
    && (forall k :: 0 <= k < |ws| ==> ws[k] < upTo && writes[ws[k]] == Some(tag))
    && (forall j, k :: 0 <= j < k < |ws| ==> ws[j] < ws[k])
  }

  ghost predicate Listed(groups: map<string, seq<nat>>, write: Option<string>, i: nat) {
    write.Some? ==> write.value in groups && i in groups[write.value]
  }

  /** The writers of each tag, in flow order. */
  ghost predicate Grouped(writes: seq<Option<string>>, upTo: nat, groups: map<string, seq<nat>>)
    requires upTo <= |writes|
  {
    && (forall tag :: tag in groups ==> Writers(writes, upTo, tag, groups[tag]))
    && (forall i :: 0 <= i < upTo ==> Listed(groups, writes[i], i))
  }

  method GroupWriters(writes: seq<Option<string>>) returns (groups: map<string, seq<nat>>)
    ensures Grouped(writes, |writes|, groups)
  {
    groups := map[];
    for i := 0 to |writes|
      invariant Grouped(writes, i, groups)
    {
      hide Grouped;
      GroupedNext(writes, i, groups);
      if writes[i].None? { continue; }
      var tag := writes[i].value;
      groups := groups[tag := (if tag in groups then groups[tag] else []) + [i]];
    }
  }

  lemma {:induction false} GroupedNext(writes: seq<Option<string>>, i: nat, groups: map<string, seq<nat>>)
    requires i < |writes| && Grouped(writes, i, groups)
    ensures writes[i].None? ==> Grouped(writes, i + 1, groups)
    ensures writes[i].Some? ==>
              var tag := writes[i].value;
              Grouped(writes, i + 1, groups[tag := (if tag in groups then groups[tag] else []) + [i]])
  {
    hide Writers, Listed;
    var none: seq<nat> := [];
    if writes[i].Some? {
      var tag := writes[i].value;
      var before := if tag in groups then groups[tag] else none;
      var groups' := groups[tag := before + [i]];
      NoWriters(writes, i, tag);
      forall t | t in groups' ensures Writers(writes, i + 1, t, groups'[t]) {
        WritersNext(writes, i, t, if t in groups then groups[t] else none);
      }
      forall k | 0 <= k < i + 1 ensures Listed(groups', writes[k], k) {
        ListedNext(groups, writes[k], k, tag, before, i);
      }
    } else {
      forall t | t in groups ensures Writers(writes, i + 1, t, groups[t]) {
        WritersNext(writes, i, t, groups[t]);
      }
      NoneListed(groups, i);
    }
  }

  lemma {:induction false} NoWriters(writes: seq<Option<string>>, upTo: nat, tag: string)
    requires upTo <= |writes|
    ensures Writers(writes, upTo, tag, [])
  {
  }

  lemma {:induction false} NoneListed(groups: map<string, seq<nat>>, i: nat)
    ensures Listed(groups, None, i)
  {
  }

  lemma {:induction false} WritersNext(writes: seq<Option<string>>, i: nat, tag: string, ws: seq<nat>)
    requires i < |writes| && Writers(writes, i, tag, ws)
    ensures Writers(writes, i + 1, tag, ws)
    ensures writes[i] == Some(tag) ==> Writers(writes, i + 1, tag, ws + [i])
  {
  }

  lemma {:induction false} ListedNext(
    groups: map<string, seq<nat>>, write: Option<string>, k: nat, tag: string, before: seq<nat>, i: nat)
    requires before == (if tag in groups then groups[tag] else [])
    requires if k == i then write == Some(tag) else Listed(groups, write, k)
    ensures Listed(groups[tag := before + [i]], write, k)
  {
    assert (before + [i])[|before|] == i;
  }

  ghost predicate AllExclusive(labels: seq<string>, ws: seq<nat>)
    requires forall k :: 0 <= k < |ws| ==> ws[k] < |labels|
  {
    forall x, y :: 0 <= x < y < |ws| ==> Exclusive(labels, ws[x], ws[y])
  }

  /** The nested comparison of one tag's writers. */
  method CheckGroup(labels: seq<string>, ws: seq<nat>) returns (ok: bool)
    requires forall k :: 0 <= k < |ws| ==> ws[k] < |labels|
    ensures ok <==> AllExclusive(labels, ws)
  {
    for a := 0 to |ws|
      invariant forall x, y :: 0 <= x < a && x < y < |ws| ==> Exclusive(labels, ws[x], ws[y])
    {
      for b := a + 1 to |ws|
        invariant forall y :: a < y < b ==> Exclusive(labels, ws[a], ws[y])
      {
        if !Exclusive(labels, ws[a], ws[b]) { return false; }
      }
    }
    ok := true;
  }

  ghost predicate NoCollision(writes: seq<Option<string>>, labels: seq<string>)
    requires |writes| == |labels|
  {
    forall a: nat, b: nat :: !Collide(writes, labels, a, b)
  }

  /** `validate_tag_writers`; `writes[i]` is the tag node `i` is statically known to write. */
  method ValidateTagWriters(writes: seq<Option<string>>, labels: seq<string>) returns (ok: bool)
    requires |writes| == |labels|
    ensures ok <==> NoCollision(writes, labels)
  {
    var groups := GroupWriters(writes);
    var todo := groups.Keys;
    while todo != {}
      invariant todo <= groups.Keys
      invariant forall tag :: tag in groups && tag !in todo ==> AllExclusive(labels, groups[tag])
    {
      var tag :| tag in todo;
      var good := CheckGroup(labels, groups[tag]);
      if !good {
        GroupCollides(writes, labels, groups, tag);
        return false;
      }
      todo := todo - {tag};
    }
    forall a: nat, b: nat ensures !Collide(writes, labels, a, b) {
      if Collide(writes, labels, a, b) { GroupMembers(writes, groups, writes[a].value, a, b); }
    }
    ok := true;
  }

  lemma {:induction false} GroupCollides(
    writes: seq<Option<string>>, labels: seq<string>, groups: map<string, seq<nat>>, tag: string)
    requires |writes| == |labels| && Grouped(writes, |writes|, groups) && tag in groups
    requires Writers(writes, |writes|, tag, groups[tag]) && !AllExclusive(labels, groups[tag])
    ensures !NoCollision(writes, labels)
  {
    var ws := groups[tag];
    var a, b :| 0 <= a < b < |ws| && !Exclusive(labels, ws[a], ws[b]);
    assert Collide(writes, labels, ws[a], ws[b]);
  }

  lemma {:induction false} GroupMembers(
    writes: seq<Option<string>>, groups: map<string, seq<nat>>, tag: string, a: nat, b: nat)
    requires Grouped(writes, |writes|, groups) && a < b < |writes| && writes[a] == writes[b] == Some(tag)
    ensures tag in groups && exists x, y :: 0 <= x < y < |groups[tag]| && groups[tag][x] == a && groups[tag][y] == b
  {
    var ws := groups[tag];
    assert a in ws && b in ws;
    var x :| 0 <= x < |ws| && ws[x] == a;
    var y :| 0 <= y < |ws| && ws[y] == b;
    Increasing(ws, y, x);
  }

  lemma {:induction false} Increasing(ws: seq<nat>, y: nat, x: nat)
    requires forall j, k :: 0 <= j < k < |ws| ==> ws[j] < ws[k]
    requires x < |ws| && y < |ws| && ws[x] < ws[y]
    ensures x < y
  {
  }

  // ----- the shape of a flow -----

  /** What the node registry says of a type. */
  datatype Types = Types(isSource: string -> bool, isOutput: string -> bool, isTerminal: string -> bool)

  ghost predicate Has(app: App, kind: string -> bool) {
    exists i :: 0 <= i < |app.flow| && kind(app.flow[i].typeId)
  }

  /** Nothing follows a terminal node: in array order it is the last, in a graph no edge leaves it. */
  ghost predicate TerminalsLast(app: App, isTerminal: string -> bool) {
    if app.edges == [] then forall i :: 0 <= i < |app.flow| - 1 ==> !isTerminal(app.flow[i].typeId)
    else forall e, i: nat :: e in app.edges && IsFirst(app.flow, i) && app.flow[i].id == e.from ==>
           !isTerminal(app.flow[i].typeId)
  }

  /** Data enters, egress is staged, and terminal nodes end the flow. */
  ghost predicate WellShaped(app: App, types: Types) {
    Has(app, types.isSource) && Has(app, types.isOutput) && TerminalsLast(app, types.isTerminal)
  }

  method HasKind(app: App, kind: string -> bool) returns (found: bool)
    ensures found <==> Has(app, kind)
  {
    found := false;
    for i := 0 to |app.flow|
      invariant found <==> exists k :: 0 <= k < i && kind(app.flow[k].typeId)
    {
      if kind(app.flow[i].typeId) { found := true; }
    }
  }

  /** `emplace` keeps the first node of each id. */
  method FirstIndices(app: App) returns (index: map<Id, nat>)
    ensures forall id :: id in index ==> IsFirst(app.flow, index[id]) && app.flow[index[id]].id == id
    ensures forall i :: 0 <= i < |app.flow| ==> app.flow[i].id in index
  {
    index := map[];
    for i := 0 to |app.flow|
      invariant forall id :: id in index ==>
                  index[id] < i && IsFirst(app.flow, index[id]) && app.flow[index[id]].id == id
      invariant forall k :: 0 <= k < i ==> app.flow[k].id in index
    {
      if app.flow[i].id !in index { index := index[app.flow[i].id := i]; }
    }
  }

  /** `validate_terminal_placement` */
  method ValidateTerminalPlacement(app: App, isTerminal: string -> bool) returns (ok: bool)
    ensures ok <==> TerminalsLast(app, isTerminal)
  {
    if app.edges == [] {
      var i := 0;
      while i + 1 < |app.flow|
        invariant forall k :: 0 <= k < i && k < |app.flow| - 1 ==> !isTerminal(app.flow[k].typeId)
      {
        if isTerminal(app.flow[i].typeId) { return false; }
        i := i + 1;
      }
      return true;
    }
    var index := FirstIndices(app);
    for k := 0 to |app.edges|
      invariant forall m, i: nat :: 0 <= m < k && IsFirst(app.flow, i) && app.flow[i].id == app.edges[m].from ==>
                  !isTerminal(app.flow[i].typeId)
    {
      var e := app.edges[k];
      if e.from !in index { continue; }
      if isTerminal(app.flow[index[e.from]].typeId) {
        assert e in app.edges;
        return false;
      }
      forall i: nat | IsFirst(app.flow, i) && app.flow[i].id == e.from ensures i == index[e.from] {
        OneFirst(app.flow, i, index[e.from]);
      }
    }
    ok := true;
  }

  lemma {:induction false} OneFirst(flow: seq<FlowGraph.Node>, i: nat, k: nat)
    requires IsFirst(flow, i) && IsFirst(flow, k) && flow[i].id == flow[k].id
    ensures i == k
  {
  }

  // ----- compile_flow -----

  /** An order of the graph lists every node's index once. */
  lemma {:induction false} OrderIsComplete(
    app: App, isSource: string -> bool, order: seq<nat>, loopEdge: Option<(nat, nat)>)
    requires Distinct(Ids(app)) && FlowCompiler.IsOrderOf(app, isSource, order, loopEdge)
    ensures IsOrder(order, |app.flow|)
    ensures forall v :: 0 <= v < |app.flow| ==> v in order
  {
    hide Forward, Reachable, IsTopological, IsRoot;
    var ids := Ids(app);
    var names := FlowCompiler.Names(ids, order);
    Pigeonhole(names, Elems(ids));
    ElemsSize(ids);
    Pigeonhole(ids, Elems(names));
    ElemsSize(names);
    forall i, j | 0 <= i < j < |order| ensures order[i] != order[j] {
      assert names[i] != names[j];
    }
    forall v | 0 <= v < |app.flow| ensures v in order {
      assert ids[v] in Elems(names);
      var k :| 0 <= k < |names| && names[k] == ids[v];
      assert order[k] == v;
    }
  }

  predicate Unlooped(nodes: seq<FlowExecutor.Node>) {
    forall i :: 0 <= i < |nodes| ==> !nodes[i].LoopStart? && !nodes[i].LoopBack?
  }

  /** The plan runs the nodes as listed, all of them unconditional. */
  ghost predicate Linear(plan: Plan, nodes: seq<FlowExecutor.Node>) {
    && |plan| == |nodes|
    && forall k :: 0 <= k < |plan| ==> plan[k] == Step(nodes[k], "", None)
  }

  /** A graph compiles exactly if it is well-shaped, its ids are distinct, it is schedulable, and no two nodes that may
      both run write one tag; `labels` are those of the edges into each node whether it compiles or not. */
  ghost predicate GraphCompiled(
    app: App, types: Types, nodes: seq<FlowExecutor.Node>, writes: seq<Option<string>>,
    plan: Option<Plan>, order: seq<nat>, labels: seq<string>, loopEdge: Option<(nat, nat)>)
    requires |nodes| == |writes| == |labels|
  {
    var deployable := WellShaped(app, types) && Distinct(Ids(app)) && Schedulable(app, types.isSource);
    && (plan.Some? <==> deployable && NoCollision(writes, labels))
    && (deployable ==> FlowCompiler.LabelledBy(Ids(app), Forward(app.edges), labels))
    && (plan.Some? ==>
          && FlowCompiler.IsOrderOf(app, types.isSource, order, loopEdge)
          && IsOrder(order, |nodes|) && Wires(plan.value, nodes, order, labels, loopEdge))
  }

  /** `compile_flow` once the nodes have been made: the flow is well-shaped; in array order it has no loop nodes and no
      two writers of one tag; a graph is ordered, its writers compared under their labels, and then wired. */
  method CompileFlow(app: App, types: Types, nodes: seq<FlowExecutor.Node>, writes: seq<Option<string>>)
    returns (plan: Option<Plan>, order: seq<nat>, labels: seq<string>, loopEdge: Option<(nat, nat)>)
    requires |nodes| == |writes| == |app.flow|
    ensures |labels| == |nodes|
    ensures app.edges == [] ==>
              && (plan.Some? <==> WellShaped(app, types) && Unlooped(nodes) && NoCollision(writes, labels))
              && (forall k :: 0 <= k < |labels| ==> labels[k] == "")
              && (plan.Some? ==> Linear(plan.value, nodes))
    ensures app.edges != [] ==> GraphCompiled(app, types, nodes, writes, plan, order, labels, loopEdge)
  {
    hide Forward, Schedulable, NoCollision, FlowCompiler.IsOrderOf, FlowCompiler.LabelledBy, TerminalsLast, Has;
    plan, order, labels, loopEdge := None, [], seq(|nodes|, _ => ""), None;
    var entered := HasKind(app, types.isSource);
    if !entered { return; }
    var staged := HasKind(app, types.isOutput);
    if !staged { return; }
    var placed := ValidateTerminalPlacement(app, types.isTerminal);
    if !placed { return; }
    if app.edges == [] {
      if !Unlooped(nodes) { return; }
      var ok := ValidateTagWriters(writes, labels);
      if ok {
        plan := Some(seq(|nodes|, k requires 0 <= k < |nodes| => Step(nodes[k], "", None)));
      }
    } else {
      var g := FlowCompiler.OrderFlowGraph(app, types.isSource);
      if g.Failure? { return; }
      order, loopEdge := g.value.order, g.value.loopEdge;
      LabelCount(app, g.value.labels);
      labels := g.value.labels;
      var ok := ValidateTagWriters(writes, labels);
      if ok {
        OrderIsComplete(app, types.isSource, order, loopEdge);
        LoopInRange(app, types.isSource, order, loopEdge);
        var p := Wire(nodes, order, labels, loopEdge);
        plan := Some(p);
      }
    }
  }

  lemma {:induction false} LabelCount(app: App, labels: seq<string>)
    requires FlowCompiler.LabelledBy(Ids(app), Forward(app.edges), labels)
    ensures |labels| == |app.flow|
  {
    hide Forward;
  }

  lemma {:induction false} LoopInRange(
    app: App, isSource: string -> bool, order: seq<nat>, loopEdge: Option<(nat, nat)>)
    requires FlowCompiler.IsOrderOf(app, isSource, order, loopEdge)
    ensures loopEdge.Some? ==> loopEdge.value.0 < |app.flow| && loopEdge.value.1 < |app.flow|
  {
    hide Forward, Reachable, IsTopological, IsRoot;
  }

  // ----- at most one writer of a tag runs -----

  /** In any run of an accepted flow that takes no jump back, two nodes that run and are statically known to write one
      tag stand at interfering steps. With at most one switch there are none. */
  lemma {:induction false} OneWriterPerTag(
    plan: Plan, nodes: seq<FlowExecutor.Node>, order: seq<nat>, labels: seq<string>, loopEdge: Option<(nat, nat)>,
    writes: seq<Option<string>>, clock: nat -> int, ctx: Ctx, k: nat, x: nat, y: nat)
    requires IsOrder(order, |nodes|) && |labels| == |nodes| == |writes|
    requires Wires(plan, nodes, order, labels, loopEdge) && NoCollision(writes, labels)
    requires ctx.activeBranch == "" && Straight(Run(plan, clock, Begin(ctx), k).trace)
    requires x < y < |Run(plan, clock, Begin(ctx), k).trace|
    ensures var trace := Run(plan, clock, Begin(ctx), k).trace;
            && trace[x] < |order| && trace[y] < |order|
            && (writes[order[trace[x]]].Some? && writes[order[trace[x]]] == writes[order[trace[y]]] ==>
                  Interferes(ShapeOf(plan), trace[x], trace[y]) && !SingleSwitch(ShapeOf(plan)))
  {
    hide Run, Interferes, SingleSwitch;
    BranchesApart(plan, clock, ctx, k, x, y);
    var st := Run(plan, clock, Begin(ctx), k);
    var p, q := st.trace[x], st.trace[y];
    assert p < q;
    if SingleSwitch(ShapeOf(plan)) { SingleSwitchNeverInterferes(ShapeOf(plan), p, q); }
    var a, b := order[p], order[q];
    assert a != b;
    assert !Collide(writes, labels, a, b) && !Collide(writes, labels, b, a);
  }

  // ----- a loop drawn around its body always ends -----

  /** If the jump's target lies on a forward path from loop_start to loop_back, the compiled plan runs them in
      that order, so its loop is safe. */
  lemma {:induction false} DrawnLoopIsSafe(
    app: App, isSource: string -> bool, order: seq<nat>, loopEdge: Option<(nat, nat)>,
    start: nat, s: nat, t: nat, b: nat)
    requires Distinct(Ids(app)) && FlowCompiler.IsOrderOf(app, isSource, order, loopEdge) && loopEdge.Some?
    requires EndpointsKnown(app) && start < |app.flow|
    requires start != loopEdge.value.1
    requires Reachable(Forward(app.edges), app.flow[start].id, app.flow[loopEdge.value.1].id)
    requires Reachable(Forward(app.edges), app.flow[loopEdge.value.1].id, app.flow[loopEdge.value.0].id)
    requires RunsAt(order, start, s) && RunsAt(order, loopEdge.value.1, t) && RunsAt(order, loopEdge.value.0, b)
    ensures s < t <= b
  {
    hide Forward, Reachable, Linked;
    var ids, arcs := Ids(app), Forward(app.edges);
    var names := FlowCompiler.Names(ids, order);
    forall i | 0 <= i < |arcs| ensures arcs[i].to in names {
      assert arcs[i] in arcs && arcs[i].to in Elems(names);
    }
    TopologicalIsAcyclic(names, arcs);
    ReachableClimbs(arcs, names, s, t);
    ReachableClimbs(arcs, names, t, b);
    assert s != t;
  }

  /** The flow's only loop_start is node `start`, and its loop_back is the source of the back edge. */
  ghost predicate OneLoop(nodes: seq<FlowExecutor.Node>, start: nat, back: nat) {
    && start < |nodes| && nodes[start].LoopStart? && nodes[start].maxIterations >= 1
    && back < |nodes| && nodes[back].LoopBack?
    && forall i :: 0 <= i < |nodes| && i != start ==> !nodes[i].LoopStart?
  }

  lemma {:induction false} WiredGeometry(
    plan: Plan, nodes: seq<FlowExecutor.Node>, order: seq<nat>, labels: seq<string>, loopEdge: Option<(nat, nat)>,
    start: nat, s: nat, t: nat, b: nat)
    requires IsOrder(order, |nodes|) && |labels| == |nodes| && Wires(plan, nodes, order, labels, loopEdge)
    requires loopEdge.Some? && OneLoop(nodes, start, loopEdge.value.0)
    requires RunsAt(order, start, s) && RunsAt(order, loopEdge.value.1, t) && RunsAt(order, loopEdge.value.0, b)
    ensures Geometry(plan, s, b, t, nodes[start].maxIterations)
  {
    assert plan[b].jump.Some? && RunsAt(order, loopEdge.value.1, plan[b].jump.value);
    assert plan[b].jump == Some(t);
    forall i | 0 <= i < |plan| && i != s ensures !plan[i].node.LoopStart? {
      assert order[i] != order[s];
    }
    forall i | 0 <= i < |plan| && i != b ensures plan[i].jump.None? {
      assert order[i] != order[b];
    }
  }

  /** So every run of such a deployed flow ends, after a bounded number of node calls. */
  lemma {:induction false} DrawnLoopEnds(
    app: App, isSource: string -> bool, nodes: seq<FlowExecutor.Node>, order: seq<nat>, labels: seq<string>, plan: Plan,
    loopEdge: Option<(nat, nat)>, start: nat, s: nat, t: nat, b: nat, clock: nat -> int, ctx: Ctx) returns (k: nat)
    requires |nodes| == |app.flow| == |labels| && IsOrder(order, |nodes|) && Wires(plan, nodes, order, labels, loopEdge)
    requires Distinct(Ids(app)) && FlowCompiler.IsOrderOf(app, isSource, order, loopEdge) && loopEdge.Some?
    requires EndpointsKnown(app) && OneLoop(nodes, start, loopEdge.value.0)
    requires start != loopEdge.value.1 < |app.flow|
    requires Reachable(Forward(app.edges), app.flow[start].id, app.flow[loopEdge.value.1].id)
    requires Reachable(Forward(app.edges), app.flow[loopEdge.value.1].id, app.flow[loopEdge.value.0].id)
    requires RunsAt(order, start, s) && RunsAt(order, loopEdge.value.1, t) && RunsAt(order, loopEdge.value.0, b)
    requires ctx.remaining == 0
    ensures Done(plan, Run(plan, clock, Begin(ctx), k))
    ensures s < t <= b
    ensures |Run(plan, clock, Begin(ctx), k).trace| <= |plan| + (nodes[start].maxIterations - 1) * (b - t + 1)
  {
    hide Forward, Reachable, Linked, IsTopological, FlowCompiler.IsOrderOf, Wires, OneLoop, Geometry, Run, IsOrder,
      EndpointsKnown, Distinct, RunsAt, Done;
    StartAllows(nodes, start, loopEdge.value.0);
    DrawnLoopIsSafe(app, isSource, order, loopEdge, start, s, t, b);
    WiredGeometry(plan, nodes, order, labels, loopEdge, start, s, t, b);
    k := CallBound(plan, clock, Loop(s, b, t, nodes[start].maxIterations), ctx);
  }

  lemma {:induction false} StartAllows(nodes: seq<FlowExecutor.Node>, start: nat, back: nat)
    requires OneLoop(nodes, start, back)
    ensures start < |nodes| && nodes[start].LoopStart? && nodes[start].maxIterations >= 1
  {
  }

  // ----- any accepted flow -----

  /** The loop nodes of the flow, in the order in which they run. */
  function FlowMarks(nodes: seq<FlowExecutor.Node>, order: seq<nat>, labels: seq<string>): (r: Marks)
    requires |labels| == |nodes| && forall k :: 0 <= k < |order| ==> order[k] < |nodes|
    ensures |r| == |order|
  {
    seq(|order|, k requires 0 <= k < |order| => MarkOf(Step(nodes[order[k]], labels[order[k]], None)))
  }

  /** The compiled plan has these loop nodes, and its jump goes where the loop edge goes. */
  lemma {:induction false} WiredIsPlaced(
    plan: Plan, nodes: seq<FlowExecutor.Node>, order: seq<nat>, labels: seq<string>, loopEdge: Option<(nat, nat)>,
    b: nat, t: nat)
    requires IsOrder(order, |nodes|) && |labels| == |nodes| && Wires(plan, nodes, order, labels, loopEdge)
    requires loopEdge.Some? && RunsAt(order, loopEdge.value.0, b) && RunsAt(order, loopEdge.value.1, t)
    ensures Placed(plan, FlowMarks(nodes, order, labels), b, t)
  {
    assert plan[b].jump.Some? && RunsAt(order, loopEdge.value.1, plan[b].jump.value);
    assert plan[b].jump == Some(t);
    forall i | 0 <= i < |plan| && i != b ensures plan[i].jump.None? {
      assert order[i] != order[b];
    }
    assert MarksOf(plan) == FlowMarks(nodes, order, labels);
  }

  /** So it ends without a loop edge, and with one whose placement is safe, whichever node the edge leaves. */
  lemma {:induction false} CompiledEnds(
    plan: Plan, nodes: seq<FlowExecutor.Node>, order: seq<nat>, labels: seq<string>, loopEdge: Option<(nat, nat)>,
    b: nat, t: nat, clock: nat -> int, ctx: Ctx) returns (k: nat)
    requires IsOrder(order, |nodes|) && |labels| == |nodes| && Wires(plan, nodes, order, labels, loopEdge)
    requires Rested(ctx)
    requires loopEdge.Some? ==>
               && RunsAt(order, loopEdge.value.0, b) && RunsAt(order, loopEdge.value.1, t)
               && var marks := FlowMarks(nodes, order, labels);
                  Tame(marks, b, t) || (Settled(marks, b, t) && Safe(marks, b, t))
    ensures Done(plan, Run(plan, clock, Begin(ctx), k))
  {
    hide Run, Tame, Settled, Safe, FlowMarks;
    if loopEdge.None? {
      k := RunEnds(plan, None, clock, Begin(ctx));
    } else {
      WiredIsPlaced(plan, nodes, order, labels, loopEdge, b, t);
      hide Wires;
      if Tame(MarksOf(plan), b, t) {
        k := RunEnds(plan, Some((b, t)), clock, Begin(ctx));
      } else {
        k := SafeEnds(plan, clock, b, t, ctx);
      }
    }
  }

  lemma {:induction false} ReachableClimbs(arcs: seq<Edge>, names: seq<Id>, p: nat, q: nat)
    requires Distinct(names) && p < |names| && q < |names| && Ranks(arcs, Positions(names))
    requires Reachable(arcs, names[p], names[q])
    ensures p <= q
  {
    var w :| WalkFromTo(arcs, w, names[p], names[q]);
    var rank := Positions(names);
    assert rank[names[p]] == p && rank[names[q]] == q;
    if |w| >= 2 {
      WalkClimbs(arcs, rank, w);
    } else {
      assert names[p] == names[q];
    }
  }
}
