/** The Studio's pre-deploy graph check: `validateGraph` of studio/src/application.ts. */
module StudioValidator {
  import opened Wrappers
  import opened Sequences
  import opened FlowGraph
  import opened FlowOrdering
  import FlowCompiler

  datatype GraphError =
    | UnknownEndpoint(id: Id)
    | SecondLoopEdge
    | ContainsCycle
    | WrongRootCount(n: nat)
    | RootNotSource(id: Id)
    | ConflictingLabels(id: Id)
    | SecondBranchSource
    | LabelledLoopStart(id: Id)

  /** Of several nodes with one id, the first. */
  function FirstNodes(flow: seq<Node>): seq<Node> {
    if flow == [] then []
    else
      var n := |flow| - 1;
      FirstNodes(flow[..n]) + (if HasId(flow[..n], flow[n].id) then [] else [flow[n]])
  }

  predicate HasId(flow: seq<Node>, id: Id) {
    exists k :: 0 <= k < |flow| && flow[k].id == id
  }

  /** The application as the Studio looks at it: a later node under the same id is never found. */
  function AsSeen(app: App): App {
    App(FirstNodes(app.flow), app.edges)
  }

  lemma {:induction false} FirstNodesKeepIds(flow: seq<Node>)
    ensures forall id :: HasId(FirstNodes(flow), id) <==> HasId(flow, id)
    ensures forall i, j :: 0 <= i < j < |FirstNodes(flow)| ==> FirstNodes(flow)[i].id != FirstNodes(flow)[j].id
    decreases |flow|
  {
    if flow != [] {
      var n := |flow| - 1;
      var before, first := flow[..n], FirstNodes(flow[..n]);
      FirstNodesKeepIds(before);
      assert FirstNodes(flow) == if HasId(before, flow[n].id) then first else first + [flow[n]];
      hide FirstNodes, HasId;
      forall id ensures HasId(FirstNodes(flow), id) <==> HasId(flow, id) {
        HasIdMore(before, flow[n], id);
        HasIdMore(first, flow[n], id);
        assert flow == before + [flow[n]];
      }
      if !HasId(before, flow[n].id) {
        forall i | 0 <= i < |first| ensures first[i].id != flow[n].id { HasOwnId(first, i); }
      }
    }
  }

  lemma {:induction false} HasOwnId(flow: seq<Node>, i: nat)
    requires i < |flow|
    ensures HasId(flow, flow[i].id)
  {
  }

  lemma {:induction false} HasIdMore(flow: seq<Node>, x: Node, id: Id)
    ensures HasId(flow + [x], id) <==> HasId(flow, id) || x.id == id
  {
    assert (flow + [x])[|flow|] == x;
    if HasId(flow, id) {
      var k :| 0 <= k < |flow| && flow[k].id == id;
      assert (flow + [x])[k] == flow[k];
    }
  }

  lemma {:induction false} FirstIsKept(flow: seq<Node>, k: nat)
    requires IsFirst(flow, k)
    ensures flow[k] in FirstNodes(flow)
    decreases |flow|
  {
    var n := |flow| - 1;
    if k < n {
      assert IsFirst(flow[..n], k);
      FirstIsKept(flow[..n], k);
    } else {
      assert !HasId(flow[..n], flow[n].id);
    }
  }

  lemma {:induction false} HasIdIds(app: App, id: Id)
    ensures HasId(app.flow, id) <==> id in Ids(app)
  {
    var ids := Ids(app);
    if HasId(app.flow, id) {
      var k :| 0 <= k < |app.flow| && app.flow[k].id == id;
      assert ids[k] == id;
    }
  }

  lemma {:induction false} SeenIds(app: App)
    ensures Distinct(Ids(AsSeen(app))) && forall id :: id in Ids(AsSeen(app)) <==> id in Ids(app)
  {
    hide Ids, FirstNodes;
    FirstNodesKeepIds(app.flow);
    forall id ensures id in Ids(AsSeen(app)) <==> id in Ids(app) {
      HasIdIds(app, id);
      HasIdIds(AsSeen(app), id);
    }
    SeenDistinct(app);
  }

  lemma {:induction false} SeenDistinct(app: App)
    requires forall i, j :: 0 <= i < j < |AsSeen(app).flow| ==> AsSeen(app).flow[i].id != AsSeen(app).flow[j].id
    ensures Distinct(Ids(AsSeen(app)))
  {
    hide FirstNodes;
  }

  /** An application with distinct ids is seen as it is. */
  lemma {:induction false} SeenWhole(app: App)
    requires Distinct(Ids(app))
    ensures AsSeen(app) == app
  {
    var ids := Ids(app);
    forall i, j | 0 <= i < j < |app.flow| ensures app.flow[i].id != app.flow[j].id { assert ids[i] != ids[j]; }
    AllFirst(app.flow);
  }

  lemma {:induction false} AllFirst(flow: seq<Node>)
    requires forall i, j :: 0 <= i < j < |flow| ==> flow[i].id != flow[j].id
    ensures FirstNodes(flow) == flow
    decreases |flow|
  {
    if flow != [] {
      AllFirst(flow[..|flow| - 1]);
      assert flow == flow[..|flow| - 1] + [flow[|flow| - 1]];
    }
  }

  /** Roots are a matter of ids and edges. */
  lemma {:induction false} SeenRoots(app: App, id: Id)
    ensures IsRoot(AsSeen(app), id) <==> IsRoot(app, id)
  {
    hide Ids, Forward, FirstNodes;
    SeenIds(app);
  }

  /** The node that `findIndex` finds is the one seen. */
  lemma {:induction false} FoundIsSeen(app: App, idx: nat) returns (k: nat)
    requires IsFirst(app.flow, idx)
    ensures k < |AsSeen(app).flow| && AsSeen(app).flow[k] == app.flow[idx]
  {
    FirstIsKept(app.flow, idx);
    k :| 0 <= k < |AsSeen(app).flow| && AsSeen(app).flow[k] == app.flow[idx];
  }

  /** Everything deploy demands except that ports are known ones. */
  ghost predicate StudioSchedulable(app: App, isSource: string -> bool) {
    && EndpointsKnown(app) && OneLoopEdge(app.edges) && OneBranchSource(app.edges)
    && SourceRooted(app, isSource) && !HasCycle(Forward(app.edges))
    && LabelsAgree(app.edges) && LoopStartsUnlabelled(app)
  }

  /** The ids in order of first occurrence (a JavaScript Set). */
  method UniqueIds(app: App) returns (ids: seq<Id>)
    ensures Distinct(ids) && Elems(ids) == Elems(Ids(app))
    ensures Distinct(Ids(app)) ==> ids == Ids(app)
  {
    ids := [];
    ghost var all := Ids(app);
    for i := 0 to |app.flow|
      invariant Distinct(ids) && Elems(ids) == Elems(all[..i])
      invariant Distinct(all) ==> ids == all[..i]
    {
      assert all[..i + 1] == all[..i] + [all[i]];
      assert app.flow[i].id == all[i];
      assert Elems(all[..i + 1]) == Elems(all[..i]) + {all[i]};
      assert Elems(ids + [all[i]]) == Elems(ids) + {all[i]};
      if app.flow[i].id !in ids {
        ids := ids + [app.flow[i].id];
      } else {
        assert all[i] in Elems(ids) && all[i] in all[..i];
      }
    }
    assert all[..|all|] == all;
  }

  method CheckEndpoints(edges: seq<Edge>, ids: seq<Id>) returns (errs: seq<GraphError>)
    ensures errs == [] <==> forall e :: e in edges ==> e.from in ids && e.to in ids
  {
    errs := [];
    for k := 0 to |edges|
      invariant errs == [] <==> forall m :: 0 <= m < k ==> edges[m].from in ids && edges[m].to in ids
    {
      if edges[k].from !in ids { errs := errs + [UnknownEndpoint(edges[k].from)]; }
      if edges[k].to !in ids { errs := errs + [UnknownEndpoint(edges[k].to)]; }
    }
  }

  /** The jumps back, in order: what `Forward` leaves out. */
  function Backward(edges: seq<Edge>): (r: seq<Edge>)
    ensures forall e :: e in r <==> e in edges && e.port == LOOP_BACK
  {
    if edges == [] then []
    else
      var n := |edges| - 1;
      Backward(edges[..n]) + (if edges[n].port == LOOP_BACK then [edges[n]] else [])
  }

  ghost predicate Split(edges: seq<Edge>, forward: seq<Edge>, loops: seq<Edge>) {
    && forward == Forward(edges) && loops == Backward(edges)
    && (|loops| == 0 <==> forall i :: 0 <= i < |edges| ==> edges[i].port != LOOP_BACK)
    && (|loops| <= 1 <==> OneLoopEdge(edges))
  }

  lemma {:induction false} BackwardLast(edges: seq<Edge>, e: Edge)
    ensures Backward(edges + [e]) == Backward(edges) + (if e.port == LOOP_BACK then [e] else [])
  {
    assert (edges + [e])[..|edges|] == edges;
  }

  lemma {:induction false} SplitLast(edges: seq<Edge>, forward: seq<Edge>, loops: seq<Edge>, e: Edge)
    requires Split(edges, forward, loops)
    ensures e.port == LOOP_BACK ==> Split(edges + [e], forward, loops + [e])
    ensures e.port != LOOP_BACK ==> Split(edges + [e], forward + [e], loops)
  {
    hide Forward, Backward, OneLoopEdge;
    FlowCompiler.ForwardLast(edges, e);
    BackwardLast(edges, e);
    OneLoopLast(edges, e);
    var es := edges + [e];
    assert forall i :: 0 <= i < |edges| ==> es[i] == edges[i];
    assert es[|edges|] == e;
  }

  /** `edges.filter(...)`, both ways. */
  method SplitEdges(edges: seq<Edge>) returns (forward: seq<Edge>, loops: seq<Edge>)
    ensures Split(edges, forward, loops)
  {
    forward, loops := [], [];
    for k := 0 to |edges|
      invariant Split(edges[..k], forward, loops)
    {
      hide Split;
      assert edges[..k + 1] == edges[..k] + [edges[k]];
      SplitLast(edges[..k], forward, loops, edges[k]);
      if edges[k].port == LOOP_BACK {
        loops := loops + [edges[k]];
      } else {
        forward := forward + [edges[k]];
      }
    }
    assert edges[..|edges|] == edges;
  }

  lemma {:induction false} OneLoopLast(edges: seq<Edge>, e: Edge)
    ensures OneLoopEdge(edges + [e]) <==>
            && OneLoopEdge(edges)
            && (e.port == LOOP_BACK ==> forall i :: 0 <= i < |edges| ==> edges[i].port != LOOP_BACK)
  {
    var es := edges + [e];
    if OneLoopEdge(es) {
      forall i, j | 0 <= i < j < |edges| ensures edges[i].port != LOOP_BACK || edges[j].port != LOOP_BACK {
        assert es[i] == edges[i] && es[j] == edges[j];
      }
      if e.port == LOOP_BACK {
        forall i | 0 <= i < |edges| ensures edges[i].port != LOOP_BACK { assert es[i] == edges[i] && es[|edges|] == e; }
      }
    }
  }

  // ----- Kahn's algorithm over maps keyed by id -----

  ghost predicate Targets(outs: seq<Id>, es: seq<Edge>) {
    |outs| == |es| && forall k :: 0 <= k < |es| ==> outs[k] == es[k].to
  }

  /** The two maps stand for the edges `arcs` over the nodes `ids`. */
  ghost predicate Adjacent(ids: set<Id>, arcs: seq<Edge>, outgoing: map<Id, seq<Id>>, indeg: map<Id, int>) {
    && outgoing.Keys == indeg.Keys == ids
    && (forall u :: u in ids ==> Targets(outgoing[u], OutOf(arcs, u)))
    && (forall v :: v in ids ==> indeg[v] == PendingIn(arcs, v, {}))
  }

  lemma {:induction false} AdjacentLast(
    ids: set<Id>, arcs: seq<Edge>, outgoing: map<Id, seq<Id>>, indeg: map<Id, int>, e: Edge)
    requires Adjacent(ids, arcs, outgoing, indeg) && e.from in ids && e.to in ids
    ensures Adjacent(ids, arcs + [e], outgoing[e.from := outgoing[e.from] + [e.to]], indeg[e.to := indeg[e.to] + 1])
  {
    hide OutOf, PendingIn;
    var outgoing' := outgoing[e.from := outgoing[e.from] + [e.to]];
    forall u | u in ids ensures Targets(outgoing'[u], OutOf(arcs + [e], u)) {
      FlowCompiler.OutOfLast(arcs, e, u);
    }
    forall v | v in ids ensures indeg[e.to := indeg[e.to] + 1][v] == PendingIn(arcs + [e], v, {}) {
      PendingLast(arcs, e, v, {});
    }
  }

  method Adjacency(ids: seq<Id>, arcs: seq<Edge>) returns (outgoing: map<Id, seq<Id>>, indeg: map<Id, int>)
    requires forall i :: 0 <= i < |arcs| ==> arcs[i].from in ids && arcs[i].to in ids
    ensures Adjacent(Elems(ids), arcs, outgoing, indeg)
  {
    outgoing, indeg := map id | id in Elems(ids) :: [], map id | id in Elems(ids) :: 0;
    for k := 0 to |arcs|
      invariant Adjacent(Elems(ids), arcs[..k], outgoing, indeg)
      invariant outgoing.Keys == indeg.Keys == Elems(ids)
    {
      hide Adjacent;
      var e := arcs[k];
      assert arcs[..k + 1] == arcs[..k] + [e];
      AdjacentLast(Elems(ids), arcs[..k], outgoing, indeg, e);
      outgoing := outgoing[e.from := outgoing[e.from] + [e.to]];
      indeg := indeg[e.to := indeg[e.to] + 1];
    }
    assert arcs[..|arcs|] == arcs;
  }

  method Roots(ids: seq<Id>, indeg: map<Id, int>) returns (roots: seq<Id>)
    requires Distinct(ids) && indeg.Keys == Elems(ids)
    ensures Distinct(roots) && forall v :: v in roots <==> v in ids && indeg[v] == 0
  {
    roots := [];
    for i := 0 to |ids|
      invariant Distinct(roots) && forall v :: v in roots <==> v in ids[..i] && indeg[v] == 0
    {
      assert ids[..i + 1] == ids[..i] + [ids[i]];
      assert ids[i] in Elems(ids) && ids[i] !in ids[..i];
      if indeg[ids[i]] == 0 { roots := roots + [ids[i]]; }
    }
    assert ids[..|ids|] == ids;
  }

  /** The inner loop: one dequeued node's targets. `done` is the processed prefix, `queue` the rest. */
  method RelaxTargets(ghost ids: set<Id>, ghost arcs: seq<Edge>, ghost done: seq<Id>, u: Id, outs: seq<Id>,
                      queue0: seq<Id>, work0: map<Id, int>)
    returns (queue: seq<Id>, work: map<Id, int>)
    requires Frontier(ids, arcs, done + [u] + queue0, |done|, work0)
    requires Targets(outs, OutOf(arcs, u)) && forall i :: 0 <= i < |arcs| ==> arcs[i].to in ids
    ensures Frontier(ids, arcs, done + [u] + queue, |done| + 1, work)
  {
    hide Frontier, OutOf;
    queue, work := queue0, work0;
    EnterNode(ids, arcs, done + [u] + queue, |done|, work);
    for k := 0 to |outs|
      invariant Midway(ids, arcs, done + [u] + queue, |done|, work, k)
    {
      hide Midway;
      var to := outs[k];
      FlowCompiler.OutEdgeIsArc(arcs, u, k);
      KeysOf(ids, arcs, done + [u] + queue, |done|, work, k);
      Relax(ids, arcs, done + [u] + queue, |done|, work, k);
      assert done + [u] + (queue + [to]) == (done + [u] + queue) + [to];
      var remaining := work[to] - 1;
      work := work[to := remaining];
      if remaining == 0 { queue := queue + [to]; }
    }
    LeaveNode(ids, arcs, done + [u] + queue, |done|, work);
  }

  lemma {:induction false} KeysOf(ids: set<Id>, arcs: seq<Edge>, queue: seq<Id>, qi: nat, rem: map<Id, int>, k: nat)
    requires Midway(ids, arcs, queue, qi, rem, k)
    ensures rem.Keys == ids
  {
  }

  /** How many nodes the topological sort visits: all of them exactly if there is no cycle. */
  method CountVisited(
    ids: seq<Id>, ghost arcs: seq<Edge>, outgoing: map<Id, seq<Id>>, indeg: map<Id, int>, roots: seq<Id>)
    returns (visited: nat)
    requires Distinct(ids) && Distinct(roots) && Adjacent(Elems(ids), arcs, outgoing, indeg)
    requires forall i :: 0 <= i < |arcs| ==> arcs[i].from in ids && arcs[i].to in ids
    requires forall v :: v in roots <==> v in ids && indeg[v] == 0
    ensures visited == |ids| <==> !HasCycle(arcs)
  {
    hide OutOf, PendingIn, HasCycle, Frontier;
    ghost var all := Elems(ids);
    var queue, work := roots, indeg;
    visited := 0;
    ghost var done: seq<Id> := [];
    assert done + queue == roots;
    assert Elems(roots) <= all;
    FrontierStarts(all, arcs, roots, work);
    while queue != []
      invariant visited == |done|
      invariant Frontier(all, arcs, done + queue, |done|, work)
      decreases |ids| - |done|
    {
      Fits(ids, arcs, done + queue, |done|, work);
      var id := queue[0];
      assert done + queue == done + [id] + queue[1..];
      visited := visited + 1;
      assert id in outgoing by {
        assert (done + queue)[|done|] == id;
        Member(all, arcs, done + queue, |done|, work, |done|);
      }
      queue, work := RelaxTargets(all, arcs, done, id, outgoing[id], queue[1..], work);
      done := done + [id];
    }
    assert done + queue == done;
    Drained(all, arcs, done, work);
    Fits(ids, arcs, done, |done|, work);
  }

  lemma {:induction false} Member(ids: set<Id>, arcs: seq<Edge>, queue: seq<Id>, qi: nat, rem: map<Id, int>, p: nat)
    requires Frontier(ids, arcs, queue, qi, rem) && p < |queue|
    ensures queue[p] in ids
  {
    assert queue[p] in Elems(queue);
  }

  lemma {:induction false} Fits(ids: seq<Id>, arcs: seq<Edge>, queue: seq<Id>, qi: nat, rem: map<Id, int>)
    requires Distinct(ids) && Frontier(Elems(ids), arcs, queue, qi, rem)
    ensures |queue| <= |ids|
    ensures |queue| == |ids| <==> Elems(queue) == Elems(ids)
  {
    hide PendingIn;
    Pigeonhole(queue, Elems(ids));
    ElemsSize(ids);
    ElemsSize(queue);
    if |queue| == |ids| { FlowCompiler.SameSizeSubset(Elems(queue), Elems(ids)); }
  }

  // ----- roots, labels, branches -----

  /** `findIndex` by id: the first node of that name, or -1. */
  method FindNode(app: App, id: Id) returns (idx: int)
    ensures -1 <= idx < |app.flow|
    ensures idx >= 0 ==> app.flow[idx].id == id && IsFirst(app.flow, idx)
    ensures idx == -1 <==> id !in Ids(app)
  {
    ghost var ids := Ids(app);
    for i := 0 to |app.flow|
      invariant id !in ids[..i]
    {
      assert ids[..i + 1] == ids[..i] + [ids[i]];
      if app.flow[i].id == id {
        assert ids[i] == id;
        assert forall j :: 0 <= j < i ==> ids[..i][j] == app.flow[j].id;
        return i;
      }
    }
    assert ids[..|ids|] == ids;
    idx := -1;
  }

  lemma {:induction false} RootIds(app: App, roots: seq<Id>, indeg: map<Id, int>)
    requires indeg.Keys == Elems(Ids(app))
    requires forall v :: v in indeg ==> indeg[v] == PendingIn(Forward(app.edges), v, {})
    requires forall v :: v in roots <==> v in Ids(app) && indeg[v] == 0
    ensures forall v :: v in roots <==> IsRoot(app, v)
  {
    hide PendingIn, Forward;
    var arcs := Forward(app.edges);
    forall v ensures v in roots <==> IsRoot(app, v) {
      PendingZero(arcs, v, {});
      if v in roots {
        forall e | e in arcs ensures e.to != v { var i :| 0 <= i < |arcs| && arcs[i] == e; }
      }
    }
  }

  method CheckRoot(app: App, isSource: string -> bool, roots: seq<Id>) returns (errs: seq<GraphError>)
    requires Distinct(roots) && forall v :: v in roots <==> IsRoot(app, v)
    ensures errs == [] <==> SourceRooted(AsSeen(app), isSource)
  {
    hide IsRoot, AsSeen, SourceRooted;
    ghost var seen := AsSeen(app);
    forall v ensures v in roots <==> IsRoot(seen, v) { SeenRoots(app, v); }
    if |roots| != 1 {
      if SourceRooted(seen, isSource) { NotOneRoot(seen, isSource, roots); }
      return [WrongRootCount(|roots|)];
    }
    var idx := FindNode(app, roots[0]);
    assert roots[0] in roots;
    RootKnown(app, roots[0]);
    ghost var k := FoundIsSeen(app, idx);
    SeenIds(app);
    OneRootIs(seen, isSource, roots, k);
    if idx < 0 || !isSource(app.flow[idx].typeId) {
      errs := [RootNotSource(roots[0])];
    } else {
      errs := [];
    }
  }

  lemma {:induction false} RootKnown(app: App, id: Id)
    requires IsRoot(app, id)
    ensures id in Ids(app)
  {
  }

  lemma {:induction false} NotOneRoot(app: App, isSource: string -> bool, roots: seq<Id>)
    requires Distinct(roots) && forall v :: v in roots <==> IsRoot(app, v)
    requires SourceRooted(app, isSource)
    ensures |roots| == 1
  {
    hide IsRoot;
    var r :| 0 <= r < |app.flow| && IsRoot(app, app.flow[r].id) && isSource(app.flow[r].typeId)
             && forall id :: IsRoot(app, id) ==> id == app.flow[r].id;
    var id := app.flow[r].id;
    assert id in roots;
    forall i | 0 <= i < |roots| ensures roots[i] == id { assert roots[i] in roots; }
    TwoIdsDiffer(roots);
  }

  lemma {:induction false} TwoIdsDiffer(s: seq<Id>)
    ensures Distinct(s) && |s| > 1 ==> s[0] != s[1]
  {
  }

  lemma {:induction false} OneRootIs(app: App, isSource: string -> bool, roots: seq<Id>, idx: int)
    requires Distinct(Ids(app)) && |roots| == 1 && forall v :: v in roots <==> IsRoot(app, v)
    requires 0 <= idx < |app.flow| && app.flow[idx].id == roots[0]
    ensures SourceRooted(app, isSource) <==> isSource(app.flow[idx].typeId)
  {
    hide Forward;
    assert roots[0] in roots && roots == [roots[0]];
    assert IsRoot(app, roots[0]);
    if SourceRooted(app, isSource) {
      var r :| 0 <= r < |app.flow| && IsRoot(app, app.flow[r].id) && isSource(app.flow[r].typeId)
               && forall id :: IsRoot(app, id) ==> id == app.flow[r].id;
      assert Ids(app)[r] == Ids(app)[idx];
    }
  }

  /** For each target, the labels of the forward edges into it. */
  ghost predicate Into(arcs: seq<Edge>, into: map<Id, set<string>>) {
    && (forall e :: e in arcs ==> e.to in into && e.port in into[e.to])
    && (forall v, l :: v in into && l in into[v] ==> Edged(arcs, v, l))
    && (forall v :: v in into ==> into[v] != {})
  }

  ghost predicate Edged(arcs: seq<Edge>, v: Id, l: string) {
    exists e :: e in arcs && e.to == v && e.port == l
  }

  method LabelsInto(arcs: seq<Edge>) returns (into: map<Id, set<string>>)
    ensures Into(arcs, into)
  {
    into := map[];
    for k := 0 to |arcs|
      invariant Into(arcs[..k], into)
    {
      var e := arcs[k];
      assert arcs[..k + 1] == arcs[..k] + [e];
      ghost var before := into;
      into := into[e.to := (if e.to in into then into[e.to] else {}) + {e.port}];
      forall v, l | v in into && l in into[v] ensures Edged(arcs[..k + 1], v, l) {
        if v in before && l in before[v] {
          assert Edged(arcs[..k], v, l);
          var f :| f in arcs[..k] && f.to == v && f.port == l;
          assert f in arcs[..k + 1];
        } else {
          assert arcs[..k + 1][k] == e;
        }
      }
    }
    assert arcs[..|arcs|] == arcs;
  }

  lemma {:induction false} SmallSet(s: set<string>)
    ensures |s| > 1 <==> exists a, b :: a in s && b in s && a != b
  {
    if |s| > 1 {
      var a :| a in s;
      assert |s - {a}| > 0;
      var b :| b in s - {a};
      assert a in s && b in s && a != b;
    }
    if a, b :| a in s && b in s && a != b {
      assert {a, b} <= s;
      FlowCompiler.SubsetSize({a, b}, s);
      assert |{a, b}| == 2;
    }
  }

  method CheckLabels(edges: seq<Edge>, into: map<Id, set<string>>) returns (errs: seq<GraphError>)
    requires Into(Forward(edges), into)
    ensures errs == [] <==> LabelsAgree(edges)
  {
    hide Forward;
    ghost var arcs := Forward(edges);
    errs := [];
    var todo := into.Keys;
    while todo != {}
      invariant todo <= into.Keys
      invariant errs == [] <==> forall v :: v in into && v !in todo ==> |into[v]| <= 1
    {
      var id :| id in todo;
      if |into[id]| > 1 { errs := errs + [ConflictingLabels(id)]; }
      todo := todo - {id};
    }
    LabelSets(edges, into);
  }

  lemma {:induction false} LabelSets(edges: seq<Edge>, into: map<Id, set<string>>)
    requires Into(Forward(edges), into)
    ensures LabelsAgree(edges) <==> forall v :: v in into ==> |into[v]| <= 1
  {
    hide Forward;
    var arcs := Forward(edges);
    if forall v :: v in into ==> |into[v]| <= 1 {
      forall e, f | e in arcs && f in arcs && e.to == f.to ensures e.port == f.port {
        SmallSet(into[e.to]);
      }
    }
    if LabelsAgree(edges) {
      forall v | v in into ensures |into[v]| <= 1 {
        SmallSet(into[v]);
        forall a, b | a in into[v] && b in into[v] ensures a == b {
          assert Edged(arcs, v, a) && Edged(arcs, v, b);
        }
      }
    }
  }

  method CheckBranches(edges: seq<Edge>, arcs: seq<Edge>) returns (errs: seq<GraphError>)
    requires arcs == Forward(edges)
    ensures errs == [] <==> OneBranchSource(edges)
  {
    hide Forward;
    var sources: set<Id> := {};
    for k := 0 to |arcs|
      invariant forall s :: s in sources <==> exists i :: 0 <= i < k && arcs[i].port != "" && arcs[i].from == s
    {
      if arcs[k].port != "" { sources := sources + {arcs[k].from}; }
    }
    SmallSet(sources);
    if OneBranchSource(edges) {
      forall a, b | a in sources && b in sources ensures a == b {
        var i :| 0 <= i < |arcs| && arcs[i].port != "" && arcs[i].from == a;
        var j :| 0 <= j < |arcs| && arcs[j].port != "" && arcs[j].from == b;
        assert arcs[i] in arcs && arcs[j] in arcs;
      }
    }
    if |sources| <= 1 {
      forall e, f | e in arcs && f in arcs && e.port != "" && f.port != "" ensures e.from == f.from {
        var i :| 0 <= i < |arcs| && arcs[i] == e;
        var j :| 0 <= j < |arcs| && arcs[j] == f;
        assert e.from in sources && f.from in sources;
      }
    }
    errs := if |sources| > 1 then [SecondBranchSource] else [];
  }

  /** A loop_start whose one incoming label is not empty. */
  ghost predicate LabelledStart(app: App, into: map<Id, set<string>>, v: Id) {
    && v in into && |into[v]| == 1 && into[v] != {""}
    && exists i :: 0 <= i < |app.flow| && app.flow[i].id == v && app.flow[i].typeId == LOOP_START_TYPE
  }

  method CheckLoopStarts(app: App, into: map<Id, set<string>>) returns (errs: seq<GraphError>)
    ensures errs == [] <==> forall v :: v in into ==> !LabelledStart(AsSeen(app), into, v)
  {
    hide AsSeen, LabelledStart;
    errs := [];
    var todo := into.Keys;
    while todo != {}
      invariant todo <= into.Keys
      invariant errs == [] <==> forall v :: v in into && v !in todo ==> !LabelledStart(AsSeen(app), into, v)
    {
      var id :| id in todo;
      todo := todo - {id};
      var idx := FindNode(app, id);
      StartSeen(app, into, id, idx);
      if |into[id]| == 1 && into[id] != {""} && idx >= 0 && app.flow[idx].typeId == LOOP_START_TYPE {
        errs := errs + [LabelledLoopStart(id)];
      }
    }
  }

  lemma {:induction false} StartSeen(app: App, into: map<Id, set<string>>, id: Id, idx: int)
    requires id in into && -1 <= idx < |app.flow| && (idx == -1 <==> id !in Ids(app))
    requires idx >= 0 ==> app.flow[idx].id == id && IsFirst(app.flow, idx)
    ensures LabelledStart(AsSeen(app), into, id) <==>
            |into[id]| == 1 && into[id] != {""} && idx >= 0 && app.flow[idx].typeId == LOOP_START_TYPE
  {
    hide Ids, AsSeen;
    SeenIds(app);
    var seen := AsSeen(app);
    HasIdIds(seen, id);
    if idx >= 0 {
      var k := FoundIsSeen(app, idx);
      forall i | 0 <= i < |seen.flow| && seen.flow[i].id == id ensures i == k { SameId(seen, i, k); }
    }
  }

  lemma {:induction false} SameId(app: App, i: nat, k: nat)
    requires Distinct(Ids(app)) && i < |app.flow| && k < |app.flow| && app.flow[i].id == app.flow[k].id
    ensures i == k
  {
    var ids := Ids(app);
    assert ids[i] == ids[k];
  }

  lemma {:induction false} LoopStartSets(app: App, into: map<Id, set<string>>)
    requires Into(Forward(app.edges), into) && LabelsAgree(app.edges)
    ensures LoopStartsUnlabelled(app) <==> forall v :: v in into ==> !LabelledStart(app, into, v)
  {
    hide Forward, LabelsAgree;
    var arcs := Forward(app.edges);
    LabelSets(app.edges, into);
    if LoopStartsUnlabelled(app) {
      forall v | v in into ensures !LabelledStart(app, into, v) {
        if LabelledStart(app, into, v) {
          var i :| 0 <= i < |app.flow| && app.flow[i].id == v && app.flow[i].typeId == LOOP_START_TYPE;
          OtherLabel(into[v]);
        }
      }
    }
    if forall v :: v in into ==> !LabelledStart(app, into, v) {
      forall i, e | 0 <= i < |app.flow| && e in arcs && e.to == app.flow[i].id && app.flow[i].typeId == LOOP_START_TYPE
        ensures e.port == ""
      {
        assert !LabelledStart(app, into, e.to);
        NonEmptySize(into[e.to]);
      }
    }
  }

  lemma {:induction false} OtherLabel(s: set<string>)
    requires |s| == 1 && s != {""}
    ensures exists l :: l in s && l != ""
  {
    var l :| l in s;
    assert |s - {l}| == 0;
    assert s == {l};
  }

  lemma {:induction false} NonEmptySize(s: set<string>)
    ensures s != {} ==> |s| >= 1
  {
  }

  /** `validateGraph`: no error exactly on the graphs the Studio lets through to Deploy. */
  method ValidateGraph(app: App, isSource: string -> bool) returns (errs: seq<GraphError>)
    ensures app.edges == [] ==> errs == []
    ensures app.edges != [] ==> (errs == [] <==> StudioSchedulable(AsSeen(app), isSource))
  {
    hide Forward, HasCycle, OneLoopEdge, OneBranchSource, LabelsAgree, SourceRooted, LoopStartsUnlabelled, Into,
      Adjacent, LabelledStart, IsRoot, FirstNodes, Backward;
    errs := [];
    if app.edges == [] { return; }
    var ids := UniqueIds(app);
    SeenEndpoints(app, ids);
    errs := CheckEndpoints(app.edges, ids);
    if errs != [] { return; }
    var forward, loops := SplitEdges(app.edges);
    if |loops| > 1 { errs := errs + [SecondLoopEdge]; }
    var more := CheckOrder(app, isSource, ids, forward);
    errs := errs + more;
    more := CheckRouting(app, forward);
    errs := errs + more;
  }

  lemma {:induction false} SeenEndpoints(app: App, ids: seq<Id>)
    requires Elems(ids) == Elems(Ids(app))
    ensures EndpointsKnown(AsSeen(app)) <==> forall e :: e in app.edges ==> e.from in ids && e.to in ids
  {
    hide Ids, FirstNodes;
    SeenIds(app);
    forall v ensures v in ids <==> v in Ids(app) { assert v in Elems(ids) <==> v in Elems(Ids(app)); }
  }

  /** The cycle and root checks. */
  method CheckOrder(
    app: App, isSource: string -> bool, ids: seq<Id>, forward: seq<Edge>) returns (errs: seq<GraphError>)
    requires forward == Forward(app.edges) && Distinct(ids) && Elems(ids) == Elems(Ids(app))
    requires forall e :: e in app.edges ==> e.from in ids && e.to in ids
    ensures errs == [] <==> SourceRooted(AsSeen(app), isSource) && !HasCycle(Forward(app.edges))
  {
    hide Forward, HasCycle, SourceRooted, IsRoot, OutOf, PendingIn, AsSeen;
    forall i | 0 <= i < |forward| ensures forward[i].from in ids && forward[i].to in ids {
      assert forward[i] in forward;
    }
    var outgoing, indeg := Adjacency(ids, forward);
    var roots := Roots(ids, indeg);
    forall v ensures v in ids <==> v in Ids(app) {
      assert v in Elems(ids) <==> v in Elems(Ids(app));
    }
    RootIds(app, roots, indeg);
    var visited := CountVisited(ids, forward, outgoing, indeg, roots);
    errs := if visited != |ids| then [ContainsCycle] else [];
    var more := CheckRoot(app, isSource, roots);
    errs := errs + more;
  }

  /** The label, branch and loop-start checks. */
  method CheckRouting(app: App, forward: seq<Edge>) returns (errs: seq<GraphError>)
    requires forward == Forward(app.edges)
    ensures errs == [] <==>
            LabelsAgree(app.edges) && OneBranchSource(app.edges) && LoopStartsUnlabelled(AsSeen(app))
  {
    hide Forward, OneBranchSource, LabelsAgree, LoopStartsUnlabelled, Into, LabelledStart, FirstNodes;
    var into := LabelsInto(forward);
    errs := CheckLabels(app.edges, into);
    var more := CheckBranches(app.edges, forward);
    errs := errs + more;
    more := CheckLoopStarts(app, into);
    if LabelsAgree(app.edges) { LoopStartSets(AsSeen(app), into); }
    errs := errs + more;
  }

  // ----- agreement with the runtime -----

  /** The runtime accepts exactly those graphs that the Studio lets through whose ids are distinct and whose ports it
      knows. */
  method ValidateBoth(app: App, isSource: string -> bool)
    returns (errs: seq<GraphError>, r: Result<FlowCompiler.GraphOrder, FlowCompiler.FlowError>)
    ensures app.edges != [] ==> (r.Success? <==> errs == [] && Distinct(Ids(app)) && PortsKnown(app))
  {
    hide Distinct, AsSeen, EndpointsKnown, PortsKnown, OneLoopEdge, OneBranchSource, SourceRooted, HasCycle,
      LabelsAgree, LoopStartsUnlabelled;
    errs := ValidateGraph(app, isSource);
    r := FlowCompiler.OrderFlowGraph(app, isSource);
    if Distinct(Ids(app)) { SeenWhole(app); }
  }

  /** The Studio does not look at port names: this graph passes it and is refused by the runtime. */
  lemma {:induction false} UnknownPortSlipsThrough(isSource: string -> bool)
    requires isSource("in")
    ensures var app := App([Node("a", "in"), Node("b", "out")], [Edge("a", "maybe", "b")]);
            Distinct(Ids(app)) && StudioSchedulable(AsSeen(app), isSource) && !PortsKnown(app)
  {
    var app := App([Node("a", "in"), Node("b", "out")], [Edge("a", "maybe", "b")]);
    assert "a"[0] == 'a' && "b"[0] == 'b';
    assert "maybe"[0] == 'm' && "false"[0] == 'f' && "true"[0] == 't' && LOOP_BACK[0] == 'l';
    SingleEdge(app, isSource);
    SeenWhole(app);
    assert app.edges[0] in app.edges;
  }

  /** Nor does it notice a second node under the same id. */
  lemma {:induction false} DuplicateIdSlipsThrough(isSource: string -> bool)
    requires isSource("in")
    ensures var app := App([Node("a", "in"), Node("b", "out"), Node("b", "out")], [Edge("a", "", "b")]);
            !Distinct(Ids(app)) && StudioSchedulable(AsSeen(app), isSource) && PortsKnown(app)
  {
    hide StudioSchedulable;
    var app := App([Node("a", "in"), Node("b", "out"), Node("b", "out")], [Edge("a", "", "b")]);
    var seen := App([Node("a", "in"), Node("b", "out")], [Edge("a", "", "b")]);
    assert "a"[0] == 'a' && "b"[0] == 'b' && |LOOP_BACK| > 0;
    assert Ids(app)[1] == Ids(app)[2];
    assert app.flow[..2] == seen.flow;
    assert HasId(app.flow[..2], "b") by { assert app.flow[..2][1].id == "b"; }
    SingleEdge(seen, isSource);
    SeenWhole(seen);
    assert FirstNodes(app.flow) == FirstNodes(app.flow[..2]);
    assert AsSeen(app) == seen;
  }

  /** Two nodes and one forward edge. */
  ghost predicate OneEdge(app: App, e: Edge) {
    && |app.flow| == 2 && app.edges == [e] && e.port != LOOP_BACK && e.from != e.to
    && app.flow[0].id == e.from && app.flow[1].id == e.to
  }

  lemma {:induction false} OneEdgeForward(app: App, e: Edge)
    requires OneEdge(app, e)
    ensures Ids(app) == [e.from, e.to] && Forward(app.edges) == [e] && !HasCycle([e])
  {
    assert [e][..0] == [];
    assert Forward([]) == [];
    var rank := map[e.from := 0, e.to := 1];
    assert Ranks([e], rank);
    RankedIsAcyclic([e], rank);
  }

  lemma {:induction false} OneEdgeRoot(app: App, e: Edge, isSource: string -> bool)
    requires OneEdge(app, e) && isSource(app.flow[0].typeId)
    ensures SourceRooted(app, isSource)
  {
    hide Forward, Ids, HasCycle;
    OneEdgeForward(app, e);
    assert e in [e];
    assert IsRoot(app, app.flow[0].id) && !IsRoot(app, e.to);
  }

  lemma {:induction false} SingleEdge(app: App, isSource: string -> bool)
    requires |app.edges| == 1 && OneEdge(app, app.edges[0]) && isSource(app.flow[0].typeId)
    requires app.flow[1].typeId != LOOP_START_TYPE
    ensures Distinct(Ids(app)) && StudioSchedulable(app, isSource)
  {
    hide Forward, Ids, HasCycle, SourceRooted;
    var e := app.edges[0];
    OneEdgeForward(app, e);
    OneEdgeRoot(app, e, isSource);
    assert forall f :: f in [e] ==> f == e;
  }
}
