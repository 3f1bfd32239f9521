/** Ordering a flow graph at deploy time: `order_flow_graph` of include/aero/runtime/flow_compiler.hpp. */
module FlowCompiler {
  import opened Wrappers
  import opened Sequences
  import opened FlowGraph
  import opened FlowOrdering

  datatype FlowError =
    | DuplicateId(id: Id)
    | UnknownNode(id: Id)
    | SecondLoopEdge
    | BadPort(port: string)
    | SecondBranchSource
    | RootCount(n: nat)
    | RootNotSource(id: Id)
    | Cycle
    | ConflictingLabels(id: Id)
    | LabelledLoopStart(id: Id)

  /** A step order over flow indices, each node's required label, and the loop's jump. */
  datatype GraphOrder = GraphOrder(order: seq<nat>, labels: seq<string>, loopEdge: Option<(nat, nat)>)

  ghost predicate Indexes(app: App, index: map<Id, nat>) {
    && Distinct(Ids(app)) && index.Keys == Elems(Ids(app))
    && forall i :: 0 <= i < |app.flow| ==> app.flow[i].id in index && index[app.flow[i].id] == i
  }

  method IndexIds(app: App) returns (r: Result<map<Id, nat>, FlowError>)
    ensures r.Success? <==> Distinct(Ids(app))
    ensures r.Success? ==> Indexes(app, r.value)
    ensures r.Failure? ==> r.error != Cycle
  {
    var ids := Ids(app);
    var index: map<Id, nat> := map[];
    for i := 0 to |app.flow|
      invariant index.Keys == Elems(ids[..i]) && Distinct(ids[..i])
      invariant forall k :: 0 <= k < i ==> ids[k] in index && index[ids[k]] == k
    {
      assert ids[..i + 1] == ids[..i] + [ids[i]];
      if app.flow[i].id in index {
        assert ids[i] in ids[..i];
        assert !Distinct(ids);
        return Failure(DuplicateId(app.flow[i].id));
      }
      index := index[app.flow[i].id := i];
    }
    assert ids[..|ids|] == ids;
    assert forall i :: 0 <= i < |app.flow| ==> app.flow[i].id == ids[i];
    r := Success(index);
  }

  // ----- edges -----

  datatype Wiring = Wiring(adj: seq<seq<(nat, string)>>, inDegree: seq<int>, loopEdge: Option<(nat, nat)>)

  /** An adjacency list stands for the outgoing forward edges of its node, in order. */
  ghost predicate ListsOut(ids: seq<Id>, out: seq<(nat, string)>, es: seq<Edge>) {
    && |out| == |es|
    && forall k :: 0 <= k < |out| ==>
         out[k].0 < |ids| && es[k].to == ids[out[k].0] && es[k].port == out[k].1
  }

  /** The wiring of the edges seen so far. */
  ghost predicate Wired(ids: seq<Id>, edges: seq<Edge>, w: Wiring) {
    && |w.adj| == |w.inDegree| == |ids|
    && (forall u :: 0 <= u < |ids| ==> ListsOut(ids, w.adj[u], OutOf(Forward(edges), ids[u])))
    && (forall v :: 0 <= v < |ids| ==> w.inDegree[v] == PendingIn(Forward(edges), ids[v], {}))
    && (w.loopEdge.None? ==> forall e :: e in edges ==> e.port != LOOP_BACK)
    && (w.loopEdge.Some? ==> var (a, b) := w.loopEdge.value;
          a < |ids| && b < |ids| && Edge(ids[a], LOOP_BACK, ids[b]) in edges)
  }

  /** Which node, if any, is the source of the labelled forward edges. */
  ghost predicate Branches(ids: seq<Id>, edges: seq<Edge>, branch: Option<nat>) {
    match branch
    case None => forall e :: e in Forward(edges) ==> e.port == ""
    case Some(b) =>
      && b < |ids|
      && (forall e :: e in Forward(edges) && e.port != "" ==> e.from == ids[b])
      && (exists e :: e in Forward(edges) && e.port != "" && e.from == ids[b])
  }

  ghost predicate EdgesOk(ids: seq<Id>, edges: seq<Edge>) {
    && (forall e :: e in edges ==> e.from in ids && e.to in ids)
    && (forall e :: e in edges ==> e.port in {"", "true", "false", LOOP_BACK})
    && OneLoopEdge(edges) && OneBranchSource(edges)
  }

  lemma {:induction false} ForwardLast(edges: seq<Edge>, e: Edge)
    ensures Forward(edges + [e]) == Forward(edges) + (if e.port == LOOP_BACK then [] else [e])
  {
    assert (edges + [e])[..|edges|] == edges;
  }

  lemma {:induction false} OutOfLast(arcs: seq<Edge>, e: Edge, u: Id)
    ensures OutOf(arcs + [e], u) == OutOf(arcs, u) + (if e.from == u then [e] else [])
  {
    assert (arcs + [e])[..|arcs|] == arcs;
  }

  /** One more forward edge `a -> b`. */
  lemma {:induction false} WireForward(ids: seq<Id>, edges: seq<Edge>, e: Edge, w: Wiring, a: nat, b: nat)
    requires Distinct(ids) && Wired(ids, edges, w) && e.port != LOOP_BACK
    requires a < |ids| && b < |ids| && ids[a] == e.from && ids[b] == e.to
    ensures Wired(ids, edges + [e], w.(
              adj := w.adj[a := w.adj[a] + [(b, e.port)]], inDegree := w.inDegree[b := w.inDegree[b] + 1]))
  {
    hide OutOf, PendingIn, Forward;
    ForwardLast(edges, e);
    var arcs := Forward(edges);
    var adj' := w.adj[a := w.adj[a] + [(b, e.port)]];
    forall u | 0 <= u < |ids| ensures ListsOut(ids, adj'[u], OutOf(arcs + [e], ids[u])) {
      OutOfLast(arcs, e, ids[u]);
    }
    forall v | 0 <= v < |ids|
      ensures w.inDegree[b := w.inDegree[b] + 1][v] == PendingIn(arcs + [e], ids[v], {})
    {
      PendingLast(arcs, e, ids[v], {});
    }
  }

  lemma {:induction false} EdgesOkLast(ids: seq<Id>, edges: seq<Edge>, e: Edge, branch: Option<nat>)
    requires EdgesOk(ids, edges) && Branches(ids, edges, branch)
    requires e.from in ids && e.to in ids
    requires e.port in {"", "true", "false"} || (e.port == LOOP_BACK && forall f :: f in edges ==> f.port != LOOP_BACK)
    requires e.port != "" && e.port != LOOP_BACK ==> branch.None? || ids[branch.value] == e.from
    ensures EdgesOk(ids, edges + [e])
  {
    hide Forward;
    ForwardLast(edges, e);
    forall i, j | 0 <= i < j < |edges + [e]|
      ensures (edges + [e])[i].port != LOOP_BACK || (edges + [e])[j].port != LOOP_BACK
    {
      if j == |edges| { assert edges[i] in edges; }
    }
  }

  /** What the loop over the edges knows once it has seen some. */
  ghost predicate Collected(ids: seq<Id>, seen: seq<Edge>, w: Wiring, branch: Option<nat>) {
    Wired(ids, seen, w) && EdgesOk(ids, seen) && Branches(ids, seen, branch)
  }

  method CollectEdges(app: App, index: map<Id, nat>) returns (r: Result<Wiring, FlowError>)
    requires Indexes(app, index)
    ensures r.Success? <==> EdgesOk(Ids(app), app.edges)
    ensures r.Success? ==> Wired(Ids(app), app.edges, r.value)
    ensures r.Failure? ==> r.error != Cycle
  {
    ghost var ids := Ids(app);
    var n := |app.flow|;
    var w := Wiring(seq(n, _ => []), seq(n, _ => 0), None);
    var branch: Option<nat> := None;
    assert app.edges[..0] == [];
    for k := 0 to |app.edges|
      invariant |w.adj| == |w.inDegree| == n && Collected(ids, app.edges[..k], w, branch)
    {
      hide Collected, EdgesOk, Wired;
      var e := app.edges[k];
      ghost var seen := app.edges[..k];
      assert app.edges[..k + 1] == seen + [e];
      if e.from !in index {
        EdgeRejected(ids, app.edges, k, w, branch);
        return Failure(UnknownNode(e.from));
      }
      if e.to !in index {
        EdgeRejected(ids, app.edges, k, w, branch);
        return Failure(UnknownNode(e.to));
      }
      var a, b := index[e.from], index[e.to];
      assert ids[a] == e.from && ids[b] == e.to;
      if e.port == LOOP_BACK {
        if w.loopEdge.Some? {
          SecondLoopRejected(ids, app.edges, k, w, branch);
          return Failure(SecondLoopEdge);
        }
        AddLoopEdge(ids, seen, e, w, branch, a, b);
        w := w.(loopEdge := Some((a, b)));
        continue;
      }
      if e.port != "" {
        if e.port != "true" && e.port != "false" {
          EdgeRejected(ids, app.edges, k, w, branch);
          return Failure(BadPort(e.port));
        }
        if branch.Some? && branch.value != a {
          EdgeRejected(ids, app.edges, k, w, branch);
          return Failure(SecondBranchSource);
        }
      }
      AddForwardEdge(ids, seen, e, w, branch, a, b);
      if e.port != "" { branch := Some(a); }
      w := w.(adj := w.adj[a := w.adj[a] + [(b, e.port)]], inDegree := w.inDegree[b := w.inDegree[b] + 1]);
    }
    assert app.edges[..|app.edges|] == app.edges;
    r := Success(w);
  }

  lemma {:induction false} EdgeRejected(ids: seq<Id>, edges: seq<Edge>, k: nat, w: Wiring, branch: Option<nat>)
    requires Distinct(ids) && k < |edges| && Collected(ids, edges[..k], w, branch)
    requires var e := edges[k];
             || e.from !in ids || e.to !in ids || e.port !in {"", "true", "false", LOOP_BACK}
             || (e.port != "" && e.port != LOOP_BACK && branch.Some? &&
                 exists a :: 0 <= a < |ids| && ids[a] == e.from && a != branch.value)
    ensures !EdgesOk(ids, edges)
  {
    hide Forward, OneLoopEdge, Wired;
    var e := edges[k];
    assert e in edges;
    if branch.Some? && e.port != "" && e.port != LOOP_BACK && ids[branch.value] != e.from {
      var f :| f in Forward(edges[..k]) && f.port != "" && f.from == ids[branch.value];
      assert f in edges[..k] && f in edges;
      assert e in Forward(edges) && f in Forward(edges);
    }
  }

  lemma {:induction false} SecondLoopRejected(ids: seq<Id>, edges: seq<Edge>, k: nat, w: Wiring, branch: Option<nat>)
    requires k < |edges| && Collected(ids, edges[..k], w, branch) && w.loopEdge.Some? && edges[k].port == LOOP_BACK
    ensures !EdgesOk(ids, edges)
  {
    hide Branches, OneBranchSource, Forward, OutOf, PendingIn, ListsOut;
    var (a, b) := w.loopEdge.value;
    assert Edge(ids[a], LOOP_BACK, ids[b]) in edges[..k];
    var i :| 0 <= i < k && edges[..k][i] == Edge(ids[a], LOOP_BACK, ids[b]);
    assert edges[i].port == LOOP_BACK;
  }

  lemma {:induction false} AddLoopEdge(
    ids: seq<Id>, edges: seq<Edge>, e: Edge, w: Wiring, branch: Option<nat>, a: nat, b: nat)
    requires Collected(ids, edges, w, branch)
    requires a < |ids| && b < |ids| && ids[a] == e.from && ids[b] == e.to
    requires e.port == LOOP_BACK && w.loopEdge.None?
    ensures Collected(ids, edges + [e], w.(loopEdge := Some((a, b))), branch)
  {
    hide OutOf, PendingIn, Forward;
    ForwardLast(edges, e);
    assert Forward(edges + [e]) == Forward(edges);
    assert Branches(ids, edges + [e], branch);
    assert EdgesOk(ids, edges + [e]) by { EdgesOkLast(ids, edges, e, branch); }
    assert (edges + [e])[|edges|] == Edge(ids[a], LOOP_BACK, ids[b]);
  }

  lemma {:induction false} AddForwardEdge(
    ids: seq<Id>, edges: seq<Edge>, e: Edge, w: Wiring, branch: Option<nat>, a: nat, b: nat)
    requires Distinct(ids) && Collected(ids, edges, w, branch) && |w.adj| == |w.inDegree| == |ids|
    requires a < |ids| && b < |ids| && ids[a] == e.from && ids[b] == e.to
    requires e.port in {"", "true", "false"}
    requires e.port != "" ==> branch.None? || branch.value == a
    ensures Collected(ids, edges + [e], w.(
                adj := w.adj[a := w.adj[a] + [(b, e.port)]], inDegree := w.inDegree[b := w.inDegree[b] + 1]),
              if e.port == "" then branch else Some(a))
  {
    hide Wired;
    assert "" != LOOP_BACK && "true" != LOOP_BACK && "false" != LOOP_BACK by {
      assert |LOOP_BACK| == 9 && |"false"| == 5 && |"true"| == 4;
    }
    WireForward(ids, edges, e, w, a, b);
    EdgesOkLast(ids, edges, e, branch);
    ForwardLast(edges, e);
  }

  // ----- Kahn's algorithm over indices, seen through the ids -----

  ghost function Names(ids: seq<Id>, idx: seq<nat>): (r: seq<Id>)
    requires forall i :: 0 <= i < |idx| ==> idx[i] < |ids|
    ensures |r| == |idx| && forall i :: 0 <= i < |idx| ==> r[i] == ids[idx[i]]
  {
    seq(|idx|, i requires 0 <= i < |idx| => ids[idx[i]])
  }

  ghost function ByIds(ids: seq<Id>, vals: seq<int>): (m: map<Id, int>)
    requires Distinct(ids) && |ids| == |vals|
    ensures m.Keys == Elems(ids) && forall i :: 0 <= i < |ids| ==> m[ids[i]] == vals[i]
  {
    map i | 0 <= i < |ids| :: ids[i] := vals[i]
  }

  ghost predicate InRange(idx: seq<nat>, n: nat) {
    forall i :: 0 <= i < |idx| ==> idx[i] < n
  }

  lemma {:induction false} NamesHas(ids: seq<Id>, idx: seq<nat>, v: nat)
    requires Distinct(ids) && InRange(idx, |ids|) && v < |ids|
    ensures ids[v] in Names(ids, idx) <==> v in idx
  {
    if v in idx {
      var i :| 0 <= i < |idx| && idx[i] == v;
      assert Names(ids, idx)[i] == ids[v];
    }
  }

  lemma {:induction false} NamesDistinct(ids: seq<Id>, idx: seq<nat>)
    requires Distinct(ids) && InRange(idx, |ids|)
    ensures Distinct(Names(ids, idx)) <==> Distinct(idx)
  {
    var r := Names(ids, idx);
    if Distinct(r) {
      forall i, j | 0 <= i < j < |idx| ensures idx[i] != idx[j] { assert r[i] != r[j]; }
    }
  }

  /** The nodes without incoming edges, in flow order. */
  method FindRoots(inDegree: seq<int>) returns (queue: seq<nat>)
    ensures Distinct(queue) && InRange(queue, |inDegree|)
    ensures forall v :: 0 <= v < |inDegree| ==> (v in queue <==> inDegree[v] == 0)
  {
    queue := [];
    for i := 0 to |inDegree|
      invariant Distinct(queue) && InRange(queue, i)
      invariant forall v :: 0 <= v < i ==> (v in queue <==> inDegree[v] == 0)
    {
      if inDegree[i] == 0 { queue := queue + [i]; }
    }
  }

  /** The labels of the edges into each node that come from `done` nodes or are in `part`. */
  ghost predicate LabelsSeen(
    ids: seq<Id>, arcs: seq<Edge>, incoming: seq<seq<string>>, done: set<Id>, part: seq<Edge>)
  {
    && |incoming| == |ids|
    && forall v, l :: 0 <= v < |ids| ==>
         (l in incoming[v] <==> Carries(arcs, done, part, ids[v], l))
  }

  ghost predicate Carries(arcs: seq<Edge>, done: set<Id>, part: seq<Edge>, to: Id, l: string) {
    exists e :: e in arcs && e.to == to && e.port == l && (e.from in done || e in part)
  }

  lemma {:induction false} CarriesMore(arcs: seq<Edge>, done: set<Id>, part: seq<Edge>, e: Edge, to: Id, l: string)
    requires e in arcs
    ensures Carries(arcs, done, part + [e], to, l) <==>
            Carries(arcs, done, part, to, l) || (e.to == to && e.port == l)
  {
    if e.to == to && e.port == l { assert e in part + [e]; }
    if Carries(arcs, done, part, to, l) {
      var f :| f in arcs && f.to == to && f.port == l && (f.from in done || f in part);
      assert f.from in done || f in part + [e];
    }
  }

  lemma {:induction false} LabelSeen(
    ids: seq<Id>, arcs: seq<Edge>, incoming: seq<seq<string>>, done: set<Id>, part: seq<Edge>, e: Edge, v: nat)
    requires Distinct(ids) && LabelsSeen(ids, arcs, incoming, done, part)
    requires e in arcs && v < |ids| && ids[v] == e.to
    ensures LabelsSeen(ids, arcs, incoming[v := incoming[v] + [e.port]], done, part + [e])
  {
    hide Carries;
    var incoming' := incoming[v := incoming[v] + [e.port]];
    forall w, l | 0 <= w < |ids|
      ensures l in incoming'[w] <==> Carries(arcs, done, part + [e], ids[w], l)
    {
      CarriesMore(arcs, done, part, e, ids[w], l);
    }
  }

  lemma {:induction false} LabelsOfNode(
    ids: seq<Id>, arcs: seq<Edge>, incoming: seq<seq<string>>, done: set<Id>, u: Id)
    requires LabelsSeen(ids, arcs, incoming, done, OutOf(arcs, u))
    ensures LabelsSeen(ids, arcs, incoming, done + {u}, [])
  {
    hide OutOf;
    forall w, l | 0 <= w < |ids|
      ensures Carries(arcs, done + {u}, [], ids[w], l) <==> Carries(arcs, done, OutOf(arcs, u), ids[w], l)
    {
    }
  }

  /** The queue and the counters, read through the ids. */
  ghost function View(ids: seq<Id>, queue: seq<nat>, rem: seq<int>): Line
    requires Distinct(ids) && InRange(queue, |ids|) && |ids| == |rem|
  {
    Line(Names(ids, queue), ByIds(ids, rem))
  }

  /** `line'` is `line` after relaxing one edge into `v`. */
  ghost predicate RelaxedBy(v: Id, line: Line, line': Line) {
    && v in line.rem
    && line' == Line(if line.rem[v] == 1 then line.queue + [v] else line.queue, line.rem[v := line.rem[v] - 1])
  }

  lemma {:induction false} ViewRelaxed(ids: seq<Id>, queue: seq<nat>, rem: seq<int>, v: nat)
    requires Distinct(ids) && InRange(queue, |ids|) && |rem| == |ids| && v < |ids|
    ensures var queue' := if rem[v] == 1 then queue + [v] else queue;
            RelaxedBy(ids[v], View(ids, queue, rem), View(ids, queue', rem[v := rem[v] - 1]))
  {
    assert ByIds(ids, rem[v := rem[v] - 1]) == ByIds(ids, rem)[ids[v] := ByIds(ids, rem)[ids[v]] - 1];
    assert Names(ids, queue + [v]) == Names(ids, queue) + [ids[v]];
  }

  /** Relaxing one more edge. */
  lemma {:induction false} RelaxedLast(
    ids: seq<Id>, es: seq<Edge>, k: nat, line: Line, queue: seq<nat>, rem: seq<int>, v: nat)
    requires Distinct(ids) && InRange(queue, |ids|) && |rem| == |ids| && v < |ids|
    requires k < |es| && es[k].to == ids[v] && View(ids, queue, rem) == Relaxed(es[..k], line)
    ensures View(ids, if rem[v] == 1 then queue + [v] else queue, rem[v := rem[v] - 1]) == Relaxed(es[..k + 1], line)
  {
    hide Relaxed, View;
    ViewRelaxed(ids, queue, rem, v);
    RelaxedNext(es, k, line, View(ids, if rem[v] == 1 then queue + [v] else queue, rem[v := rem[v] - 1]));
  }

  lemma {:induction false} RelaxedNext(es: seq<Edge>, k: nat, line: Line, line': Line)
    requires k < |es| && RelaxedBy(es[k].to, Relaxed(es[..k], line), line')
    ensures Relaxed(es[..k + 1], line) == line'
  {
    assert es[..k + 1][..k] == es[..k];
  }

  /** The relaxation of `adj[u][k]` on the index arrays is `Relax` on the ids. */
  lemma {:induction false} RelaxView(
    ids: seq<Id>, arcs: seq<Edge>, queue: seq<nat>, qi: nat, rem: seq<int>, k: nat, v: nat)
    requires Distinct(ids) && InRange(queue, |ids|) && |rem| == |ids| && v < |ids|
    requires Midway(Elems(ids), arcs, Names(ids, queue), qi, ByIds(ids, rem), k)
    requires k < |OutOf(arcs, Names(ids, queue)[qi])| && OutOf(arcs, Names(ids, queue)[qi])[k].to == ids[v]
    ensures var queue' := if rem[v] == 1 then queue + [v] else queue;
            Midway(Elems(ids), arcs, Names(ids, queue'), qi, ByIds(ids, rem[v := rem[v] - 1]), k + 1)
  {
    hide Midway, OutOf;
    Relax(Elems(ids), arcs, Names(ids, queue), qi, ByIds(ids, rem), k);
    assert ByIds(ids, rem[v := rem[v] - 1]) == ByIds(ids, rem)[ids[v] := ByIds(ids, rem)[ids[v]] - 1];
    assert Names(ids, queue + [v]) == Names(ids, queue) + [ids[v]];
  }

  /** The state of the index arrays, read through the ids. */
  ghost predicate Shape(ids: seq<Id>, queue: seq<nat>, rem: seq<int>, incoming: seq<seq<string>>) {
    Distinct(ids) && InRange(queue, |ids|) && |rem| == |incoming| == |ids|
  }

  /** Where the relaxation of `queue[qi]`'s outgoing edges `es` stands after `k` of them. */
  ghost predicate Underway(ids: seq<Id>, arcs: seq<Edge>, es: seq<Edge>, qi: nat, done: set<Id>, line: Line,
                           queue: seq<nat>, rem: seq<int>, incoming: seq<seq<string>>, k: nat)
  {
    && Shape(ids, queue, rem, incoming) && qi < |queue| && es == OutOf(arcs, ids[queue[qi]]) && k <= |es|
    && Midway(Elems(ids), arcs, Names(ids, queue), qi, ByIds(ids, rem), k)
    && LabelsSeen(ids, arcs, incoming, done, es[..k])
    && View(ids, queue, rem) == Relaxed(es[..k], line)
  }

  lemma {:induction false} RelaxEdge(
    ids: seq<Id>, arcs: seq<Edge>, es: seq<Edge>, qi: nat, done: set<Id>, line: Line,
    queue: seq<nat>, rem: seq<int>, incoming: seq<seq<string>>, k: nat, v: nat)
    requires Underway(ids, arcs, es, qi, done, line, queue, rem, incoming, k)
    requires k < |es| && v < |ids| == |rem| == |incoming| && es[k].to == ids[v]
    ensures Underway(ids, arcs, es, qi, done, line,
                     if rem[v] == 1 then queue + [v] else queue, rem[v := rem[v] - 1],
                     incoming[v := incoming[v] + [es[k].port]], k + 1)
  {
    hide Midway, OutOf, LabelsSeen, ByIds, View, RelaxedBy, Relaxed;
    assert es[..k + 1] == es[..k] + [es[k]];
    OutEdgeIsArc(arcs, ids[queue[qi]], k);
    LabelSeen(ids, arcs, incoming, done, es[..k], es[k], v);
    RelaxView(ids, arcs, queue, qi, rem, k, v);
    RelaxedLast(ids, es, k, line, queue, rem, v);
  }

  lemma {:induction false} RelaxStarts(ids: seq<Id>, arcs: seq<Edge>, qi: nat, done: set<Id>,
                                       queue: seq<nat>, rem: seq<int>, incoming: seq<seq<string>>)
    requires Shape(ids, queue, rem, incoming) && qi < |queue|
    requires Frontier(Elems(ids), arcs, Names(ids, queue), qi, ByIds(ids, rem))
    requires LabelsSeen(ids, arcs, incoming, done, [])
    ensures Underway(ids, arcs, OutOf(arcs, ids[queue[qi]]), qi, done, View(ids, queue, rem), queue, rem, incoming, 0)
  {
    hide Frontier, Midway, OutOf, LabelsSeen, ByIds;
    EnterNode(Elems(ids), arcs, Names(ids, queue), qi, ByIds(ids, rem));
    assert OutOf(arcs, ids[queue[qi]])[..0] == [];
  }

  lemma {:induction false} RelaxEnds(ids: seq<Id>, arcs: seq<Edge>, es: seq<Edge>, qi: nat, done: set<Id>, line: Line,
                                     queue: seq<nat>, rem: seq<int>, incoming: seq<seq<string>>)
    requires Underway(ids, arcs, es, qi, done, line, queue, rem, incoming, |es|)
    ensures Shape(ids, queue, rem, incoming) && qi < |queue|
    ensures Frontier(Elems(ids), arcs, Names(ids, queue), qi + 1, ByIds(ids, rem))
    ensures LabelsSeen(ids, arcs, incoming, done + {ids[queue[qi]]}, [])
    ensures View(ids, queue, rem) == Relaxed(es, line)
  {
    hide Frontier, Midway, OutOf, LabelsSeen, ByIds, View, Relaxed;
    assert es[..|es|] == es;
    LeaveNode(Elems(ids), arcs, Names(ids, queue), qi, ByIds(ids, rem));
    LabelsOfNode(ids, arcs, incoming, done, ids[queue[qi]]);
  }

  /** Relaxing all outgoing edges of `queue[qi]`. */
  method RelaxNode(ghost ids: seq<Id>, ghost arcs: seq<Edge>, out: seq<(nat, string)>, ghost qi: nat,
                   queue0: seq<nat>, rem0: seq<int>, incoming0: seq<seq<string>>, ghost done: set<Id>)
    returns (queue: seq<nat>, rem: seq<int>, incoming: seq<seq<string>>)
    requires Shape(ids, queue0, rem0, incoming0) && qi < |queue0|
    requires ListsOut(ids, out, OutOf(arcs, ids[queue0[qi]]))
    requires Frontier(Elems(ids), arcs, Names(ids, queue0), qi, ByIds(ids, rem0))
    requires LabelsSeen(ids, arcs, incoming0, done, [])
    ensures Shape(ids, queue, rem, incoming) && queue0 <= queue
    ensures Frontier(Elems(ids), arcs, Names(ids, queue), qi + 1, ByIds(ids, rem))
    ensures LabelsSeen(ids, arcs, incoming, done + {ids[queue0[qi]]}, [])
    ensures View(ids, queue, rem) == Relaxed(OutOf(arcs, ids[queue0[qi]]), View(ids, queue0, rem0))
  {
    hide Frontier, OutOf, LabelsSeen, ByIds, View, Relaxed, Underway;
    queue, rem, incoming := queue0, rem0, incoming0;
    ghost var es := OutOf(arcs, ids[queue0[qi]]);
    ghost var line := View(ids, queue0, rem0);
    RelaxStarts(ids, arcs, qi, done, queue, rem, incoming);
    for k := 0 to |out|
      invariant |rem| == |incoming| == |ids| && queue0 <= queue
      invariant Underway(ids, arcs, es, qi, done, line, queue, rem, incoming, k)
    {
      var (v, port) := out[k];
      RelaxEdge(ids, arcs, es, qi, done, line, queue, rem, incoming, k, v);
      incoming := incoming[v := incoming[v] + [port]];
      rem := rem[v := rem[v] - 1];
      if rem[v] == 0 { queue := queue + [v]; }
    }
    RelaxEnds(ids, arcs, es, qi, done, line, queue, rem, incoming);
  }

  method RunKahn(
    ghost ids: seq<Id>, ghost arcs: seq<Edge>, adj: seq<seq<(nat, string)>>, inDegree: seq<int>, roots: seq<nat>)
    returns (order: seq<nat>, incoming: seq<seq<string>>)
    requires Distinct(ids) && |adj| == |inDegree| == |ids| && InRange(roots, |ids|)
    requires forall u :: 0 <= u < |ids| ==> ListsOut(ids, adj[u], OutOf(arcs, ids[u]))
    requires Frontier(Elems(ids), arcs, Names(ids, roots), 0, ByIds(ids, inDegree))
    ensures InRange(order, |ids|) && roots <= order
    ensures exists rem :: Frontier(Elems(ids), arcs, Names(ids, order), |order|, rem)
    ensures LabelsSeen(ids, arcs, incoming, Elems(Names(ids, order)), [])
    ensures Names(ids, order) == Lined(arcs, View(ids, roots, inDegree), |order|).queue
  {
    hide Frontier, OutOf, LabelsSeen, ByIds, ListsOut, Relaxed;
    var n := |adj|;
    order := [];
    incoming := seq(n, _ => []);
    var queue, rem := roots, inDegree;
    assert Elems(Names(ids, [])) == {};
    NothingSeen(ids, arcs, incoming);
    while |order| < |queue|
      invariant Shape(ids, queue, rem, incoming) && roots <= queue && order <= queue
      invariant Frontier(Elems(ids), arcs, Names(ids, queue), |order|, ByIds(ids, rem))
      invariant LabelsSeen(ids, arcs, incoming, Elems(Names(ids, order)), [])
      invariant View(ids, queue, rem) == Lined(arcs, View(ids, roots, inDegree), |order|)
      decreases n - |order|
    {
      ghost var done := Elems(Names(ids, order));
      QueueFits(ids, arcs, queue, |order|, rem);
      var u := queue[|order|];
      queue, rem, incoming := RelaxNode(ids, arcs, adj[u], |order|, queue, rem, incoming, done);
      NamesPush(ids, order, u);
      order := order + [u];
    }
    assert order == queue;
  }

  lemma {:induction false} NamesPush(ids: seq<Id>, idx: seq<nat>, u: nat)
    requires InRange(idx, |ids|) && u < |ids|
    ensures Elems(Names(ids, idx + [u])) == Elems(Names(ids, idx)) + {ids[u]}
  {
    assert Names(ids, idx + [u]) == Names(ids, idx) + [ids[u]];
  }

  lemma {:induction false} OutEdgeIsArc(arcs: seq<Edge>, u: Id, k: nat)
    requires k < |OutOf(arcs, u)|
    ensures OutOf(arcs, u)[k] in arcs
  {
    assert OutOf(arcs, u)[k] in OutOf(arcs, u);
  }

  lemma {:induction false} NothingSeen(ids: seq<Id>, arcs: seq<Edge>, incoming: seq<seq<string>>)
    requires |incoming| == |ids| && forall i :: 0 <= i < |incoming| ==> incoming[i] == []
    ensures LabelsSeen(ids, arcs, incoming, {}, [])
  {
  }

  /** The queue never outgrows the flow. */
  lemma {:induction false} QueueFits(ids: seq<Id>, arcs: seq<Edge>, queue: seq<nat>, qi: nat, rem: seq<int>)
    requires Distinct(ids) && InRange(queue, |ids|) && |rem| == |ids|
    requires Frontier(Elems(ids), arcs, Names(ids, queue), qi, ByIds(ids, rem))
    ensures |queue| <= |ids|
  {
    hide PendingIn;
    Pigeonhole(Names(ids, queue), Elems(ids));
    ElemsSize(ids);
  }

  // ----- labels and the whole pass -----

  /** `labels[v]` is the label of every forward edge into `v`, and empty if there is none. */
  ghost predicate LabelledBy(ids: seq<Id>, arcs: seq<Edge>, labels: seq<string>) {
    && |labels| == |ids|
    && (forall v, e :: 0 <= v < |ids| && e in arcs && e.to == ids[v] ==> labels[v] == e.port)
    && (forall v :: 0 <= v < |ids| && (forall e :: e in arcs ==> e.to != ids[v]) ==> labels[v] == "")
  }

  /** All labels of the edges into each node. */
  ghost predicate Incoming(ids: seq<Id>, arcs: seq<Edge>, incoming: seq<seq<string>>) {
    && |incoming| == |ids|
    && (forall v, e :: 0 <= v < |ids| && e in arcs && e.to == ids[v] ==> e.port in incoming[v])
    && (forall v, l :: 0 <= v < |ids| && l in incoming[v] ==> exists e :: e in arcs && e.to == ids[v] && e.port == l)
  }

  lemma {:induction false} AllSeen(ids: seq<Id>, arcs: seq<Edge>, incoming: seq<seq<string>>)
    requires LabelsSeen(ids, arcs, incoming, Elems(ids), [])
    requires forall e :: e in arcs ==> e.from in ids
    ensures Incoming(ids, arcs, incoming)
  {
    forall v, e | 0 <= v < |ids| && e in arcs && e.to == ids[v] ensures e.port in incoming[v] {
      assert Carries(arcs, Elems(ids), [], ids[v], e.port);
    }
    forall v, l | 0 <= v < |ids| && l in incoming[v] ensures exists e :: e in arcs && e.to == ids[v] && e.port == l {
      assert Carries(arcs, Elems(ids), [], ids[v], l);
    }
  }

  lemma {:induction false} EmptyOrHead(s: seq<string>)
    ensures s == [] || s[0] in s
  {
  }

  method NodeLabels(app: App, incoming: seq<seq<string>>) returns (r: Result<seq<string>, FlowError>)
    requires Distinct(Ids(app)) && Incoming(Ids(app), Forward(app.edges), incoming)
    requires forall e :: e in app.edges ==> e.to in Ids(app)
    ensures r.Success? <==> LabelsAgree(app.edges)
    ensures r.Success? ==> LabelledBy(Ids(app), Forward(app.edges), r.value)
    ensures r.Failure? ==> r.error != Cycle
  {
    hide Forward;
    ghost var ids, arcs := Ids(app), Forward(app.edges);
    var labels := seq(|app.flow|, _ => "");
    for i := 0 to |app.flow|
      invariant |labels| == |app.flow| && forall v :: i <= v < |labels| ==> labels[v] == ""
      invariant forall v, l :: 0 <= v < i && l in incoming[v] ==> l == labels[v]
      invariant forall v :: 0 <= v < i && incoming[v] == [] ==> labels[v] == ""
    {
      if incoming[i] == [] { continue; }
      var first := incoming[i][0];
      for k := 0 to |incoming[i]|
        invariant forall m :: 0 <= m < k ==> incoming[i][m] == first
      {
        if incoming[i][k] != first {
          assert first in incoming[i] && incoming[i][k] in incoming[i];
          return Failure(ConflictingLabels(app.flow[i].id));
        }
      }
      labels := labels[i := first];
    }
    forall e, f | e in arcs && f in arcs && e.to == f.to ensures e.port == f.port {
      var v :| 0 <= v < |ids| && ids[v] == e.to;
      assert e.port in incoming[v] && f.port in incoming[v];
    }
    forall v | 0 <= v < |ids| && (forall e :: e in arcs ==> e.to != ids[v]) ensures labels[v] == "" {
      EmptyOrHead(incoming[v]);
    }
    r := Success(labels);
  }

  method CheckLoopStarts(app: App, labels: seq<string>) returns (r: Option<FlowError>)
    requires Distinct(Ids(app)) && LabelledBy(Ids(app), Forward(app.edges), labels)
    ensures r.None? <==> LoopStartsUnlabelled(app)
    ensures r.Some? ==> r.value != Cycle
  {
    hide Forward;
    ghost var ids := Ids(app);
    for i := 0 to |app.flow|
      invariant forall v :: 0 <= v < i && app.flow[v].typeId == LOOP_START_TYPE ==> labels[v] == ""
    {
      if app.flow[i].typeId == LOOP_START_TYPE && labels[i] != "" {
        assert exists e :: e in Forward(app.edges) && e.to == ids[i] && e.port == labels[i];
        return Some(LabelledLoopStart(app.flow[i].id));
      }
    }
    r := None;
  }

  /** What a successful ordering promises. */
  ghost predicate IsOrderOf(app: App, isSource: string -> bool, order: seq<nat>, loopEdge: Option<(nat, nat)>) {
    var ids, arcs := Ids(app), Forward(app.edges);
    && InRange(order, |ids|)
    && var names := Names(ids, order);
       && IsPermutation(names, ids) && IsTopological(names, arcs) && InQueueOrder(Elems(ids), arcs, names)
       && |order| > 0 && IsRoot(app, names[0]) && isSource(app.flow[order[0]].typeId)
       && (forall id :: id in ids ==> Reachable(arcs, names[0], id))
       && (loopEdge.None? ==> forall e :: e in app.edges ==> e.port != LOOP_BACK)
       && (loopEdge.Some? ==> var (a, b) := loopEdge.value;
             a < |ids| && b < |ids| && Edge(ids[a], LOOP_BACK, ids[b]) in app.edges)
  }

  /** The roots are the nodes no forward edge enters. */
  lemma {:induction false} RootsAreRoots(app: App, w: Wiring, roots: seq<nat>)
    requires Distinct(Ids(app)) && Wired(Ids(app), app.edges, w)
    requires Distinct(roots) && InRange(roots, |w.inDegree|)
    requires forall v :: 0 <= v < |w.inDegree| ==> (v in roots <==> w.inDegree[v] == 0)
    ensures forall v :: 0 <= v < |app.flow| ==> (v in roots <==> IsRoot(app, app.flow[v].id))
    ensures Frontier(Elems(Ids(app)), Forward(app.edges), Names(Ids(app), roots), 0, ByIds(Ids(app), w.inDegree))
  {
    hide PendingIn, Forward, OutOf;
    var ids, arcs := Ids(app), Forward(app.edges);
    forall v | 0 <= v < |app.flow| ensures v in roots <==> IsRoot(app, app.flow[v].id) {
      PendingZero(arcs, ids[v], {});
      assert app.flow[v].id == ids[v];
      if w.inDegree[v] == 0 {
        forall e | e in arcs ensures e.to != ids[v] {
          var i :| 0 <= i < |arcs| && arcs[i] == e;
        }
      }
    }
    NamesDistinct(ids, roots);
    forall x | x in Elems(ids) ensures x in Names(ids, roots) <==> ByIds(ids, w.inDegree)[x] == 0 {
      var v :| 0 <= v < |ids| && ids[v] == x;
      NamesHas(ids, roots, v);
    }
    FrontierStarts(Elems(ids), arcs, Names(ids, roots), ByIds(ids, w.inDegree));
  }

  lemma {:induction false} OneRoot(app: App, isSource: string -> bool, roots: seq<nat>)
    requires Distinct(Ids(app)) && Distinct(roots) && InRange(roots, |app.flow|)
    requires forall v :: 0 <= v < |app.flow| ==> (v in roots <==> IsRoot(app, app.flow[v].id))
    ensures SourceRooted(app, isSource) <==> |roots| == 1 && isSource(app.flow[roots[0]].typeId)
  {
    if SourceRooted(app, isSource) {
      RootedMeansOne(app, isSource, roots);
    }
    if |roots| == 1 && isSource(app.flow[roots[0]].typeId) {
      OneMeansRooted(app, isSource, roots);
    }
  }

  lemma {:induction false} TwoDiffer(s: seq<nat>)
    ensures Distinct(s) && |s| > 1 ==> s[0] != s[1]
  {
  }

  lemma {:induction false} RootedMeansOne(app: App, isSource: string -> bool, roots: seq<nat>)
    requires Distinct(Ids(app)) && Distinct(roots) && InRange(roots, |app.flow|)
    requires forall v :: 0 <= v < |app.flow| ==> (v in roots <==> IsRoot(app, app.flow[v].id))
    requires SourceRooted(app, isSource)
    ensures |roots| == 1 && isSource(app.flow[roots[0]].typeId)
  {
    hide IsRoot;
    var ids := Ids(app);
    var r :| 0 <= r < |app.flow| && IsRoot(app, app.flow[r].id) && isSource(app.flow[r].typeId)
             && forall id :: IsRoot(app, id) ==> id == app.flow[r].id;
    assert r in roots;
    forall i | 0 <= i < |roots| ensures roots[i] == r {
      assert roots[i] in roots;
      assert IsRoot(app, app.flow[roots[i]].id);
      assert ids[roots[i]] == ids[r];
    }
    TwoDiffer(roots);
  }

  lemma {:induction false} OneMeansRooted(app: App, isSource: string -> bool, roots: seq<nat>)
    requires Distinct(Ids(app)) && InRange(roots, |app.flow|)
    requires forall v :: 0 <= v < |app.flow| ==> (v in roots <==> IsRoot(app, app.flow[v].id))
    requires |roots| == 1 && isSource(app.flow[roots[0]].typeId)
    ensures SourceRooted(app, isSource)
  {
    var r := roots[0];
    assert r in roots && roots == [r];
    forall id | IsRoot(app, id) ensures id == app.flow[r].id {
      var v :| 0 <= v < |app.flow| && Ids(app)[v] == id;
      assert IsRoot(app, app.flow[v].id);
    }
    assert IsRoot(app, app.flow[r].id) && isSource(app.flow[r].typeId);
  }

  /** Every node of the order but the first is entered by some edge. */
  lemma {:induction false} OthersAreEntered(app: App, order: seq<nat>, root: nat, q: nat)
    requires Distinct(Ids(app)) && InRange(order, |app.flow|) && [root] <= order && Distinct(Names(Ids(app), order))
    requires forall v :: 0 <= v < |app.flow| ==> (v == root <==> IsRoot(app, app.flow[v].id))
    requires 0 < q < |order|
    ensures exists i :: 0 <= i < |Forward(app.edges)| && Forward(app.edges)[i].to == Names(Ids(app), order)[q]
  {
    hide Forward;
    var arcs, names := Forward(app.edges), Names(Ids(app), order);
    assert names[0] != names[q];
    assert !IsRoot(app, app.flow[order[q]].id);
    assert app.flow[order[q]].id == names[q];
    var e :| e in arcs && e.to == names[q];
    var i :| 0 <= i < |arcs| && arcs[i] == e;
  }

  /** A drained queue that covers the flow, from one root. */
  lemma {:induction false} CompleteOrder(app: App, order: seq<nat>, root: nat, rem: map<Id, int>)
    requires Distinct(Ids(app)) && EdgesOk(Ids(app), app.edges) && InRange(order, |app.flow|) && [root] <= order
    requires forall v :: 0 <= v < |app.flow| ==> (v == root <==> IsRoot(app, app.flow[v].id))
    requires Frontier(Elems(Ids(app)), Forward(app.edges), Names(Ids(app), order), |order|, rem)
    ensures |order| == |app.flow| <==> !HasCycle(Forward(app.edges))
    ensures |order| == |app.flow| ==>
              var ids, names := Ids(app), Names(Ids(app), order);
              && IsPermutation(names, ids) && IsTopological(names, Forward(app.edges))
              && forall id :: id in ids ==> Reachable(Forward(app.edges), names[0], id)
  {
    hide Forward, HasCycle, PendingIn, Reachable, OneLoopEdge, OneBranchSource, IsRoot, IsTopological;
    var ids, arcs, names := Ids(app), Forward(app.edges), Names(Ids(app), order);
    forall i | 0 <= i < |arcs| ensures arcs[i].from in Elems(ids) && arcs[i].to in Elems(ids) {
      assert arcs[i] in arcs;
    }
    Drained(Elems(ids), arcs, names, rem);
    ElemsSize(ids);
    ElemsSize(names);
    if |order| == |app.flow| {
      SameSizeSubset(Elems(names), Elems(ids));
      forall q | 0 < q < |names| ensures exists i :: 0 <= i < |arcs| && arcs[i].to == names[q] {
        OthersAreEntered(app, order, root, q);
      }
      forall id | id in ids ensures Reachable(arcs, names[0], id) {
        assert id in Elems(names);
        var p :| 0 <= p < |names| && names[p] == id;
        AllReachable(names, arcs, p);
      }
    }
  }

  lemma {:induction false} SameSizeSubset(a: set<Id>, b: set<Id>)
    requires a <= b && |a| == |b|
    ensures a == b
  {
    if a != b { ProperSubsetSize(a, b); }
  }

  lemma {:induction false} ProperSubsetSize(a: set<Id>, b: set<Id>)
    requires a <= b && a != b
    ensures |a| < |b|
  {
    var x :| x in b && x !in a;
    SubsetSize(a, b - {x});
  }

  lemma {:induction false} SubsetSize(a: set<Id>, b: set<Id>)
    requires a <= b
    ensures |a| <= |b|
  {
    if a != {} {
      var x :| x in a;
      SubsetSize(a - {x}, b - {x});
    }
  }

  /** The last part of the pass: every node's label, once all of them have been ordered. */
  method LabelNodes(app: App, incoming: seq<seq<string>>) returns (r: Result<seq<string>, FlowError>)
    requires Distinct(Ids(app)) && EdgesOk(Ids(app), app.edges)
    requires LabelsSeen(Ids(app), Forward(app.edges), incoming, Elems(Ids(app)), [])
    ensures r.Success? <==> LabelsAgree(app.edges) && LoopStartsUnlabelled(app)
    ensures r.Success? ==> LabelledBy(Ids(app), Forward(app.edges), r.value)
    ensures r.Failure? ==> r.error != Cycle
  {
    hide Forward, LabelsSeen, LabelsAgree, LoopStartsUnlabelled, LabelledBy, Incoming, OneLoopEdge, OneBranchSource;
    AllSeen(Ids(app), Forward(app.edges), incoming);
    var labels :- NodeLabels(app, incoming);
    var bad := CheckLoopStarts(app, labels);
    r := if bad.Some? then Failure(bad.value) else Success(labels);
  }

  lemma {:induction false} DegreesViewed(app: App, w: Wiring, root: nat, order: seq<nat>)
    requires Distinct(Ids(app)) && Wired(Ids(app), app.edges, w) && InRange(order, |app.flow|) && [root] <= order
    requires Names(Ids(app), order) ==
             Lined(Forward(app.edges), View(Ids(app), [root], w.inDegree), |order|).queue
    ensures InQueueOrder(Elems(Ids(app)), Forward(app.edges), Names(Ids(app), order))
  {
    hide Forward, OutOf, PendingIn, Lined, ListsOut;
    var ids := Ids(app);
    assert order[0] == root < |ids|;
    assert Names(ids, [root]) == [ids[root]];
    assert ByIds(ids, w.inDegree) == Degrees(Elems(ids), Forward(app.edges));
  }

  /** Everything before the labels: edges, root, order. */
  method OrderNodes(app: App, isSource: string -> bool, index: map<Id, nat>)
    returns (r: Result<(seq<nat>, Option<(nat, nat)>), FlowError>, incoming: seq<seq<string>>)
    requires Indexes(app, index)
    ensures r.Success? <==>
            EdgesOk(Ids(app), app.edges) && SourceRooted(app, isSource) && !HasCycle(Forward(app.edges))
    ensures r.Success? ==>
              && IsOrderOf(app, isSource, r.value.0, r.value.1)
              && LabelsSeen(Ids(app), Forward(app.edges), incoming, Elems(Ids(app)), [])
    ensures r == Failure(Cycle) ==> HasCycle(Forward(app.edges))
  {
    hide Forward, HasCycle, Frontier, LabelsSeen, SourceRooted, OneLoopEdge, EdgesOk,
      OneBranchSource, Reachable, IsRoot, IsTopological, OutOf, PendingIn, ByIds, ListsOut,
      Lined, InQueueOrder, View;
    ghost var ids := Ids(app);
    incoming := [];
    var wired := CollectEdges(app, index);
    if wired.Failure? { return Failure(wired.error), []; }
    var w := wired.value;
    var roots := FindRoots(w.inDegree);
    RootsAreRoots(app, w, roots);
    OneRoot(app, isSource, roots);
    if |roots| != 1 { return Failure(RootCount(|roots|)), []; }
    if !isSource(app.flow[roots[0]].typeId) { return Failure(RootNotSource(app.flow[roots[0]].id)), []; }
    assert roots == [roots[0]] && roots[0] in roots;
    var order, labels := RunKahn(ids, Forward(app.edges), w.adj, w.inDegree, roots);
    ghost var rem :| Frontier(Elems(ids), Forward(app.edges), Names(ids, order), |order|, rem);
    CompleteOrder(app, order, roots[0], rem);
    DegreesViewed(app, w, roots[0], order);
    if |order| != |app.flow| { return Failure(Cycle), []; }
    assert Elems(Names(ids, order)) == Elems(ids);
    r, incoming := Success((order, w.loopEdge)), labels;
  }

  /** `order_flow_graph`: it succeeds exactly on the schedulable graphs, and then the order is a
      topological permutation of the flow that starts at the one Source root and reaches every node. */
  method OrderFlowGraph(app: App, isSource: string -> bool) returns (r: Result<GraphOrder, FlowError>)
    ensures r.Success? <==> Distinct(Ids(app)) && Schedulable(app, isSource)
    ensures r.Success? ==>
              && IsOrderOf(app, isSource, r.value.order, r.value.loopEdge)
              && LabelledBy(Ids(app), Forward(app.edges), r.value.labels)
    ensures r == Failure(Cycle) ==> HasCycle(Forward(app.edges))
  {
    hide Forward, HasCycle, LabelsSeen, LabelsAgree, LoopStartsUnlabelled, SourceRooted, OneLoopEdge,
      OneBranchSource, LabelledBy, IsOrderOf;
    var index :- IndexIds(app);
    var ordered, incoming := OrderNodes(app, isSource, index);
    var pair :- ordered;
    var labels :- LabelNodes(app, incoming);
    r := Success(GraphOrder(pair.0, labels, pair.1));
  }
}
