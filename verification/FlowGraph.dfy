/** The flow graph: nodes, edges, walks, and what it takes for a graph to be schedulable
    (include/aero/runtime/flow_compiler.hpp, studio/src/application.ts). A cycle is a closed walk; a graph has none
    exactly when its nodes can be numbered so that every edge climbs, and both directions are proved here. */
module FlowGraph {
  import opened Wrappers
  import opened Sequences

  type Id = string

  datatype Node = Node(id: Id, typeId: string)

  /** `port` is empty, "true", "false" or "loop_back"; other texts occur only in rejected applications. */
  datatype Edge = Edge(from: Id, port: string, to: Id)

  datatype App = App(flow: seq<Node>, edges: seq<Edge>)

  const LOOP_BACK := "loop_back"
  const LOOP_START_TYPE := "aero.flow.loop_start"
  const LOOP_BACK_TYPE := "aero.flow.loop_back"
  const SWITCH_TYPE := "aero.flow.switch"

  function Ids(app: App): seq<Id> {
    seq(|app.flow|, i requires 0 <= i < |app.flow| => app.flow[i].id)
  }

  /** No earlier node has the id of node `k`. */
  ghost predicate IsFirst(flow: seq<Node>, k: nat) {
    k < |flow| && forall j :: 0 <= j < k ==> flow[j].id != flow[k].id
  }

  /** All edges except the loop's jump back, which takes no part in the ordering. */
  function Forward(edges: seq<Edge>): (r: seq<Edge>)
    ensures forall e :: e in r <==> e in edges && e.port != LOOP_BACK
  {
    if edges == [] then []
    else
      var n := |edges| - 1;
      Forward(edges[..n]) + (if edges[n].port == LOOP_BACK then [] else [edges[n]])
  }

  // ----- walks and cycles -----

  ghost predicate Linked(arcs: seq<Edge>, a: Id, b: Id) {
    exists i :: 0 <= i < |arcs| && arcs[i].from == a && arcs[i].to == b
  }

  ghost predicate IsWalk(arcs: seq<Edge>, p: seq<Id>) {
    |p| >= 1 && forall i :: 0 <= i < |p| - 1 ==> Linked(arcs, p[i], p[i + 1])
  }

  ghost predicate IsCycle(arcs: seq<Edge>, p: seq<Id>) {
    |p| >= 2 && IsWalk(arcs, p) && p[0] == p[|p| - 1]
  }

  ghost predicate HasCycle(arcs: seq<Edge>) {
    exists p :: IsCycle(arcs, p)
  }

  ghost predicate WalkFromTo(arcs: seq<Edge>, p: seq<Id>, a: Id, b: Id) {
    IsWalk(arcs, p) && p[0] == a && p[|p| - 1] == b
  }

  ghost predicate Reachable(arcs: seq<Edge>, a: Id, b: Id) {
    exists p :: WalkFromTo(arcs, p, a, b)
  }

  /** Every edge goes from a smaller to a larger number. */
  ghost predicate Ranks(arcs: seq<Edge>, rank: map<Id, int>) {
    forall i :: 0 <= i < |arcs| ==>
      arcs[i].from in rank && arcs[i].to in rank && rank[arcs[i].from] < rank[arcs[i].to]
  }

  lemma {:induction false} WalkClimbs(arcs: seq<Edge>, rank: map<Id, int>, p: seq<Id>)
    requires Ranks(arcs, rank) && IsWalk(arcs, p) && |p| >= 2
    ensures p[0] in rank && p[|p| - 1] in rank && rank[p[0]] < rank[p[|p| - 1]]
    decreases |p|
  {
    assert Linked(arcs, p[0], p[1]);
    if |p| > 2 {
      var q := p[1..];
      forall i | 0 <= i < |q| - 1 ensures Linked(arcs, q[i], q[i + 1]) {
        assert Linked(arcs, p[i + 1], p[i + 2]);
      }
      WalkClimbs(arcs, rank, q);
    }
  }

  lemma {:induction false} RankedIsAcyclic(arcs: seq<Edge>, rank: map<Id, int>)
    requires Ranks(arcs, rank)
    ensures !HasCycle(arcs)
  {
    forall p | IsCycle(arcs, p) ensures false {
      WalkClimbs(arcs, rank, p);
    }
  }

  /** A list without repetitions is no longer than the set it draws from. */
  lemma {:induction false} Pigeonhole(p: seq<Id>, S: set<Id>)
    requires Distinct(p) && Elems(p) <= S
    ensures |p| <= |S|
    decreases |p|
  {
    if p != [] {
      var n := |p| - 1;
      assert p[n] in S;
      forall x | x in Elems(p[..n]) ensures x in S - {p[n]} {
        var i :| 0 <= i < n && p[i] == x;
        assert p[i] in Elems(p);
      }
      Pigeonhole(p[..n], S - {p[n]});
    }
  }

  ghost predicate HasPredecessorIn(arcs: seq<Edge>, S: set<Id>, v: Id) {
    exists u :: u in S && Linked(arcs, u, v)
  }

  ghost predicate NoSource(arcs: seq<Edge>, S: set<Id>) {
    S != {} && forall v :: v in S ==> HasPredecessorIn(arcs, S, v)
  }

  lemma {:induction false} Predecessor(arcs: seq<Edge>, S: set<Id>, v: Id) returns (u: Id)
    requires HasPredecessorIn(arcs, S, v)
    ensures u in S && Linked(arcs, u, v)
  {
    u :| u in S && Linked(arcs, u, v);
  }

  /** Following predecessors inside `S` gives walks of every length. */
  lemma {:induction false} BackwardWalk(arcs: seq<Edge>, S: set<Id>, n: nat) returns (p: seq<Id>)
    requires NoSource(arcs, S)
    ensures |p| == n + 1 && IsWalk(arcs, p) && Elems(p) <= S
  {
    hide HasPredecessorIn, Linked;
    if n == 0 {
      var v :| v in S;
      p := [v];
    } else {
      var q := BackwardWalk(arcs, S, n - 1);
      assert q[0] in Elems(q);
      var u := Predecessor(arcs, S, q[0]);
      p := [u] + q;
      forall i | 0 <= i < |p| - 1 ensures Linked(arcs, p[i], p[i + 1]) {
        if i > 0 { assert p[i] == q[i - 1] && p[i + 1] == q[i]; }
      }
    }
  }

  /** A finite set in which everyone has a predecessor contains a cycle. */
  lemma {:induction false} NoSourceMeansCycle(arcs: seq<Edge>, S: set<Id>)
    requires NoSource(arcs, S)
    ensures HasCycle(arcs)
  {
    hide HasPredecessorIn, Linked;
    var p := BackwardWalk(arcs, S, |S|);
    if Distinct(p) { Pigeonhole(p, S); }
    var i, j :| 0 <= i < j < |p| && p[i] == p[j];
    var c := p[i..j + 1];
    forall k | 0 <= k < |c| - 1 ensures Linked(arcs, c[k], c[k + 1]) {
      assert c[k] == p[i + k] && c[k + 1] == p[i + k + 1];
    }
    assert IsCycle(arcs, c);
  }

  /** A graph without cycles can be numbered so that every edge climbs. */
  lemma {:induction false} AcyclicHasRanks(arcs: seq<Edge>, S: set<Id>, low: int) returns (rank: map<Id, int>)
    requires !HasCycle(arcs)
    ensures rank.Keys == S && forall v :: v in S ==> rank[v] >= low
    ensures forall i :: 0 <= i < |arcs| && arcs[i].from in S && arcs[i].to in S ==>
              rank[arcs[i].from] < rank[arcs[i].to]
    decreases |S|
  {
    hide HasCycle, HasPredecessorIn;
    if S == {} { return map[]; }
    if NoSource(arcs, S) { NoSourceMeansCycle(arcs, S); }
    var v :| v in S && !HasPredecessorIn(arcs, S, v);
    var rest := AcyclicHasRanks(arcs, S - {v}, low + 1);
    rank := rest[v := low];
    forall i | 0 <= i < |arcs| && arcs[i].from in S && arcs[i].to in S
      ensures rank[arcs[i].from] < rank[arcs[i].to]
    {
      NotEntered(arcs, S, v, i);
    }
  }

  lemma {:induction false} NotEntered(arcs: seq<Edge>, S: set<Id>, v: Id, i: nat)
    requires !HasPredecessorIn(arcs, S, v) && i < |arcs| && arcs[i].from in S
    ensures arcs[i].to != v
  {
    assert Linked(arcs, arcs[i].from, arcs[i].to);
  }

  lemma {:induction false} WalkExtends(arcs: seq<Edge>, a: Id, u: Id, v: Id)
    requires Reachable(arcs, a, u) && Linked(arcs, u, v)
    ensures Reachable(arcs, a, v)
  {
    var p :| WalkFromTo(arcs, p, a, u);
    var q := p + [v];
    forall i | 0 <= i < |q| - 1 ensures Linked(arcs, q[i], q[i + 1]) {
      if i < |p| - 1 { assert q[i] == p[i] && q[i + 1] == p[i + 1]; }
    }
    assert WalkFromTo(arcs, q, a, v);
  }

  // ----- schedulable graphs -----

  ghost predicate IsRoot(app: App, id: Id) {
    id in Ids(app) && forall e :: e in Forward(app.edges) ==> e.to != id
  }

  ghost predicate EndpointsKnown(app: App) {
    forall e :: e in app.edges ==> e.from in Ids(app) && e.to in Ids(app)
  }

  ghost predicate PortsKnown(app: App) {
    forall e :: e in app.edges ==> e.port in {"", "true", "false", LOOP_BACK}
  }

  ghost predicate OneLoopEdge(edges: seq<Edge>) {
    forall i, j :: 0 <= i < j < |edges| ==> edges[i].port != LOOP_BACK || edges[j].port != LOOP_BACK
  }

  /** Labelled forward edges all leave one node. */
  ghost predicate OneBranchSource(edges: seq<Edge>) {
    forall e, f :: e in Forward(edges) && f in Forward(edges) && e.port != "" && f.port != "" ==> e.from == f.from
  }

  /** Forward edges into one node carry one label. */
  ghost predicate LabelsAgree(edges: seq<Edge>) {
    forall e, f :: e in Forward(edges) && f in Forward(edges) && e.to == f.to ==> e.port == f.port
  }

  ghost predicate LoopStartsUnlabelled(app: App) {
    forall i, e :: 0 <= i < |app.flow| && e in Forward(app.edges) && e.to == app.flow[i].id ==>
      app.flow[i].typeId == LOOP_START_TYPE ==> e.port == ""
  }

  /** Exactly one root, and it is a Source. */
  ghost predicate SourceRooted(app: App, isSource: string -> bool) {
    exists r :: 0 <= r < |app.flow| && IsRoot(app, app.flow[r].id) && isSource(app.flow[r].typeId)
                && forall id :: IsRoot(app, id) ==> id == app.flow[r].id
  }

  /** What deploy demands of a graph with distinct node ids. */
  ghost predicate Schedulable(app: App, isSource: string -> bool) {
    && EndpointsKnown(app) && PortsKnown(app)
    && OneLoopEdge(app.edges) && OneBranchSource(app.edges)
    && SourceRooted(app, isSource) && !HasCycle(Forward(app.edges))
    && LabelsAgree(app.edges) && LoopStartsUnlabelled(app)
  }

  // ----- topological orders -----

  ghost predicate IsPermutation(order: seq<Id>, ids: seq<Id>) {
    Distinct(order) && Elems(order) == Elems(ids)
  }

  /** Every edge's source stands before its target. */
  ghost predicate IsTopological(order: seq<Id>, arcs: seq<Edge>) {
    forall i, p :: 0 <= i < |arcs| && 0 <= p < |order| && order[p] == arcs[i].to ==> arcs[i].from in order[..p]
  }

  ghost function Positions(order: seq<Id>): map<Id, int>
    requires Distinct(order)
  {
    map p | 0 <= p < |order| :: order[p] := p
  }

  lemma {:induction false} TopologicalIsAcyclic(order: seq<Id>, arcs: seq<Edge>)
    requires Distinct(order) && IsTopological(order, arcs)
    requires forall i :: 0 <= i < |arcs| ==> arcs[i].to in order
    ensures Ranks(arcs, Positions(order)) && !HasCycle(arcs)
  {
    var rank := Positions(order);
    forall i | 0 <= i < |arcs|
      ensures arcs[i].from in rank && arcs[i].to in rank && rank[arcs[i].from] < rank[arcs[i].to]
    {
      var p :| 0 <= p < |order| && order[p] == arcs[i].to;
      assert arcs[i].from in order[..p];
      var q :| 0 <= q < p && order[..p][q] == arcs[i].from;
      assert order[q] == arcs[i].from;
      assert rank[order[q]] == q && rank[order[p]] == p;
    }
    RankedIsAcyclic(arcs, rank);
  }

  /** In a topological order, everything is reachable from the only node without incoming edges. */
  lemma {:induction false} AllReachable(order: seq<Id>, arcs: seq<Edge>, p: nat)
    requires p < |order| && IsTopological(order, arcs)
    requires forall q :: 0 < q < |order| ==> exists i :: 0 <= i < |arcs| && arcs[i].to == order[q]
    ensures Reachable(arcs, order[0], order[p])
    decreases p
  {
    if p == 0 {
      assert WalkFromTo(arcs, [order[0]], order[0], order[0]);
    } else {
      var i :| 0 <= i < |arcs| && arcs[i].to == order[p];
      assert arcs[i].from in order[..p];
      var q :| 0 <= q < p && order[..p][q] == arcs[i].from;
      assert order[q] == arcs[i].from;
      AllReachable(order, arcs, q);
      WalkExtends(arcs, order[0], order[q], order[p]);
    }
  }
}
