/** Flows whose forward edges form a tree, drawn level by level: deploy runs them in the order in which they are drawn
    (include/aero/runtime/flow_compiler.hpp). */
module TreeFlows {
  import opened Wrappers
  import opened Sequences
  import opened FlowGraph
  import opened FlowOrdering
  import FlowCompiler

  /** Node `k + 1` hangs under node `under[k]` by an edge labelled `ports[k]`. */
  datatype Drawing = Drawing(ids: seq<Id>, under: seq<nat>, ports: seq<string>)

  /** Every node hangs under an earlier one, and those under one node come before those under a later one. */
  ghost predicate Drawn(d: Drawing) {
    && Distinct(d.ids) && |d.ids| == |d.under| + 1 && |d.ports| == |d.under|
    && (forall k :: 0 <= k < |d.under| ==> d.under[k] <= k)
    && (forall j, k :: 0 <= j < k < |d.under| ==> d.under[j] <= d.under[k])
  }

  function Arcs(d: Drawing): (r: seq<Edge>)
    requires Drawn(d)
    ensures |r| == |d.under|
    ensures forall k :: 0 <= k < |r| ==> r[k] == Edge(d.ids[d.under[k]], d.ports[k], d.ids[k + 1])
  {
    seq(|d.under|, k requires 0 <= k < |d.under| => Edge(d.ids[d.under[k]], d.ports[k], d.ids[k + 1]))
  }

  /** The application has these nodes and, apart from a loop edge, these edges. */
  ghost predicate Draws(app: App, d: Drawing) {
    Drawn(d) && Ids(app) == d.ids && Forward(app.edges) == Arcs(d)
  }

  // ----- it is well-formed -----

  lemma {:induction false} Acyclic(d: Drawing)
    requires Drawn(d)
    ensures !HasCycle(Arcs(d))
  {
    hide HasCycle;
    var rank, arcs := Positions(d.ids), Arcs(d);
    forall k | 0 <= k < |arcs|
      ensures arcs[k].from in rank && arcs[k].to in rank && rank[arcs[k].from] < rank[arcs[k].to]
    {
      assert rank[d.ids[d.under[k]]] == d.under[k] && rank[d.ids[k + 1]] == k + 1;
    }
    RankedIsAcyclic(arcs, rank);
  }

  /** The edge into node `k`. */
  lemma {:induction false} EnteredOnce(d: Drawing, e: Edge) returns (k: nat)
    requires Drawn(d) && e in Arcs(d)
    ensures k < |d.under| && e == Arcs(d)[k] && e.from in d.ids && e.to in d.ids
    ensures forall j :: 0 <= j < |d.ids| && d.ids[j] == e.to ==> j == k + 1
  {
    k :| 0 <= k < |Arcs(d)| && Arcs(d)[k] == e;
  }

  lemma {:induction false} NoOtherRoot(app: App, d: Drawing, v: nat)
    requires Draws(app, d) && v < |d.ids|
    ensures v > 0 ==> !IsRoot(app, d.ids[v])
  {
    hide Forward;
    if v > 0 { assert Arcs(d)[v - 1] in Arcs(d); }
  }

  lemma {:induction false} OneRoot(app: App, d: Drawing, isSource: string -> bool)
    requires Draws(app, d) && isSource(app.flow[0].typeId)
    ensures SourceRooted(app, isSource)
    ensures forall id :: IsRoot(app, id) ==> id == d.ids[0]
  {
    hide Forward;
    var arcs := Arcs(d);
    forall id | IsRoot(app, id) ensures id == d.ids[0] {
      var v :| 0 <= v < |d.ids| && d.ids[v] == id;
      NoOtherRoot(app, d, v);
    }
    forall e | e in arcs ensures e.to != d.ids[0] {
      var k := EnteredOnce(d, e);
    }
    assert Ids(app)[0] == app.flow[0].id && d.ids[0] in d.ids;
    assert IsRoot(app, app.flow[0].id);
  }

  lemma {:induction false} LabelsFit(app: App, d: Drawing)
    requires Draws(app, d)
    ensures LabelsAgree(app.edges)
  {
    hide Forward;
    forall e, f | e in Arcs(d) && f in Arcs(d) && e.to == f.to ensures e.port == f.port {
      var j := EnteredOnce(d, e);
      var k := EnteredOnce(d, f);
      assert d.ids[j + 1] == d.ids[k + 1];
    }
  }

  /** A node's label is that of the edge it hangs by. */
  lemma {:induction false} Labels(d: Drawing, labels: seq<string>)
    requires Drawn(d) && FlowCompiler.LabelledBy(d.ids, Arcs(d), labels)
    ensures labels == [""] + d.ports
  {
    forall e | e in Arcs(d) ensures e.to != d.ids[0] {
      var k := EnteredOnce(d, e);
    }
    forall k | 0 <= k < |d.under| ensures labels[k + 1] == d.ports[k] { assert Arcs(d)[k] in Arcs(d); }
  }

  // ----- in what order it runs -----

  /** What leaves a node, and how many edges enter it, one edge at a time. */
  lemma {:induction false} OneMoreEdge(es: seq<Edge>, e: Edge, u: Id)
    ensures OutOf(es + [e], u) == if e.from == u then OutOf(es, u) + [e] else OutOf(es, u)
    ensures PendingIn(es + [e], u, {}) == PendingIn(es, u, {}) + if e.to == u then 1 else 0
  {
    hide OutOf, PendingIn;
    FlowCompiler.OutOfLast(es, e, u);
    PendingLast(es, e, u, {});
  }

  lemma {:induction false} NoEdges(u: Id)
    ensures OutOf([], u) == [] && PendingIn([], u, {}) == 0
  {
  }

  /** Which edges leave node `n`: those from the first that hangs something under `n` or later on, up to the first that
      does so under a later node. */
  function FirstUnder(under: seq<nat>, n: nat): (w: nat)
    ensures w <= |under| && (forall k :: 0 <= k < w ==> under[k] < n) && (w < |under| ==> under[w] >= n)
  {
    if under == [] then 0
    else
      var w := FirstUnder(under[..|under| - 1], n);
      if w < |under| - 1 || under[w] >= n then w else w + 1
  }

  lemma {:induction false} FirstUnderExact(d: Drawing, n: nat, k: nat)
    requires Drawn(d) && k < |d.under|
    ensures d.under[k] < n <==> k < FirstUnder(d.under, n)
  {
    hide FirstUnder;
    var w := FirstUnder(d.under, n);
    if w <= k { assert d.under[w] <= d.under[k]; }
  }

  /** Node `n` has been queued by the time it is up. */
  lemma {:induction false} QueuedInTime(d: Drawing, n: nat)
    requires Drawn(d) && n <= |d.under|
    ensures n <= FirstUnder(d.under, n) <= FirstUnder(d.under, n + 1)
    ensures FirstUnder(d.under, |d.ids|) == |d.under| && FirstUnder(d.under, 0) == 0
  {
    hide FirstUnder;
    var w, m := FirstUnder(d.under, n), |d.under|;
    if n > 0 { FirstUnderExact(d, n, n - 1); }
    if w > 0 {
      FirstUnderExact(d, n, w - 1);
      FirstUnderExact(d, n + 1, w - 1);
    }
    if m > 0 {
      FirstUnderExact(d, |d.ids|, m - 1);
      FirstUnderExact(d, 0, 0);
    }
  }

  function Clip(w: nat, j: nat): nat {
    if w < j then w else j
  }

  /** The part of [v, w) below `j`. */
  function Below(arcs: seq<Edge>, v: nat, w: nat, j: nat): seq<Edge>
    requires v <= w && j <= |arcs|
  {
    arcs[Clip(v, j)..Clip(w, j)]
  }

  lemma {:induction false} BelowNext(arcs: seq<Edge>, v: nat, w: nat, j: nat)
    requires v <= w && j < |arcs|
    ensures Below(arcs, v, w, j + 1) == if v <= j < w then Below(arcs, v, w, j) + [arcs[j]] else Below(arcs, v, w, j)
  {
  }

  lemma {:induction false} OutsNext(arcs: seq<Edge>, u: Id, v: nat, w: nat, j: nat)
    requires v <= w && j < |arcs| && OutOf(arcs[..j], u) == Below(arcs, v, w, j)
    requires arcs[j].from == u <==> v <= j < w
    ensures OutOf(arcs[..j + 1], u) == Below(arcs, v, w, j + 1)
  {
    hide OutOf, PendingIn, Below;
    OneMoreEdge(arcs[..j], arcs[j], u);
    BelowNext(arcs, v, w, j);
    assert arcs[..j + 1] == arcs[..j] + [arcs[j]];
  }

  lemma {:induction false} OutsAmong(d: Drawing, n: nat, j: nat)
    requires Drawn(d) && n < |d.ids| && j <= |d.under|
    ensures FirstUnder(d.under, n) <= FirstUnder(d.under, n + 1)
    ensures OutOf(Arcs(d)[..j], d.ids[n]) == Below(Arcs(d), FirstUnder(d.under, n), FirstUnder(d.under, n + 1), j)
    decreases j
  {
    hide OutOf, FirstUnder, Below, Drawn, Arcs;
    OutsInOrder(d, n);
    if j == 0 {
      NoEdges(d.ids[n]);
      BelowNothing(Arcs(d), FirstUnder(d.under, n), FirstUnder(d.under, n + 1));
      assert Arcs(d)[..0] == [];
    } else {
      OutsAmong(d, n, j - 1);
      FirstUnderExact(d, n, j - 1);
      FirstUnderExact(d, n + 1, j - 1);
      LeavesNode(d, n, j - 1);
      OutsNext(Arcs(d), d.ids[n], FirstUnder(d.under, n), FirstUnder(d.under, n + 1), j - 1);
    }
  }

  lemma {:induction false} OutsInOrder(d: Drawing, n: nat)
    requires Drawn(d) && n < |d.ids|
    ensures FirstUnder(d.under, n) <= FirstUnder(d.under, n + 1)
  {
    hide FirstUnder;
    QueuedInTime(d, n);
  }

  lemma {:induction false} BelowNothing(arcs: seq<Edge>, v: nat, w: nat)
    requires v <= w
    ensures Below(arcs, v, w, 0) == []
  {
  }

  lemma {:induction false} LeavesNode(d: Drawing, n: nat, k: nat)
    requires Drawn(d) && n < |d.ids| && k < |d.under|
    ensures Arcs(d)[k].from == d.ids[n] <==> d.under[k] == n
  {
  }

  lemma {:induction false} Outs(d: Drawing, n: nat)
    requires Drawn(d) && n < |d.ids|
    ensures FirstUnder(d.under, n) <= FirstUnder(d.under, n + 1) <= |Arcs(d)|
    ensures OutOf(Arcs(d), d.ids[n]) == Arcs(d)[FirstUnder(d.under, n)..FirstUnder(d.under, n + 1)]
  {
    hide OutOf, FirstUnder;
    OutsAmong(d, n, |d.under|);
    assert Arcs(d)[..|d.under|] == Arcs(d);
  }

  lemma {:induction false} Entering(d: Drawing, n: nat, j: nat)
    requires Drawn(d) && n < |d.ids| && j <= |d.under|
    ensures PendingIn(Arcs(d)[..j], d.ids[n], {}) == if 0 < n <= j then 1 else 0
    decreases j
  {
    hide OutOf, PendingIn;
    var arcs, u := Arcs(d), d.ids[n];
    if j == 0 {
      NoEdges(u);
    } else {
      Entering(d, n, j - 1);
      OneMoreEdge(arcs[..j - 1], arcs[j - 1], u);
      assert arcs[..j] == arcs[..j - 1] + [arcs[j - 1]];
      assert arcs[j - 1].to == u <==> j == n;
    }
  }

  ghost function Started(d: Drawing): Line
    requires Drawn(d)
  {
    Line([d.ids[0]], Degrees(Elems(d.ids), Arcs(d)))
  }

  lemma {:induction false} StartedCounts(d: Drawing, n: nat)
    requires Drawn(d) && n < |d.ids|
    ensures d.ids[n] in Started(d).rem && Started(d).rem[d.ids[n]] == if n == 0 then 0 else 1
  {
    hide PendingIn;
    Entering(d, n, |d.under|);
    assert Arcs(d)[..|d.under|] == Arcs(d) && d.ids[n] in Elems(d.ids);
  }

  lemma {:induction false} RelaxedNext(es: seq<Edge>, e: Edge, line: Line)
    ensures Relaxed(es + [e], line) ==
            var Line(queue, rem) := Relaxed(es, line);
            if e.to !in rem then Line(queue, rem)
            else Line(if rem[e.to] == 1 then queue + [e.to] else queue, rem[e.to := rem[e.to] - 1])
  {
    assert (es + [e])[..|es|] == es;
  }

  lemma {:induction false} RelaxedTwice(xs: seq<Edge>, ys: seq<Edge>, line: Line)
    ensures Relaxed(xs + ys, line) == Relaxed(ys, Relaxed(xs, line))
    decreases |ys|
  {
    if ys == [] {
      assert xs + ys == xs;
    } else {
      hide Relaxed;
      var n := |ys| - 1;
      RelaxedTwice(xs, ys[..n], line);
      RelaxedNext(xs + ys[..n], ys[n], line);
      RelaxedNext(ys[..n], ys[n], Relaxed(xs, line));
      assert xs + ys == xs + ys[..n] + [ys[n]] && ys == ys[..n] + [ys[n]];
    }
  }

  /** The first `j + 1` nodes are queued, and one edge is pending into each of the others. */
  ghost predicate Queued(d: Drawing, l: Line, j: nat)
    requires j < |d.ids|
  {
    && l.queue == d.ids[..j + 1]
    && forall k :: j < k < |d.ids| ==> d.ids[k] in l.rem && l.rem[d.ids[k]] == 1
  }

  lemma {:induction false} QueuedFirst(d: Drawing)
    requires Drawn(d)
    ensures Queued(d, Started(d), 0)
  {
    hide Degrees;
    forall k | 0 < k < |d.ids| ensures d.ids[k] in Started(d).rem && Started(d).rem[d.ids[k]] == 1 {
      StartedCounts(d, k);
    }
  }

  lemma {:induction false} QueuedNext(d: Drawing, l: Line, j: nat)
    requires Drawn(d) && j + 1 < |d.ids| && Queued(d, l, j)
    ensures var v := d.ids[j + 1];
            v in l.rem && l.rem[v] == 1 && Queued(d, Line(l.queue + [v], l.rem[v := 0]), j + 1)
  {
    assert d.ids[..j + 2] == d.ids[..j + 1] + [d.ids[j + 1]];
  }

  /** Relaxing the first `j` edges queues the first `j + 1` nodes. */
  lemma {:induction false} QueuesAsDrawn(d: Drawing, j: nat)
    requires Drawn(d) && j <= |d.under|
    ensures Queued(d, Relaxed(Arcs(d)[..j], Started(d)), j)
    decreases j
  {
    hide Relaxed, Started, Queued, Lined;
    var arcs, l0 := Arcs(d), Started(d);
    if j == 0 {
      LinedStarts(arcs, l0);
      assert arcs[..0] == [];
      QueuedFirst(d);
    } else {
      QueuesAsDrawn(d, j - 1);
      RelaxedNext(arcs[..j - 1], arcs[j - 1], l0);
      assert arcs[..j] == arcs[..j - 1] + [arcs[j - 1]];
      QueuedNext(d, Relaxed(arcs[..j - 1], l0), j - 1);
    }
  }

  lemma {:induction false} LinedNext(arcs: seq<Edge>, line: Line, n: nat)
    requires n < |Lined(arcs, line, n).queue|
    ensures Lined(arcs, line, n + 1) == Relaxed(OutOf(arcs, Lined(arcs, line, n).queue[n]), Lined(arcs, line, n))
  {
  }

  lemma {:induction false} LinedStarts(arcs: seq<Edge>, line: Line)
    ensures Lined(arcs, line, 0) == line && Relaxed([], line) == line
  {
  }

  /** After `n` nodes, exactly the edges that leave them have been relaxed, in the order drawn. */
  lemma {:induction false} LinedAsDrawn(d: Drawing, n: nat)
    requires Drawn(d) && n <= |d.ids|
    ensures Lined(Arcs(d), Started(d), n) == Relaxed(Arcs(d)[..FirstUnder(d.under, n)], Started(d))
    decreases n
  {
    hide Lined, Relaxed, FirstUnder, Started;
    if n == 0 {
      QueuedInTime(d, 0);
      assert Arcs(d)[..0] == [];
      LinedStarts(Arcs(d), Started(d));
    } else {
      LinedAsDrawn(d, n - 1);
      NodeAsDrawn(d, n - 1);
    }
  }

  lemma {:induction false} NodeAsDrawn(d: Drawing, n: nat)
    requires Drawn(d) && n < |d.ids|
    requires Lined(Arcs(d), Started(d), n) == Relaxed(Arcs(d)[..FirstUnder(d.under, n)], Started(d))
    ensures Lined(Arcs(d), Started(d), n + 1) == Relaxed(Arcs(d)[..FirstUnder(d.under, n + 1)], Started(d))
  {
    hide Lined, Relaxed, OutOf, Started, FirstUnder;
    var arcs, l0 := Arcs(d), Started(d);
    var v, w := FirstUnder(d.under, n), FirstUnder(d.under, n + 1);
    QueuedInTime(d, n);
    Outs(d, n);
    QueuesAsDrawn(d, v);
    assert Lined(arcs, l0, n).queue[n] == d.ids[n];
    LinedNext(arcs, l0, n);
    RelaxedTwice(arcs[..v], arcs[v..w], l0);
    Spliced(arcs, v, w);
  }

  lemma {:induction false} Spliced(arcs: seq<Edge>, v: nat, w: nat)
    requires v <= w <= |arcs|
    ensures arcs[..w] == arcs[..v] + arcs[v..w]
  {
  }

  lemma {:induction false} QueueOrder(d: Drawing)
    requires Drawn(d)
    ensures Lined(Arcs(d), Started(d), |d.ids|).queue == d.ids
  {
    hide Lined, Relaxed, Started, FirstUnder;
    LinedAsDrawn(d, |d.ids|);
    QueuedInTime(d, 0);
    QueuesAsDrawn(d, |d.under|);
    assert d.ids[..|d.ids|] == d.ids;
  }

  /** `order` numbers the nodes as they are listed. */
  lemma {:induction false} AsListed(ids: seq<Id>, order: seq<nat>, k: nat)
    requires Distinct(ids) && FlowCompiler.InRange(order, |ids|) && FlowCompiler.Names(ids, order) == ids
    requires k < |order|
    ensures order[k] == k
  {
    var v := order[k];
    assert FlowCompiler.Names(ids, order)[k] == ids[v];
  }

  /** Deploy runs the nodes as drawn. */
  lemma {:induction false} RunsAsDrawn(
    app: App, d: Drawing, isSource: string -> bool, order: seq<nat>, loopEdge: Option<(nat, nat)>)
    requires Draws(app, d) && isSource(app.flow[0].typeId)
    requires FlowCompiler.IsOrderOf(app, isSource, order, loopEdge) && |order| == |d.ids|
    ensures forall k :: 0 <= k < |order| ==> order[k] == k
  {
    hide Forward, IsRoot, Reachable, IsTopological, Lined, Degrees, Ids, Drawn;
    OneRoot(app, d, isSource);
    var names := FlowCompiler.Names(d.ids, order);
    assert names[0] == d.ids[0];
    QueueOrder(d);
    assert names == d.ids;
    forall k: nat | k < |order| ensures order[k] == k { DistinctIds(d); AsListed(d.ids, order, k); }
  }

  lemma {:induction false} DistinctIds(d: Drawing)
    requires Drawn(d)
    ensures Distinct(d.ids)
  {
  }
}
