/** Kahn's algorithm, as both the deploy-time compiler and the Studio run it.

    `Frontier` is the invariant between nodes and `Midway` the one while a node's edges are relaxed: counters are the
    edges still pending, the queue holds exactly the nodes with none, in topological order. A drained queue that misses
    a node leaves a set in which every node is entered from within, hence a cycle. */
module FlowOrdering {
  import opened Sequences
  import opened FlowGraph

  /** Edges into `v` whose source is not yet done. */
  function PendingIn(arcs: seq<Edge>, v: Id, done: set<Id>): nat {
    if arcs == [] then 0
    else
      var n := |arcs| - 1;
      PendingIn(arcs[..n], v, done) + (if arcs[n].to == v && arcs[n].from !in done then 1 else 0)
  }

  function OutOf(arcs: seq<Edge>, u: Id): (r: seq<Edge>)
    ensures forall e :: e in r <==> e in arcs && e.from == u
  {
    if arcs == [] then []
    else
      var n := |arcs| - 1;
      OutOf(arcs[..n], u) + (if arcs[n].from == u then [arcs[n]] else [])
  }

  lemma {:induction false} PendingLast(arcs: seq<Edge>, e: Edge, v: Id, done: set<Id>)
    ensures PendingIn(arcs + [e], v, done) ==
            PendingIn(arcs, v, done) + (if e.to == v && e.from !in done then 1 else 0)
  {
    assert (arcs + [e])[..|arcs|] == arcs;
  }

  lemma {:induction false} PendingSplit(arcs: seq<Edge>, v: Id, done: set<Id>, u: Id)
    requires u !in done
    ensures PendingIn(arcs, v, done) == PendingIn(arcs, v, done + {u}) + PendingIn(OutOf(arcs, u), v, {})
  {
    if arcs != [] {
      var n := |arcs| - 1;
      var e, o := arcs[n], OutOf(arcs[..n], u);
      assert arcs == arcs[..n] + [e];
      assert OutOf(arcs, u) == if e.from == u then o + [e] else o;
      PendingSplit(arcs[..n], v, done, u);
      hide PendingIn, OutOf;
      PendingLast(arcs[..n], e, v, done);
      PendingLast(arcs[..n], e, v, done + {u});
      PendingLast(o, e, v, {});
    }
  }

  lemma {:induction false} PendingZero(arcs: seq<Edge>, v: Id, done: set<Id>)
    ensures PendingIn(arcs, v, done) == 0 <==>
            forall i :: 0 <= i < |arcs| && arcs[i].to == v ==> arcs[i].from in done
  {
    if arcs != [] {
      var n := |arcs| - 1;
      PendingZero(arcs[..n], v, done);
      if forall i :: 0 <= i < |arcs| && arcs[i].to == v ==> arcs[i].from in done {
        forall i | 0 <= i < n && arcs[..n][i].to == v ensures arcs[..n][i].from in done {
          assert arcs[i].to == v;
        }
      }
      if PendingIn(arcs, v, done) == 0 {
        forall i | 0 <= i < |arcs| && arcs[i].to == v ensures arcs[i].from in done {
          if i < n { assert arcs[..n][i] == arcs[i]; }
        }
      }
    }
  }

  lemma {:induction false} PendingNext(arcs: seq<Edge>, v: Id, done: set<Id>, k: nat)
    requires k < |arcs|
    ensures PendingIn(arcs[..k + 1], v, done) ==
            PendingIn(arcs[..k], v, done) + (if arcs[k].to == v && arcs[k].from !in done then 1 else 0)
  {
    hide PendingIn;
    assert arcs[..k + 1] == arcs[..k] + [arcs[k]];
    PendingLast(arcs[..k], arcs[k], v, done);
  }

  lemma {:induction false} PendingPrefix(arcs: seq<Edge>, v: Id, done: set<Id>, k: nat)
    requires k <= |arcs|
    ensures PendingIn(arcs[..k], v, done) <= PendingIn(arcs, v, done)
    ensures k < |arcs| ==>
              PendingIn(arcs[..k + 1], v, done) ==
              PendingIn(arcs[..k], v, done) + (if arcs[k].to == v && arcs[k].from !in done then 1 else 0)
    decreases |arcs| - k
  {
    hide PendingIn;
    if k < |arcs| {
      PendingNext(arcs, v, done, k);
      PendingPrefix(arcs, v, done, k + 1);
    } else {
      assert arcs[..k] == arcs;
    }
  }

  // ----- the algorithm's invariant -----

  /** Between nodes: `queue[..qi]` is done; a node is queued exactly when nothing is pending into it. */
  ghost predicate Frontier(ids: set<Id>, arcs: seq<Edge>, queue: seq<Id>, qi: nat, rem: map<Id, int>) {
    && qi <= |queue| && Distinct(queue) && Elems(queue) <= ids && rem.Keys == ids
    && (forall v :: v in ids ==> rem[v] == PendingIn(arcs, v, Elems(queue[..qi])))
    && (forall v :: v in ids ==> (v in queue <==> rem[v] == 0))
    && IsTopological(queue, arcs)
  }

  /** While node `queue[qi]` is being processed and `k` of its outgoing edges have been relaxed. */
  ghost predicate Midway(ids: set<Id>, arcs: seq<Edge>, queue: seq<Id>, qi: nat, rem: map<Id, int>, k: nat) {
    && qi < |queue| && Distinct(queue) && Elems(queue) <= ids && rem.Keys == ids
    && k <= |OutOf(arcs, queue[qi])|
    && (forall v :: v in ids ==>
          rem[v] == PendingIn(arcs, v, Elems(queue[..qi])) - PendingIn(OutOf(arcs, queue[qi])[..k], v, {}))
    && (forall v :: v in ids ==> (v in queue <==> rem[v] == 0))
    && IsTopological(queue, arcs)
  }

  lemma {:induction false} FrontierStarts(ids: set<Id>, arcs: seq<Edge>, queue: seq<Id>, rem: map<Id, int>)
    requires Distinct(queue) && Elems(queue) <= ids && rem.Keys == ids
    requires forall v :: v in ids ==> rem[v] == PendingIn(arcs, v, {})
    requires forall v :: v in ids ==> (v in queue <==> rem[v] == 0)
    ensures Frontier(ids, arcs, queue, 0, rem)
  {
    assert Elems(queue[..0]) == {};
    forall i | 0 <= i < |arcs| ensures arcs[i].to !in queue {
      if arcs[i].to in queue {
        assert arcs[i].to in Elems(queue);
        PendingZero(arcs, arcs[i].to, {});
      }
    }
  }

  lemma {:induction false} EnterNode(ids: set<Id>, arcs: seq<Edge>, queue: seq<Id>, qi: nat, rem: map<Id, int>)
    requires Frontier(ids, arcs, queue, qi, rem) && qi < |queue|
    ensures Midway(ids, arcs, queue, qi, rem, 0)
  {
    assert OutOf(arcs, queue[qi])[..0] == [];
  }

  lemma {:induction false} DoneGrows(queue: seq<Id>, qi: nat)
    requires qi < |queue| && Distinct(queue)
    ensures queue[qi] !in Elems(queue[..qi])
    ensures Elems(queue[..qi + 1]) == Elems(queue[..qi]) + {queue[qi]}
  {
    assert queue[..qi + 1] == queue[..qi] + [queue[qi]];
  }

  lemma {:induction false} LeaveNode(ids: set<Id>, arcs: seq<Edge>, queue: seq<Id>, qi: nat, rem: map<Id, int>)
    requires qi < |queue| && Midway(ids, arcs, queue, qi, rem, |OutOf(arcs, queue[qi])|)
    ensures Frontier(ids, arcs, queue, qi + 1, rem)
  {
    hide OutOf, PendingIn;
    DoneGrows(queue, qi);
    var o := OutOf(arcs, queue[qi]);
    assert o[..|o|] == o;
    forall v | v in ids ensures rem[v] == PendingIn(arcs, v, Elems(queue[..qi + 1])) {
      PendingSplit(arcs, v, Elems(queue[..qi]), queue[qi]);
    }
  }

  /** Relaxing one edge: the target's count drops, and the target joins the queue when it reaches zero. */
  lemma {:induction false} Relax(ids: set<Id>, arcs: seq<Edge>, queue: seq<Id>, qi: nat, rem: map<Id, int>, k: nat)
    requires Midway(ids, arcs, queue, qi, rem, k) && k < |OutOf(arcs, queue[qi])|
    requires OutOf(arcs, queue[qi])[k].to in ids
    ensures var v := OutOf(arcs, queue[qi])[k].to;
            var rem' := rem[v := rem[v] - 1];
            var queue' := if rem[v] == 1 then queue + [v] else queue;
            rem[v] >= 1 && Midway(ids, arcs, queue', qi, rem', k + 1)
  {
    hide OutOf, PendingIn;
    var u := queue[qi];
    var o := OutOf(arcs, u);
    var v := o[k].to;
    var done := Elems(queue[..qi]);
    DoneGrows(queue, qi);
    PendingSplit(arcs, v, done, u);
    PendingPrefix(o, v, {}, k);
    PendingPrefix(o, v, {}, k + 1);
    var rem' := rem[v := rem[v] - 1];
    assert rem'.Keys == ids;
    assert v !in queue;
    var queue' := if rem[v] == 1 then queue + [v] else queue;
    assert queue'[..qi] == queue[..qi] && queue'[qi] == u;
    forall w | w in ids
      ensures rem'[w] == PendingIn(arcs, w, done) - PendingIn(o[..k + 1], w, {})
      ensures w in queue' <==> rem'[w] == 0
    {
      PendingPrefix(o, w, {}, k);
    }
    if rem[v] == 1 {
      assert Elems(queue') == Elems(queue) + {v};
      PushKeepsOrder(arcs, queue, qi, v);
    }
  }

  lemma {:induction false} PushKeepsOrder(arcs: seq<Edge>, queue: seq<Id>, qi: nat, v: Id)
    requires qi < |queue| && IsTopological(queue, arcs) && v !in queue
    requires PendingIn(arcs, v, Elems(queue[..qi + 1])) == 0
    ensures IsTopological(queue + [v], arcs)
  {
    hide PendingIn;
    PendingZero(arcs, v, Elems(queue[..qi + 1]));
    var q := queue + [v];
    forall i, p | 0 <= i < |arcs| && 0 <= p < |q| && q[p] == arcs[i].to ensures arcs[i].from in q[..p] {
      if p < |queue| {
        assert q[..p] == queue[..p];
      } else {
        assert q[..p] == queue;
        assert arcs[i].from in queue[..qi + 1];
      }
    }
  }

  lemma {:induction false} LeftoverHasPredecessor(
    ids: set<Id>, arcs: seq<Edge>, queue: seq<Id>, rem: map<Id, int>, v: Id)
    requires Frontier(ids, arcs, queue, |queue|, rem) && v in ids && v !in queue
    requires forall i :: 0 <= i < |arcs| ==> arcs[i].from in ids
    ensures HasPredecessorIn(arcs, ids - Elems(queue), v)
  {
    hide PendingIn;
    assert queue[..|queue|] == queue;
    PendingZero(arcs, v, Elems(queue));
    var i :| 0 <= i < |arcs| && arcs[i].to == v && arcs[i].from !in Elems(queue);
    assert Linked(arcs, arcs[i].from, v);
  }

  /** The queue has drained: it holds every node exactly when the graph has no cycle. */
  lemma {:induction false} Drained(ids: set<Id>, arcs: seq<Edge>, queue: seq<Id>, rem: map<Id, int>)
    requires Frontier(ids, arcs, queue, |queue|, rem)
    requires forall i :: 0 <= i < |arcs| ==> arcs[i].from in ids && arcs[i].to in ids
    ensures Elems(queue) == ids <==> !HasCycle(arcs)
  {
    hide PendingIn, HasCycle, HasPredecessorIn;
    if Elems(queue) == ids {
      forall i | 0 <= i < |arcs| ensures arcs[i].to in queue { assert arcs[i].to in Elems(queue); }
      TopologicalIsAcyclic(queue, arcs);
    } else {
      var S := ids - Elems(queue);
      assert ids == Elems(queue) + S;
      forall v | v in S ensures HasPredecessorIn(arcs, S, v) {
        LeftoverHasPredecessor(ids, arcs, queue, rem, v);
      }
      NoSourceMeansCycle(arcs, S);
    }
  }

  // ----- the order itself -----

  /** The queue and the counters. */
  datatype Line = Line(queue: seq<Id>, rem: map<Id, int>)

  /** After relaxing the edges one by one: a target whose count reaches zero joins the queue. */
  function Relaxed(es: seq<Edge>, line: Line): Line {
    if es == [] then line
    else
      var n := |es| - 1;
      var Line(queue, rem) := Relaxed(es[..n], line);
      var v := es[n].to;
      if v !in rem then Line(queue, rem)
      else Line(if rem[v] == 1 then queue + [v] else queue, rem[v := rem[v] - 1])
  }

  /** After the first `n` queued nodes have had their outgoing edges relaxed, each node's in the order listed. */
  function Lined(arcs: seq<Edge>, line: Line, n: nat): Line {
    if n == 0 then line
    else
      var l := Lined(arcs, line, n - 1);
      if n - 1 < |l.queue| then Relaxed(OutOf(arcs, l.queue[n - 1]), l) else l
  }

  function Degrees(ids: set<Id>, arcs: seq<Edge>): map<Id, int> {
    map v | v in ids :: PendingIn(arcs, v, {})
  }

  /** The order in which the queue hands out the nodes, beginning with the first. */
  ghost predicate InQueueOrder(ids: set<Id>, arcs: seq<Edge>, order: seq<Id>) {
    order != [] && order == Lined(arcs, Line([order[0]], Degrees(ids, arcs)), |order|).queue
  }
}
