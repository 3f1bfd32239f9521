/** `attachToLoopCavity` and `detachFromLoopCavity` (studio/src/loopCavity.ts) keep a recognised loop recognised,
    change its body as asked, undo each other and create no forward cycle. The code's sequence of deletions by id and
    additions is shown to be one edit of the edge list; what the edit does to the loop is known from `LoopEditing`. A
    numbering that climbs along every forward edge is carried through each edit, and edges are counted as a multiset. */
module LoopBody {
  import opened Wrappers
  import opened Sequences
  import opened FlowGraph
  import opened LoopCavity
  import opened LoopEditing

  // ----- the operations -----

  function Materialized(m: FlowModel): seq<GraphEdge> {
    if m.edges != [] then m.edges else m.implicit
  }

  function WithEdge(m: FlowModel, e: GraphEdge): FlowModel {
    m.(edges := Materialized(m) + [e])
  }

  function WithoutEdge(m: FlowModel, id: string): FlowModel {
    m.(edges := Select(Materialized(m), OtherThan(id)))
  }

  function WithoutFound(m: FlowModel, found: Option<GraphEdge>): FlowModel {
    if found.Some? then WithoutEdge(m, found.value.id) else m
  }

  function LinkTo(a: Id, b: Id): GraphEdge {
    GraphEdge("e:" + a + "::" + b, a, "", b)
  }

  function BackTarget(back: Id, to: Id): GraphEdge {
    GraphEdge("e:" + back + ":loop_back:" + to, back, LOOP_BACK, to)
  }

  /** Point the back edge at a new head. */
  function Retarget(m: FlowModel, back: Id, to: Id): FlowModel {
    match Find(m.edges, BackFrom(back))
    case None => m
    case Some(b) => WithEdge(WithoutEdge(m, b.id), BackTarget(back, to))
  }

  /** With one back edge a nested node lies in that edge's loop. */
  lemma {:induction false} NestedInLoop(es: seq<GraphEdge>, x: Id)
    requires |Select(es, IsBack())| <= 1 && x in LoopsOf(es).membership
    ensures var mem := LoopsOf(es).membership[x];
            && mem.start in LoopsOf(es).pairs && mem.index < |LoopsOf(es).pairs[mem.start].members|
  {
    hide Select, LoopsOf, Resolve, Enrol, Follows, Enters;
    if |Select(es, IsBack())| == 0 {
      NoLoops(es);
    } else {
      var b := Select(es, IsBack())[0];
      assert Select(es, IsBack()) == [b];
      OneLoopFound(es, b);
      if Resolve(es, b).Some? {
        var (start, members) := Resolve(es, b).value;
        ResolveExactly(es, b, start, members);
        assert members == (members + [b.from])[..|members|];
        EnrolsMembers(start, b.from, members, |members|);
        assert members[..|members|] == members;
        assert x in members;
      }
    }
  }

  lemma {:induction false} NoLoops(es: seq<GraphEdge>)
    requires |Select(es, IsBack())| == 0
    ensures LoopsOf(es) == Loops(map[], map[], map[])
  {
  }

  /** `detachFromLoopCavity`, for a graph with at most one back edge. */
  function Detach(m: FlowModel, x: Id): FlowModel
    requires |Select(m.edges, IsBack())| <= 1
  {
    var loops := LoopsOf(m.edges);
    if x !in loops.membership then m
    else
      NestedInLoop(m.edges, x);
      var mem := loops.membership[x];
      var members := loops.pairs[mem.start].members;
      var pred := if mem.index == 0 then mem.start else members[mem.index - 1];
      var succ := if mem.index + 1 < |members| then members[mem.index + 1] else mem.back;
      var cut := WithoutFound(WithoutFound(m, Find(m.edges, Between(pred, x))), Find(m.edges, Between(x, succ)));
      var linked := WithEdge(cut, LinkTo(pred, succ));
      if mem.index == 0 then Retarget(linked, mem.back, succ) else linked
  }

  /** `attachToLoopCavity`, for a graph with at most one back edge. */
  function Attach(m: FlowModel, x: Id, start: Id, back: Id): FlowModel
    requires |Select(m.edges, IsBack())| <= 1
  {
    var detached := Detach(m, x);
    var loops := LoopsOf(detached.edges);
    var members := if start in loops.pairs then loops.pairs[start].members else [];
    if members != [] then
      var tail := members[|members| - 1];
      var cut := WithoutFound(detached, Find(detached.edges, Between(tail, back)));
      WithEdge(WithEdge(cut, LinkTo(tail, x)), LinkTo(x, back))
    else
      var cut := WithoutFound(detached, Find(detached.edges, Between(start, back)));
      Retarget(WithEdge(WithEdge(cut, LinkTo(start, x)), LinkTo(x, back)), back, x)
  }

  // ----- what they do to the edge list -----

  /** The first edge between two nodes is the one the loop uses. */
  lemma {:induction false} FindBetween(es: seq<GraphEdge>, p: GraphEdge -> bool, e: GraphEdge)
    requires Sole(es, p, e) && e.port == ""
    requires forall f :: f in es && Between(e.from, e.to)(f) ==> p(f)
    ensures Find(es, Between(e.from, e.to)) == Some(e)
  {
    var q := Between(e.from, e.to);
    SelectNarrower(es, p, q);
    SelectTwo(e, e, q);
  }

  lemma {:induction false} EditNonEmpty(es: seq<GraphEdge>, gone: seq<GraphEdge>, added: seq<GraphEdge>, b: GraphEdge)
    requires b in es && b.id !in IdsOf(gone)
    ensures Edit(es, gone, added) != []
  {
    assert b in Select(es, NotIn(IdsOf(gone)));
  }

  lemma {:induction false} FoundGone(m: FlowModel, e: GraphEdge)
    requires m.edges != []
    ensures WithoutFound(m, Some(e)).edges == Edit(m.edges, [e], [])
  {
    hide Select, Edit;
    EditOnce(m.edges, e, []);
  }

  lemma {:induction false} DifferentIds(es: seq<GraphEdge>, b: GraphEdge, e: GraphEdge)
    requires UniqueIds(es) && b in es && e in es && b != e
    ensures b.id != e.id
  {
    if b.id == e.id { SameId(es, b, e); }
  }

  ghost function Linked2(a: Id, x: Id, b: Id): seq<GraphEdge> {
    [LinkTo(a, x), LinkTo(x, b)]
  }

  lemma {:induction false} TailLink(
    es: seq<GraphEdge>, b: GraphEdge, start: Id, members: seq<Id>, x: Id) returns (link: GraphEdge)
    requires Built(es, b, start, members) && members != [] && EdgeFree(es, x)
    requires Fresh(es, Linked2(members[|members| - 1], x, b.from))
    ensures TailEdit(es, b, start, members, x, link, LinkTo(members[|members| - 1], x), LinkTo(x, b.from))
  {
    hide Built, Select, UniqueIds, EdgeFree, Fresh;
    link := LoopEdges(es, b, start, members, |members| - 1);
    BuiltUnique(es, b, start, members);
  }

  /** Attaching behind the last member. */
  lemma {:induction false} AttachTail(m: FlowModel, b: GraphEdge, start: Id, members: seq<Id>, x: Id, link: GraphEdge)
    requires members != []
    requires TailEdit(m.edges, b, start, members, x, link, LinkTo(members[|members| - 1], x), LinkTo(x, b.from))
    ensures |Select(m.edges, IsBack())| <= 1
    ensures Attach(m, x, start, b.from).edges == Edit(m.edges, [link], Linked2(members[|members| - 1], x, b.from))
  {
    hide Built, Select, Edit, LoopsOf, UniqueIds, EdgeFree, Fresh, LinkTo, Retarget, Detach, Find;
    var es := m.edges;
    var tail := members[|members| - 1];
    BackTo(es, b, start, members);
    BuiltIsRecognised(es, b, start, members);
    Outside(es, b, start, members, x);
    DetachNothing(m, x);
    FindBetween(es, Leaving(tail), link);
    DifferentIds(es, b, link);
    FoundGone(m, link);
    EditNonEmpty(es, [link], [], b);
    EditAppend(es, [link], [], [LinkTo(tail, x)]);
    EditNonEmpty(es, [link], [LinkTo(tail, x)], b);
    EditAppend(es, [link], [LinkTo(tail, x)], [LinkTo(x, b.from)]);
    assert [] + [LinkTo(tail, x)] == [LinkTo(tail, x)];
    assert [LinkTo(tail, x)] + [LinkTo(x, b.from)] == Linked2(tail, x, b.from);
  }

  lemma {:induction false} DetachNothing(m: FlowModel, x: Id)
    requires |Select(m.edges, IsBack())| <= 1 && x !in LoopsOf(m.edges).membership
    ensures Detach(m, x) == m
  {
    hide Select, LoopsOf;
  }

  lemma {:induction false} BuiltUnique(es: seq<GraphEdge>, b: GraphEdge, start: Id, members: seq<Id>)
    requires Built(es, b, start, members)
    ensures UniqueIds(es)
  {
  }

  lemma {:induction false} EditAppend(
    es: seq<GraphEdge>, gone: seq<GraphEdge>, added: seq<GraphEdge>, more: seq<GraphEdge>)
    ensures Edit(es, gone, added) + more == Edit(es, gone, added + more)
  {
  }

  lemma {:induction false} BackFound(es: seq<GraphEdge>, gone: seq<GraphEdge>, added: seq<GraphEdge>, b: GraphEdge)
    requires Sole(es, IsBack(), b) && Has(es, gone) && Untouched(gone, IsBack()) && Untouched(added, IsBack())
    ensures Find(Edit(es, gone, added), BackFrom(b.from)) == Some(b)
  {
    hide Select, Edit, UniqueIds;
    EditUntouched(es, gone, added, IsBack());
    var es' := Edit(es, gone, added);
    assert b in Select(es', IsBack());
    SelectNarrower(es', IsBack(), BackFrom(b.from));
    SelectTwo(b, b, BackFrom(b.from));
  }

  /** Retargeting replaces the back edge. */
  lemma {:induction false} RetargetEdits(
    m: FlowModel, es: seq<GraphEdge>, gone: seq<GraphEdge>, added: seq<GraphEdge>, b: GraphEdge, t: Id)
    requires m.edges == Edit(es, gone, added) && added != [] && b.id !in IdsOf(added)
    requires Find(m.edges, BackFrom(b.from)) == Some(b)
    ensures Retarget(m, b.from, t).edges == Edit(es, gone + [b], added + [BackTarget(b.from, t)])
  {
    hide Select, Find, BackTarget;
    EditMore(es, gone, added, b, []);
    EditMore(es, gone, added, b, [BackTarget(b.from, t)]);
    assert added + [] == added;
    assert |Edit(es, gone, added)| >= |added| && |Edit(es, gone + [b], added)| >= |added|;
    assert WithoutEdge(m, b.id).edges + [] == WithoutEdge(m, b.id).edges;
  }

  lemma {:induction false} FirstLink(es: seq<GraphEdge>, b: GraphEdge, start: Id, x: Id) returns (h: GraphEdge)
    requires Built(es, b, start, []) && EdgeFree(es, x)
    requires Fresh(es, [LinkTo(start, x), LinkTo(x, b.from), BackTarget(b.from, x)])
    ensures FirstEdit(es, b, start, x, h, LinkTo(start, x), LinkTo(x, b.from), BackTarget(b.from, x))
  {
    hide Built, Select, UniqueIds, EdgeFree, Fresh;
    BackTo(es, b, start, []);
    h := WayIn(es, b, start, []);
    BuiltUnique(es, b, start, []);
  }

  /** Attaching to an empty body. */
  lemma {:induction false} AttachFirst(m: FlowModel, b: GraphEdge, start: Id, x: Id, h: GraphEdge)
    requires FirstEdit(m.edges, b, start, x, h, LinkTo(start, x), LinkTo(x, b.from), BackTarget(b.from, x))
    ensures |Select(m.edges, IsBack())| <= 1
    ensures Attach(m, x, start, b.from).edges ==
            Edit(m.edges, [h, b], [LinkTo(start, x), LinkTo(x, b.from), BackTarget(b.from, x)])
  {
    hide Built, Select, Edit, LoopsOf, UniqueIds, EdgeFree, LinkTo, BackTarget, Retarget, Detach, Find;
    var es := m.edges;
    var e1, e2 := LinkTo(start, x), LinkTo(x, b.from);
    BackTo(es, b, start, []);
    BuiltIsRecognised(es, b, start, []);
    DetachNothing(m, x);
    FindBetween(es, Entering(b.from), h);
    DifferentIds(es, b, h);
    FoundGone(m, h);
    EditNonEmpty(es, [h], [], b);
    EditAppend(es, [h], [], [e1]);
    EditNonEmpty(es, [h], [e1], b);
    EditAppend(es, [h], [e1], [e2]);
    assert [] + [e1] == [e1] && [e1] + [e2] == [e1, e2];
    var cut := WithoutFound(m, Some(h));
    var linked := WithEdge(WithEdge(cut, e1), e2);
    assert linked.edges == Edit(es, [h], [e1, e2]);
    BackFound(es, [h], [e1, e2], b);
    FreshId(es, [e1, e2, BackTarget(b.from, x)], b);
    RetargetEdits(linked, es, [h], [e1, e2], b, x);
    assert [h] + [b] == [h, b] && [e1, e2] + [BackTarget(b.from, x)] == [e1, e2, BackTarget(b.from, x)];
  }

  lemma {:induction false} FreshId(es: seq<GraphEdge>, added: seq<GraphEdge>, b: GraphEdge)
    requires Fresh(es, added) && b in es
    ensures forall e :: e in added ==> e.id != b.id
  {
    assert b.id in IdsOf(es);
    forall e | e in added ensures e.id != b.id {
      assert e.id in IdsOf(added);
    }
  }

  /** The two edges at a member are cut and its neighbours linked. */
  lemma {:induction false} CutAndLink(m: FlowModel, b: GraphEdge, inc: GraphEdge, out: GraphEdge, link: GraphEdge)
    requires Has(m.edges, [inc, out, b]) && inc != b && out != b
    ensures var cut := WithoutFound(WithoutFound(m, Some(inc)), Some(out));
            WithEdge(cut, link).edges == Edit(m.edges, [inc, out], [link])
  {
    hide Select, Edit, UniqueIds;
    var es := m.edges;
    assert inc in [inc, out, b] && out in [inc, out, b] && b in [inc, out, b];
    DifferentIds(es, b, inc);
    DifferentIds(es, b, out);
    FoundGone(m, inc);
    var m1 := WithoutFound(m, Some(inc));
    EditNonEmpty(es, [inc], [], b);
    FoundGone(m1, out);
    EditMore(es, [inc], [], out, []);
    EditNonEmpty(es, [inc, out], [], b);
    EditOnce(m1.edges, out, []);
    EditAppend(es, [inc, out], [], [link]);
    var none: seq<GraphEdge> := [];
    assert [inc] + [out] == [inc, out] && none + [link] == [link] && none + none == none;
  }

  lemma {:induction false} HeadEdges(
    es: seq<GraphEdge>, b: GraphEdge, start: Id, members: seq<Id>) returns (inc: GraphEdge, out: GraphEdge)
    requires Built(es, b, start, members) && members != []
    requires var succ := (members + [b.from])[1]; Fresh(es, [LinkTo(start, succ), BackTarget(b.from, succ)])
    ensures var succ := (members + [b.from])[1];
            HeadEdit(es, b, start, members, inc, out, LinkTo(start, succ), BackTarget(b.from, succ))
  {
    hide Built, Select, UniqueIds, Fresh;
    BackTo(es, b, start, members);
    inc := WayIn(es, b, start, members);
    out := LoopEdges(es, b, start, members, 0);
    BuiltUnique(es, b, start, members);
  }

  lemma {:induction false} InnerEdges(es: seq<GraphEdge>, b: GraphEdge, start: Id, members: seq<Id>, i: nat)
    returns (inc: GraphEdge, out: GraphEdge)
    requires Built(es, b, start, members) && 0 < i < |members|
    requires Fresh(es, [LinkTo(members[i - 1], (members + [b.from])[i + 1])])
    ensures InnerEdit(es, b, start, members, i, inc, out, LinkTo(members[i - 1], (members + [b.from])[i + 1]))
  {
    hide Built, Select, UniqueIds, Fresh;
    inc := LoopEdges(es, b, start, members, i - 1);
    out := LoopEdges(es, b, start, members, i);
    BuiltUnique(es, b, start, members);
  }

  /** What the code reads off the recognised loop for member `i`. */
  lemma {:induction false} Located(es: seq<GraphEdge>, b: GraphEdge, start: Id, members: seq<Id>, i: nat)
    requires Built(es, b, start, members) && i < |members|
    ensures |Select(es, IsBack())| <= 1 && members[i] in LoopsOf(es).membership
    ensures LoopsOf(es).membership[members[i]] == Membership(start, b.from, i)
    ensures start in LoopsOf(es).pairs && LoopsOf(es).pairs[start].members == members
  {
    hide Built, Select, LoopsOf;
    BuiltIsRecognised(es, b, start, members);
  }

  lemma {:induction false} DetachHead(
    m: FlowModel, b: GraphEdge, start: Id, members: seq<Id>, inc: GraphEdge, out: GraphEdge)
    requires members != [] && |Select(m.edges, IsBack())| <= 1
    requires var succ := (members + [b.from])[1];
             HeadEdit(m.edges, b, start, members, inc, out, LinkTo(start, succ), BackTarget(b.from, succ))
    ensures var succ := (members + [b.from])[1];
            Detach(m, members[0]).edges == Edit(m.edges, [inc, out, b], [LinkTo(start, succ), BackTarget(b.from, succ)])
  {
    hide Built, Select, Edit, LoopsOf, UniqueIds, LinkTo, BackTarget, Retarget, Find, WithoutFound, WithEdge;
    var es, succ := m.edges, (members + [b.from])[1];
    var link := LinkTo(start, succ);
    Located(es, b, start, members, 0);
    BackTo(es, b, start, members);
    FindBetween(es, Entering(members[0]), inc);
    FindBetween(es, Leaving(members[0]), out);
    CutAndLink(m, b, inc, out, link);
    var linked := WithEdge(WithoutFound(WithoutFound(m, Some(inc)), Some(out)), link);
    BackFound(es, [inc, out], [link], b);
    FreshId(es, [link, BackTarget(b.from, succ)], b);
    RetargetEdits(linked, es, [inc, out], [link], b, succ);
    assert [inc, out] + [b] == [inc, out, b] && [link] + [BackTarget(b.from, succ)] == [link, BackTarget(b.from, succ)];
  }

  lemma {:induction false} DetachInner(
    m: FlowModel, b: GraphEdge, start: Id, members: seq<Id>, i: nat, inc: GraphEdge, out: GraphEdge)
    requires 0 < i < |members| && |Select(m.edges, IsBack())| <= 1
    requires InnerEdit(m.edges, b, start, members, i, inc, out, LinkTo(members[i - 1], (members + [b.from])[i + 1]))
    ensures Detach(m, members[i]).edges ==
            Edit(m.edges, [inc, out], [LinkTo(members[i - 1], (members + [b.from])[i + 1])])
  {
    hide Built, Select, Edit, LoopsOf, UniqueIds, LinkTo, Retarget, Find, WithoutFound, WithEdge;
    var es := m.edges;
    Located(es, b, start, members, i);
    BackTo(es, b, start, members);
    FindBetween(es, Leaving(members[i - 1]), inc);
    FindBetween(es, Leaving(members[i]), out);
    CutAndLink(m, b, inc, out, LinkTo(members[i - 1], (members + [b.from])[i + 1]));
  }

  // ----- no forward cycles -----

  ghost function Arcs(es: seq<GraphEdge>): seq<Edge> {
    seq(|es|, i requires 0 <= i < |es| => Edge(es[i].from, es[i].port, es[i].to))
  }

  ghost predicate Acyclic(es: seq<GraphEdge>) {
    !HasCycle(Forward(Arcs(es)))
  }

  ghost predicate Climbs(rank: map<Id, int>, e: GraphEdge) {
    e.port != LOOP_BACK ==> e.from in rank && e.to in rank && rank[e.from] < rank[e.to]
  }

  ghost predicate Ranked(es: seq<GraphEdge>, rank: map<Id, int>) {
    forall e :: e in es ==> Climbs(rank, e)
  }

  lemma {:induction false} RankedAcyclic(es: seq<GraphEdge>, rank: map<Id, int>)
    requires Ranked(es, rank)
    ensures Acyclic(es)
  {
    hide HasCycle;
    var arcs := Forward(Arcs(es));
    forall i | 0 <= i < |arcs|
      ensures arcs[i].from in rank && arcs[i].to in rank && rank[arcs[i].from] < rank[arcs[i].to]
    {
      assert arcs[i] in arcs;
      var k :| 0 <= k < |es| && Arcs(es)[k] == arcs[i];
      assert es[k] in es && Climbs(rank, es[k]);
    }
    RankedIsAcyclic(arcs, rank);
  }

  lemma {:induction false} AcyclicRanked(es: seq<GraphEdge>) returns (rank: map<Id, int>)
    requires Acyclic(es)
    ensures Ranked(es, rank)
  {
    hide HasCycle;
    var arcs := Forward(Arcs(es));
    var nodes := (set e | e in es :: e.from) + (set e | e in es :: e.to);
    rank := AcyclicHasRanks(arcs, nodes, 0);
    forall e | e in es ensures Climbs(rank, e) {
      if e.port != LOOP_BACK {
        var k :| 0 <= k < |es| && es[k] == e;
        assert Arcs(es)[k] in Arcs(es);
        assert Arcs(es)[k] in arcs;
        var i :| 0 <= i < |arcs| && arcs[i] == Arcs(es)[k];
      }
    }
  }

  /** Putting a new node between two nodes that were in order. */
  lemma {:induction false} SpliceAcyclic(
    es: seq<GraphEdge>, gone: seq<GraphEdge>, added: seq<GraphEdge>, replaced: GraphEdge, x: Id)
    requires Acyclic(es) && EdgeFree(es, x) && replaced in es && replaced.port == ""
    requires forall e :: e in added && e.port != LOOP_BACK ==>
               (e.from == replaced.from && e.to == x) || (e.from == x && e.to == replaced.to)
    ensures Acyclic(Edit(es, gone, added))
  {
    hide Acyclic, Select;
    var rank := AcyclicRanked(es);
    assert Climbs(rank, replaced);
    var rank' := (map v | v in rank :: 2 * rank[v])[x := 2 * rank[replaced.from] + 1];
    forall e | e in Edit(es, gone, added) ensures Climbs(rank', e) {
      if e in es { assert Climbs(rank, e); }
    }
    RankedAcyclic(Edit(es, gone, added), rank');
  }

  /** Closing the gap a node leaves. */
  lemma {:induction false} BridgeAcyclic(
    es: seq<GraphEdge>, gone: seq<GraphEdge>, added: seq<GraphEdge>, inc: GraphEdge, out: GraphEdge)
    requires Acyclic(es) && inc in es && out in es && inc.port == out.port == "" && inc.to == out.from
    requires forall e :: e in added && e.port != LOOP_BACK ==> e.from == inc.from && e.to == out.to
    ensures Acyclic(Edit(es, gone, added))
  {
    hide Acyclic, Select;
    var rank := AcyclicRanked(es);
    assert Climbs(rank, inc) && Climbs(rank, out);
    RankedAcyclic(Edit(es, gone, added), rank);
  }

  // ----- what is left when edges go and come -----

  /** The edges of a graph, without their ids and order. */
  ghost function Shape(es: seq<GraphEdge>): multiset<Edge> {
    if es == [] then multiset{}
    else
      var e := es[|es| - 1];
      Shape(es[..|es| - 1]) + multiset{Edge(e.from, e.port, e.to)}
  }

  ghost function ArcOf(e: GraphEdge): Edge {
    Edge(e.from, e.port, e.to)
  }

  lemma {:induction false} ShapeAppend(s: seq<GraphEdge>, t: seq<GraphEdge>)
    ensures Shape(s + t) == Shape(s) + Shape(t)
    decreases |t|
  {
    if t == [] {
      assert s + t == s;
    } else {
      var n := |t| - 1;
      assert (s + t)[..|s + t| - 1] == s + t[..n];
      ShapeAppend(s, t[..n]);
    }
  }

  lemma {:induction false} ShapeOne(e: GraphEdge)
    ensures Shape([e]) == multiset{ArcOf(e)}
  {
    assert [e][..0] == [];
  }

  lemma {:induction false} ShapeLast(s: seq<GraphEdge>, e: GraphEdge)
    ensures Shape(s + [e]) == Shape(s) + multiset{ArcOf(e)}
  {
    assert (s + [e])[..|s|] == s;
  }

  lemma {:induction false} AddBoth(a: multiset<Edge>, b: multiset<Edge>, g: Edge, e: Edge)
    requires a + multiset{g} == b
    ensures a + multiset{e} + multiset{g} == b + multiset{e}
  {
  }

  lemma {:induction false} ShapeWithout(es: seq<GraphEdge>, g: GraphEdge)
    requires UniqueIds(es) && g in es
    ensures Shape(Select(es, OtherThan(g.id))) + multiset{ArcOf(g)} == Shape(es)
    decreases |es|
  {
    hide Shape, Select, ArcOf, UniqueIds;
    var n := |es| - 1;
    var init := es[..n];
    assert es == init + [es[n]];
    SelectLast(init, es[n], OtherThan(g.id));
    PrefixUnique(es, n);
    ShapeLast(init, es[n]);
    if es[n] == g {
      forall e | e in init ensures OtherThan(g.id)(e) {
        assert e.id in IdsOf(init);
      }
      SelectAll(init, OtherThan(g.id));
      assert init + [] == init;
    } else {
      ShapeWithout(init, g);
      DifferentIds(es, g, es[n]);
      ShapeLast(Select(init, OtherThan(g.id)), es[n]);
      AddBoth(Shape(Select(init, OtherThan(g.id))), Shape(init), ArcOf(g), ArcOf(es[n]));
    }
  }

  lemma {:induction false} Balance(
    edited: multiset<Edge>, added: multiset<Edge>, less: multiset<Edge>,
    one: multiset<Edge>, rest: multiset<Edge>, all: multiset<Edge>)
    requires less + one + rest == all && edited == less + added
    ensures edited + (rest + one) == all + added
  {
  }

  /** Edges are conserved: what an edit takes out plus what is left is what was there. */
  lemma {:induction false} ShapeEdit(es: seq<GraphEdge>, gone: seq<GraphEdge>, added: seq<GraphEdge>)
    requires Has(es, gone) && UniqueIds(gone)
    ensures Shape(Edit(es, gone, added)) + Shape(gone) == Shape(es) + Shape(added)
    decreases |gone|
  {
    hide UniqueIds, Select, Edit, Shape;
    EditAppend(es, gone, [], added);
    assert [] + added == added;
    ShapeAppend(Edit(es, gone, []), added);
    ShapeNone();
    if gone == [] {
      EditNothing(es);
    } else {
      var n := |gone| - 1;
      var rest, g := gone[..n], gone[n];
      assert gone == rest + [g] && g in gone;
      PrefixUnique(gone, n);
      ShapeEdit(es, rest, []);
      StillThere(es, rest, g);
      EditUnique(es, rest, []);
      ShapeWithout(Edit(es, rest, []), g);
      EditOnce(Edit(es, rest, []), g, []);
      EditMore(es, rest, [], g, []);
      var none: seq<GraphEdge> := [];
      assert none + none == none;
      ShapeLast(rest, g);
      var less := Select(Edit(es, rest, []), OtherThan(g.id));
      assert less + [] == less;
      Balance(Shape(Edit(es, gone, added)), Shape(added), Shape(less), multiset{ArcOf(g)}, Shape(rest), Shape(es));
    }
  }

  lemma {:induction false} ShapeNone()
    ensures Shape([]) == multiset{}
  {
  }

  lemma {:induction false} PrefixUnique(gone: seq<GraphEdge>, n: nat)
    requires UniqueIds(gone) && n < |gone|
    ensures UniqueIds(gone[..n]) && gone[n].id !in IdsOf(gone[..n]) && UniqueIds([])
  {
  }

  lemma {:induction false} StillThere(es: seq<GraphEdge>, rest: seq<GraphEdge>, g: GraphEdge)
    requires g in es && g.id !in IdsOf(rest)
    ensures g in Edit(es, rest, [])
  {
    assert g in Select(es, NotIn(IdsOf(rest)));
  }

  // ----- the main results -----

  /** Every back edge of the graph leaves this loop_back and goes to the body's first node, or to loop_back itself
      when the body is empty. */
  ghost predicate BackAtHead(es: seq<GraphEdge>, back: Id, members: seq<Id>) {
    forall e :: e in es && e.port == LOOP_BACK ==> e.from == back && e.to == (members + [back])[0]
  }

  /** The edges that attaching `x` draws. */
  ghost function AttachDraws(start: Id, back: Id, members: seq<Id>, x: Id): seq<GraphEdge> {
    if members != [] then Linked2(members[|members| - 1], x, back)
    else [LinkTo(start, x), LinkTo(x, back), BackTarget(back, x)]
  }

  /** The edges that detaching member `i` draws. */
  ghost function DetachDraws(start: Id, back: Id, members: seq<Id>, i: nat): seq<GraphEdge>
    requires i < |members|
  {
    var succ := (members + [back])[i + 1];
    if i == 0 then [LinkTo(start, succ), BackTarget(back, succ)] else [LinkTo(members[i - 1], succ)]
  }

  lemma {:induction false} BuiltHead(es: seq<GraphEdge>, b: GraphEdge, start: Id, members: seq<Id>)
    requires Built(es, b, start, members)
    ensures BackAtHead(es, b.from, members)
  {
    hide Built, Select;
    BackTo(es, b, start, members);
    forall e | e in es && e.port == LOOP_BACK ensures e == b {
      assert e in Select(es, IsBack());
    }
  }

  /** The edges an attach removes. */
  lemma {:induction false} AttachEdits(m: FlowModel, start: Id, back: Id, members: seq<Id>, x: Id)
    returns (gone: seq<GraphEdge>, b': GraphEdge, replaced: GraphEdge)
    requires Recognised(m.edges, start, back, members) && EdgeFree(m.edges, x)
    requires Fresh(m.edges, AttachDraws(start, back, members, x))
    ensures |Select(m.edges, IsBack())| <= 1
    ensures Attach(m, x, start, back).edges == Edit(m.edges, gone, AttachDraws(start, back, members, x))
    ensures Built(Attach(m, x, start, back).edges, b', start, members + [x]) && b'.from == back
    ensures Has(m.edges, gone) && UniqueIds(gone) && replaced in gone
    ensures replaced.from == (if members != [] then members[|members| - 1] else start)
    ensures replaced.to == back && replaced.port == ""
    ensures if members != [] then gone == [replaced]
            else exists b :: gone == [replaced, b] && ArcOf(b) == Edge(back, LOOP_BACK, back)
  {
    hide Built, Select, Edit, Fresh, LinkTo, BackTarget, EdgeFree, Attach;
    var b := RecognisedIsBuilt(m.edges, start, back, members);
    if members != [] {
      replaced := TailLink(m.edges, b, start, members, x);
      AttachTail(m, b, start, members, x, replaced);
      TailBuilt(m.edges, b, start, members, x, replaced, LinkTo(replaced.from, x), LinkTo(x, back));
      gone, b' := [replaced], b;
    } else {
      replaced := FirstLink(m.edges, b, start, x);
      AttachFirst(m, b, start, x, replaced);
      b' := BackTarget(back, x);
      FirstBuilt(m.edges, b, start, x, replaced, LinkTo(start, x), LinkTo(x, back), b');
      BackTo(m.edges, b, start, []);
      DifferentIds(m.edges, replaced, b);
      gone := [replaced, b];
      assert [] + [x] == [x];
      BackIsTarget(back, x);
    }
  }

  lemma {:induction false} BackIsTarget(back: Id, x: Id)
    ensures BackTarget(back, x).from == back
  {
  }

  /** Attaching an edge-free node puts it at the end of the body; the loop stays recognised, its back edge stays at
      the head, and no forward cycle appears. */
  lemma {:induction false} AttachAppends(m: FlowModel, start: Id, back: Id, members: seq<Id>, x: Id)
    requires Recognised(m.edges, start, back, members) && EdgeFree(m.edges, x)
    requires Fresh(m.edges, AttachDraws(start, back, members, x))
    ensures |Select(m.edges, IsBack())| <= 1
    ensures Recognised(Attach(m, x, start, back).edges, start, back, members + [x])
    ensures BackAtHead(Attach(m, x, start, back).edges, back, members + [x])
    ensures Acyclic(m.edges) ==> Acyclic(Attach(m, x, start, back).edges)
  {
    hide Built, Select, Edit, Fresh, EdgeFree, Attach, Acyclic, Recognised, BackAtHead;
    var gone, b', replaced := AttachEdits(m, start, back, members, x);
    BuiltIsRecognised(Attach(m, x, start, back).edges, b', start, members + [x]);
    BuiltHead(Attach(m, x, start, back).edges, b', start, members + [x]);
    if Acyclic(m.edges) {
      SpliceAcyclic(m.edges, gone, AttachDraws(start, back, members, x), replaced, x);
    }
  }

  /** The edges a detach removes. */
  lemma {:induction false} DetachEdits(m: FlowModel, start: Id, back: Id, members: seq<Id>, i: nat)
    returns (gone: seq<GraphEdge>, b: GraphEdge, b': GraphEdge)
    requires Recognised(m.edges, start, back, members) && i < |members|
    requires Fresh(m.edges, DetachDraws(start, back, members, i))
    ensures |Select(m.edges, IsBack())| <= 1
    ensures Detach(m, members[i]).edges == Edit(m.edges, gone, DetachDraws(start, back, members, i))
    ensures Built(Detach(m, members[i]).edges, b', start, members[..i] + members[i + 1..]) && b'.from == back
    ensures Has(m.edges, gone) && UniqueIds(gone) && |gone| == (if i == 0 then 3 else 2)
    ensures ArcOf(gone[0]) == Edge(if i == 0 then start else members[i - 1], "", members[i])
    ensures ArcOf(gone[1]) == Edge(members[i], "", (members + [back])[i + 1])
    ensures i == 0 ==> ArcOf(gone[2]) == Edge(back, LOOP_BACK, members[0])
  {
    hide Built, Select, Edit, Fresh, LinkTo, BackTarget, Detach, Has;
    b := RecognisedIsBuilt(m.edges, start, back, members);
    BackTo(m.edges, b, start, members);
    Apart(m.edges, b, start, members, i, i + 1);
    if i == 0 {
      var inc, out := HeadEdges(m.edges, b, start, members);
      var succ := (members + [back])[1];
      DetachHead(m, b, start, members, inc, out);
      b' := BackTarget(back, succ);
      HeadBuilt(m.edges, b, start, members, inc, out, LinkTo(start, succ), b');
      gone := [inc, out, b];
      assert members[..0] + members[1..] == members[1..];
      BackIsTarget(back, succ);
    } else {
      var inc, out := InnerEdges(m.edges, b, start, members, i);
      DetachInner(m, b, start, members, i, inc, out);
      InnerBuilt(m.edges, b, start, members, i, inc, out, LinkTo(members[i - 1], (members + [back])[i + 1]));
      gone, b' := [inc, out], b;
    }
    GoneUnique(m.edges, gone);
  }

  lemma {:induction false} GoneUnique(es: seq<GraphEdge>, gone: seq<GraphEdge>)
    requires Has(es, gone) && Distinct(gone)
    ensures UniqueIds(gone)
  {
    hide UniqueIds;
    forall i, j | 0 <= i < j < |gone| ensures gone[i].id != gone[j].id {
      DifferentIds(es, gone[i], gone[j]);
    }
    Pairwise(gone);
  }

  lemma {:induction false} Pairwise(gone: seq<GraphEdge>)
    requires forall i, j :: 0 <= i < j < |gone| ==> gone[i].id != gone[j].id
    ensures UniqueIds(gone)
  {
  }

  /** Detaching a member removes it and nothing else from the body; the loop stays recognised, its back edge goes to
      the body's new head, and no forward cycle appears. */
  lemma {:induction false} DetachRemoves(m: FlowModel, start: Id, back: Id, members: seq<Id>, i: nat)
    requires Recognised(m.edges, start, back, members) && i < |members|
    requires Fresh(m.edges, DetachDraws(start, back, members, i))
    ensures |Select(m.edges, IsBack())| <= 1
    ensures var rest := members[..i] + members[i + 1..];
            && Recognised(Detach(m, members[i]).edges, start, back, rest)
            && BackAtHead(Detach(m, members[i]).edges, back, rest)
    ensures Acyclic(m.edges) ==> Acyclic(Detach(m, members[i]).edges)
  {
    hide Built, Select, Edit, Fresh, Detach, Acyclic, Recognised, BackAtHead, UniqueIds;
    var gone, b, b' := DetachEdits(m, start, back, members, i);
    var rest := members[..i] + members[i + 1..];
    BuiltIsRecognised(Detach(m, members[i]).edges, b', start, rest);
    BuiltHead(Detach(m, members[i]).edges, b', start, rest);
    if Acyclic(m.edges) {
      assert gone[0] in gone && gone[1] in gone;
      BridgeAcyclic(m.edges, gone, DetachDraws(start, back, members, i), gone[0], gone[1]);
    }
  }

  /** Taking the attached node out again restores the graph, up to edge ids and the order of edges. */
  lemma {:induction false} DetachUndoesAttach(m: FlowModel, start: Id, back: Id, members: seq<Id>, x: Id)
    requires Recognised(m.edges, start, back, members) && EdgeFree(m.edges, x)
    requires Fresh(m.edges, AttachDraws(start, back, members, x))
    requires |Select(m.edges, IsBack())| <= 1
    requires Fresh(Attach(m, x, start, back).edges, DetachDraws(start, back, members + [x], |members|))
    ensures |Select(Attach(m, x, start, back).edges, IsBack())| <= 1
    ensures Shape(Detach(Attach(m, x, start, back), x).edges) == Shape(m.edges)
    ensures Recognised(Detach(Attach(m, x, start, back), x).edges, start, back, members)
  {
    hide Built, Select, Edit, Fresh, EdgeFree, Attach, Detach, Recognised, BackAtHead, UniqueIds, Has, Shape, Acyclic,
      LinkTo, BackTarget;
    var m1 := Attach(m, x, start, back);
    var gone1, _, replaced := AttachEdits(m, start, back, members, x);
    AttachAppends(m, start, back, members, x);
    var all := members + [x];
    assert all[|members|] == x && all[..|members|] + all[|members| + 1..] == members;
    var gone2, _, _ := DetachEdits(m1, start, back, all, |members|);
    DetachRemoves(m1, start, back, all, |members|);
    var added1, added2 := AttachDraws(start, back, members, x), DetachDraws(start, back, all, |members|);
    ShapeEdit(m.edges, gone1, added1);
    ShapeEdit(m1.edges, gone2, added2);
    DrawnShapes(start, back, members, x, replaced, gone1, gone2);
    Cancels(Shape(m.edges), Shape(m1.edges), Shape(Detach(m1, x).edges),
      Shape(gone1), Shape(gone2), Shape(added1), Shape(added2));
  }

  lemma {:induction false} Cancels(
    s0: multiset<Edge>, s1: multiset<Edge>, s2: multiset<Edge>,
    gone1: multiset<Edge>, gone2: multiset<Edge>, added1: multiset<Edge>, added2: multiset<Edge>)
    requires s1 + gone1 == s0 + added1 && s2 + gone2 == s1 + added2
    requires gone2 == added1 && added2 == gone1
    ensures s2 == s0
  {
    assert s2 + added1 == s0 + added1;
    forall e ensures s2[e] == s0[e] {
      assert (s2 + added1)[e] == (s0 + added1)[e];
    }
  }

  lemma {:induction false} ShapeTwo(e: GraphEdge, f: GraphEdge)
    ensures Shape([e, f]) == multiset{ArcOf(e), ArcOf(f)}
  {
    hide Shape;
    assert [e, f] == [e] + [f];
    ShapeOne(e);
    ShapeLast([e], f);
  }

  lemma {:induction false} ShapeThree(e: GraphEdge, f: GraphEdge, g: GraphEdge)
    ensures Shape([e, f, g]) == multiset{ArcOf(e), ArcOf(f), ArcOf(g)}
  {
    hide Shape;
    assert [e, f, g] == [e, f] + [g];
    ShapeTwo(e, f);
    ShapeLast([e, f], g);
  }

  /** The detach removes what the attach drew, and draws what it removed. */
  lemma {:induction false} DrawnShapes(
    start: Id, back: Id, members: seq<Id>, x: Id, replaced: GraphEdge, gone1: seq<GraphEdge>, gone2: seq<GraphEdge>)
    requires ArcOf(replaced) == Edge(if members != [] then members[|members| - 1] else start, "", back)
    requires if members != [] then gone1 == [replaced] && |gone2| == 2
             else |gone2| == 3 && exists b :: gone1 == [replaced, b] && ArcOf(b) == Edge(back, LOOP_BACK, back)
    requires ArcOf(gone2[0]) == Edge(replaced.from, "", x) && ArcOf(gone2[1]) == Edge(x, "", back)
    requires members == [] ==> ArcOf(gone2[2]) == Edge(back, LOOP_BACK, x)
    ensures Shape(gone2) == Shape(AttachDraws(start, back, members, x))
    ensures Shape(gone1) == Shape(DetachDraws(start, back, members + [x], |members|))
  {
    hide Shape, ArcOf;
    if members != [] {
      TailShapes(start, back, members, x, replaced, gone2);
    } else {
      var b :| gone1 == [replaced, b] && ArcOf(b) == Edge(back, LOOP_BACK, back);
      FirstShapes(start, back, x, replaced, b, gone2);
    }
  }

  lemma {:induction false} TailShapes(
    start: Id, back: Id, members: seq<Id>, x: Id, replaced: GraphEdge, gone2: seq<GraphEdge>)
    requires members != [] && |gone2| == 2 && ArcOf(replaced) == Edge(members[|members| - 1], "", back)
    requires ArcOf(gone2[0]) == Edge(replaced.from, "", x) && ArcOf(gone2[1]) == Edge(x, "", back)
    ensures Shape(gone2) == Shape(AttachDraws(start, back, members, x))
    ensures Shape([replaced]) == Shape(DetachDraws(start, back, members + [x], |members|))
  {
    hide Shape;
    var tail := members[|members| - 1];
    assert gone2 == [gone2[0], gone2[1]];
    ShapeTwo(gone2[0], gone2[1]);
    ShapeTwo(LinkTo(tail, x), LinkTo(x, back));
    ShapeOne(replaced);
    ShapeOne(LinkTo(tail, back));
    assert (members + [x] + [back])[|members| + 1] == back && (members + [x])[|members| - 1] == tail;
  }

  lemma {:induction false} FirstShapes(
    start: Id, back: Id, x: Id, replaced: GraphEdge, b: GraphEdge, gone2: seq<GraphEdge>)
    requires |gone2| == 3 && ArcOf(replaced) == Edge(start, "", back) && ArcOf(b) == Edge(back, LOOP_BACK, back)
    requires ArcOf(gone2[0]) == Edge(replaced.from, "", x) && ArcOf(gone2[1]) == Edge(x, "", back)
    requires ArcOf(gone2[2]) == Edge(back, LOOP_BACK, x)
    ensures Shape(gone2) == Shape(AttachDraws(start, back, [], x))
    ensures Shape([replaced, b]) == Shape(DetachDraws(start, back, [] + [x], 0))
  {
    hide Shape;
    assert gone2 == [gone2[0], gone2[1], gone2[2]];
    ShapeThree(gone2[0], gone2[1], gone2[2]);
    ShapeThree(LinkTo(start, x), LinkTo(x, back), BackTarget(back, x));
    ShapeTwo(replaced, b);
    ShapeTwo(LinkTo(start, back), BackTarget(back, back));
    assert ([x] + [back])[1] == back && [] + [x] == [x];
  }
}
