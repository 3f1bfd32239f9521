/** Edits of a loop's edges (studio/src/loopCavity.ts), apart from the code that makes them.

    First the walk is shown to recognise exactly the closed chains of single unlabelled edges (`IsLoop`). Then an edit
    is some edges taken out and some put in (`Edit`), and a node's edges after it follow from its edges before: what is
    untouched stays, a sole edge that goes is replaced. Four edits are followed through in this way: a node put behind
    the last member, a node put into an empty body, the first member taken out, a later member taken out. Each turns a
    built loop into a built loop with the body one expects. */
module LoopEditing {
  import opened Wrappers
  import opened Sequences
  import opened FlowGraph
  import opened LoopCavity

  // ----- what a recognised loop is, without the walk -----

  /** One unlabelled edge leaves `a`, and it goes to `b`. */
  ghost predicate Goes(es: seq<GraphEdge>, a: Id, b: Id) {
    |Select(es, Leaving(a))| == 1 && Select(es, Leaving(a))[0].to == b
  }

  /** One unlabelled edge enters `b`, and it comes from `a`. */
  ghost predicate Enters(es: seq<GraphEdge>, a: Id, b: Id) {
    |Select(es, Entering(b))| == 1 && Select(es, Entering(b))[0].from == a
  }

  /** From place `k` on, the path follows single edges; every node after place `k` but the last has one entry. */
  ghost predicate Follows(es: seq<GraphEdge>, path: seq<Id>, k: nat) {
    && (forall i :: k <= i < |path| - 1 ==> Goes(es, path[i], path[i + 1]))
    && (forall i :: k < i < |path| - 1 ==> |Select(es, Into(path[i]))| == 1)
  }

  ghost predicate IsLoop(es: seq<GraphEdge>, back: GraphEdge, start: Id, members: seq<Id>) {
    var path := members + [back.from];
    Distinct(path) && path[0] == back.to && Follows(es, path, 0) && Enters(es, start, path[0])
  }

  lemma {:induction false} WalkSound(es: seq<GraphEdge>, back: Id, current: Id, members: seq<Id>)
    requires Distinct(members) && back !in members
    ensures var w := Walk(es, back, current, members);
            w.Some? ==>
              && |members| <= |w.value| && w.value[..|members|] == members
              && Distinct(w.value + [back]) && (w.value + [back])[|members|] == current
              && Follows(es, w.value + [back], |members|)
    decreases Sources(es) - Elems(members)
  {
    hide Select;
    if current != back && current !in members {
      var outs := Select(es, Leaving(current));
      if |outs| == 1 && (outs[0].to == back || |Select(es, Into(outs[0].to))| == 1) {
        Shrinks(es, current, members);
        WalkSound(es, back, outs[0].to, members + [current]);
        var w := Walk(es, back, outs[0].to, members + [current]);
        if w.Some? {
          var path := w.value + [back];
          assert w.value[..|members| + 1][..|members|] == members;
          assert path[|members|] == current && path[|members| + 1] == outs[0].to;
        }
      }
    }
  }

  lemma {:induction false} WalkComplete(es: seq<GraphEdge>, back: Id, members: seq<Id>, k: nat)
    requires Distinct(members + [back]) && Follows(es, members + [back], 0) && k <= |members|
    ensures Walk(es, back, (members + [back])[k], members[..k]) == Some(members)
    decreases |members| - k
  {
    hide Select;
    var path := members + [back];
    if k == |members| {
      assert members[..k] == members;
    } else {
      WalkComplete(es, back, members, k + 1);
      assert path[k] == members[k] && path[k] != path[|members|];
      NotBefore(members, back, k);
      assert members[..k] + [path[k]] == members[..k + 1];
      assert Goes(es, path[k], path[k + 1]);
    }
  }

  lemma {:induction false} NotBefore(members: seq<Id>, back: Id, k: nat)
    requires Distinct(members + [back]) && k < |members|
    ensures members[k] !in members[..k]
  {
    forall j | 0 <= j < k ensures members[j] != members[k] {
      assert (members + [back])[j] != (members + [back])[k];
    }
  }

  /** The walk recognises exactly these loops. */
  lemma {:induction false} ResolveExactly(es: seq<GraphEdge>, back: GraphEdge, start: Id, members: seq<Id>)
    ensures Resolve(es, back) == Some((start, members)) <==> IsLoop(es, back, start, members)
  {
    hide Select, Walk, Follows;
    WalkSound(es, back.from, back.to, []);
    if IsLoop(es, back, start, members) {
      WalkComplete(es, back.from, members, 0);
      assert members[..0] == [];
    }
  }

  // ----- one loop in the graph -----

  ghost predicate UniqueIds(es: seq<GraphEdge>) {
    forall i, j :: 0 <= i < j < |es| ==> es[i].id != es[j].id
  }

  /** The only back edge of the graph closes a loop with this start, end and body; a single unlabelled edge enters
      its loop_back; edge ids are unique. */
  ghost predicate Recognised(es: seq<GraphEdge>, start: Id, back: Id, members: seq<Id>) {
    && UniqueIds(es) && |Select(es, IsBack())| == 1 && |Select(es, Entering(back))| == 1
    && LoopsOf(es).pairs == map[start := Pair(back, members)]
  }

  /** The same, without running the walk. */
  ghost predicate Built(es: seq<GraphEdge>, b: GraphEdge, start: Id, members: seq<Id>) {
    && UniqueIds(es) && Select(es, IsBack()) == [b] && |Select(es, Entering(b.from))| == 1
    && IsLoop(es, b, start, members)
  }

  lemma {:induction false} OneLoopFound(es: seq<GraphEdge>, b: GraphEdge)
    requires Select(es, IsBack()) == [b]
    ensures LoopsOf(es) == match Resolve(es, b)
                           case None => Loops(map[], map[], map[])
                           case Some((start, members)) =>
                             Loops(map[start := Pair(b.from, members)], map[b.from := start],
                                   Enrol(map[], start, b.from, members, |members|))
  {
    hide Resolve, Select;
    assert [b][..0] == [];
    assert LoopsFrom(es, []) == Loops(map[], map[], map[]);
  }

  lemma {:induction false} EnrolsMembers(start: Id, back: Id, members: seq<Id>, n: nat)
    requires Distinct(members) && n <= |members|
    ensures var known := Enrol(map[], start, back, members, n);
            && (forall v :: v in known <==> v in members[..n])
            && (forall i :: 0 <= i < n ==> members[i] in known && known[members[i]] == Membership(start, back, i))
    decreases n
  {
    if n > 0 {
      EnrolsMembers(start, back, members, n - 1);
      assert members[..n] == members[..n - 1] + [members[n - 1]];
    }
  }

  /** Recognised loops are the built ones, and only their members are nested. */
  lemma {:induction false} RecognisedIsBuilt(
    es: seq<GraphEdge>, start: Id, back: Id, members: seq<Id>) returns (b: GraphEdge)
    requires Recognised(es, start, back, members)
    ensures Built(es, b, start, members) && b.from == back
  {
    hide Select, Resolve, IsLoop, UniqueIds, LoopsOf, Enrol;
    b := Select(es, IsBack())[0];
    assert Select(es, IsBack()) == [b];
    OneLoopFound(es, b);
    assert start in LoopsOf(es).pairs;
    var r := Resolve(es, b).value;
    assert r.0 in map[r.0 := Pair(b.from, r.1)];
    ResolveExactly(es, b, start, members);
  }

  lemma {:induction false} BuiltIsRecognised(es: seq<GraphEdge>, b: GraphEdge, start: Id, members: seq<Id>)
    requires Built(es, b, start, members)
    ensures Recognised(es, start, b.from, members)
    ensures forall v :: v in LoopsOf(es).membership <==> v in members
    ensures forall i :: 0 <= i < |members| ==> LoopsOf(es).membership[members[i]] == Membership(start, b.from, i)
  {
    hide Select, Resolve, UniqueIds, LoopsOf, Enrol, Follows, Enters;
    OneLoopFound(es, b);
    ResolveExactly(es, b, start, members);
    assert members == (members + [b.from])[..|members|];
    EnrolsMembers(start, b.from, members, |members|);
    assert members[..|members|] == members;
  }

  // ----- edits of the edge list -----

  ghost function IdsOf(es: seq<GraphEdge>): set<string> {
    set e | e in es :: e.id
  }

  ghost function NotIn(ids: set<string>): GraphEdge -> bool { (e: GraphEdge) => e.id !in ids }

  /** `es` with the edges `gone` taken out and the edges `added` put at the end. */
  ghost function Edit(es: seq<GraphEdge>, gone: seq<GraphEdge>, added: seq<GraphEdge>): seq<GraphEdge> {
    Select(es, NotIn(IdsOf(gone))) + added
  }

  ghost predicate Has(es: seq<GraphEdge>, gone: seq<GraphEdge>) {
    UniqueIds(es) && forall g :: g in gone ==> g in es
  }

  lemma {:induction false} SameId(es: seq<GraphEdge>, e: GraphEdge, f: GraphEdge)
    requires UniqueIds(es) && e in es && f in es && e.id == f.id
    ensures e == f
  {
    var i :| 0 <= i < |es| && es[i] == e;
    var j :| 0 <= j < |es| && es[j] == f;
  }

  /** What an edit leaves of a selection: all of it if nothing selected is gone ... */
  lemma {:induction false} EditKeeps(
    es: seq<GraphEdge>, gone: seq<GraphEdge>, added: seq<GraphEdge>, p: GraphEdge -> bool)
    requires Has(es, gone) && forall g :: g in gone ==> !p(g)
    ensures Select(Edit(es, gone, added), p) == Select(es, p) + Select(added, p)
  {
    hide Select, UniqueIds;
    var q := NotIn(IdsOf(gone));
    SelectAppend(Select(es, q), added, p);
    SelectCommutes(es, q, p);
    forall e | e in Select(es, p) ensures q(e) {
      if e.id in IdsOf(gone) {
        var g :| g in gone && g.id == e.id;
        SameId(es, e, g);
      }
    }
    SelectAll(Select(es, p), q);
  }

  /** ... and none of it if its only edge is gone. */
  lemma {:induction false} EditReplaces(
    es: seq<GraphEdge>, gone: seq<GraphEdge>, added: seq<GraphEdge>, p: GraphEdge -> bool, g: GraphEdge)
    requires Has(es, gone) && g in gone && Select(es, p) == [g]
    ensures Select(Edit(es, gone, added), p) == Select(added, p)
  {
    var q := NotIn(IdsOf(gone));
    SelectAppend(Select(es, q), added, p);
    SelectCommutes(es, q, p);
    assert [g][..0] == [];
    assert Select([g], q) == [];
  }

  lemma {:induction false} SelectUnique(es: seq<GraphEdge>, p: GraphEdge -> bool)
    requires UniqueIds(es)
    ensures UniqueIds(Select(es, p))
    decreases |es|
  {
    if es != [] {
      var n := |es| - 1;
      SelectUnique(es[..n], p);
      forall e | e in Select(es[..n], p) ensures e.id != es[n].id {
        var i :| 0 <= i < n && es[i] == e;
      }
    }
  }

  /** `added` brings ids of its own. */
  ghost predicate Fresh(es: seq<GraphEdge>, added: seq<GraphEdge>) {
    UniqueIds(added) && IdsOf(added) !! IdsOf(es)
  }

  lemma {:induction false} EditUnique(es: seq<GraphEdge>, gone: seq<GraphEdge>, added: seq<GraphEdge>)
    requires UniqueIds(es) && Fresh(es, added)
    ensures UniqueIds(Edit(es, gone, added))
  {
    var kept := Select(es, NotIn(IdsOf(gone)));
    SelectUnique(es, NotIn(IdsOf(gone)));
    hide Select;
    forall i, j | 0 <= i < |kept| && 0 <= j < |added| ensures kept[i].id != added[j].id {
      assert kept[i] in kept && kept[i].id in IdsOf(es) && added[j].id in IdsOf(added);
    }
  }

  lemma {:induction false} SelectBoth(
    s: seq<GraphEdge>, p: GraphEdge -> bool, q: GraphEdge -> bool, r: GraphEdge -> bool)
    requires forall e :: e in s ==> (r(e) <==> p(e) && q(e))
    ensures Select(Select(s, p), q) == Select(s, r)
  {
    hide Select;
    SelectNarrower(s, p, r);
    SelectSame(Select(s, p), q, r);
  }

  /** Deleting one more edge by its id and adding others is again an edit. */
  lemma {:induction false} EditMore(
    es: seq<GraphEdge>, gone: seq<GraphEdge>, added: seq<GraphEdge>, g: GraphEdge, more: seq<GraphEdge>)
    requires g.id !in IdsOf(added)
    ensures Select(Edit(es, gone, added), OtherThan(g.id)) + more == Edit(es, gone + [g], added + more)
  {
    hide Select;
    var q, q' := NotIn(IdsOf(gone)), NotIn(IdsOf(gone + [g]));
    assert IdsOf(gone + [g]) == IdsOf(gone) + {g.id};
    SelectAppend(Select(es, q), added, OtherThan(g.id));
    SelectAll(added, OtherThan(g.id));
    SelectBoth(es, q, OtherThan(g.id), q');
  }

  lemma {:induction false} EditNothing(es: seq<GraphEdge>)
    ensures Edit(es, [], []) == es
  {
    SelectAll(es, NotIn(IdsOf([])));
  }

  /** Deleting one edge by its id. */
  lemma {:induction false} EditOnce(es: seq<GraphEdge>, g: GraphEdge, more: seq<GraphEdge>)
    ensures Select(es, OtherThan(g.id)) + more == Edit(es, [g], more)
  {
    hide Select, Edit;
    EditNothing(es);
    EditMore(es, [], [], g, more);
    assert [] + [g] == [g] && [] + more == more;
  }

  lemma {:induction false} SelectTwo(e: GraphEdge, f: GraphEdge, p: GraphEdge -> bool)
    ensures Select([e], p) == if p(e) then [e] else []
    ensures Select([e, f], p) == (if p(e) then [e] else []) + (if p(f) then [f] else [])
  {
    assert [e, f] == [e] + [f] && [] + [e] == [e];
    SelectLast([], e, p);
    SelectLast([e], f, p);
  }

  lemma {:induction false} SelectThree(e: GraphEdge, f: GraphEdge, g: GraphEdge, p: GraphEdge -> bool)
    ensures Select([e, f, g], p) ==
            (if p(e) then [e] else []) + (if p(f) then [f] else []) + (if p(g) then [g] else [])
  {
    hide Select;
    assert [e, f, g] == [e, f] + [g];
    SelectTwo(e, f, p);
    SelectLast([e, f], g, p);
  }

  // ----- the edges of a loop -----

  ghost predicate EdgeFree(es: seq<GraphEdge>, x: Id) {
    forall e :: e in es ==> e.from != x && e.to != x
  }

  /** The edge at the start of a selection of one. */
  ghost predicate Sole(es: seq<GraphEdge>, p: GraphEdge -> bool, e: GraphEdge) {
    Select(es, p) == [e]
  }

  lemma {:induction false} SoleEdge(es: seq<GraphEdge>, p: GraphEdge -> bool, e: GraphEdge)
    requires |Select(es, p)| == 1 && e in es && p(e)
    ensures Sole(es, p, e)
  {
    assert e in Select(es, p);
  }

  /** The edges of a built loop: each member's way on, and the way in. */
  lemma {:induction false} LoopEdges(
    es: seq<GraphEdge>, b: GraphEdge, start: Id, members: seq<Id>, i: nat) returns (e: GraphEdge)
    requires Built(es, b, start, members) && i < |members|
    ensures Sole(es, Leaving(members[i]), e) && e in es && e.from == members[i] && e.port == ""
    ensures e.to == (members + [b.from])[i + 1]
  {
    var path := members + [b.from];
    assert Goes(es, path[i], path[i + 1]);
    e := Select(es, Leaving(members[i]))[0];
    assert e in Select(es, Leaving(members[i]));
  }

  lemma {:induction false} WayIn(es: seq<GraphEdge>, b: GraphEdge, start: Id, members: seq<Id>) returns (e: GraphEdge)
    requires Built(es, b, start, members)
    ensures Sole(es, Entering(b.to), e) && e in es && e.from == start && e.to == b.to && e.port == ""
    ensures b in es && b.port == LOOP_BACK
  {
    e := Select(es, Entering(b.to))[0];
    assert e in Select(es, Entering(b.to));
    assert b in Select(es, IsBack());
  }

  /** A member has an edge, so an edge-free node is none of the loop's. */
  lemma {:induction false} Outside(es: seq<GraphEdge>, b: GraphEdge, start: Id, members: seq<Id>, x: Id)
    requires Built(es, b, start, members) && EdgeFree(es, x)
    ensures x !in members && x != b.from && x != start
  {
    hide Select, Follows, Sole;
    var e := WayIn(es, b, start, members);
    forall i | 0 <= i < |members| ensures members[i] != x {
      var e := LoopEdges(es, b, start, members, i);
    }
  }

  lemma {:induction false} NoneSelected(es: seq<GraphEdge>, p: GraphEdge -> bool)
    requires Untouched(es, p)
    ensures Select(es, p) == []
  {
    var r := Select(es, p);
    Emptiness(r);
  }

  lemma {:induction false} Emptiness(r: seq<GraphEdge>)
    ensures r != [] ==> exists e :: e in r
  {
    if r != [] { assert r[0] in r; }
  }

  // ----- how an edit changes one node's edges -----

  ghost predicate Untouched(s: seq<GraphEdge>, p: GraphEdge -> bool) {
    forall e :: e in s ==> !p(e)
  }

  lemma {:induction false} EditUntouched(
    es: seq<GraphEdge>, gone: seq<GraphEdge>, added: seq<GraphEdge>, p: GraphEdge -> bool)
    requires Has(es, gone) && Untouched(gone, p) && Untouched(added, p)
    ensures Select(Edit(es, gone, added), p) == Select(es, p)
  {
    hide Select, Edit;
    EditKeeps(es, gone, added, p);
    NoneSelected(added, p);
  }

  lemma {:induction false} EditSwaps(
    es: seq<GraphEdge>, gone: seq<GraphEdge>, added: seq<GraphEdge>, p: GraphEdge -> bool, g: GraphEdge, e: GraphEdge)
    requires Has(es, gone) && Sole(es, p, g) && g in gone && Sole(added, p, e)
    ensures Sole(Edit(es, gone, added), p, e)
  {
    hide Select, Edit;
    EditReplaces(es, gone, added, p, g);
  }

  lemma {:induction false} EditGains(
    es: seq<GraphEdge>, gone: seq<GraphEdge>, added: seq<GraphEdge>, p: GraphEdge -> bool, e: GraphEdge)
    requires Has(es, gone) && Untouched(es, p) && Untouched(gone, p) && Sole(added, p, e)
    ensures Sole(Edit(es, gone, added), p, e)
  {
    hide Select, Edit;
    EditKeeps(es, gone, added, p);
    NoneSelected(es, p);
  }

  /** Which of two or three added edges a selection finds. */
  lemma {:induction false} SoleOfTwo(e: GraphEdge, f: GraphEdge, p: GraphEdge -> bool)
    ensures p(e) && !p(f) ==> Sole([e, f], p, e)
    ensures !p(e) && p(f) ==> Sole([e, f], p, f)
  {
    hide Select;
    SelectTwo(e, f, p);
  }

  lemma {:induction false} SoleOfThree(e: GraphEdge, f: GraphEdge, g: GraphEdge, p: GraphEdge -> bool)
    ensures p(e) && !p(f) && !p(g) ==> Sole([e, f, g], p, e)
    ensures !p(e) && p(f) && !p(g) ==> Sole([e, f, g], p, f)
    ensures !p(e) && !p(f) && p(g) ==> Sole([e, f, g], p, g)
  {
    hide Select;
    SelectThree(e, f, g, p);
  }

  lemma {:induction false} SoleGoes(es: seq<GraphEdge>, a: Id, e: GraphEdge)
    requires Sole(es, Leaving(a), e)
    ensures Goes(es, a, e.to)
  {
  }

  /** What an edit leaves alone at node `v`. */
  lemma {:induction false} GoesStays(es: seq<GraphEdge>, gone: seq<GraphEdge>, added: seq<GraphEdge>, v: Id, w: Id)
    requires Has(es, gone) && Goes(es, v, w)
    requires Untouched(gone, Leaving(v)) && Untouched(added, Leaving(v))
    ensures Goes(Edit(es, gone, added), v, w)
  {
    hide Select, Edit;
    EditUntouched(es, gone, added, Leaving(v));
  }

  lemma {:induction false} IntoStays(es: seq<GraphEdge>, gone: seq<GraphEdge>, added: seq<GraphEdge>, v: Id)
    requires Has(es, gone) && |Select(es, Into(v))| == 1
    requires Untouched(gone, Into(v)) && Untouched(added, Into(v))
    ensures |Select(Edit(es, gone, added), Into(v))| == 1
  {
    hide Select, Edit;
    EditUntouched(es, gone, added, Into(v));
  }

  lemma {:induction false} Apart(es: seq<GraphEdge>, b: GraphEdge, start: Id, members: seq<Id>, i: nat, j: nat)
    requires Built(es, b, start, members) && i <= |members| && j <= |members| && i != j
    ensures (members + [b.from])[i] != (members + [b.from])[j]
  {
    hide Select, Follows, UniqueIds;
  }

  lemma {:induction false} AtPlace(es: seq<GraphEdge>, b: GraphEdge, start: Id, members: seq<Id>, i: nat)
    requires Built(es, b, start, members) && i < |members|
    ensures Goes(es, (members + [b.from])[i], (members + [b.from])[i + 1])
    ensures 0 < i ==> |Select(es, Into((members + [b.from])[i]))| == 1
  {
    hide Select, UniqueIds, Distinct;
  }

  // ----- a node put at the tail of the body -----

  /** The tail's edge into loop_back, and the two edges that take its place. */
  ghost predicate TailEdit(
    es: seq<GraphEdge>, b: GraphEdge, start: Id, members: seq<Id>, x: Id, link: GraphEdge, e1: GraphEdge, e2: GraphEdge)
  {
    && Built(es, b, start, members) && members != [] && EdgeFree(es, x) && Fresh(es, [e1, e2])
    && Sole(es, Leaving(members[|members| - 1]), link) && Has(es, [link])
    && link == GraphEdge(link.id, members[|members| - 1], "", b.from)
    && e1 == GraphEdge(e1.id, link.from, "", x) && e2 == GraphEdge(e2.id, x, "", b.from)
  }

  lemma {:induction false} TailStep(
    es: seq<GraphEdge>, b: GraphEdge, start: Id, members: seq<Id>, x: Id,
    link: GraphEdge, e1: GraphEdge, e2: GraphEdge, i: nat)
    requires TailEdit(es, b, start, members, x, link, e1, e2) && i < |members|
    ensures var es' := Edit(es, [link], [e1, e2]);
            && Goes(es', members[i], if i == |members| - 1 then x else members[i + 1])
            && (0 < i ==> |Select(es', Into(members[i]))| == 1)
  {
    hide Built, Select, Edit, Distinct, Goes, Has, EdgeFree, Sole, Fresh;
    Outside(es, b, start, members, x);
    AtPlace(es, b, start, members, i);
    Apart(es, b, start, members, i, |members|);
    if i < |members| - 1 { Apart(es, b, start, members, i, |members| - 1); }
    var v := members[i];
    if 0 < i {
      IntoStays(es, [link], [e1, e2], v);
    }
    if i == |members| - 1 {
      SoleOfTwo(e1, e2, Leaving(v));
      EditSwaps(es, [link], [e1, e2], Leaving(v), link, e1);
      SoleGoes(Edit(es, [link], [e1, e2]), v, e1);
    } else {
      GoesStays(es, [link], [e1, e2], v, members[i + 1]);
    }
  }

  lemma {:induction false} TailLast(
    es: seq<GraphEdge>, b: GraphEdge, start: Id, members: seq<Id>, x: Id, link: GraphEdge, e1: GraphEdge, e2: GraphEdge)
    requires TailEdit(es, b, start, members, x, link, e1, e2)
    ensures var es' := Edit(es, [link], [e1, e2]);
            && Goes(es', x, b.from) && |Select(es', Into(x))| == 1
            && Enters(es', start, members[0]) && Select(es', IsBack()) == [b] && |Select(es', Entering(b.from))| == 1
  {
    hide Select, Edit, Distinct, Has, Fresh, Follows, UniqueIds;
    Outside(es, b, start, members, x);
    Apart(es, b, start, members, 0, |members|);
    var es' := Edit(es, [link], [e1, e2]);
    SoleOfTwo(e1, e2, Leaving(x));
    EditGains(es, [link], [e1, e2], Leaving(x), e2);
    SoleOfTwo(e1, e2, Into(x));
    EditGains(es, [link], [e1, e2], Into(x), e1);
    EditUntouched(es, [link], [e1, e2], IsBack());
    EditUntouched(es, [link], [e1, e2], Entering(members[0]));
    SoleEdge(es, Entering(b.from), link);
    SoleOfTwo(e1, e2, Entering(b.from));
    EditSwaps(es, [link], [e1, e2], Entering(b.from), link, e2);
  }

  lemma {:induction false} TailBuilt(
    es: seq<GraphEdge>, b: GraphEdge, start: Id, members: seq<Id>, x: Id, link: GraphEdge, e1: GraphEdge, e2: GraphEdge)
    requires TailEdit(es, b, start, members, x, link, e1, e2)
    ensures Built(Edit(es, [link], [e1, e2]), b, start, members + [x])
  {
    hide Select, Edit, Has, Fresh, UniqueIds, Goes, EdgeFree, Enters, Sole;
    var es' := Edit(es, [link], [e1, e2]);
    var path' := members + [x] + [b.from];
    TailLast(es, b, start, members, x, link, e1, e2);
    assert Follows(es', path', 0) by {
      hide Built;
      forall i | 0 <= i < |members|
        ensures Goes(es', path'[i], path'[i + 1]) && (0 < i ==> |Select(es', Into(path'[i]))| == 1)
      {
        TailStep(es, b, start, members, x, link, e1, e2, i);
      }
    }
    Outside(es, b, start, members, x);
    assert Distinct(path') by {
      hide Follows;
      assert Distinct(members + [b.from]);
      Inserted(members, x, b.from);
    }
    EditUnique(es, [link], [e1, e2]);
  }

  lemma {:induction false} Inserted(members: seq<Id>, x: Id, last: Id)
    requires Distinct(members + [last]) && x !in members && x != last
    ensures Distinct(members + [x] + [last])
  {
    var path := members + [last];
    forall i, j | 0 <= i < j < |members| + 2
      ensures (members + [x] + [last])[i] != (members + [x] + [last])[j]
    {
      if i < |members| {
        assert path[i] == members[i] && path[|members|] == last;
        if j < |members| { assert path[j] == members[j]; }
      }
    }
  }

  // ----- a node put into an empty body -----

  ghost predicate FirstEdit(
    es: seq<GraphEdge>, b: GraphEdge, start: Id, x: Id, h: GraphEdge, e1: GraphEdge, e2: GraphEdge, b': GraphEdge)
  {
    && Built(es, b, start, []) && EdgeFree(es, x) && Fresh(es, [e1, e2, b'])
    && Sole(es, Entering(b.from), h) && Has(es, [h, b]) && h == GraphEdge(h.id, start, "", b.from)
    && e1 == GraphEdge(e1.id, start, "", x) && e2 == GraphEdge(e2.id, x, "", b.from)
    && b' == GraphEdge(b'.id, b.from, LOOP_BACK, x)
  }

  lemma {:induction false} FirstBuilt(
    es: seq<GraphEdge>, b: GraphEdge, start: Id, x: Id, h: GraphEdge, e1: GraphEdge, e2: GraphEdge, b': GraphEdge)
    requires FirstEdit(es, b, start, x, h, e1, e2, b')
    ensures Built(Edit(es, [h, b], [e1, e2, b']), b', start, [x])
  {
    hide Select, Edit, Has, Fresh, UniqueIds;
    var es' := Edit(es, [h, b], [e1, e2, b']);
    Outside(es, b, start, [], x);
    SoleOfThree(e1, e2, b', Leaving(x));
    EditGains(es, [h, b], [e1, e2, b'], Leaving(x), e2);
    SoleOfThree(e1, e2, b', Entering(x));
    EditGains(es, [h, b], [e1, e2, b'], Entering(x), e1);
    SoleOfThree(e1, e2, b', Entering(b.from));
    EditSwaps(es, [h, b], [e1, e2, b'], Entering(b.from), h, e2);
    SoleOfThree(e1, e2, b', IsBack());
    EditSwaps(es, [h, b], [e1, e2, b'], IsBack(), b, b');
    EditUnique(es, [h, b], [e1, e2, b']);
    assert [x] + [b.from] == [x, b.from];
  }

  // ----- the first member taken out -----

  lemma {:induction false} StartOutside(es: seq<GraphEdge>, b: GraphEdge, start: Id, members: seq<Id>, j: nat)
    requires Built(es, b, start, members) && j < |members|
    ensures members[j] != start
  {
    hide Built, Select;
    var h := WayIn(es, b, start, members);
    var e := LoopEdges(es, b, start, members, j);
    BackTo(es, b, start, members);
    Apart(es, b, start, members, 0, j + 1);
    assert members[j] == start ==> h in Select(es, Leaving(start));
  }

  lemma {:induction false} BackTo(es: seq<GraphEdge>, b: GraphEdge, start: Id, members: seq<Id>)
    requires Built(es, b, start, members)
    ensures b.to == (members + [b.from])[0] && b.port == LOOP_BACK && b in es
    ensures |Select(es, Entering(b.from))| == 1 && Sole(es, IsBack(), b)
  {
    hide UniqueIds, Follows, Distinct;
    assert b in Select(es, IsBack());
  }

  ghost predicate HeadEdit(
    es: seq<GraphEdge>, b: GraphEdge, start: Id, members: seq<Id>,
    inc: GraphEdge, out: GraphEdge, link: GraphEdge, b': GraphEdge)
  {
    && Built(es, b, start, members) && members != [] && Has(es, [inc, out, b]) && Fresh(es, [link, b'])
    && Sole(es, Entering(members[0]), inc) && inc == GraphEdge(inc.id, start, "", members[0])
    && Sole(es, Leaving(members[0]), out) && out == GraphEdge(out.id, members[0], "", (members + [b.from])[1])
    && link == GraphEdge(link.id, start, "", out.to) && b' == GraphEdge(b'.id, b.from, LOOP_BACK, out.to)
  }

  lemma {:induction false} HeadStep(
    es: seq<GraphEdge>, b: GraphEdge, start: Id, members: seq<Id>,
    inc: GraphEdge, out: GraphEdge, link: GraphEdge, b': GraphEdge,
    j: nat)
    requires HeadEdit(es, b, start, members, inc, out, link, b') && 0 < j < |members|
    ensures var es' := Edit(es, [inc, out, b], [link, b']);
            && Goes(es', members[j], (members + [b.from])[j + 1])
            && (1 < j ==> |Select(es', Into(members[j]))| == 1)
  {
    hide Built, Select, Edit, Distinct, Goes, Has, Sole, Fresh;
    AtPlace(es, b, start, members, j);
    BackTo(es, b, start, members);
    StartOutside(es, b, start, members, j);
    Apart(es, b, start, members, 0, j);
    GoesStays(es, [inc, out, b], [link, b'], members[j], (members + [b.from])[j + 1]);
    if 1 < j {
      Apart(es, b, start, members, 1, j);
      IntoStays(es, [inc, out, b], [link, b'], members[j]);
    }
  }

  lemma {:induction false} HeadLast(
    es: seq<GraphEdge>, b: GraphEdge, start: Id, members: seq<Id>,
    inc: GraphEdge, out: GraphEdge, link: GraphEdge, b': GraphEdge)
    requires HeadEdit(es, b, start, members, inc, out, link, b')
    ensures var es' := Edit(es, [inc, out, b], [link, b']);
            Enters(es', start, out.to) && Select(es', IsBack()) == [b'] && |Select(es', Entering(b.from))| == 1
  {
    hide Built, Select, Edit, Distinct, UniqueIds, Fresh;
    var es' := Edit(es, [inc, out, b], [link, b']);
    assert out in [inc, out, b];
    BackTo(es, b, start, members);
    Apart(es, b, start, members, 0, |members|);
    SoleOfTwo(link, b', IsBack());
    EditSwaps(es, [inc, out, b], [link, b'], IsBack(), b, b');
    NextEntry(es, b, start, members, 0, out);
    SoleOfTwo(link, b', Entering(out.to));
    EditSwaps(es, [inc, out, b], [link, b'], Entering(out.to), out, link);
    if |members| > 1 {
      Apart(es, b, start, members, 1, |members|);
      EditUntouched(es, [inc, out, b], [link, b'], Entering(b.from));
    }
  }

  /** The way on from a member is the only unlabelled way into the next. */
  lemma {:induction false} NextEntry(
    es: seq<GraphEdge>, b: GraphEdge, start: Id, members: seq<Id>, i: nat, out: GraphEdge)
    requires Built(es, b, start, members) && i < |members| && Has(es, [out])
    requires out.to == (members + [b.from])[i + 1] && out.port == ""
    ensures Sole(es, Entering(out.to), out)
  {
    hide Built, Select;
    BackTo(es, b, start, members);
    assert out in [out];
    if i + 1 < |members| {
      AtPlace(es, b, start, members, i + 1);
      SoleEdge(es, Into(out.to), out);
      SelectNarrower(es, Into(out.to), Entering(out.to));
      SelectTwo(out, out, Entering(out.to));
    } else {
      SoleEdge(es, Entering(out.to), out);
    }
  }

  lemma {:induction false} HeadBuilt(
    es: seq<GraphEdge>, b: GraphEdge, start: Id, members: seq<Id>,
    inc: GraphEdge, out: GraphEdge, link: GraphEdge, b': GraphEdge)
    requires HeadEdit(es, b, start, members, inc, out, link, b')
    ensures Built(Edit(es, [inc, out, b], [link, b']), b', start, members[1..])
  {
    hide Select, Edit, Has, Fresh, UniqueIds, Goes, Enters, Sole;
    var es' := Edit(es, [inc, out, b], [link, b']);
    var path, path' := members + [b.from], members[1..] + [b.from];
    HeadLast(es, b, start, members, inc, out, link, b');
    assert path' == path[1..];
    assert Follows(es', path', 0) by {
      hide Built;
      forall i | 0 <= i < |path'| - 1
        ensures Goes(es', path'[i], path'[i + 1]) && (0 < i ==> |Select(es', Into(path'[i]))| == 1)
      {
        HeadStep(es, b, start, members, inc, out, link, b', i + 1);
      }
    }
    EditUnique(es, [inc, out, b], [link, b']);
  }

  // ----- a later member taken out -----

  ghost predicate InnerEdit(
    es: seq<GraphEdge>, b: GraphEdge, start: Id, members: seq<Id>, i: nat,
    inc: GraphEdge, out: GraphEdge, link: GraphEdge)
  {
    && Built(es, b, start, members) && 0 < i < |members| && Has(es, [inc, out]) && Fresh(es, [link])
    && Sole(es, Leaving(members[i - 1]), inc) && inc == GraphEdge(inc.id, members[i - 1], "", members[i])
    && Sole(es, Leaving(members[i]), out) && out == GraphEdge(out.id, members[i], "", (members + [b.from])[i + 1])
    && link == GraphEdge(link.id, members[i - 1], "", out.to)
  }

  lemma {:induction false} InnerStep(
    es: seq<GraphEdge>, b: GraphEdge, start: Id, members: seq<Id>, i: nat,
    inc: GraphEdge, out: GraphEdge, link: GraphEdge, j: nat)
    requires InnerEdit(es, b, start, members, i, inc, out, link) && j < |members| && j != i
    ensures var es', path := Edit(es, [inc, out], [link]), members + [b.from];
            && Goes(es', members[j], if j == i - 1 then path[i + 1] else path[j + 1])
            && (0 < j ==> |Select(es', Into(members[j]))| == 1)
  {
    hide Built, Select, Edit, Distinct, Goes, Has, Sole, Fresh;
    AtPlace(es, b, start, members, j);
    Apart(es, b, start, members, i, j);
    if j == i - 1 {
      SelectTwo(link, link, Leaving(members[j]));
      SoleOfOne(link, Leaving(members[j]));
      EditSwaps(es, [inc, out], [link], Leaving(members[j]), inc, link);
      SoleGoes(Edit(es, [inc, out], [link]), members[j], link);
    } else {
      Apart(es, b, start, members, i - 1, j);
      GoesStays(es, [inc, out], [link], members[j], (members + [b.from])[j + 1]);
    }
    if 0 < j { InnerInto(es, b, start, members, i, inc, out, link, j); }
  }

  lemma {:induction false} SoleOfOne(e: GraphEdge, p: GraphEdge -> bool)
    requires p(e)
    ensures Sole([e], p, e)
  {
    SelectTwo(e, e, p);
  }

  lemma {:induction false} InnerInto(
    es: seq<GraphEdge>, b: GraphEdge, start: Id, members: seq<Id>, i: nat,
    inc: GraphEdge, out: GraphEdge, link: GraphEdge, j: nat)
    requires InnerEdit(es, b, start, members, i, inc, out, link) && 0 < j < |members| && j != i
    ensures |Select(Edit(es, [inc, out], [link]), Into(members[j]))| == 1
  {
    hide Built, Select, Edit, Distinct, Goes, Fresh, UniqueIds;
    AtPlace(es, b, start, members, j);
    Apart(es, b, start, members, i, j);
    if j == i + 1 {
      assert out in [inc, out];
      SoleEdge(es, Into(members[j]), out);
      SoleOfOne(link, Into(members[j]));
      EditSwaps(es, [inc, out], [link], Into(members[j]), out, link);
    } else {
      Apart(es, b, start, members, i + 1, j);
      IntoStays(es, [inc, out], [link], members[j]);
    }
  }

  lemma {:induction false} InnerLast(
    es: seq<GraphEdge>, b: GraphEdge, start: Id, members: seq<Id>, i: nat,
    inc: GraphEdge, out: GraphEdge, link: GraphEdge)
    requires InnerEdit(es, b, start, members, i, inc, out, link)
    ensures var es' := Edit(es, [inc, out], [link]);
            Enters(es', start, members[0]) && Select(es', IsBack()) == [b] && |Select(es', Entering(b.from))| == 1
  {
    hide Select, Edit, Distinct, Fresh, UniqueIds, Follows;
    BackTo(es, b, start, members);
    Apart(es, b, start, members, 0, i);
    Apart(es, b, start, members, 0, i + 1);
    EditUntouched(es, [inc, out], [link], IsBack());
    EditUntouched(es, [inc, out], [link], Entering(members[0]));
    Apart(es, b, start, members, i, |members|);
    if i + 1 == |members| {
      assert out in [inc, out];
      SoleEdge(es, Entering(b.from), out);
      SoleOfOne(link, Entering(b.from));
      EditSwaps(es, [inc, out], [link], Entering(b.from), out, link);
    } else {
      Apart(es, b, start, members, i + 1, |members|);
      EditUntouched(es, [inc, out], [link], Entering(b.from));
    }
  }

  lemma {:induction false} InnerBuilt(
    es: seq<GraphEdge>, b: GraphEdge, start: Id, members: seq<Id>, i: nat,
    inc: GraphEdge, out: GraphEdge, link: GraphEdge)
    requires InnerEdit(es, b, start, members, i, inc, out, link)
    ensures Built(Edit(es, [inc, out], [link]), b, start, members[..i] + members[i + 1..])
  {
    hide Select, Edit, Has, Fresh, UniqueIds, Goes, Enters, Sole;
    var es' := Edit(es, [inc, out], [link]);
    var rest := members[..i] + members[i + 1..];
    var path, path' := members + [b.from], rest + [b.from];
    InnerLast(es, b, start, members, i, inc, out, link);
    assert path' == path[..i] + path[i + 1..];
    assert Follows(es', path', 0) by {
      hide Built;
      forall j | 0 <= j < |path'| - 1
        ensures Goes(es', path'[j], path'[j + 1]) && (0 < j ==> |Select(es', Into(path'[j]))| == 1)
      {
        InnerStep(es, b, start, members, i, inc, out, link, if j < i then j else j + 1);
      }
    }
    EditUnique(es, [inc, out], [link]);
  }
}
