/** The loop body as an editable block: `computeLoops`, `attachToLoopCavity` and `detachFromLoopCavity`
    (studio/src/loopCavity.ts) over the edge list of studio/src/application.ts. */
module LoopCavity {
  import opened Wrappers
  import opened Sequences
  import opened FlowGraph

  /** A drawn connection; port "" stands for an absent `fromPort`. */
  datatype GraphEdge = GraphEdge(id: string, from: Id, port: string, to: Id)

  /** `implicit` is the chain that array order implies, used while no edge has been drawn. */
  datatype FlowModel = FlowModel(implicit: seq<GraphEdge>, edges: seq<GraphEdge>)

  datatype Pair = Pair(back: Id, members: seq<Id>)

  datatype Membership = Membership(start: Id, back: Id, index: nat)

  datatype Loops = Loops(pairs: map<Id, Pair>, backOf: map<Id, Id>, membership: map<Id, Membership>)

  // ----- filtering edges -----

  function Select(es: seq<GraphEdge>, p: GraphEdge -> bool): (r: seq<GraphEdge>)
    ensures forall e :: e in r <==> e in es && p(e)
  {
    if es == [] then []
    else
      var n := |es| - 1;
      Select(es[..n], p) + (if p(es[n]) then [es[n]] else [])
  }

  function Find(es: seq<GraphEdge>, p: GraphEdge -> bool): Option<GraphEdge> {
    var found := Select(es, p);
    if found == [] then None else Some(found[0])
  }

  function Leaving(v: Id): GraphEdge -> bool { (e: GraphEdge) => e.from == v && e.port == "" }

  function Entering(v: Id): GraphEdge -> bool { (e: GraphEdge) => e.to == v && e.port == "" }

  function Into(v: Id): GraphEdge -> bool { (e: GraphEdge) => e.to == v }

  function Between(a: Id, b: Id): GraphEdge -> bool { (e: GraphEdge) => e.from == a && e.to == b && e.port == "" }

  function IsBack(): GraphEdge -> bool { (e: GraphEdge) => e.port == LOOP_BACK }

  function BackFrom(v: Id): GraphEdge -> bool { (e: GraphEdge) => e.from == v && e.port == LOOP_BACK }

  function OtherThan(id: string): GraphEdge -> bool { (e: GraphEdge) => e.id != id }

  lemma {:induction false} SelectAppend(s: seq<GraphEdge>, t: seq<GraphEdge>, p: GraphEdge -> bool)
    ensures Select(s + t, p) == Select(s, p) + Select(t, p)
    decreases |t|
  {
    if t == [] {
      assert s + t == s;
    } else {
      var n := |t| - 1;
      assert (s + t)[..|s + t| - 1] == s + t[..n];
      SelectAppend(s, t[..n], p);
    }
  }

  lemma {:induction false} SelectCommutes(s: seq<GraphEdge>, p: GraphEdge -> bool, q: GraphEdge -> bool)
    ensures Select(Select(s, p), q) == Select(Select(s, q), p)
    decreases |s|
  {
    if s != [] {
      var n := |s| - 1;
      var last := [s[n]];
      SelectCommutes(s[..n], p, q);
      SelectAppend(Select(s[..n], p), if p(s[n]) then last else [], q);
      SelectAppend(Select(s[..n], q), if q(s[n]) then last else [], p);
      assert last[..0] == [];
    }
  }

  lemma {:induction false} SelectAll(s: seq<GraphEdge>, p: GraphEdge -> bool)
    requires forall e :: e in s ==> p(e)
    ensures Select(s, p) == s
    decreases |s|
  {
    if s != [] {
      var n := |s| - 1;
      assert s == s[..n] + [s[n]];
      SelectAll(s[..n], p);
    }
  }

  /** Selecting by the stronger condition first makes no difference. */
  lemma {:induction false} SelectNarrower(s: seq<GraphEdge>, p: GraphEdge -> bool, q: GraphEdge -> bool)
    requires forall e :: e in s && q(e) ==> p(e)
    ensures Select(Select(s, p), q) == Select(s, q)
  {
    SelectCommutes(s, p, q);
    SelectAll(Select(s, q), p);
  }

  // ----- computeLoops -----

  ghost function Sources(es: seq<GraphEdge>): set<Id> {
    set e | e in es :: e.from
  }

  /** The walk along single unlabelled edges until it lands on `back`; `members` are the nodes passed so far. */
  function Walk(es: seq<GraphEdge>, back: Id, current: Id, members: seq<Id>): Option<seq<Id>>
    decreases Sources(es) - Elems(members)
  {
    if current == back then Some(members)
    else if current in members then None
    else
      var outs := Select(es, Leaving(current));
      if |outs| != 1 then None
      else
        var next := outs[0].to;
        if next != back && |Select(es, Into(next))| != 1 then None
        else
          Shrinks(es, current, members);
          Walk(es, back, next, members + [current])
  }

  lemma {:induction false} Shrinks(es: seq<GraphEdge>, current: Id, members: seq<Id>)
    requires current !in members && |Select(es, Leaving(current))| >= 1
    ensures Sources(es) - Elems(members + [current]) < Sources(es) - Elems(members)
  {
    var e := Select(es, Leaving(current))[0];
    assert e in Select(es, Leaving(current));
    assert current in Sources(es) - Elems(members);
  }

  /** The loop closed by the back edge `back`: who enters it, and its body. */
  function Resolve(es: seq<GraphEdge>, back: GraphEdge): Option<(Id, seq<Id>)> {
    match Walk(es, back.from, back.to, [])
    case None => None
    case Some(members) =>
      var head := if members != [] then members[0] else back.from;
      var entries := Select(es, Entering(head));
      if |entries| != 1 then None else Some((entries[0].from, members))
  }

  function Enrol(known: map<Id, Membership>, start: Id, back: Id, members: seq<Id>, n: nat): map<Id, Membership>
    requires n <= |members|
  {
    if n == 0 then known
    else Enrol(known, start, back, members, n - 1)[members[n - 1] := Membership(start, back, n - 1)]
  }

  function AddLoop(es: seq<GraphEdge>, loops: Loops, back: GraphEdge): Loops {
    if back.from in loops.backOf then loops
    else match Resolve(es, back)
      case None => loops
      case Some((start, members)) =>
        Loops(loops.pairs[start := Pair(back.from, members)], loops.backOf[back.from := start],
              Enrol(loops.membership, start, back.from, members, |members|))
  }

  function LoopsFrom(es: seq<GraphEdge>, backs: seq<GraphEdge>): Loops {
    if backs == [] then Loops(map[], map[], map[])
    else AddLoop(es, LoopsFrom(es, backs[..|backs| - 1]), backs[|backs| - 1])
  }

  function LoopsOf(es: seq<GraphEdge>): Loops {
    LoopsFrom(es, Select(es, IsBack()))
  }

  // ----- the imperative form -----

  function From(v: Id): GraphEdge -> bool { (e: GraphEdge) => e.from == v }

  function Unlabelled(): GraphEdge -> bool { (e: GraphEdge) => e.port == "" }

  function ListAt(outgoing: map<Id, seq<GraphEdge>>, v: Id): seq<GraphEdge> {
    if v in outgoing then outgoing[v] else []
  }

  function CountAt(counts: map<Id, nat>, v: Id): nat {
    if v in counts then counts[v] else 0
  }

  ghost predicate Tables(es: seq<GraphEdge>, outgoing: map<Id, seq<GraphEdge>>, counts: map<Id, nat>) {
    && (forall v :: ListAt(outgoing, v) == Select(es, From(v)))
    && (forall v :: CountAt(counts, v) == |Select(es, Into(v))|)
  }

  lemma {:induction false} SelectLast(s: seq<GraphEdge>, e: GraphEdge, p: GraphEdge -> bool)
    ensures Select(s + [e], p) == Select(s, p) + (if p(e) then [e] else [])
  {
    assert (s + [e])[..|s|] == s;
  }

  lemma {:induction false} TablesStep(
    es: seq<GraphEdge>, e: GraphEdge, outgoing: map<Id, seq<GraphEdge>>, counts: map<Id, nat>)
    requires Tables(es, outgoing, counts)
    ensures Tables(es + [e], outgoing[e.from := ListAt(outgoing, e.from) + [e]],
                   counts[e.to := CountAt(counts, e.to) + 1])
  {
    hide Select;
    var outgoing' := outgoing[e.from := ListAt(outgoing, e.from) + [e]];
    var counts' := counts[e.to := CountAt(counts, e.to) + 1];
    forall v ensures ListAt(outgoing', v) == Select(es + [e], From(v)) {
      SelectLast(es, e, From(v));
      assert ListAt(outgoing, v) == Select(es, From(v));
    }
    forall v ensures CountAt(counts', v) == |Select(es + [e], Into(v))| {
      SelectLast(es, e, Into(v));
      assert CountAt(counts, v) == |Select(es, Into(v))|;
    }
  }

  method BuildTables(es: seq<GraphEdge>) returns (outgoing: map<Id, seq<GraphEdge>>, counts: map<Id, nat>)
    ensures Tables(es, outgoing, counts)
  {
    outgoing, counts := map[], map[];
    for i := 0 to |es|
      invariant Tables(es[..i], outgoing, counts)
    {
      var e := es[i];
      hide Tables;
      assert es[..i + 1] == es[..i] + [e];
      TablesStep(es[..i], e, outgoing, counts);
      outgoing := outgoing[e.from := ListAt(outgoing, e.from) + [e]];
      counts := counts[e.to := CountAt(counts, e.to) + 1];
    }
    assert es[..|es|] == es;
  }

  lemma {:induction false} LeavingIsUnlabelled(es: seq<GraphEdge>, v: Id)
    ensures Select(Select(es, From(v)), Unlabelled()) == Select(es, Leaving(v))
  {
    SelectNarrower(es, From(v), Leaving(v));
    SelectSame(Select(es, From(v)), Leaving(v), Unlabelled());
  }

  lemma {:induction false} SelectSame(s: seq<GraphEdge>, p: GraphEdge -> bool, q: GraphEdge -> bool)
    requires forall e :: e in s ==> p(e) == q(e)
    ensures Select(s, p) == Select(s, q)
    decreases |s|
  {
    if s != [] { SelectSame(s[..|s| - 1], p, q); }
  }

  /** One step of the walk. */
  lemma {:induction false} WalkStep(es: seq<GraphEdge>, back: Id, here: Id, members: seq<Id>)
    requires here != back && here !in members
    ensures var outs := Select(es, Leaving(here));
            Walk(es, back, here, members) ==
            if |outs| != 1 || (outs[0].to != back && |Select(es, Into(outs[0].to))| != 1) then None
            else Walk(es, back, outs[0].to, members + [here])
  {
    hide Select, Sources;
  }

  /** The walk of `computeLoops` for one back edge. */
  method WalkBody(es: seq<GraphEdge>, outgoing: map<Id, seq<GraphEdge>>, counts: map<Id, nat>, back: GraphEdge)
    returns (r: Option<seq<Id>>)
    requires Tables(es, outgoing, counts)
    ensures r == Walk(es, back.from, back.to, [])
  {
    hide Select, Sources;
    var members: seq<Id> := [];
    var current := Some(back.to);
    var seen: set<Id> := {};
    while current.Some? && current.value != back.from && current.value !in seen
      invariant seen == Elems(members)
      invariant Walk(es, back.from, back.to, []) ==
                (if current.None? then None else Walk(es, back.from, current.value, members))
      decreases current.Some?, Sources(es) - seen
    {
      var here := current.value;
      assert here !in members;
      var outs := Select(ListAt(outgoing, here), Unlabelled());
      LeavingIsUnlabelled(es, here);
      WalkStep(es, back.from, here, members);
      if |outs| != 1 {
        current := None;
        break;
      }
      var next := outs[0].to;
      if next != back.from && CountAt(counts, next) != 1 {
        current := None;
        break;
      }
      Shrinks(es, here, members);
      seen := seen + {here};
      members := members + [here];
      current := Some(next);
    }
    r := if current == Some(back.from) then Some(members) else None;
  }

  /** The body of the loop over back edges. */
  method AddBackEdge(
    es: seq<GraphEdge>, outgoing: map<Id, seq<GraphEdge>>, counts: map<Id, nat>, known: Loops, back: GraphEdge)
    returns (loops: Loops)
    requires Tables(es, outgoing, counts)
    ensures loops == AddLoop(es, known, back)
  {
    hide Tables, Walk, Select;
    loops := known;
    if back.from in loops.backOf { return; }
    var walked := WalkBody(es, outgoing, counts, back);
    if walked.None? { return; }
    var members := walked.value;
    var headId := if |members| > 0 then members[0] else back.from;
    var entries := Select(es, Entering(headId));
    if |entries| != 1 { return; }
    var start := entries[0].from;
    var membership := loops.membership;
    for k := 0 to |members|
      invariant membership == Enrol(loops.membership, start, back.from, members, k)
    {
      membership := membership[members[k] := Membership(start, back.from, k)];
    }
    loops := Loops(loops.pairs[start := Pair(back.from, members)], loops.backOf[back.from := start], membership);
  }

  method ComputeLoops(es: seq<GraphEdge>) returns (loops: Loops)
    ensures loops == LoopsOf(es)
  {
    hide Tables, AddLoop, Select;
    var outgoing, counts := BuildTables(es);
    var backs := Select(es, IsBack());
    loops := Loops(map[], map[], map[]);
    for i := 0 to |backs|
      invariant loops == LoopsFrom(es, backs[..i])
    {
      assert backs[..i + 1][..i] == backs[..i];
      loops := AddBackEdge(es, outgoing, counts, loops, backs[i]);
    }
    assert backs[..|backs|] == backs;
  }
}
