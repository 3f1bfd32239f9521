/** The subscription index lock by lock: SUBSCRIBE, session restore and teardown touch the session's own filters and the
    index under different locks (include/aero/broker/native_broker.hpp). */
module IndexLag {
  import opened Wrappers
  import opened Sequences
  import opened TopicMatch
  import opened TopicIndex

  /** What a session is in the middle of: `had` stands in the index, `todo` is still to be entered. */
  datatype Work =
    | Subscribing(had: seq<Subscription>, todo: seq<Subscription>)
    | Restoring(had: seq<Subscription>, todo: seq<Subscription>)
    | Leaving

  /** The broker, in which a leaving session still has its filters, and who is in the middle of something. */
  datatype Broker = Broker(st: State, work: map<Handle, Work>)

  /** One locked block each. A session's own blocks follow each other; those of others may come between. */
  datatype Block =
    | Accepted(s: Handle)
    | Granted(s: Handle, added: seq<Subscription>)
    | Restored(s: Handle, stored: seq<Subscription>)
    | Entered(s: Handle)
    | Acknowledged(s: Handle)
    | Erased(s: Handle)
    | Removed(s: Handle)

  predicate Idle(b: Broker, s: Handle) {
    s in b.st.subs && s !in b.work
  }

  predicate Possible(b: Broker, block: Block) {
    match block
    case Accepted(s) => s !in b.st.subs && s !in b.work
    case Granted(s, _) => Idle(b, s)
    case Restored(s, _) => Idle(b, s) && b.st.subs[s] == []
    case Entered(s) => s in b.work && !b.work[s].Leaving? && b.work[s].todo != []
    case Acknowledged(s) => s in b.work && !b.work[s].Leaving? && b.work[s].todo == []
    case Erased(s) => Idle(b, s)
    case Removed(s) => s in b.work && b.work[s].Leaving? && s in b.st.subs
  }

  /** SUBSCRIBE lists the filters with the session and then enters them one by one; a restored session enters them one
      by one and then lists them; teardown takes the session off the list and then out of the index. */
  function Next(b: Broker, block: Block): Broker
    requires Possible(b, block)
  {
    match block
    case Accepted(s) => b.(st := b.st.(sessions := b.st.sessions + [s], subs := b.st.subs[s := []]))
    case Granted(s, added) =>
      Broker(b.st.(subs := b.st.subs[s := b.st.subs[s] + added]), b.work[s := Subscribing(b.st.subs[s], added)])
    case Restored(s, stored) => b.(work := b.work[s := Restoring([], stored)])
    case Entered(s) =>
      var w := b.work[s];
      Broker(IndexOne(b.st, s, w.todo[0].filter), b.work[s := w.(had := w.had + [w.todo[0]], todo := w.todo[1..])])
    case Acknowledged(s) =>
      Broker(if b.work[s].Restoring? then b.st.(subs := b.st.subs[s := b.work[s].had]) else b.st, b.work - {s})
    case Erased(s) => Broker(b.st.(sessions := Erase(b.st.sessions, s)), b.work[s := Leaving])
    case Removed(s) =>
      Broker(State(b.st.sessions, b.st.subs - {s}, UnindexAll(b.st.exact, s, b.st.subs[s]),
                   if AnyWild(b.st.subs[s]) then Erase(b.st.wild, s) else b.st.wild), b.work - {s})
  }

  // ----- what every block keeps -----

  /** The filters under which the index lists a session. */
  ghost function Listed(b: Broker, s: Handle): seq<Subscription> {
    if s in b.work && !b.work[s].Leaving? then b.work[s].had else SubsOf(b.st, s)
  }

  ghost predicate Fits(b: Broker, s: Handle) {
    && (s in b.st.sessions <==> s in b.st.subs && !(s in b.work && b.work[s].Leaving?))
    && (s in b.work ==>
          && s in b.st.subs
          && match b.work[s]
             case Subscribing(had, todo) => b.st.subs[s] == had + todo
             case Restoring(_, _) => b.st.subs[s] == []
             case Leaving => true)
  }

  /** The index lists every session under exactly the filters entered for it. */
  ghost predicate Tracked(b: Broker) {
    && Distinct(b.st.sessions) && NoEmptyLists(b.st.exact)
    && (forall s :: Fits(b, s))
    && (forall s :: IndexedBy(b.st.exact, b.st.wild, s, Listed(b, s)))
  }

  lemma {:induction false} FitsNext(b: Broker, block: Block, x: Handle)
    requires Possible(b, block) && Fits(b, x)
    ensures Fits(Next(b, block), x)
  {
    hide UnindexAll, AnyWild, IndexOne;
    if block.Entered? {
      IndexOneFrame(b.st, block.s, b.work[block.s].todo[0].filter);
      var w := b.work[block.s];
      assert w.had + w.todo == w.had + [w.todo[0]] + w.todo[1..];
    }
  }

  lemma {:induction false} IndexOneFrame(st: State, s: Handle, filter: string)
    ensures IndexOne(st, s, filter).subs == st.subs && IndexOne(st, s, filter).sessions == st.sessions
  {
  }

  lemma {:induction false} EnteredListed(b: Broker, s: Handle, x: Handle)
    requires Possible(b, Entered(s)) && NoEmptyLists(b.st.exact)
    requires IndexedBy(b.st.exact, b.st.wild, x, Listed(b, x))
    ensures var b' := Next(b, Entered(s));
            IndexedBy(b'.st.exact, b'.st.wild, x, Listed(b', x)) && NoEmptyLists(b'.st.exact)
  {
    hide IndexedBy, NoEmptyLists, IndexOne;
    IndexOneAdds(b.st, s, b.work[s].todo[0], x, Listed(b, x));
  }

  lemma {:induction false} RemovedListed(b: Broker, s: Handle, x: Handle)
    requires Possible(b, Removed(s)) && NoEmptyLists(b.st.exact)
    requires IndexedBy(b.st.exact, b.st.wild, x, Listed(b, x))
    ensures var b' := Next(b, Removed(s));
            IndexedBy(b'.st.exact, b'.st.wild, x, Listed(b', x)) && NoEmptyLists(b'.st.exact)
  {
    hide NoEmptyLists, HasWildcard, UnindexAll, Uses, AnyWild;
    UnindexAllRemoves(b.st.exact, s, b.st.subs[s]);
    UsesNone();
    var b' := Next(b, Removed(s));
    if x == s {
      assert Listed(b', x) == [] && Listed(b, x) == b.st.subs[s];
      forall f ensures s !in At(b'.st.exact, f) {
        assert s in At(b.st.exact, f) <==> Uses(b.st.subs[s], f) && !HasWildcard(f);
      }
    } else {
      assert Listed(b', x) == Listed(b, x);
      forall f ensures x in At(b'.st.exact, f) <==> x in At(b.st.exact, f) {
      }
    }
  }

  /** Blocks other than these two leave the index alone. */
  lemma {:induction false} ListedStays(b: Broker, block: Block, x: Handle)
    requires Possible(b, block) && Fits(b, x) && !block.Entered? && !block.Removed?
    ensures var b' := Next(b, block);
            b'.st.exact == b.st.exact && b'.st.wild == b.st.wild && Listed(b', x) == Listed(b, x)
  {
    if block.Acknowledged? && x == block.s && b.work[x].Subscribing? {
      assert b.work[x].had + [] == b.work[x].had;
    }
  }

  lemma {:induction false} SessionsDistinct(b: Broker, block: Block)
    requires Possible(b, block) && Distinct(b.st.sessions) && Fits(b, block.s)
    ensures Distinct(Next(b, block).st.sessions)
  {
    hide IndexOne, UnindexAll, AnyWild, Erase;
    match block
    case Entered(s) => IndexOneFrame(b.st, s, b.work[s].todo[0].filter);
    case Erased(s) => EraseDistinct(b.st.sessions, s);
    case Accepted(s) =>
    case Granted(_, _) =>
    case Restored(_, _) =>
    case Acknowledged(_) =>
    case Removed(_) =>
  }

  lemma {:induction false} BlockTracked(b: Broker, block: Block)
    requires Tracked(b) && Possible(b, block)
    ensures Tracked(Next(b, block))
  {
    hide IndexedBy, NoEmptyLists, Next, Listed, Fits, Distinct;
    var b' := Next(b, block);
    SessionsDistinct(b, block);
    forall x ensures Fits(b', x) { FitsNext(b, block, x); }
    forall x ensures IndexedBy(b'.st.exact, b'.st.wild, x, Listed(b', x)) && NoEmptyLists(b'.st.exact) {
      match block
      case Entered(s) => EnteredListed(b, s, x);
      case Removed(s) => RemovedListed(b, s, x);
      case Accepted(_) => ListedStays(b, block, x);
      case Granted(_, _) => ListedStays(b, block, x);
      case Restored(_, _) => ListedStays(b, block, x);
      case Acknowledged(_) => ListedStays(b, block, x);
      case Erased(_) => ListedStays(b, block, x);
    }
    assert NoEmptyLists(b'.st.exact) by { assert IndexedBy(b'.st.exact, b'.st.wild, 0, Listed(b', 0)); }
  }

  /** Any interleaving of blocks from an empty broker; None if some block could not come. */
  function After(blocks: seq<Block>): Option<Broker> {
    if blocks == [] then Some(Broker(EMPTY, map[]))
    else
      match After(blocks[..|blocks| - 1])
      case None => None
      case Some(b) =>
        var block := blocks[|blocks| - 1];
        if Possible(b, block) then Some(Next(b, block)) else None
  }

  lemma {:induction false} RunTracked(blocks: seq<Block>)
    ensures After(blocks).Some? ==> Tracked(After(blocks).value)
    decreases |blocks|
  {
    hide Tracked, Next;
    if blocks == [] {
      NothingTracked();
    } else {
      RunTracked(blocks[..|blocks| - 1]);
      var before := After(blocks[..|blocks| - 1]);
      if before.Some? && Possible(before.value, blocks[|blocks| - 1]) {
        BlockTracked(before.value, blocks[|blocks| - 1]);
      }
    }
  }

  lemma {:induction false} NothingTracked()
    ensures Tracked(Broker(EMPTY, map[]))
  {
    UsesNone();
  }

  /** While nobody is in the middle of anything, the index lists exactly the live sessions' filters. */
  lemma {:induction false} RestingIsSound(b: Broker)
    requires Tracked(b) && b.work == map[]
    ensures Sound(b.st)
  {
    hide IndexedBy, NoEmptyLists;
    forall s ensures IndexedBy(b.st.exact, b.st.wild, s, SubsOf(b.st, s)) {
      assert IndexedBy(b.st.exact, b.st.wild, s, Listed(b, s));
    }
    forall s ensures s in b.st.subs <==> s in b.st.sessions { assert Fits(b, s); }
    assert b.st.subs.Keys == Elems(b.st.sessions);
  }

  // ----- routing in between -----

  /** Those of `list` that are, or are not, in `other`. */
  function Keep(list: seq<Handle>, other: seq<Handle>, present: bool): (r: seq<Handle>)
    ensures forall s :: s in r <==> s in list && (s in other <==> present)
  {
    if list == [] then []
    else
      var n := |list| - 1;
      Keep(list[..n], other, present) + (if list[n] in other <==> present then [list[n]] else [])
  }

  lemma {:induction false} KeepDistinct(list: seq<Handle>, other: seq<Handle>, present: bool)
    requires Distinct(list)
    ensures Distinct(Keep(list, other, present))
    decreases |list|
  {
    if list != [] {
      var n := |list| - 1;
      KeepDistinct(list[..n], other, present);
      var k := Keep(list[..n], other, present);
      forall i | 0 <= i < |k| ensures k[i] != list[n] {
        assert k[i] in k;
        var m :| 0 <= m < n && list[m] == k[i];
      }
    }
  }

  lemma {:induction false} KeepLast(list: seq<Handle>, x: Handle, other: seq<Handle>, present: bool)
    ensures Keep(list + [x], other, present) ==
            if x in other <==> present then Keep(list, other, present) + [x] else Keep(list, other, present)
  {
    assert (list + [x])[..|list|] == list;
  }

  lemma {:induction false} ItemsSplit(st: State, list: seq<Handle>, other: seq<Handle>, topic: string, qos: nat)
    ensures Items(st, list, topic, qos) ==
            Items(st, Keep(list, other, true), topic, qos) + Items(st, Keep(list, other, false), topic, qos)
    decreases |list|
  {
    if list != [] {
      hide Items, SessionItems, Keep;
      var n := |list| - 1;
      var rest, x := list[..n], list[n];
      assert list == rest + [x];
      ItemsSplit(st, rest, other, topic, qos);
      ItemsLast(st, rest, x, topic, qos);
      KeepLast(rest, x, other, true);
      KeepLast(rest, x, other, false);
      ItemsLast(st, Keep(rest, other, x in other), x, topic, qos);
    }
  }

  /** A live session that the index does not list for the topic: nothing it has matches, or it is in the middle of a
      SUBSCRIBE, nothing entered so far matches and something still to be entered does. */
  ghost predicate Lags(b: Broker, s: Handle, topic: string) {
    && s in b.work && b.work[s].Subscribing?
    && MatchesIn(b.work[s].had, topic) == [] && MatchesIn(b.work[s].todo, topic) != []
  }

  lemma {:induction false} ListedMatch(b: Broker, s: Handle, topic: string)
    requires IndexedBy(b.st.exact, b.st.wild, s, Listed(b, s)) && MatchesIn(Listed(b, s), topic) != []
    ensures s in At(b.st.exact, topic) + b.st.wild
  {
    hide Matches, HasWildcard, Listed;
    var subs := Listed(b, s);
    var i :| 0 <= i < |subs| && Matches(subs[i].filter, topic);
    if HasWildcard(subs[i].filter) {
      assert AnyWild(subs);
    } else {
      PlainFilter(subs[i].filter, topic);
      assert Uses(subs, topic);
    }
  }

  lemma {:induction false} MatchesJoin(xs: seq<Subscription>, ys: seq<Subscription>, topic: string)
    ensures MatchesIn(xs + ys, topic) == MatchesIn(xs, topic) + MatchesIn(ys, topic)
    decreases |ys|
  {
    hide Matches, MatchesIn;
    if ys == [] {
      assert xs + ys == xs;
      NoMatches(topic);
    } else {
      var n := |ys| - 1;
      MatchesJoin(xs, ys[..n], topic);
      MatchesLast(xs + ys[..n], ys[n], topic);
      MatchesLast(ys[..n], ys[n], topic);
      assert xs + ys == xs + ys[..n] + [ys[n]] && ys == ys[..n] + [ys[n]];
    }
  }

  lemma {:induction false} MissedLags(b: Broker, s: Handle, topic: string, qos: nat)
    requires Tracked(b) && s in b.st.sessions && s !in At(b.st.exact, topic) + b.st.wild
    ensures SessionItems(b.st, s, topic, qos) == multiset{} || Lags(b, s, topic)
  {
    hide IndexedBy, MatchesIn, NoEmptyLists, Distinct;
    assert Fits(b, s);
    assert IndexedBy(b.st.exact, b.st.wild, s, Listed(b, s));
    if MatchesIn(Listed(b, s), topic) != [] { ListedMatch(b, s, topic); }
    if s in b.work {
      match b.work[s]
      case Subscribing(had, todo) => MatchesJoin(had, todo, topic);
      case Restoring(_, _) => NoMatches(topic);
      case Leaving =>
    }
  }

  lemma {:induction false} NoMatches(topic: string)
    ensures MatchesIn([], topic) == []
  {
  }

  lemma {:induction false} ListedHasEntry(b: Broker, s: Handle, topic: string)
    requires Tracked(b) && s in At(b.st.exact, topic) + b.st.wild
    ensures s in b.st.subs
  {
    assert IndexedBy(b.st.exact, b.st.wild, s, Listed(b, s));
    assert Fits(b, s);
    UsesNone();
  }

  /** Over every interleaving of blocks: a publish through the index reaches what a scan of all live sessions reaches,
      but for sessions that lag behind a SUBSCRIBE not yet acknowledged, and, on top, sessions that are leaving. */
  lemma {:induction false} RoutingLags(blocks: seq<Block>, candidates: seq<Handle>, topic: string, qos: nat)
    returns (missed: seq<Handle>, extra: seq<Handle>)
    requires After(blocks).Some? && Distinct(candidates)
    requires var st := After(blocks).value.st; forall s :: s in candidates <==> s in At(st.exact, topic) + st.wild
    ensures var b := After(blocks).value;
            && Items(b.st, candidates, topic, qos) + Items(b.st, missed, topic, qos) ==
               Scan(b.st, topic, qos) + Items(b.st, extra, topic, qos)
            && (forall s :: s in missed ==>
                  s in b.st.sessions && (SessionItems(b.st, s, topic, qos) == multiset{} || Lags(b, s, topic)))
            && (forall s :: s in extra ==> s in b.work && b.work[s].Leaving?)
  {
    hide After, Items, SessionItems, Lags, At;
    RunTracked(blocks);
    var b := After(blocks).value;
    var live := b.st.sessions;
    missed, extra := Keep(live, candidates, false), Keep(candidates, live, false);
    ItemsSplit(b.st, candidates, live, topic, qos);
    ItemsSplit(b.st, live, candidates, topic, qos);
    KeepDistinct(candidates, live, true);
    KeepDistinct(live, candidates, true);
    SameItems(b.st, Keep(candidates, live, true), Keep(live, candidates, true), topic, qos);
    forall s | s in missed ensures SessionItems(b.st, s, topic, qos) == multiset{} || Lags(b, s, topic) {
      MissedLags(b, s, topic, qos);
    }
    forall s | s in extra ensures s in b.work && b.work[s].Leaving? {
      ListedHasEntry(b, s, topic);
      assert Fits(b, s);
    }
  }
}
