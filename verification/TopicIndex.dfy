/** The broker's subscription index (include/aero/broker/native_broker.hpp): exact filters by topic, and the sessions
    with wildcard filters. Routing through it finds the same subscriptions as scanning every live session. */
module TopicIndex {
  import opened Wrappers
  import opened Sequences
  import opened TopicMatch

  /** A session's identity: its shared pointer. */
  type Handle = nat

  datatype Subscription = Subscription(filter: string, qos: nat, group: Option<string>)

  datatype State = State(
    sessions: seq<Handle>,
    subs: map<Handle, seq<Subscription>>,
    exact: map<string, seq<Handle>>,
    wild: seq<Handle>)

  function At(exact: map<string, seq<Handle>>, filter: string): seq<Handle> {
    if filter in exact then exact[filter] else []
  }

  /** `std::erase` */
  function Erase(list: seq<Handle>, s: Handle): (r: seq<Handle>)
    ensures forall x :: x in r <==> x in list && x != s
  {
    if list == [] then []
    else
      var n := |list| - 1;
      Erase(list[..n], s) + (if list[n] == s then [] else [list[n]])
  }

  // ----- steps -----

  function IndexOne(st: State, s: Handle, filter: string): State {
    if HasWildcard(filter) then st.(wild := st.wild + [s])
    else st.(exact := st.exact[filter := At(st.exact, filter) + [s]])
  }

  function IndexAll(st: State, s: Handle, added: seq<Subscription>): State {
    if added == [] then st
    else
      var n := |added| - 1;
      IndexOne(IndexAll(st, s, added[..n]), s, added[n].filter)
  }

  function UnindexOne(exact: map<string, seq<Handle>>, s: Handle, filter: string): map<string, seq<Handle>> {
    if filter !in exact then exact
    else
      var left := Erase(exact[filter], s);
      if left == [] then exact - {filter} else exact[filter := left]
  }

  function UnindexAll(exact: map<string, seq<Handle>>, s: Handle, subs: seq<Subscription>): map<string, seq<Handle>> {
    if subs == [] then exact
    else
      var n := |subs| - 1;
      var rest := UnindexAll(exact, s, subs[..n]);
      if HasWildcard(subs[n].filter) then rest else UnindexOne(rest, s, subs[n].filter)
  }

  predicate AnyWild(subs: seq<Subscription>) {
    exists i :: 0 <= i < |subs| && HasWildcard(subs[i].filter)
  }

  /** A connection is accepted, adds subscriptions, takes over stored ones on CONNECT, or ends. */
  datatype Step =
    | Accept(s: Handle)
    | Subscribe(s: Handle, added: seq<Subscription>)
    | Restore(s: Handle, restored: seq<Subscription>)
    | Teardown(s: Handle)

  /** CONNECT comes first and once, so a session that restores has no subscription yet. */
  predicate Enabled(st: State, step: Step) {
    match step
    case Accept(s) => s !in st.subs
    case Subscribe(s, _) => s in st.subs
    case Restore(s, _) => s in st.subs && st.subs[s] == []
    case Teardown(s) => s in st.subs
  }

  function Apply(st: State, step: Step): State
    requires Enabled(st, step)
  {
    match step
    case Accept(s) => st.(sessions := st.sessions + [s], subs := st.subs[s := []])
    case Subscribe(s, added) => IndexAll(st.(subs := st.subs[s := st.subs[s] + added]), s, added)
    case Restore(s, restored) => IndexAll(st, s, restored).(subs := st.subs[s := restored])
    case Teardown(s) =>
      State(Erase(st.sessions, s), st.subs - {s}, UnindexAll(st.exact, s, st.subs[s]),
            if AnyWild(st.subs[s]) then Erase(st.wild, s) else st.wild)
  }

  // ----- what every step keeps -----

  ghost predicate Uses(subs: seq<Subscription>, filter: string) {
    exists i :: 0 <= i < |subs| && subs[i].filter == filter
  }

  /** Session `s` stands under every filter of `subs`, and under no other. */
  ghost predicate IndexedBy(exact: map<string, seq<Handle>>, wild: seq<Handle>, s: Handle, subs: seq<Subscription>) {
    && (forall f :: s in At(exact, f) <==> Uses(subs, f) && !HasWildcard(f))
    && (s in wild <==> AnyWild(subs))
  }

  ghost predicate NoEmptyLists(exact: map<string, seq<Handle>>) {
    forall f :: f in exact ==> exact[f] != []
  }

  ghost function SubsOf(st: State, s: Handle): seq<Subscription> {
    if s in st.subs then st.subs[s] else []
  }

  /** The index lists exactly the live sessions' filters. */
  ghost predicate Sound(st: State) {
    && Distinct(st.sessions) && st.subs.Keys == Elems(st.sessions)
    && (forall s :: IndexedBy(st.exact, st.wild, s, SubsOf(st, s)))
    && NoEmptyLists(st.exact)
  }

  /** Indexing `added` adds them for `s` and changes nothing for others. */
  lemma {:induction false} IndexAllAdds(
    st: State, s: Handle, added: seq<Subscription>, x: Handle, had: seq<Subscription>)
    requires IndexedBy(st.exact, st.wild, x, had) && NoEmptyLists(st.exact)
    ensures var st' := IndexAll(st, s, added);
            && IndexedBy(st'.exact, st'.wild, x, if x == s then had + added else had) && NoEmptyLists(st'.exact)
            && st'.subs == st.subs && st'.sessions == st.sessions
    decreases |added|
  {
    hide IndexedBy, NoEmptyLists, IndexOne;
    if added == [] {
      assert had + added == had;
    } else {
      var n := |added| - 1;
      IndexAllAdds(st, s, added[..n], x, had);
      assert had + added == (had + added[..n]) + [added[n]];
      IndexOneAdds(IndexAll(st, s, added[..n]), s, added[n], x, if x == s then had + added[..n] else had);
    }
  }

  lemma {:induction false} IndexOneAdds(st: State, s: Handle, sub: Subscription, x: Handle, had: seq<Subscription>)
    requires IndexedBy(st.exact, st.wild, x, had) && NoEmptyLists(st.exact)
    ensures var st' := IndexOne(st, s, sub.filter);
            && IndexedBy(st'.exact, st'.wild, x, if x == s then had + [sub] else had) && NoEmptyLists(st'.exact)
            && st'.subs == st.subs && st'.sessions == st.sessions
  {
    hide HasWildcard, AnyWild, Uses;
    var st' := IndexOne(st, s, sub.filter);
    UsesLast(had, sub);
    forall f ensures x in At(st'.exact, f) <==> Uses(if x == s then had + [sub] else had, f) && !HasWildcard(f) {
      assert x in At(st.exact, f) <==> Uses(had, f) && !HasWildcard(f);
    }
  }

  lemma {:induction false} UsesLast(had: seq<Subscription>, sub: Subscription)
    ensures forall f :: Uses(had + [sub], f) <==> Uses(had, f) || f == sub.filter
    ensures AnyWild(had + [sub]) <==> AnyWild(had) || HasWildcard(sub.filter)
  {
    hide HasWildcard;
    var all := had + [sub];
    assert all[|had|] == sub;
    forall f | Uses(had, f) ensures Uses(all, f) {
      var i :| 0 <= i < |had| && had[i].filter == f;
      assert all[i] == had[i];
    }
    if AnyWild(had) {
      var i :| 0 <= i < |had| && HasWildcard(had[i].filter);
      assert all[i] == had[i];
    }
  }

  /** Unindexing takes `s` out of the lists of its plain filters and nothing else. */
  lemma {:induction false} UnindexAllRemoves(exact: map<string, seq<Handle>>, s: Handle, subs: seq<Subscription>)
    requires NoEmptyLists(exact)
    ensures var exact' := UnindexAll(exact, s, subs);
            && NoEmptyLists(exact')
            && forall f, x :: x in At(exact', f) <==>
                 x in At(exact, f) && !(x == s && Uses(subs, f) && !HasWildcard(f))
    decreases |subs|
  {
    hide HasWildcard;
    if subs != [] {
      var n := |subs| - 1;
      UnindexAllRemoves(exact, s, subs[..n]);
      UsesLast(subs[..n], subs[n]);
      assert subs == subs[..n] + [subs[n]];
    }
  }

  lemma {:induction false} AcceptSound(st: State, s: Handle)
    requires Sound(st) && Enabled(st, Accept(s))
    ensures Sound(Apply(st, Accept(s)))
  {
    hide IndexedBy, NoEmptyLists;
    var st' := Apply(st, Accept(s));
    assert s !in st.sessions;
    forall x ensures IndexedBy(st'.exact, st'.wild, x, SubsOf(st', x)) {
      assert SubsOf(st', x) == SubsOf(st, x);
    }
  }

  lemma {:induction false} GrowSound(st: State, s: Handle, added: seq<Subscription>, st': State)
    requires Sound(st) && s in st.subs
    requires st' == IndexAll(st, s, added).(subs := st.subs[s := st.subs[s] + added])
    ensures Sound(st')
  {
    hide IndexedBy, NoEmptyLists, IndexAll;
    forall x ensures IndexedBy(st'.exact, st'.wild, x, SubsOf(st', x)) {
      IndexAllAdds(st, s, added, x, SubsOf(st, x));
    }
    IndexAllAdds(st, s, added, s, SubsOf(st, s));
    assert st'.subs.Keys == st.subs.Keys;
  }

  /** Indexing looks at the lists only. */
  lemma {:induction false} IndexAllFrame(
    st: State, s: Handle, added: seq<Subscription>, subs: map<Handle, seq<Subscription>>)
    ensures IndexAll(st.(subs := subs), s, added) == IndexAll(st, s, added).(subs := subs)
    decreases |added|
  {
    if added != [] { IndexAllFrame(st, s, added[..|added| - 1], subs); }
  }

  lemma {:induction false} TeardownSound(st: State, s: Handle)
    requires Sound(st) && Enabled(st, Teardown(s))
    ensures Sound(Apply(st, Teardown(s)))
  {
    hide NoEmptyLists, HasWildcard, UnindexAll, Uses, AnyWild;
    var st' := Apply(st, Teardown(s));
    UnindexAllRemoves(st.exact, s, st.subs[s]);
    EraseDistinct(st.sessions, s);
    forall x ensures IndexedBy(st'.exact, st'.wild, x, SubsOf(st', x)) {
      assert IndexedBy(st.exact, st.wild, x, SubsOf(st, x));
      UsesNone();
      if x == s {
        forall f ensures s !in At(st'.exact, f) {
          assert s in At(st.exact, f) <==> Uses(st.subs[s], f) && !HasWildcard(f);
        }
      } else {
        assert SubsOf(st', x) == SubsOf(st, x);
        forall f ensures x in At(st'.exact, f) <==> x in At(st.exact, f) {
        }
      }
    }
  }

  lemma {:induction false} UsesNone()
    ensures (forall f :: !Uses([], f)) && !AnyWild([])
  {
  }

  lemma {:induction false} EraseDistinct(list: seq<Handle>, s: Handle)
    requires Distinct(list)
    ensures Distinct(Erase(list, s))
    decreases |list|
  {
    if list != [] {
      var n := |list| - 1;
      EraseDistinct(list[..n], s);
      var e := Erase(list[..n], s);
      forall i | 0 <= i < |e| ensures e[i] != list[n] {
        assert e[i] in e;
        var k :| 0 <= k < n && list[k] == e[i];
      }
    }
  }

  lemma {:induction false} StepSound(st: State, step: Step)
    requires Sound(st) && Enabled(st, step)
    ensures Sound(Apply(st, step))
  {
    hide Sound, IndexAll;
    match step
    case Accept(s) => AcceptSound(st, s);
    case Subscribe(s, added) =>
      IndexAllFrame(st, s, added, st.subs[s := st.subs[s] + added]);
      GrowSound(st, s, added, Apply(st, step));
    case Restore(s, restored) =>
      assert [] + restored == restored;
      GrowSound(st, s, restored, Apply(st, step));
    case Teardown(s) => TeardownSound(st, s);
  }

  const EMPTY: State := State([], map[], map[], [])

  /** A run of steps from an empty broker; None if some step could not happen. */
  function Run(steps: seq<Step>): Option<State> {
    if steps == [] then Some(EMPTY)
    else
      match Run(steps[..|steps| - 1])
      case None => None
      case Some(st) =>
        var step := steps[|steps| - 1];
        if Enabled(st, step) then Some(Apply(st, step)) else None
  }

  lemma {:induction false} RunSound(steps: seq<Step>)
    ensures Run(steps).Some? ==> Sound(Run(steps).value)
    decreases |steps|
  {
    hide Sound, Apply;
    if steps == [] {
      EmptySound();
    } else {
      RunSound(steps[..|steps| - 1]);
      var before := Run(steps[..|steps| - 1]);
      if before.Some? && Enabled(before.value, steps[|steps| - 1]) {
        StepSound(before.value, steps[|steps| - 1]);
      }
    }
  }

  lemma {:induction false} EmptySound()
    ensures Sound(EMPTY)
  {
    UsesNone();
  }

  // ----- routing a publish -----

  /** The subscriptions of `subs` that match. */
  ghost function MatchesIn(subs: seq<Subscription>, topic: string): (r: seq<Subscription>)
    ensures r != [] ==> exists i :: 0 <= i < |subs| && Matches(subs[i].filter, topic)
  {
    if subs == [] then []
    else
      var n := |subs| - 1;
      MatchesIn(subs[..n], topic) + (if Matches(subs[n].filter, topic) then [subs[n]] else [])
  }

  lemma {:induction false} MatchesLast(subs: seq<Subscription>, sub: Subscription, topic: string)
    ensures MatchesIn(subs + [sub], topic) ==
            MatchesIn(subs, topic) + (if Matches(sub.filter, topic) then [sub] else [])
  {
    hide Matches;
    assert (subs + [sub])[..|subs|] == subs;
  }

  function Lower(a: nat, b: nat): (r: nat)
    ensures r <= a && r <= b && (r == a || r == b)
  {
    if a < b then a else b
  }

  /** What a publish brings to one session: its direct deliveries with their QoS, and its shared subscriptions. */
  datatype Item = Direct(s: Handle, qos: nat) | Shared(s: Handle, sub: Subscription)

  function ItemOf(s: Handle, sub: Subscription, qos: nat): Item {
    if sub.group.Some? then Shared(s, sub) else Direct(s, Lower(qos, sub.qos))
  }

  ghost function ItemsOf(s: Handle, matched: seq<Subscription>, qos: nat): multiset<Item> {
    if matched == [] then multiset{}
    else
      var n := |matched| - 1;
      ItemsOf(s, matched[..n], qos) + multiset{ItemOf(s, matched[n], qos)}
  }

  ghost function SessionItems(st: State, s: Handle, topic: string, qos: nat): multiset<Item> {
    ItemsOf(s, MatchesIn(SubsOf(st, s), topic), qos)
  }

  /** The items of a list of sessions. */
  ghost function Items(st: State, list: seq<Handle>, topic: string, qos: nat): multiset<Item> {
    if list == [] then multiset{}
    else
      var n := |list| - 1;
      Items(st, list[..n], topic, qos) + SessionItems(st, list[n], topic, qos)
  }

  /** The plain form: scan every live session. */
  ghost function Scan(st: State, topic: string, qos: nat): multiset<Item> {
    Items(st, st.sessions, topic, qos)
  }

  /** What the `j`-th subscription of `s` is due: nothing unless it matches; the subscription itself when it is shared,
      and otherwise a delivery at the lower of the two QoS levels. */
  ghost predicate Due(st: State, s: Handle, j: nat, topic: string, qos: nat, item: Item) {
    && s in st.subs && j < |st.subs[s]| && var sub := st.subs[s][j];
    && Matches(sub.filter, topic) && item.s == s
    && (if sub.group.Some? then item == Shared(s, sub)
        else item.Direct? && item.qos <= qos && item.qos <= sub.qos && (item.qos == qos || item.qos == sub.qos))
  }

  /** What is picked is exactly what is due. */
  lemma {:induction false} ScanDue(st: State, topic: string, qos: nat, item: Item)
    requires Sound(st)
    ensures item in Scan(st, topic, qos) <==> exists s, j :: Due(st, s, j, topic, qos, item)
  {
    hide Matches, SessionItems, Due;
    ItemsHave(st, st.sessions, topic, qos, item);
    forall s ensures item in SessionItems(st, s, topic, qos) <==> exists j :: Due(st, s, j, topic, qos, item) {
      SessionDue(st, s, topic, qos, item);
    }
    forall s, j | Due(st, s, j, topic, qos, item) ensures s in st.sessions { DueIsLive(st, s, j, topic, qos, item); }
  }

  lemma {:induction false} DueIsLive(st: State, s: Handle, j: nat, topic: string, qos: nat, item: Item)
    requires Sound(st) && Due(st, s, j, topic, qos, item)
    ensures s in st.sessions
  {
    hide Matches;
    assert s in st.subs.Keys;
  }

  lemma {:induction false} ItemsHave(st: State, list: seq<Handle>, topic: string, qos: nat, item: Item)
    ensures item in Items(st, list, topic, qos) <==> exists s :: s in list && item in SessionItems(st, s, topic, qos)
    decreases |list|
  {
    hide SessionItems;
    if list != [] {
      var n := |list| - 1;
      ItemsHave(st, list[..n], topic, qos, item);
      assert list == list[..n] + [list[n]];
    }
  }

  lemma {:induction false} SessionDue(st: State, s: Handle, topic: string, qos: nat, item: Item)
    ensures item in SessionItems(st, s, topic, qos) <==> exists j :: Due(st, s, j, topic, qos, item)
  {
    hide Matches, MatchesIn, ItemsOf;
    var subs := SubsOf(st, s);
    MatchedItems(s, subs, topic, qos, item);
    forall j: nat ensures Due(st, s, j, topic, qos, item) <==> Fits(s, subs, j, topic, qos, item) {
    }
  }

  ghost predicate Fits(s: Handle, subs: seq<Subscription>, j: nat, topic: string, qos: nat, item: Item) {
    j < |subs| && Matches(subs[j].filter, topic) && item == ItemOf(s, subs[j], qos)
  }

  lemma {:induction false} MatchedItems(s: Handle, subs: seq<Subscription>, topic: string, qos: nat, item: Item)
    ensures item in ItemsOf(s, MatchesIn(subs, topic), qos) <==> exists j :: Fits(s, subs, j, topic, qos, item)
    decreases |subs|
  {
    hide Matches, ItemOf;
    if subs != [] {
      var n := |subs| - 1;
      var rest := subs[..n];
      MatchedItems(s, rest, topic, qos, item);
      assert subs == rest + [subs[n]];
      MatchesLast(rest, subs[n], topic);
      if Matches(subs[n].filter, topic) {
        assert (MatchesIn(rest, topic) + [subs[n]])[..|MatchesIn(rest, topic)|] == MatchesIn(rest, topic);
      } else {
        assert MatchesIn(rest, topic) + [] == MatchesIn(rest, topic);
      }
      forall j: nat | j < n ensures Fits(s, subs, j, topic, qos, item) <==> Fits(s, rest, j, topic, qos, item) {
      }
      if Fits(s, subs, n, topic, qos, item) {
      }
    }
  }

  /** A matching session is listed: under the topic itself or among the wildcard subscribers. */
  lemma {:induction false} MatchingIsListed(st: State, s: Handle, topic: string)
    requires Sound(st) && MatchesIn(SubsOf(st, s), topic) != []
    ensures s in At(st.exact, topic) + st.wild
  {
    hide Matches, HasWildcard;
    var subs := SubsOf(st, s);
    var i :| 0 <= i < |subs| && Matches(subs[i].filter, topic);
    assert IndexedBy(st.exact, st.wild, s, subs);
    if HasWildcard(subs[i].filter) {
      assert AnyWild(subs);
    } else {
      PlainFilter(subs[i].filter, topic);
      assert Uses(subs, topic);
    }
  }

  /** Only live sessions are listed. */
  lemma {:induction false} ListedIsLive(st: State, s: Handle, topic: string)
    requires Sound(st) && s in At(st.exact, topic) + st.wild
    ensures s in st.sessions
  {
    assert IndexedBy(st.exact, st.wild, s, SubsOf(st, s));
    UsesNone();
    assert s in st.subs;
  }

  lemma {:induction false} ItemsRemove(st: State, list: seq<Handle>, s: Handle, topic: string, qos: nat)
    requires Distinct(list) && s in list
    ensures Items(st, list, topic, qos) == Items(st, Erase(list, s), topic, qos) + SessionItems(st, s, topic, qos)
    decreases |list|
  {
    hide SessionItems;
    var n := |list| - 1;
    if list[n] == s {
      EraseAbsent(list[..n], s);
      assert Erase(list, s) == list[..n];
    } else {
      ItemsRemove(st, list[..n], s, topic, qos);
      var e := Erase(list[..n], s);
      assert Erase(list, s) == e + [list[n]];
      assert (e + [list[n]])[..|e|] == e;
    }
  }

  lemma {:induction false} EraseAbsent(list: seq<Handle>, s: Handle)
    requires s !in list
    ensures Erase(list, s) == list
    decreases |list|
  {
    if list != [] { EraseAbsent(list[..|list| - 1], s); }
  }

  /** Two duplicate-free lists that differ only in sessions without items yield the same. */
  lemma {:induction false} SameItems(st: State, all: seq<Handle>, some: seq<Handle>, topic: string, qos: nat)
    requires Distinct(all) && Distinct(some) && (forall s :: s in some ==> s in all)
    requires forall s :: s in all && s !in some ==> SessionItems(st, s, topic, qos) == multiset{}
    ensures Items(st, all, topic, qos) == Items(st, some, topic, qos)
    decreases |all|
  {
    hide SessionItems, Items;
    if all == [] {
      SomethingIn(some);
    } else {
      var n := |all| - 1;
      var rest, s := all[..n], all[n];
      assert all == rest + [s];
      ItemsLast(st, rest, s, topic, qos);
      if s in some {
        ItemsRemove(st, some, s, topic, qos);
        EraseDistinct(some, s);
        SameItems(st, rest, Erase(some, s), topic, qos);
      } else {
        SameItems(st, rest, some, topic, qos);
      }
    }
  }

  lemma {:induction false} SomethingIn(some: seq<Handle>)
    ensures some != [] ==> exists s :: s in some
  {
    if some != [] { assert some[0] in some; }
  }

  lemma {:induction false} ItemsLast(st: State, rest: seq<Handle>, s: Handle, topic: string, qos: nat)
    ensures Items(st, rest + [s], topic, qos) == Items(st, rest, topic, qos) + SessionItems(st, s, topic, qos)
  {
    assert (rest + [s])[..|rest|] == rest;
  }

  /** Routing through the duplicate-free candidates equals scanning every live session. */
  lemma {:induction false} IndexRefinesScan(st: State, candidates: seq<Handle>, topic: string, qos: nat)
    requires Sound(st) && Distinct(candidates)
    requires forall s :: s in candidates <==> s in At(st.exact, topic) + st.wild
    ensures Items(st, candidates, topic, qos) == Scan(st, topic, qos)
  {
    hide Items, Sound;
    forall s | s in candidates ensures s in st.sessions { ListedIsLive(st, s, topic); }
    forall s | s in st.sessions && s !in candidates ensures SessionItems(st, s, topic, qos) == multiset{} {
      Unlisted(st, s, topic, qos);
    }
    SoundDistinct(st);
    SameItems(st, st.sessions, candidates, topic, qos);
  }

  lemma {:induction false} Unlisted(st: State, s: Handle, topic: string, qos: nat)
    requires Sound(st) && s !in At(st.exact, topic) + st.wild
    ensures SessionItems(st, s, topic, qos) == multiset{}
  {
    hide Sound, MatchesIn;
    if MatchesIn(SubsOf(st, s), topic) != [] { MatchingIsListed(st, s, topic); }
  }

  lemma {:induction false} SoundDistinct(st: State)
    requires Sound(st)
    ensures Distinct(st.sessions)
  {
  }

  /** Over every run. */
  lemma {:induction false} RoutingIsExact(steps: seq<Step>, candidates: seq<Handle>, topic: string, qos: nat)
    requires Run(steps).Some? && Distinct(candidates)
    requires forall s :: s in candidates <==> s in At(Run(steps).value.exact, topic) + Run(steps).value.wild
    ensures Items(Run(steps).value, candidates, topic, qos) == Scan(Run(steps).value, topic, qos)
  {
    hide Run, Sound, Items;
    RunSound(steps);
    IndexRefinesScan(Run(steps).value, candidates, topic, qos);
  }
}
