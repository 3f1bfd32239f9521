/** The index in place: `index_subscription`, `remove_session`, `topic_index_candidates` and the selection loop of
    `route_publish` (include/aero/broker/native_broker.hpp). */
module TopicRouter {
  import opened Wrappers
  import opened Sequences
  import opened TopicMatch
  import opened TopicIndex
  import opened SortedUnique

  class Router {
    var sessions: seq<Handle>
    var subs: map<Handle, seq<Subscription>>
    var exact: map<string, seq<Handle>>
    var wild: seq<Handle>

    ghost function Value(): State
      reads this
    {
      State(sessions, subs, exact, wild)
    }

    constructor ()
      ensures Value() == EMPTY && Sound(Value())
    {
      sessions, subs, exact, wild := [], map[], map[], [];
      new;
      EmptySound();
    }

    method Accept(s: Handle)
      requires Sound(Value()) && s !in subs
      modifies this
      ensures Value() == Apply(old(Value()), TopicIndex.Accept(s)) && Sound(Value())
    {
      hide Sound;
      StepSound(Value(), TopicIndex.Accept(s));
      sessions, subs := sessions + [s], subs[s := []];
    }

    method IndexSubscription(s: Handle, filter: string)
      modifies `exact, `wild
      ensures Value() == IndexOne(old(Value()), s, filter)
    {
      if HasWildcard(filter) {
        wild := wild + [s];
      } else {
        exact := exact[filter := At(exact, filter) + [s]];
      }
    }

    method IndexSubscriptions(s: Handle, added: seq<Subscription>)
      modifies `exact, `wild
      ensures Value() == IndexAll(old(Value()), s, added)
    {
      for i := 0 to |added|
        invariant Value() == IndexAll(old(Value()), s, added[..i])
      {
        assert added[..i + 1][..i] == added[..i];
        IndexSubscription(s, added[i].filter);
      }
      assert added[..|added|] == added;
    }

    /** The tail of `handle_subscribe`: the granted filters join the session's, then the index. */
    method HandleSubscribe(s: Handle, added: seq<Subscription>)
      requires Sound(Value()) && s in subs
      modifies this
      ensures Value() == Apply(old(Value()), Subscribe(s, added)) && Sound(Value())
    {
      hide Sound, IndexAll;
      StepSound(Value(), Subscribe(s, added));
      subs := subs[s := subs[s] + added];
      IndexSubscriptions(s, added);
    }

    /** The session-restore part of `handle_connect`. */
    method RestoreSession(s: Handle, restored: seq<Subscription>)
      requires Sound(Value()) && s in subs && subs[s] == []
      modifies this
      ensures Value() == Apply(old(Value()), Restore(s, restored)) && Sound(Value())
    {
      hide Sound;
      StepSound(Value(), Restore(s, restored));
      if restored != [] {
        IndexSubscriptions(s, restored);
        subs := subs[s := restored];
      } else {
        assert subs[s := restored] == subs;
      }
    }

    /** `remove_session` */
    method RemoveSession(s: Handle)
      requires Sound(Value()) && s in subs
      modifies this
      ensures Value() == Apply(old(Value()), Teardown(s)) && Sound(Value())
    {
      hide Sound;
      StepSound(Value(), Teardown(s));
      sessions := Erase(sessions, s);
      var copy := subs[s];
      subs := subs - {s};
      if copy == [] { return; }
      var hadWildcard := false;
      for i := 0 to |copy|
        invariant exact == UnindexAll(old(exact), s, copy[..i])
        invariant hadWildcard <==> AnyWild(copy[..i])
        invariant sessions == Erase(old(sessions), s) && subs == old(subs) - {s} && wild == old(wild)
      {
        hide HasWildcard, UnindexAll, AnyWild, Uses;
        assert copy[..i + 1] == copy[..i] + [copy[i]];
        UsesLast(copy[..i], copy[i]);
        UnindexLast(old(exact), s, copy[..i], copy[i]);
        if HasWildcard(copy[i].filter) {
          hadWildcard := true;
          continue;
        }
        if copy[i].filter in exact {
          var left := Erase(exact[copy[i].filter], s);
          exact := if left == [] then exact - {copy[i].filter} else exact[copy[i].filter := left];
        }
      }
      assert copy[..|copy|] == copy;
      if hadWildcard { wild := Erase(wild, s); }
    }

    /** `topic_index_candidates` */
    method Candidates(topic: string) returns (out: seq<Handle>)
      ensures Distinct(out)
      ensures forall s :: s in out <==> s in At(exact, topic) + wild
    {
      out := SortUnique(At(exact, topic) + wild);
    }

    /** The matching subscriptions of one session, split into direct deliveries and shared candidates. */
    method CollectSession(s: Handle, topic: string, qos: nat) returns (direct: seq<Item>, shared: seq<Item>)
      requires s in subs
      ensures Splits(direct, shared, SessionItems(Value(), s, topic, qos))
    {
      hide Matches, MatchesIn, ItemsOf, Splits;
      var mine := subs[s];
      direct, shared := [], [];
      NoneSplit(s, topic, qos);
      for i := 0 to |mine|
        invariant Splits(direct, shared, ItemsOf(s, MatchesIn(mine[..i], topic), qos))
      {
        assert mine[..i + 1] == mine[..i] + [mine[i]];
        MatchesLast(mine[..i], mine[i], topic);
        var hit := TopicMatches(mine[i].filter, topic);
        if hit {
          ghost var before := MatchesIn(mine[..i], topic);
          ItemsOfLast(s, before, mine[i], qos);
          SplitsMore(direct, shared, ItemsOf(s, before, qos), ItemOf(s, mine[i], qos));
          if mine[i].group.Some? {
            shared := shared + [Shared(s, mine[i])];
          } else {
            direct := direct + [Direct(s, if qos < mine[i].qos then qos else mine[i].qos)];
          }
        } else {
          assert MatchesIn(mine[..i], topic) + [] == MatchesIn(mine[..i], topic);
        }
      }
      assert mine[..|mine|] == mine;
    }

    /** The selection loop of `route_publish`: what it picks through the index is what a scan of all live sessions
        would pick, and that is what the subscriptions are due. */
    method RoutePublish(topic: string, qos: nat) returns (direct: seq<Item>, shared: seq<Item>)
      requires Sound(Value())
      ensures Splits(direct, shared, Scan(Value(), topic, qos))
      ensures forall item :: item in direct || item in shared <==> exists s, j :: Due(Value(), s, j, topic, qos, item)
    {
      hide Sound, SessionItems, Scan, Splits, Items, Distinct, At, Due;
      var candidates := Candidates(topic);
      direct, shared := [], [];
      forall s | s in candidates ensures s in subs {
        ListedIsLive(Value(), s, topic);
        SoundKeys(Value(), s);
      }
      NoItems(Value(), topic, qos);
      for i := 0 to |candidates|
        invariant Splits(direct, shared, Items(Value(), candidates[..i], topic, qos))
      {
        assert candidates[..i + 1] == candidates[..i] + [candidates[i]];
        ItemsLast(Value(), candidates[..i], candidates[i], topic, qos);
        assert candidates[i] in candidates;
        var d, h := CollectSession(candidates[i], topic, qos);
        SplitsJoin(direct, shared, d, h, Items(Value(), candidates[..i], topic, qos),
          SessionItems(Value(), candidates[i], topic, qos));
        direct, shared := direct + d, shared + h;
      }
      assert candidates[..|candidates|] == candidates;
      IndexRefinesScan(Value(), candidates, topic, qos);
      forall item
        ensures item in direct || item in shared <==> exists s, j :: Due(Value(), s, j, topic, qos, item)
      {
        SplitsHas(direct, shared, Scan(Value(), topic, qos), item);
        ScanDue(Value(), topic, qos, item);
      }
    }
  }

  /** The items, sorted into direct deliveries and shared subscriptions. */
  ghost predicate Splits(direct: seq<Item>, shared: seq<Item>, items: multiset<Item>) {
    && (forall i :: 0 <= i < |direct| ==> direct[i].Direct?)
    && (forall i :: 0 <= i < |shared| ==> shared[i].Shared?)
    && multiset(direct) + multiset(shared) == items
  }

  lemma {:induction false} SplitsHas(direct: seq<Item>, shared: seq<Item>, items: multiset<Item>, item: Item)
    requires Splits(direct, shared, items)
    ensures item in items <==> item in direct || item in shared
  {
    assert item in direct <==> item in multiset(direct);
    assert item in shared <==> item in multiset(shared);
  }

  lemma {:induction false} NoneSplit(s: Handle, topic: string, qos: nat)
    ensures Splits([], [], ItemsOf(s, MatchesIn([], topic), qos))
  {
  }

  lemma {:induction false} NoItems(st: State, topic: string, qos: nat)
    ensures Splits([], [], Items(st, [], topic, qos))
  {
  }

  lemma {:induction false} SplitsMore(direct: seq<Item>, shared: seq<Item>, items: multiset<Item>, item: Item)
    requires Splits(direct, shared, items)
    ensures item.Direct? ==> Splits(direct + [item], shared, items + multiset{item})
    ensures item.Shared? ==> Splits(direct, shared + [item], items + multiset{item})
  {
  }

  lemma {:induction false} SplitsJoin(
    direct: seq<Item>, shared: seq<Item>, d: seq<Item>, h: seq<Item>, items: multiset<Item>, more: multiset<Item>)
    requires Splits(direct, shared, items) && Splits(d, h, more)
    ensures Splits(direct + d, shared + h, items + more)
  {
  }

  lemma {:induction false} ItemsOfLast(s: Handle, matched: seq<Subscription>, sub: Subscription, qos: nat)
    ensures ItemsOf(s, matched + [sub], qos) == ItemsOf(s, matched, qos) + multiset{ItemOf(s, sub, qos)}
  {
    assert (matched + [sub])[..|matched|] == matched;
  }

  lemma {:induction false} UnindexLast(
    exact: map<string, seq<Handle>>, s: Handle, subs: seq<Subscription>, sub: Subscription)
    ensures UnindexAll(exact, s, subs + [sub]) ==
            (var rest := UnindexAll(exact, s, subs);
             if HasWildcard(sub.filter) then rest else UnindexOne(rest, s, sub.filter))
  {
    hide HasWildcard, UnindexOne;
    assert (subs + [sub])[..|subs|] == subs;
  }

  lemma {:induction false} SoundKeys(st: State, s: Handle)
    requires Sound(st) && s in st.sessions
    ensures s in st.subs
  {
  }
}
