/** Which alias a topic gets, and what a received packet stands for, without the tables. */
module AliasLaws {
  import opened Wrappers
  import opened TopicAlias

  // ----- sending -----

  ghost function Names(topics: seq<string>): set<string> {
    set k | 0 <= k < |topics| :: topics[k]
  }

  ghost predicate FirstAt(topics: seq<string>, f: nat, t: string) {
    f < |topics| && topics[f] == t && t !in topics[..f]
  }

  /** How many topics there were before `t` came up. */
  ghost function Rank(topics: seq<string>, f: nat): nat
    requires f <= |topics|
  {
    |Names(topics[..f])|
  }

  lemma {:induction false} NamesLast(topics: seq<string>, t: string)
    ensures Names(topics + [t]) == Names(topics) + {t}
  {
    var all := topics + [t];
    forall x ensures x in Names(all) <==> x in Names(topics) + {t} {
      if x in Names(topics) {
        var k :| 0 <= k < |topics| && topics[k] == x;
        assert all[k] == x;
      }
      assert all[|topics|] == t;
    }
  }

  lemma {:induction false} OneMore(names: set<string>, t: string)
    ensures |names + {t}| == |names| + (if t in names then 0 else 1)
  {
    if t in names { assert names + {t} == names; }
  }

  lemma {:induction false} RankGrows(topics: seq<string>, f: nat)
    requires f <= |topics|
    ensures Rank(topics, f) <= |Names(topics)|
    decreases |topics|
  {
    if f < |topics| {
      var n := |topics| - 1;
      assert topics == topics[..n] + [topics[n]];
      assert topics[..n][..f] == topics[..f];
      NamesLast(topics[..n], topics[n]);
      RankGrows(topics[..n], f);
      OneMore(Names(topics[..n]), topics[n]);
    } else {
      assert topics[..f] == topics;
    }
  }

  /** The table holds the first `max` topics, numbered in order of appearance. */
  ghost predicate Numbers(topics: seq<string>, max: nat, table: Outbound) {
    && |table| == (if |Names(topics)| < max then |Names(topics)| else max)
    && (forall t :: t in table ==> t in topics)
    && (forall t, f: nat :: FirstAt(topics, f, t) ==>
          (t in table <==> Rank(topics, f) < max) && (t in table ==> table[t] == Rank(topics, f) + 1))
  }

  lemma {:induction false} TableNumbers(topics: seq<string>, max: nat)
    ensures Numbers(topics, max, TableAfter(topics, max))
    decreases |topics|
  {
    hide Numbers, Names;
    if topics == [] {
      NumbersNothing(max);
    } else {
      var n := |topics| - 1;
      TableNumbers(topics[..n], max);
      assert topics == topics[..n] + [topics[n]];
      NumbersStep(topics[..n], max, TableAfter(topics[..n], max), topics[n]);
    }
  }

  lemma {:induction false} NumbersNothing(max: nat)
    ensures Numbers([], max, map[])
  {
    assert Names([]) == {};
  }

  lemma {:induction false} Appears(topics: seq<string>, t: string) returns (f: nat)
    requires t in topics
    ensures FirstAt(topics, f, t)
    decreases |topics|
  {
    var n := |topics| - 1;
    if t in topics[..n] {
      f := Appears(topics[..n], t);
      assert topics[..n][..f] == topics[..f];
    } else {
      f := n;
    }
  }

  lemma {:induction false} NumbersStep(rest: seq<string>, max: nat, table: Outbound, u: string)
    requires Numbers(rest, max, table)
    ensures Numbers(rest + [u], max, Assign(table, max, u).0)
  {
    hide Names;
    var topics, table' := rest + [u], Assign(table, max, u).0;
    NamesLast(rest, u);
    FullTable(rest, max, table, u);
    forall t, f: nat | FirstAt(topics, f, t)
      ensures t in table' <==> Rank(topics, f) < max
      ensures t in table' ==> table'[t] == Rank(topics, f) + 1
    {
      NumberStep(rest, max, table, u, t, f);
    }
    assert forall t :: t in topics <==> t in rest || t == u;
  }

  lemma {:induction false} NumberStep(rest: seq<string>, max: nat, table: Outbound, u: string, t: string, f: nat)
    requires Numbers(rest, max, table) && FirstAt(rest + [u], f, t)
    ensures var table', r := Assign(table, max, u).0, Rank(rest + [u], f);
            (t in table' <==> r < max) && (t in table' ==> table'[t] == r + 1)
  {
    hide Names;
    var topics := rest + [u];
    FullTable(rest, max, table, u);
    if f < |rest| {
      assert topics[..f] == rest[..f];
      assert FirstAt(rest, f, t);
    } else {
      assert topics[..f] == rest;
      assert t == u && u !in rest;
    }
  }

  /** A topic that came up and got no alias found the table full. */
  lemma {:induction false} FullTable(rest: seq<string>, max: nat, table: Outbound, u: string)
    requires Numbers(rest, max, table)
    ensures u in rest && u !in table ==> |table| == max
    ensures |Names(rest) + {u}| == |Names(rest)| + (if u in rest then 0 else 1)
  {
    assert u in rest <==> u in Names(rest);
    OneMore(Names(rest), u);
    if u in rest {
      var f := Appears(rest, u);
      RankGrows(rest, f);
    }
  }

  /** The `r`-th topic to come up gets alias `r` if the client accepts that many. The full name goes out the first time
      and wherever there is no alias. */
  lemma {:induction false} AliasByRank(topics: seq<string>, max: nat, i: nat, f: nat)
    requires i < |topics| && f <= i && FirstAt(topics, f, topics[i])
    ensures var r := Rank(topics, f) + 1;
            PacketAt(topics, max, i) ==
            if r > max then Packet(topics[i], None) else Packet(if f == i then topics[i] else "", Some(r))
  {
    hide TableAfter, Names;
    var before := topics[..i];
    TableNumbers(before, max);
    assert before[..|before|] == before;
    if f < i {
      assert before[..f] == topics[..f];
      assert FirstAt(before, f, topics[i]);
      FullTable(before, max, TableAfter(before, max), topics[i]);
    }
  }

  // ----- receiving -----

  /** The inbound table after a history of packets that were all accepted. */
  function Received(history: seq<Packet>): Option<Inbound> {
    if history == [] then Some(map[])
    else
      match Received(history[..|history| - 1])
      case None => None
      case Some(table) =>
        match Resolve(table, history[|history| - 1])
        case None => None
        case Some((table', _)) => Some(table')
  }

  /** Packet `k` is the last in the history that names a topic under alias `a`. */
  ghost predicate LastNamed(history: seq<Packet>, k: nat, a: nat) {
    && k < |history| && history[k].alias == Some(a) && history[k].topic != ""
    && forall j :: k < j < |history| && history[j].alias == Some(a) ==> history[j].topic == ""
  }

  lemma {:induction false} TableIsHistory(history: seq<Packet>, a: nat)
    requires Received(history).Some?
    ensures var table := Received(history).value;
            && (a in table <==> exists k: nat :: LastNamed(history, k, a))
            && (forall k: nat :: LastNamed(history, k, a) ==> table[a] == history[k].topic)
    decreases |history|
  {
    if history != [] {
      var n := |history| - 1;
      var rest, p := history[..n], history[n];
      TableIsHistory(rest, a);
      if p.alias == Some(a) && p.topic != "" {
        assert LastNamed(history, n, a);
      } else {
        forall k: nat ensures LastNamed(history, k, a) <==> LastNamed(rest, k, a) {
          LastNamedKept(history, k, a);
        }
      }
    }
  }

  lemma {:induction false} LastNamedKept(history: seq<Packet>, k: nat, a: nat)
    requires history != [] && var p := history[|history| - 1]; !(p.alias == Some(a) && p.topic != "")
    ensures LastNamed(history, k, a) <==> LastNamed(history[..|history| - 1], k, a)
  {
    var rest := history[..|history| - 1];
    assert forall j :: 0 <= j < |rest| ==> rest[j] == history[j];
  }

  /** A packet with a name stands for that name; a bare alias for the name last sent with it. Refused are aliases
      outside 1 to 16 and bare ones that were never named. */
  lemma {:induction false} ReceivesMeaning(history: seq<Packet>, p: Packet)
    requires Received(history).Some?
    ensures var r := Resolve(Received(history).value, p);
            && (r.Some? && p.topic != "" ==> r.value.1 == p.topic)
            && (p.alias == None ==> r.Some? && r.value.1 == p.topic)
            && (p.alias.Some? ==>
                  var a := p.alias.value;
                  && (r.Some? <==> 1 <= a <= 16 && (p.topic != "" || exists k: nat :: LastNamed(history, k, a)))
                  && (r.Some? && p.topic == "" ==>
                        forall k: nat :: LastNamed(history, k, a) ==> r.value.1 == history[k].topic))
  {
    hide LastNamed, Received;
    if p.alias.Some? { TableIsHistory(history, p.alias.value); }
  }
}
