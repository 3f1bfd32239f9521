/** Topic-alias compression (section 3.3.2.3.4 of MQTT 5.0): the outbound table of
    `build_publish_variable_header_and_payload` and the inbound table of `handle_publish`
    (include/aero/broker/native_broker.hpp). */
module TopicAlias {
  import opened Wrappers

  /** `kTopicAliasMax`: the largest alias the inbound side accepts. */
  const ALIAS_MAX: nat := 16

  /** A PUBLISH as far as aliases go: its Topic Name field and its Topic Alias property. */
  datatype Packet = Packet(topic: string, alias: Option<nat>)

  type Outbound = map<string, nat>

  type Inbound = map<nat, string>

  /** Which packet announces `topic` to a client that accepts `max` aliases (0: none), and the new table. */
  function Assign(table: Outbound, max: nat, topic: string): (Outbound, Packet) {
    if max == 0 then (table, Packet(topic, None))
    else if topic in table then (table, Packet("", Some(table[topic])))
    else if |table| < max then (table[topic := |table| + 1], Packet(topic, Some(|table| + 1)))
    else (table, Packet(topic, None))
  }

  /** What the receiver makes of a packet; None: the alias is out of range or unknown. */
  function Resolve(table: Inbound, p: Packet): Option<(Inbound, string)> {
    match p.alias
    case None => Some((table, p.topic))
    case Some(a) =>
      if a == 0 || a > ALIAS_MAX then None
      else if p.topic != "" then Some((table[a := p.topic], p.topic))
      else if a in table then Some((table, table[a]))
      else None
  }

  /** The tables as the two ends keep them. */
  class Sender {
    const max: nat
    var table: Outbound

    constructor (max: nat)
      ensures table == map[] && this.max == max
    {
      this.max := max;
      table := map[];
    }

    /** The alias part of `build_publish_variable_header_and_payload`. */
    method Build(topic: string) returns (p: Packet)
      modifies this
      ensures (table, p) == Assign(old(table), max, topic)
    {
      var alias := None;
      var full := true;
      if max > 0 {
        if topic in table {
          alias := Some(table[topic]);
          full := false;
        } else if |table| < max {
          var next := |table| + 1;
          table := table[topic := next];
          alias := Some(next);
        }
      }
      p := Packet(if full then topic else "", alias);
    }
  }

  class Receiver {
    var table: Inbound

    constructor ()
      ensures table == map[]
    {
      table := map[];
    }

    /** The alias part of `handle_publish`; None where it disconnects. */
    method Receive(p: Packet) returns (topic: Option<string>)
      modifies this
      ensures match Resolve(old(table), p)
              case None => topic == None && table == old(table)
              case Some((t, name)) => topic == Some(name) && table == t
    {
      var resolved := p.topic;
      if p.alias.Some? {
        var a := p.alias.value;
        if a == 0 || a > ALIAS_MAX { return None; }
        if p.topic != "" {
          table := table[a := p.topic];
        } else {
          if a !in table { return None; }
          resolved := table[a];
        }
      }
      topic := Some(resolved);
    }
  }

  // ----- a sequence of builds -----

  /** The outbound table after building for all of `topics`. */
  function TableAfter(topics: seq<string>, max: nat): Outbound {
    if topics == [] then map[]
    else Assign(TableAfter(topics[..|topics| - 1], max), max, topics[|topics| - 1]).0
  }

  /** The packet built for the `i`-th topic. */
  function PacketAt(topics: seq<string>, max: nat, i: nat): Packet
    requires i < |topics|
  {
    Assign(TableAfter(topics[..i], max), max, topics[i]).1
  }

  /** Aliases are distinct numbers between 1 and `max`. */
  ghost predicate Injective(table: Outbound, max: nat) {
    && |table| <= max
    && (forall t :: t in table ==> 1 <= table[t] <= |table|)
    && (forall t, u :: t in table && u in table && table[t] == table[u] ==> t == u)
  }

  lemma {:induction false} TableInjective(topics: seq<string>, max: nat)
    ensures Injective(TableAfter(topics, max), max)
    decreases |topics|
  {
    if topics != [] { TableInjective(topics[..|topics| - 1], max); }
  }

  /** An alias, once given, stays. */
  lemma {:induction false} TableGrows(topics: seq<string>, max: nat, i: nat, t: string)
    requires i <= |topics| && t in TableAfter(topics[..i], max)
    ensures t in TableAfter(topics, max) && TableAfter(topics, max)[t] == TableAfter(topics[..i], max)[t]
    decreases |topics|
  {
    if i < |topics| {
      var n := |topics| - 1;
      assert topics[..n][..i] == topics[..i];
      TableGrows(topics[..n], max, i, t);
    } else {
      assert topics[..i] == topics;
    }
  }

  /** Every alias sent is the final alias of its topic, and the Topic Name is left out only with an alias. */
  lemma {:induction false} AliasIsFinal(topics: seq<string>, max: nat, i: nat)
    requires i < |topics|
    ensures var p, final := PacketAt(topics, max, i), TableAfter(topics, max);
            && (p.alias.Some? ==> topics[i] in final && final[topics[i]] == p.alias.value)
            && (p.topic == topics[i] || (p.topic == "" && p.alias.Some?))
  {
    hide TableAfter;
    var before := TableAfter(topics[..i], max);
    assert topics[..i + 1][..i] == topics[..i] && topics[..i + 1][i] == topics[i];
    assert TableAfter(topics[..i + 1], max) == Assign(before, max, topics[i]).0 by { Unfold(topics, max, i); }
    if PacketAt(topics, max, i).alias.Some? {
      TableGrows(topics, max, i + 1, topics[i]);
    }
  }

  lemma {:induction false} Unfold(topics: seq<string>, max: nat, i: nat)
    requires i < |topics|
    ensures TableAfter(topics[..i + 1], max) == Assign(TableAfter(topics[..i], max), max, topics[i]).0
  {
    assert topics[..i + 1][..i] == topics[..i];
  }

  /** The packet that gives a topic its alias. */
  ghost predicate Establishes(topics: seq<string>, max: nat, i: nat) {
    i < |topics| && PacketAt(topics, max, i) == Packet(topics[i], PacketAt(topics, max, i).alias)
    && PacketAt(topics, max, i).alias.Some? && topics[i] != ""
  }

  ghost predicate Reuses(topics: seq<string>, max: nat, i: nat) {
    i < |topics| && PacketAt(topics, max, i).topic == "" && PacketAt(topics, max, i).alias.Some?
  }

  /** Every known alias was established by an earlier build. */
  lemma {:induction false} WasEstablished(topics: seq<string>, max: nat, t: string)
    requires t in TableAfter(topics, max) && t != ""
    ensures exists i: nat :: Establishes(topics, max, i) && topics[i] == t
    decreases |topics|
  {
    var n := |topics| - 1;
    if t in TableAfter(topics[..n], max) {
      WasEstablished(topics[..n], max, t);
      var i: nat :| Establishes(topics[..n], max, i) && topics[..n][i] == t;
      assert topics[..n][..i] == topics[..i];
      assert Establishes(topics, max, i);
    } else {
      assert Establishes(topics, max, n);
    }
  }

  // ----- what the receiver recovers -----

  /** The wire: which builds were sent, in the order in which they were sent. */
  ghost predicate Sends(topics: seq<string>, wire: seq<nat>) {
    forall k :: 0 <= k < |wire| ==> wire[k] < |topics|
  }

  ghost function Replay(topics: seq<string>, max: nat, wire: seq<nat>): Option<(Inbound, seq<string>)>
    requires Sends(topics, wire)
  {
    if wire == [] then Some((map[], []))
    else
      var n := |wire| - 1;
      match Replay(topics, max, wire[..n])
      case None => None
      case Some((table, names)) =>
        match Resolve(table, PacketAt(topics, max, wire[n]))
        case None => None
        case Some((table', name)) => Some((table', names + [name]))
  }

  ghost function Sent(topics: seq<string>, wire: seq<nat>): seq<string>
    requires Sends(topics, wire)
  {
    seq(|wire|, k requires 0 <= k < |wire| => topics[wire[k]])
  }

  ghost predicate EstablishedBefore(topics: seq<string>, max: nat, wire: seq<nat>, k: nat)
    requires k < |wire| && Sends(topics, wire)
  {
    exists j :: 0 <= j < k && Establishes(topics, max, wire[j]) && topics[wire[j]] == topics[wire[k]]
  }

  /** On the wire every bare alias comes after the packet that establishes it. */
  ghost predicate InOrder(topics: seq<string>, max: nat, wire: seq<nat>)
    requires Sends(topics, wire)
  {
    forall k :: 0 <= k < |wire| && Reuses(topics, max, wire[k]) ==> EstablishedBefore(topics, max, wire, k)
  }

  ghost predicate NonEmpty(topics: seq<string>) {
    forall i :: 0 <= i < |topics| ==> topics[i] != ""
  }

  /** The receiver's table after part of the wire: for each alias established so far, the topic it stands for. */
  ghost predicate Knows(topics: seq<string>, max: nat, wire: seq<nat>, table: Inbound)
    requires Sends(topics, wire)
  {
    var final := TableAfter(topics, max);
    && (forall a :: a in table ==> table[a] in final && final[table[a]] == a)
    && (forall t :: t in final ==>
          (final[t] in table <==>
           exists j :: 0 <= j < |wire| && Establishes(topics, max, wire[j]) && topics[wire[j]] == t))
  }

  lemma {:induction false} KnowsStep(topics: seq<string>, max: nat, wire: seq<nat>, table: Inbound, i: nat)
    requires NonEmpty(topics) && max <= ALIAS_MAX && i < |topics|
    requires Sends(topics, wire) && Knows(topics, max, wire, table)
    ensures var r := Resolve(table, PacketAt(topics, max, i));
            && Sends(topics, wire + [i])
            && (r.None? <==> Reuses(topics, max, i) && !EstablishedBefore(topics, max, wire + [i], |wire|))
            && (r.Some? ==> r.value.1 == topics[i] && Knows(topics, max, wire + [i], r.value.0))
  {
    hide TableAfter, PacketAt, Assign;
    var p, final := PacketAt(topics, max, i), TableAfter(topics, max);
    AliasIsFinal(topics, max, i);
    TableInjective(topics, max);
    assert Established(topics, max, wire, topics[i]) <==> EstablishedBefore(topics, max, wire + [i], |wire|) by {
      EstablishedSame(topics, max, wire, i);
    }
    EstablishedMore(topics, max, wire, i);
    if p.alias.Some? {
      assert final[topics[i]] == p.alias.value;
      assert final[topics[i]] in table <==> Established(topics, max, wire, topics[i]);
    }
    var r := Resolve(table, p);
    if r.Some? {
      KnowsNext(topics, max, wire, table, i);
    }
  }

  ghost predicate Established(topics: seq<string>, max: nat, wire: seq<nat>, t: string)
    requires Sends(topics, wire)
  {
    exists j :: 0 <= j < |wire| && Establishes(topics, max, wire[j]) && topics[wire[j]] == t
  }

  lemma {:induction false} EstablishedSame(topics: seq<string>, max: nat, wire: seq<nat>, i: nat)
    requires Sends(topics, wire) && i < |topics|
    ensures Sends(topics, wire + [i])
    ensures Established(topics, max, wire, topics[i]) <==> EstablishedBefore(topics, max, wire + [i], |wire|)
  {
    hide Establishes;
    var all := wire + [i];
    assert forall j :: 0 <= j < |wire| ==> all[j] == wire[j];
  }

  lemma {:induction false} EstablishedMore(topics: seq<string>, max: nat, wire: seq<nat>, i: nat)
    requires Sends(topics, wire) && i < |topics|
    ensures Sends(topics, wire + [i])
    ensures forall t :: Established(topics, max, wire + [i], t) <==>
              Established(topics, max, wire, t) || (Establishes(topics, max, i) && topics[i] == t)
  {
    hide Establishes;
    var all := wire + [i];
    assert forall j :: 0 <= j < |wire| ==> all[j] == wire[j];
    assert all[|wire|] == i;
  }

  lemma {:induction false} KnowsNext(topics: seq<string>, max: nat, wire: seq<nat>, table: Inbound, i: nat)
    requires NonEmpty(topics) && i < |topics| && Sends(topics, wire) && Knows(topics, max, wire, table)
    requires Resolve(table, PacketAt(topics, max, i)).Some?
    ensures Sends(topics, wire + [i])
    ensures Knows(topics, max, wire + [i], Resolve(table, PacketAt(topics, max, i)).value.0)
  {
    hide TableAfter, PacketAt, Assign;
    var p, final := PacketAt(topics, max, i), TableAfter(topics, max);
    var table' := Resolve(table, p).value.0;
    AliasIsFinal(topics, max, i);
    TableInjective(topics, max);
    EstablishedMore(topics, max, wire, i);
    forall t | t in final ensures final[t] in table' <==> Established(topics, max, wire + [i], t) {
      assert final[t] in table <==> Established(topics, max, wire, t);
    }
  }

  /** The receiver recovers every topic in order exactly when no bare alias overtakes its establishing packet. */
  lemma {:induction false} RecoversExactly(topics: seq<string>, max: nat, wire: seq<nat>)
    requires NonEmpty(topics) && max <= ALIAS_MAX && Sends(topics, wire)
    ensures var r := Replay(topics, max, wire);
            && (r.Some? <==> InOrder(topics, max, wire))
            && (r.Some? ==> r.value.1 == Sent(topics, wire) && Knows(topics, max, wire, r.value.0))
    decreases |wire|
  {
    hide TableAfter, PacketAt, Resolve, Establishes, Reuses, EstablishedBefore, Knows;
    if wire == [] {
      KnowsNothing(topics, max);
    } else {
      var n := |wire| - 1;
      var rest := wire[..n];
      assert wire == rest + [wire[n]];
      RecoversExactly(topics, max, rest);
      OrderLast(topics, max, rest, wire[n]);
      var r := Replay(topics, max, rest);
      if r.Some? {
        KnowsStep(topics, max, rest, r.value.0, wire[n]);
        assert Sent(topics, wire) == Sent(topics, rest) + [topics[wire[n]]];
      }
    }
  }

  lemma {:induction false} KnowsNothing(topics: seq<string>, max: nat)
    ensures Knows(topics, max, [], map[])
  {
  }

  lemma {:induction false} OrderLast(topics: seq<string>, max: nat, rest: seq<nat>, i: nat)
    requires Sends(topics, rest) && i < |topics|
    ensures Sends(topics, rest + [i])
    ensures InOrder(topics, max, rest + [i]) <==>
            && InOrder(topics, max, rest)
            && (Reuses(topics, max, i) ==> EstablishedBefore(topics, max, rest + [i], |rest|))
  {
    hide Reuses, Establishes;
    var all := rest + [i];
    forall k | 0 <= k < |rest|
      ensures EstablishedBefore(topics, max, all, k) <==> EstablishedBefore(topics, max, rest, k)
    {
      assert forall j :: 0 <= j < |rest| ==> all[j] == rest[j];
    }
    if InOrder(topics, max, all) {
      forall k | 0 <= k < |rest| && Reuses(topics, max, rest[k]) ensures EstablishedBefore(topics, max, rest, k) {
        assert all[k] == rest[k];
      }
      assert all[|rest|] == i;
    }
    if InOrder(topics, max, rest) && (Reuses(topics, max, i) ==> EstablishedBefore(topics, max, all, |rest|)) {
      forall k | 0 <= k < |all| && Reuses(topics, max, all[k]) ensures EstablishedBefore(topics, max, all, k) {
        if k < |rest| { assert all[k] == rest[k]; }
      }
    }
  }

  // ----- packets sent in the order in which they were built -----

  ghost function FirstOnes(n: nat): seq<nat> {
    seq(n, k requires 0 <= k < n => k)
  }

  lemma {:induction false} BuildOrderIsInOrder(topics: seq<string>, max: nat, n: nat)
    requires NonEmpty(topics) && n <= |topics|
    ensures Sends(topics, FirstOnes(n)) && InOrder(topics, max, FirstOnes(n))
  {
    hide TableAfter;
    var wire := FirstOnes(n);
    forall k | 0 <= k < n && Reuses(topics, max, wire[k]) ensures EstablishedBefore(topics, max, wire, k) {
      var before := topics[..k];
      WasEstablished(before, max, topics[k]);
      var i: nat :| Establishes(before, max, i) && before[i] == topics[k];
      assert before[..i] == topics[..i];
      assert Establishes(topics, max, wire[i]) && topics[wire[i]] == topics[wire[k]];
    }
  }

  /** With nothing dropped and nothing overtaking, compression round-trips. */
  lemma {:induction false} RoundTrip(topics: seq<string>, max: nat)
    requires NonEmpty(topics) && max <= ALIAS_MAX
    ensures var wire := FirstOnes(|topics|);
            && Sends(topics, wire) && Replay(topics, max, wire).Some?
            && Replay(topics, max, wire).value.1 == topics
  {
    hide InOrder, Replay;
    BuildOrderIsInOrder(topics, max, |topics|);
    RecoversExactly(topics, max, FirstOnes(|topics|));
    assert Sent(topics, FirstOnes(|topics|)) == topics;
  }
}
