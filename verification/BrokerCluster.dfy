/** Cross-node broadcast: `StaticBrokerMembership`, `broadcast` and `BrokerRelayActor`
    (include/aero/broker/broker_cluster.hpp)
    over `deliver_publish` and `deliver_remote_publish` (include/aero/broker/native_broker.hpp). */
module BrokerCluster {
  import opened Wrappers
  import opened Sequences
  import opened SortedUnique

  type NodeId = nat

  datatype Props = Props(response: Option<string>, correlation: Option<seq<bv8>>, user: seq<(string, string)>)

  /** What a PUBLISH carries to a peer; `remaining` is its expiry in seconds from now. */
  datatype Content = Content(topic: string, payload: seq<bv8>, qos: nat, remaining: Option<int>, props: Props)

  // ----- the relay message -----

  /** Every field always present, with a flag where it may be absent. */
  datatype RelayMsg = RelayMsg(
    topic: string, payload: seq<bv8>, qos: nat,
    hasExpiry: bool, expirySeconds: nat, hasResponse: bool, response: string,
    hasCorrelation: bool, correlation: seq<bv8>, user: seq<(string, string)>)

  const U32: nat := 0x1_0000_0000

  /** The part of `broadcast` that fills the message; seconds are clamped at zero and kept in 32 bits. */
  function Flatten(c: Content): RelayMsg {
    RelayMsg(
      c.topic, c.payload, c.qos,
      c.remaining.Some?, if c.remaining.Some? then Larger(0, c.remaining.value) % U32 else 0,
      c.props.response.Some?, if c.props.response.Some? then c.props.response.value else "",
      c.props.correlation.Some?, if c.props.correlation.Some? then c.props.correlation.value else [],
      c.props.user)
  }

  /** `BrokerRelayActor::handle` */
  function Unflatten(m: RelayMsg): Content {
    Content(
      m.topic, m.payload, m.qos,
      if m.hasExpiry then Some(m.expirySeconds) else None,
      Props(if m.hasResponse then Some(m.response) else None,
            if m.hasCorrelation then Some(m.correlation) else None, m.user))
  }

  ghost predicate Representable(c: Content) {
    c.remaining.Some? ==> 0 <= c.remaining.value < U32
  }

  /** A peer receives what was sent exactly when the remaining seconds fit. Otherwise only they differ: an expired
      message arrives with 0 seconds left, and any other with what is left modulo 2^32. */
  lemma {:induction false} RelayRoundTrip(c: Content)
    ensures var r := Unflatten(Flatten(c));
            && (r == c <==> Representable(c))
            && r == c.(remaining := r.remaining) && (r.remaining.Some? <==> c.remaining.Some?)
            && (c.remaining.Some? && c.remaining.value < 0 ==> r.remaining.value == 0)
            && (c.remaining.Some? && c.remaining.value >= 0 ==>
                  0 <= r.remaining.value < 4294967296 && (c.remaining.value - r.remaining.value) % 4294967296 == 0)
  {
    if c.remaining.Some? {
      var v := c.remaining.value;
      if 0 <= v < U32 { assert v % U32 == v; }
    }
  }

  // ----- who gets a frame -----

  /** The nodes and, for each, the peers it lists (perhaps more than once, perhaps itself too). */
  datatype Config = Config(nodes: set<NodeId>, peers: map<NodeId, seq<NodeId>>)

  /** All nodes list each other. */
  ghost predicate Full(cfg: Config) {
    cfg.peers.Keys == cfg.nodes && forall x :: x in cfg.nodes ==> Elems(cfg.peers[x]) + {x} == cfg.nodes
  }

  /** `all_node_ids` and the membership built from them. */
  function Members(self: NodeId, peers: seq<NodeId>): seq<NodeId> {
    SortUnique([self] + peers)
  }

  datatype Frame = Frame(from: NodeId, dest: NodeId, pub: nat, msg: RelayMsg)

  /** One frame to every member but the sender. */
  function FramesTo(self: NodeId, members: seq<NodeId>, pub: nat, msg: RelayMsg): seq<Frame> {
    if members == [] then []
    else
      var n := |members| - 1;
      FramesTo(self, members[..n], pub, msg) + (if members[n] == self then [] else [Frame(self, members[n], pub, msg)])
  }

  /** The loop of `broadcast`. */
  method Broadcast(self: NodeId, members: seq<NodeId>, pub: nat, c: Content) returns (frames: seq<Frame>)
    ensures frames == FramesTo(self, members, pub, Flatten(c))
  {
    var m := Flatten(c);
    frames := [];
    for i := 0 to |members|
      invariant frames == FramesTo(self, members[..i], pub, m)
    {
      assert members[..i + 1][..i] == members[..i];
      if members[i] == self { continue; }
      frames := frames + [Frame(self, members[i], pub, m)];
    }
    assert members[..|members|] == members;
  }

  ghost predicate Carries(f: Frame, self: NodeId, pub: nat, msg: RelayMsg) {
    f.from == self && f.pub == pub && f.msg == msg && f.dest != self
  }

  lemma {:induction false} FramesAre(self: NodeId, members: seq<NodeId>, pub: nat, msg: RelayMsg, f: Frame)
    ensures f in FramesTo(self, members, pub, msg) <==> Carries(f, self, pub, msg) && f.dest in members
    decreases |members|
  {
    if members != [] {
      var n := |members| - 1;
      FramesAre(self, members[..n], pub, msg, f);
      assert members == members[..n] + [members[n]];
    }
  }

  ghost predicate ByDest(fs: seq<Frame>) {
    forall i, j :: 0 <= i < j < |fs| ==> fs[i].dest < fs[j].dest
  }

  lemma {:induction false} FramesSorted(self: NodeId, members: seq<NodeId>, pub: nat, msg: RelayMsg)
    requires Increasing(members)
    ensures ByDest(FramesTo(self, members, pub, msg))
    ensures |FramesTo(self, members, pub, msg)| == |members| - (if self in members then 1 else 0)
    decreases |members|
  {
    if members != [] {
      var n := |members| - 1;
      var rest := members[..n];
      FramesSorted(self, rest, pub, msg);
      var before := FramesTo(self, rest, pub, msg);
      var last := if members[n] == self then [] else [Frame(self, members[n], pub, msg)];
      assert FramesTo(self, members, pub, msg) == before + last;
      hide FramesTo;
      assert self in members <==> self in rest || self == members[n];
      assert members[n] !in rest;
      forall i | 0 <= i < |before| ensures before[i].dest < members[n] {
        FramesAre(self, rest, pub, msg, before[i]);
      }
      hide Increasing;
      assert ByDest(before + last);
    }
  }

  lemma {:induction false} FramesExact(self: NodeId, members: seq<NodeId>, pub: nat, msg: RelayMsg)
    requires Increasing(members)
    ensures var fs := FramesTo(self, members, pub, msg);
            && (forall f :: f in fs <==> Carries(f, self, pub, msg) && f.dest in members) && ByDest(fs)
            && |fs| == |members| - (if self in members then 1 else 0)
  {
    hide Carries, FramesTo, Increasing;
    FramesSorted(self, members, pub, msg);
    forall f ensures f in FramesTo(self, members, pub, msg) <==> Carries(f, self, pub, msg) && f.dest in members {
      FramesAre(self, members, pub, msg, f);
    }
  }

  /** In a full cluster a broadcast makes one frame for each other node and none for the sender. */
  lemma {:induction false} OneFramePerPeer(cfg: Config, self: NodeId, pub: nat, msg: RelayMsg)
    requires Full(cfg) && self in cfg.nodes
    ensures self in cfg.peers
    ensures var fs := FramesTo(self, Members(self, cfg.peers[self]), pub, msg);
            && (forall f :: f in fs <==> Carries(f, self, pub, msg) && f.dest in cfg.nodes)
            && (forall i, j :: 0 <= i < j < |fs| ==> fs[i] != fs[j])
            && |fs| == |cfg.nodes| - 1
  {
    hide SortUnique, FramesTo, Full, Carries, Members, Increasing;
    MembersAreNodes(cfg, self);
    FramesExact(self, Members(self, cfg.peers[self]), pub, msg);
  }

  lemma {:induction false} MembersAreNodes(cfg: Config, self: NodeId)
    requires Full(cfg) && self in cfg.nodes
    ensures self in cfg.peers
    ensures var members := Members(self, cfg.peers[self]);
            && Increasing(members) && |members| == |cfg.nodes| && self in members
            && forall x :: x in members <==> x in cfg.nodes
  {
    hide SortUnique;
    var peers := cfg.peers[self];
    var members := Members(self, peers);
    ElemsSize(members);
    assert Elems(peers) + {self} == cfg.nodes;
    forall x ensures x in members <==> x in cfg.nodes {
      assert x in members <==> x in [self] + peers;
      assert x in Elems(peers) <==> x in peers;
    }
    assert Elems(members) == cfg.nodes;
  }

  // ----- the cluster -----

  datatype Publish = Publish(origin: NodeId, content: Content, retain: bool)

  /** A node's handling of publish number `pub`: ingestion and local routing of this content. */
  datatype Delivery = Delivery(pub: nat, content: Content)

  type Retained = map<string, Content>

  /** Frames under way; what each node has handled and retains; every publish and every frame there has been. */
  datatype Cluster = Cluster(
    net: multiset<Frame>, handled: map<NodeId, seq<Delivery>>, retained: map<NodeId, Retained>,
    pubs: seq<Publish>, created: seq<Frame>)

  /** A client publishes at a node; a frame arrives; a frame is lost. */
  datatype Step = ClientPublish(p: Publish) | Arrive(f: Frame) | Lose(f: Frame)

  predicate Enabled(cfg: Config, c: Cluster, step: Step) {
    match step
    case ClientPublish(p) =>
      p.origin in cfg.nodes && p.origin in cfg.peers && p.origin in c.handled && p.origin in c.retained
    case Arrive(f) => f in c.net && f.dest in c.handled
    case Lose(f) => f in c.net
  }

  /** A retained PUBLISH replaces what is kept for its topic; an empty payload clears it. */
  function Retain(r: Retained, p: Publish): Retained {
    if !p.retain then r
    else if p.content.payload == [] then r - {p.content.topic}
    else r[p.content.topic := p.content]
  }

  function Apply(cfg: Config, c: Cluster, step: Step): Cluster
    requires Enabled(cfg, c, step)
  {
    match step
    case ClientPublish(p) =>
      var fs := FramesTo(p.origin, Members(p.origin, cfg.peers[p.origin]), |c.pubs|, Flatten(p.content));
      Cluster(c.net + multiset(fs),
              c.handled[p.origin := c.handled[p.origin] + [Delivery(|c.pubs|, p.content)]],
              c.retained[p.origin := Retain(c.retained[p.origin], p)],
              c.pubs + [p], c.created + fs)
    case Arrive(f) =>
      c.(net := c.net - multiset{f},
         handled := c.handled[f.dest := c.handled[f.dest] + [Delivery(f.pub, Unflatten(f.msg))]])
    case Lose(f) => c.(net := c.net - multiset{f})
  }

  /** What `x` retains is decided by the publishes of its own clients. */
  function RetainedBy(pubs: seq<Publish>, x: NodeId): Retained {
    if pubs == [] then map[]
    else
      var n := |pubs| - 1;
      if pubs[n].origin == x then Retain(RetainedBy(pubs[..n], x), pubs[n]) else RetainedBy(pubs[..n], x)
  }

  predicate Retains(p: Publish, x: NodeId, topic: string) {
    p.origin == x && p.retain && p.content.topic == topic
  }

  /** Publish `i` is the last one that a client of `x` retained for the topic. */
  ghost predicate Latest(pubs: seq<Publish>, x: NodeId, topic: string, i: nat) {
    i < |pubs| && Retains(pubs[i], x, topic) && forall j :: i < j < |pubs| ==> !Retains(pubs[j], x, topic)
  }

  /** What a publish does to the entry of one topic. */
  lemma {:induction false} RetainedNext(pubs: seq<Publish>, x: NodeId, topic: string)
    requires pubs != []
    ensures var n := |pubs| - 1;
            var before, after := RetainedBy(pubs[..n], x), RetainedBy(pubs, x);
            if !Retains(pubs[n], x, topic) then
              (topic in after <==> topic in before) && (topic in after ==> after[topic] == before[topic])
            else if pubs[n].content.payload == [] then topic !in after
            else topic in after && after[topic] == pubs[n].content
  {
  }

  /** A node keeps nothing for a topic that its clients never retained ... */
  lemma {:induction false} NeverRetained(pubs: seq<Publish>, x: NodeId, topic: string)
    requires forall i :: 0 <= i < |pubs| ==> !Retains(pubs[i], x, topic)
    ensures topic !in RetainedBy(pubs, x)
    decreases |pubs|
  {
    hide Retains, RetainedBy;
    if pubs != [] {
      RetainedNext(pubs, x, topic);
      NeverRetained(pubs[..|pubs| - 1], x, topic);
    } else {
      NothingRetained(x);
    }
  }

  lemma {:induction false} NothingRetained(x: NodeId)
    ensures RetainedBy([], x) == map[]
  {
  }

  /** ... and otherwise the last PUBLISH they retained for it, unless that was empty. */
  lemma {:induction false} RetainedIsLatest(pubs: seq<Publish>, x: NodeId, topic: string, i: nat)
    requires Latest(pubs, x, topic, i)
    ensures if pubs[i].content.payload == [] then topic !in RetainedBy(pubs, x)
            else topic in RetainedBy(pubs, x) && RetainedBy(pubs, x)[topic] == pubs[i].content
    decreases |pubs|
  {
    hide Retains, RetainedBy;
    RetainedNext(pubs, x, topic);
    if i < |pubs| - 1 {
      RetainedIsLatest(pubs[..|pubs| - 1], x, topic, i);
    }
  }

  /** The frames these publishes should make. */
  function FramesOf(cfg: Config, pubs: seq<Publish>): seq<Frame> {
    if pubs == [] then []
    else
      var n := |pubs| - 1;
      var p := pubs[n];
      FramesOf(cfg, pubs[..n]) +
      (if p.origin in cfg.peers then
         FramesTo(p.origin, Members(p.origin, cfg.peers[p.origin]), n, Flatten(p.content))
       else [])
  }

  // ----- what every step keeps -----

  ghost predicate SeenAt(list: seq<Delivery>, pub: nat) {
    exists i :: 0 <= i < |list| && list[i].pub == pub
  }

  /** A frame under way is the only copy of a publish on its way to a peer that has not handled it. */
  ghost predicate FrameOk(cfg: Config, c: Cluster, f: Frame) {
    && f.pub < |c.pubs| && f.from == c.pubs[f.pub].origin && f.msg == Flatten(c.pubs[f.pub].content)
    && f.dest in cfg.nodes - {f.from} && c.net[f] == 1 && f.dest in c.handled && !SeenAt(c.handled[f.dest], f.pub)
  }

  /** A node handles a publish at most once, with the content its origin sent. */
  ghost predicate HandledOnce(c: Cluster, x: NodeId) {
    x in c.handled ==>
      && (forall i :: 0 <= i < |c.handled[x]| ==>
            && c.handled[x][i].pub < |c.pubs|
            && var p := c.pubs[c.handled[x][i].pub];
               c.handled[x][i].content == if p.origin == x then p.content else Unflatten(Flatten(p.content)))
      && (forall i, j :: 0 <= i < j < |c.handled[x]| ==> c.handled[x][i].pub != c.handled[x][j].pub)
  }

  ghost predicate Quiet(cfg: Config, c: Cluster) {
    && c.handled.Keys == c.retained.Keys == cfg.nodes
    && (forall f :: f in c.net ==> FrameOk(cfg, c, f))
    && (forall x :: HandledOnce(c, x))
    && (forall x :: x in c.retained ==> c.retained[x] == RetainedBy(c.pubs, x))
    && c.created == FramesOf(cfg, c.pubs) && |c.created| == |c.pubs| * (|cfg.nodes| - 1)
  }

  lemma {:induction false} SeenMore(list: seq<Delivery>, d: Delivery, pub: nat)
    ensures SeenAt(list + [d], pub) <==> SeenAt(list, pub) || d.pub == pub
  {
    assert (list + [d])[|list|] == d;
    if SeenAt(list, pub) {
      var i :| 0 <= i < |list| && list[i].pub == pub;
      assert (list + [d])[i] == list[i];
    }
  }

  lemma {:induction false} KeepFrame(cfg: Config, c: Cluster, step: Step, f: Frame)
    requires Full(cfg) && Quiet(cfg, c) && Enabled(cfg, c, step) && f in Apply(cfg, c, step).net
    ensures FrameOk(cfg, Apply(cfg, c, step), f)
  {
    hide FramesTo, Members, Flatten, Unflatten, RetainedBy, FramesOf, Full, HandledOnce, FrameOk, SeenAt;
    match step
    case ClientPublish(p) =>
      if f in c.net { FrameStays(cfg, c, p, f); } else { FrameStarts(cfg, c, p, f); }
    case Arrive(g) => FrameBeside(cfg, c, f, g);
    case Lose(g) => FrameBeside(cfg, c, f, g);
  }

  /** A new publish has a new number, so older frames are not concerned. */
  lemma {:induction false} FrameStays(cfg: Config, c: Cluster, p: Publish, f: Frame)
    requires Full(cfg) && Enabled(cfg, c, ClientPublish(p)) && FrameOk(cfg, c, f)
    ensures FrameOk(cfg, Apply(cfg, c, ClientPublish(p)), f)
  {
    hide FramesTo, Members, Flatten, Full, SeenAt;
    SeenMore(c.handled[p.origin], Delivery(|c.pubs|, p.content), f.pub);
    OneFramePerPeer(cfg, p.origin, |c.pubs|, Flatten(p.content));
  }

  lemma {:induction false} FrameStarts(cfg: Config, c: Cluster, p: Publish, f: Frame)
    requires Full(cfg) && Quiet(cfg, c) && Enabled(cfg, c, ClientPublish(p))
    requires f !in c.net && f in Apply(cfg, c, ClientPublish(p)).net
    ensures FrameOk(cfg, Apply(cfg, c, ClientPublish(p)), f)
  {
    hide FramesTo, Members, Flatten, Full, SeenAt, HandledOnce, RetainedBy, FramesOf;
    var fs := FramesTo(p.origin, Members(p.origin, cfg.peers[p.origin]), |c.pubs|, Flatten(p.content));
    OneFramePerPeer(cfg, p.origin, |c.pubs|, Flatten(p.content));
    assert f in fs;
    DistinctOnce(fs, f);
    assert HandledOnce(c, f.dest);
    NotYetSeen(c, f.dest, |c.pubs|);
  }

  /** When another frame leaves the network, this one stays as it was. */
  lemma {:induction false} FrameBeside(cfg: Config, c: Cluster, f: Frame, g: Frame)
    requires FrameOk(cfg, c, f) && FrameOk(cfg, c, g) && f in c.net - multiset{g}
    ensures FrameOk(cfg, Apply(cfg, c, Arrive(g)), f) && FrameOk(cfg, Apply(cfg, c, Lose(g)), f)
  {
    hide Flatten, Unflatten, SeenAt;
    assert f != g;
    SeenMore(c.handled[g.dest], Delivery(g.pub, Unflatten(g.msg)), f.pub);
  }

  lemma {:induction false} NotYetSeen(c: Cluster, x: NodeId, pub: nat)
    requires x in c.handled && HandledOnce(c, x) && pub >= |c.pubs|
    ensures !SeenAt(c.handled[x], pub)
  {
  }

  lemma {:induction false} DistinctOnce(fs: seq<Frame>, f: Frame)
    requires (forall i, j :: 0 <= i < j < |fs| ==> fs[i] != fs[j]) && f in fs
    ensures multiset(fs)[f] == 1
    decreases |fs|
  {
    var n := |fs| - 1;
    assert fs == fs[..n] + [fs[n]];
    if f in fs[..n] {
      DistinctOnce(fs[..n], f);
    }
  }

  lemma {:induction false} KeepHandled(cfg: Config, c: Cluster, step: Step, x: NodeId)
    requires Quiet(cfg, c) && Enabled(cfg, c, step)
    ensures HandledOnce(Apply(cfg, c, step), x)
  {
    hide FramesTo, Members, Flatten, Unflatten, RetainedBy, FramesOf, FrameOk;
    assert HandledOnce(c, x);
    match step
    case ClientPublish(p) =>
      if x in c.handled { NotYetSeen(c, x, |c.pubs|); }
    case Arrive(g) => ArrivesOnce(cfg, c, g);
    case Lose(g) =>
  }

  lemma {:induction false} ArrivesOnce(cfg: Config, c: Cluster, g: Frame)
    requires FrameOk(cfg, c, g)
    ensures g.pub < |c.pubs| && c.pubs[g.pub].origin != g.dest && g.msg == Flatten(c.pubs[g.pub].content)
    ensures g.dest in c.handled && forall i :: 0 <= i < |c.handled[g.dest]| ==> c.handled[g.dest][i].pub != g.pub
  {
    hide Flatten;
  }

  lemma {:induction false} KeepRetained(cfg: Config, c: Cluster, step: Step, x: NodeId)
    requires Quiet(cfg, c) && Enabled(cfg, c, step) && x in c.retained
    ensures var c' := Apply(cfg, c, step);
            x in c'.retained && c'.retained[x] == RetainedBy(c'.pubs, x)
  {
    hide FramesTo, Members, Flatten, Unflatten, Retain, FrameOk, HandledOnce;
    if step.ClientPublish? {
      assert (c.pubs + [step.p])[..|c.pubs|] == c.pubs;
    }
  }

  lemma {:induction false} KeepCount(cfg: Config, c: Cluster, step: Step)
    requires Full(cfg) && Quiet(cfg, c) && Enabled(cfg, c, step)
    ensures var c' := Apply(cfg, c, step);
            c'.created == FramesOf(cfg, c'.pubs) && |c'.created| == |c'.pubs| * (|cfg.nodes| - 1)
  {
    hide FramesTo, Members, Flatten, Unflatten, FrameOk, HandledOnce, RetainedBy, Full;
    if step.ClientPublish? {
      OneFramePerPeer(cfg, step.p.origin, |c.pubs|, Flatten(step.p.content));
      assert (c.pubs + [step.p])[..|c.pubs|] == c.pubs;
    }
  }

  lemma {:induction false} QuietStep(cfg: Config, c: Cluster, step: Step)
    requires Full(cfg) && Quiet(cfg, c) && Enabled(cfg, c, step)
    ensures Quiet(cfg, Apply(cfg, c, step))
  {
    hide FramesTo, Members, Flatten, Unflatten, FrameOk, HandledOnce, RetainedBy, FramesOf, Full, Retain;
    var c' := Apply(cfg, c, step);
    assert step.Arrive? ==> step.f.dest in c.handled;
    assert c'.handled.Keys == c'.retained.Keys == cfg.nodes;
    forall f | f in c'.net ensures FrameOk(cfg, c', f) { KeepFrame(cfg, c, step, f); }
    forall x ensures HandledOnce(c', x) { KeepHandled(cfg, c, step, x); }
    forall x | x in c'.retained ensures c'.retained[x] == RetainedBy(c'.pubs, x) { KeepRetained(cfg, c, step, x); }
    KeepCount(cfg, c, step);
  }

  // ----- runs -----

  function Start(cfg: Config): Cluster {
    Cluster(multiset{}, map x | x in cfg.nodes :: [], map x | x in cfg.nodes :: map[], [], [])
  }

  function Run(cfg: Config, steps: seq<Step>): Option<Cluster> {
    if steps == [] then Some(Start(cfg))
    else
      match Run(cfg, steps[..|steps| - 1])
      case None => None
      case Some(c) =>
        if Enabled(cfg, c, steps[|steps| - 1]) then Some(Apply(cfg, c, steps[|steps| - 1])) else None
  }

  lemma {:induction false} RunQuiet(cfg: Config, steps: seq<Step>)
    requires Full(cfg)
    ensures Run(cfg, steps).Some? ==> Quiet(cfg, Run(cfg, steps).value)
    decreases |steps|
  {
    hide Quiet, Apply, Full;
    if steps == [] {
      StartQuiet(cfg);
    } else {
      RunQuiet(cfg, steps[..|steps| - 1]);
      var before := Run(cfg, steps[..|steps| - 1]);
      if before.Some? && Enabled(cfg, before.value, steps[|steps| - 1]) {
        QuietStep(cfg, before.value, steps[|steps| - 1]);
      }
    }
  }

  lemma {:induction false} StartQuiet(cfg: Config)
    ensures Quiet(cfg, Start(cfg))
  {
  }

  /** The publishes of a run's clients. */
  function Published(steps: seq<Step>): seq<Publish> {
    if steps == [] then []
    else
      var n := |steps| - 1;
      Published(steps[..n]) + (if steps[n].ClientPublish? then [steps[n].p] else [])
  }

  lemma {:induction false} OnlyClientsPublish(cfg: Config, steps: seq<Step>)
    ensures Run(cfg, steps).Some? ==> Run(cfg, steps).value.pubs == Published(steps)
    decreases |steps|
  {
    hide FramesTo, Members, Flatten, Unflatten, Retain;
    if steps != [] { OnlyClientsPublish(cfg, steps[..|steps| - 1]); }
  }

  /** Over every run, with frames delayed, reordered or lost: the frames ever made are one to each other node for each
      client's publish, so a relayed one makes none; a node handles a publish at most once, as its origin sent it; and
      it retains only what its own clients retained. */
  lemma {:induction false} BroadcastNeverLoops(cfg: Config, steps: seq<Step>, x: NodeId)
    requires Full(cfg) && x in cfg.nodes && Run(cfg, steps).Some?
    ensures var c := Run(cfg, steps).value;
            var pubs := Published(steps);
            && c.created == FramesOf(cfg, pubs) && |c.created| == |pubs| * (|cfg.nodes| - 1)
            && x in c.handled && x in c.retained && c.retained[x] == RetainedBy(pubs, x)
            && (forall i, j :: 0 <= i < j < |c.handled[x]| ==> c.handled[x][i].pub != c.handled[x][j].pub)
            && (forall i :: 0 <= i < |c.handled[x]| ==>
                  && c.handled[x][i].pub < |pubs|
                  && (Representable(pubs[c.handled[x][i].pub].content) ==>
                        c.handled[x][i].content == pubs[c.handled[x][i].pub].content))
  {
    hide Run, Flatten, Unflatten, FramesOf, RetainedBy, Published, FrameOk;
    RunQuiet(cfg, steps);
    OnlyClientsPublish(cfg, steps);
    var c := Run(cfg, steps).value;
    assert HandledOnce(c, x);
    forall i | 0 <= i < |c.handled[x]| && Representable(c.pubs[c.handled[x][i].pub].content)
      ensures c.handled[x][i].content == c.pubs[c.handled[x][i].pub].content
    {
      RelayRoundTrip(c.pubs[c.handled[x][i].pub].content);
    }
  }

  // ----- without losses everything arrives -----

  ghost predicate OnItsWay(c: Cluster, p: nat, x: NodeId)
    requires p < |c.pubs|
  {
    Frame(c.pubs[p].origin, x, p, Flatten(c.pubs[p].content)) in c.net
  }

  ghost predicate ReachesAll(cfg: Config, c: Cluster) {
    forall p, x :: 0 <= p < |c.pubs| && x in cfg.nodes && x in c.handled ==>
      SeenAt(c.handled[x], p) || OnItsWay(c, p, x)
  }

  lemma {:induction false} ReachesStep(cfg: Config, c: Cluster, step: Step)
    requires Full(cfg) && Quiet(cfg, c) && ReachesAll(cfg, c) && Enabled(cfg, c, step) && !step.Lose?
    ensures ReachesAll(cfg, Apply(cfg, c, step))
  {
    hide SeenAt, OnItsWay, Apply, Quiet, Full;
    var c' := Apply(cfg, c, step);
    forall p, x | 0 <= p < |c'.pubs| && x in cfg.nodes && x in c'.handled
      ensures SeenAt(c'.handled[x], p) || OnItsWay(c', p, x)
    {
      ReachesOne(cfg, c, step, p, x);
    }
  }

  lemma {:induction false} ReachesOne(cfg: Config, c: Cluster, step: Step, p: nat, x: NodeId)
    requires Full(cfg) && Quiet(cfg, c) && ReachesAll(cfg, c) && Enabled(cfg, c, step) && !step.Lose?
    requires p < |Apply(cfg, c, step).pubs| && x in cfg.nodes && x in Apply(cfg, c, step).handled
    ensures SeenAt(Apply(cfg, c, step).handled[x], p) || OnItsWay(Apply(cfg, c, step), p, x)
  {
    hide FramesTo, Members, Flatten, Unflatten, RetainedBy, FramesOf, Full, HandledOnce, SeenAt, Carries, FrameOk;
    assert x in c.handled;
    match step
    case ClientPublish(q) =>
      OneFramePerPeer(cfg, q.origin, |c.pubs|, Flatten(q.content));
      SeenMore(c.handled[x], Delivery(|c.pubs|, q.content), p);
      if p == |c.pubs| {
        CarriesIt(q.origin, x, p, Flatten(q.content));
      } else {
        assert SeenAt(c.handled[x], p) || OnItsWay(c, p, x);
      }
    case Arrive(g) =>
      SeenMore(c.handled[x], Delivery(g.pub, Unflatten(g.msg)), p);
      assert SeenAt(c.handled[x], p) || OnItsWay(c, p, x);
  }

  lemma {:induction false} CarriesIt(from: NodeId, dest: NodeId, pub: nat, msg: RelayMsg)
    ensures dest != from ==> Carries(Frame(from, dest, pub, msg), from, pub, msg)
  {
  }

  lemma {:induction false} RunReaches(cfg: Config, steps: seq<Step>)
    requires Full(cfg) && Run(cfg, steps).Some? && forall k :: 0 <= k < |steps| ==> !steps[k].Lose?
    ensures ReachesAll(cfg, Run(cfg, steps).value)
    decreases |steps|
  {
    hide Quiet, Apply, Full, SeenAt;
    if steps != [] {
      var rest := steps[..|steps| - 1];
      RunReaches(cfg, rest);
      RunQuiet(cfg, rest);
      ReachesStep(cfg, Run(cfg, rest).value, steps[|steps| - 1]);
    }
  }

  /** When nothing is lost and nothing is under way, every node has handled every publish. */
  lemma {:induction false} BroadcastReachesAll(cfg: Config, steps: seq<Step>, x: NodeId, p: nat)
    requires Full(cfg) && x in cfg.nodes && Run(cfg, steps).Some? && p < |Published(steps)|
    requires (forall k :: 0 <= k < |steps| ==> !steps[k].Lose?) && Run(cfg, steps).value.net == multiset{}
    ensures var c := Run(cfg, steps).value;
            x in c.handled && exists i :: 0 <= i < |c.handled[x]| && c.handled[x][i].pub == p
  {
    hide Run, Published, Flatten, FrameOk, HandledOnce, FramesOf, RetainedBy;
    RunQuiet(cfg, steps);
    RunReaches(cfg, steps);
    OnlyClientsPublish(cfg, steps);
    assert SeenAt(Run(cfg, steps).value.handled[x], p) || OnItsWay(Run(cfg, steps).value, p, x);
  }

  // ----- in place -----

  class StaticBrokerMembership {
    const self: NodeId
    var snapshot: seq<NodeId>

    constructor (self: NodeId, nodes: seq<NodeId>)
      ensures this.self == self && snapshot == SortUnique(nodes)
    {
      this.self := self;
      snapshot := SortUnique(nodes);
    }
  }

  class Node {
    const membership: StaticBrokerMembership
    var retained: Retained
    var handled: seq<Delivery>

    constructor (self: NodeId, peers: seq<NodeId>)
      ensures retained == map[] && handled == []
      ensures membership.self == self && membership.snapshot == Members(self, peers)
    {
      var ids := [self];
      for i := 0 to |peers|
        invariant ids == [self] + peers[..i]
      {
        ids := ids + [peers[i]];
      }
      assert ids == [self] + peers;
      membership := new StaticBrokerMembership(self, ids);
      retained, handled := map[], [];
    }

    /** `deliver_publish`: retain, handle locally, then broadcast. */
    method DeliverPublish(p: Publish, pub: nat) returns (frames: seq<Frame>)
      modifies this
      ensures retained == Retain(old(retained), p) && handled == old(handled) + [Delivery(pub, p.content)]
      ensures frames == FramesTo(membership.self, membership.snapshot, pub, Flatten(p.content))
    {
      if p.retain {
        if p.content.payload == [] {
          retained := retained - {p.content.topic};
        } else {
          retained := retained[p.content.topic := p.content];
        }
      }
      handled := handled + [Delivery(pub, p.content)];
      frames := Broadcast(membership.self, membership.snapshot, pub, p.content);
    }

    /** `deliver_remote_publish`: handle locally, nothing else. */
    method DeliverRemotePublish(f: Frame)
      modifies `handled
      ensures handled == old(handled) + [Delivery(f.pub, Unflatten(f.msg))]
    {
      handled := handled + [Delivery(f.pub, Unflatten(f.msg))];
    }
  }
}
