/** The non-blocking outbound path of a reactor session (include/aero/broker/native_broker.hpp): `send_packet`,
    `enqueue_reactor_publish` and `try_drain_reactor_send`. */
module OutboundDrain {
  import opened Wrappers

  type Byte = bv8

  /** A serialised packet; it has at least its fixed header. */
  type Bytes = s: seq<Byte> | s != [] witness [0]

  /** A queued packet that is ready, or a PUBLISH that is built when its turn comes. */
  datatype Item = Raw(bytes: Bytes) | Publish

  type Positive = n: nat | n >= 1 witness 1

  /** A send takes some bytes, would block, or fails. */
  datatype Outcome = Took(n: Positive) | WouldBlock | HardError

  /** What the surroundings answer, by the number of questions asked before: a build may be stopped by a choke
      point (None), a send has an outcome. */
  datatype Env = Env(build: nat -> Option<Bytes>, socket: nat -> Outcome)

  /** An item taken from the queue, what it turned into, and the number of questions asked before. */
  datatype Logged = Logged(item: Item, packet: Option<Bytes>, question: nat)

  /** The bytes handed to a send, and the number of questions asked before. */
  datatype Offer = Offer(bytes: seq<Byte>, question: nat)

  /** The session's outbound state, every send, and what became of every item taken from the queue. */
  datatype Conn = Conn(
    queue: seq<Item>, current: seq<Byte>, sent: nat, armed: bool, broken: bool,
    asked: nat, offers: seq<Offer>, log: seq<Logged>)

  const IDLE: Conn := Conn([], [], 0, false, false, 0, [], [])

  // ----- the socket's own record -----

  /** What the socket keeps of the bytes handed to it: as many as it says it took, and never more than there are. */
  function Accepted(outcome: Outcome, bytes: seq<Byte>): seq<Byte> {
    match outcome
    case Took(n) => if n <= |bytes| then bytes[..n] else bytes
    case WouldBlock => []
    case HardError => []
  }

  /** Everything the socket has kept. */
  function Received(env: Env, offers: seq<Offer>): seq<Byte> {
    if offers == [] then []
    else
      var n := |offers| - 1;
      Received(env, offers[..n]) + Accepted(env.socket(offers[n].question), offers[n].bytes)
  }

  lemma {:induction false} ReceivedMore(env: Env, offers: seq<Offer>, offer: Offer)
    ensures Received(env, offers + [offer]) ==
            Received(env, offers) + Accepted(env.socket(offer.question), offer.bytes)
  {
    assert (offers + [offer])[..|offers|] == offers;
  }

  // ----- the drain, as a function -----

  /** What an item turns into when it leaves the queue. */
  function PacketOf(item: Item, env: Env, asked: nat): Option<Bytes> {
    if item.Raw? then Some(item.bytes) else env.build(asked)
  }

  /** One item leaves the queue. */
  function Take(c: Conn, env: Env): Conn
    requires c.queue != []
  {
    var packet := PacketOf(c.queue[0], env, c.asked);
    c.(queue := c.queue[1..], current := if packet.Some? then packet.value else c.current,
       sent := if packet.Some? then 0 else c.sent, asked := c.asked + 1,
       log := c.log + [Logged(c.queue[0], packet, c.asked)])
  }

  /** Take items until a packet is current or the queue is empty. */
  function Fill(c: Conn, env: Env): Conn
    decreases |c.queue|
  {
    if c.current == [] && c.queue != [] then Fill(Take(c, env), env) else c
  }

  /** The unsent bytes of the current packet are handed to a send. */
  function Offered(c: Conn): Conn
    requires c.sent <= |c.current|
  {
    c.(asked := c.asked + 1, offers := c.offers + [Offer(c.current[c.sent..], c.asked)])
  }

  /** How many of `left` bytes a send of outcome Took(n) counts for. */
  function Taken(n: Positive, left: nat): (r: nat)
    requires left >= 1
    ensures 1 <= r <= left
  {
    if n < left then n else left
  }

  /** The first `k` unsent bytes are done with. */
  function Advance(c: Conn, k: nat): Conn
    requires c.sent + k <= |c.current|
  {
    var done := c.sent + k == |c.current|;
    c.(current := if done then [] else c.current, sent := if done then 0 else c.sent + k)
  }

  predicate Placed(c: Conn) {
    if c.current == [] then c.sent == 0 else c.sent < |c.current|
  }

  lemma {:induction false} FillPlaced(c: Conn, env: Env)
    requires Placed(c)
    ensures Placed(Fill(c, env)) && |Fill(c, env).queue| <= |c.queue|
    ensures Fill(c, env).current == [] ==> Fill(c, env).queue == []
    ensures c.current != [] || c.queue == [] ==> Fill(c, env) == c
    ensures c.current == [] && c.queue != [] ==> |Fill(c, env).queue| < |c.queue|
    decreases |c.queue|
  {
    if c.current == [] && c.queue != [] { FillPlaced(Take(c, env), env); }
  }

  /** `try_drain_reactor_send` */
  function Drain(c: Conn, env: Env): Conn
    requires Placed(c)
    decreases |c.queue|, |c.current| - c.sent
  {
    FillPlaced(c, env);
    var f := Fill(c, env);
    if f.current == [] then f.(armed := false)
    else
      var o := Offered(f);
      match env.socket(f.asked)
      case Took(n) => Drain(Advance(o, Taken(n, |f.current| - f.sent)), env)
      case WouldBlock => o.(armed := true)
      case HardError => o.(queue := [], current := [], sent := 0, broken := true)
  }

  // ----- the byte stream -----

  /** The packets kept, one after the other. */
  function Stream(log: seq<Logged>): seq<Byte> {
    if log == [] then []
    else
      var n := |log| - 1;
      Stream(log[..n]) + (if log[n].packet.Some? then log[n].packet.value else [])
  }

  function ItemsOf(log: seq<Logged>): seq<Item> {
    seq(|log|, i requires 0 <= i < |log| => log[i].item)
  }

  /** A packet that needs no building is never dropped or altered; a PUBLISH becomes what its own build answered, and
      is dropped only where that answered nothing. */
  ghost predicate Honest(env: Env, log: seq<Logged>, asked: nat) {
    && (forall i :: 0 <= i < |log| ==> log[i].question < asked)
    && (forall i, j :: 0 <= i < j < |log| ==> log[i].question < log[j].question)
    && (forall i :: 0 <= i < |log| ==>
          log[i].packet == if log[i].item.Raw? then Some(log[i].item.bytes) else env.build(log[i].question))
  }

  ghost predicate NoErrors(env: Env, offers: seq<Offer>) {
    forall i :: 0 <= i < |offers| ==> !env.socket(offers[i].question).HardError?
  }

  /** The bytes the socket has kept plus those left of the current packet are the kept packets; the items taken plus
      those queued are the items enqueued. */
  ghost predicate Intact(env: Env, c: Conn, enqueued: seq<Item>) {
    && Placed(c) && !c.broken && NoErrors(env, c.offers)
    && Received(env, c.offers) + c.current[c.sent..] == Stream(c.log)
    && ItemsOf(c.log) + c.queue == enqueued && Honest(env, c.log, c.asked)
  }

  /** The last send was answered so. */
  predicate LastSaid(env: Env, c: Conn, outcome: Outcome) {
    c.offers != [] && env.socket(c.offers[|c.offers| - 1].question) == outcome
  }

  /** Write interest is on exactly while a packet is unfinished, then the socket would have blocked, and items wait only
      behind an unfinished packet. */
  predicate AtRest(env: Env, c: Conn) {
    && (c.armed <==> c.current != []) && (c.queue != [] ==> c.current != [])
    && (c.armed ==> LastSaid(env, c, WouldBlock))
  }

  lemma {:induction false} TakeIntact(c: Conn, env: Env, enqueued: seq<Item>)
    requires Intact(env, c, enqueued) && c.current == [] && c.queue != []
    ensures Intact(env, Take(c, env), enqueued)
  {
    var d := Take(c, env);
    assert d.log[..|c.log|] == c.log;
    assert Received(env, c.offers) + [] == Received(env, c.offers);
    assert ItemsOf(d.log) == ItemsOf(c.log) + [c.queue[0]];
    assert c.queue == [c.queue[0]] + c.queue[1..];
    assert d.current[d.sent..] == d.current;
  }

  lemma {:induction false} FillIntact(c: Conn, env: Env, enqueued: seq<Item>)
    requires Intact(env, c, enqueued)
    ensures Intact(env, Fill(c, env), enqueued)
    decreases |c.queue|
  {
    hide Intact, Take;
    if c.current == [] && c.queue != [] {
      TakeIntact(c, env, enqueued);
      TakeShrinks(c, env);
      FillIntact(Take(c, env), env, enqueued);
    }
  }

  lemma {:induction false} TakeShrinks(c: Conn, env: Env)
    requires c.queue != []
    ensures |Take(c, env).queue| == |c.queue| - 1
  {
  }

  /** A send that takes bytes: the record grows by exactly those that count as sent. */
  lemma {:induction false} SendIntact(env: Env, c: Conn, enqueued: seq<Item>)
    requires Intact(env, c, enqueued) && c.current != [] && env.socket(c.asked).Took?
    ensures Intact(env, Advance(Offered(c), Taken(env.socket(c.asked).n, |c.current| - c.sent)), enqueued)
  {
    hide Stream, Received;
    var k := Taken(env.socket(c.asked).n, |c.current| - c.sent);
    var d, unsent := Advance(Offered(c), k), c.current[c.sent..];
    ReceivedMore(env, c.offers, Offer(unsent, c.asked));
    assert Accepted(env.socket(c.asked), unsent) == unsent[..k];
    assert unsent == unsent[..k] + unsent[k..];
    assert d.current[d.sent..] == unsent[k..];
    assert Received(env, d.offers) + d.current[d.sent..] == Received(env, c.offers) + unsent;
  }

  /** A send that takes none leaves the record as it was. */
  lemma {:induction false} RefusedRecord(env: Env, c: Conn)
    requires Placed(c) && !env.socket(c.asked).Took?
    ensures Received(env, Offered(c).offers) == Received(env, c.offers)
  {
    hide Received;
    ReceivedMore(env, c.offers, Offer(c.current[c.sent..], c.asked));
    assert Received(env, c.offers) + [] == Received(env, c.offers);
  }

  lemma {:induction false} BlockedIntact(env: Env, c: Conn, enqueued: seq<Item>)
    requires Intact(env, c, enqueued) && c.current != [] && env.socket(c.asked) == WouldBlock
    ensures var d := Offered(c).(armed := true); Intact(env, d, enqueued) && LastSaid(env, d, WouldBlock)
  {
    hide Stream, Received;
    RefusedRecord(env, c);
  }

  /** After an error, which is the last send's, what the socket kept is a prefix of the kept packets. */
  ghost predicate Cut(env: Env, c: Conn) {
    && Placed(c) && c.broken && Received(env, c.offers) <= Stream(c.log)
    && LastSaid(env, c, HardError) && NoErrors(env, c.offers[..|c.offers| - 1]) && Honest(env, c.log, c.asked)
  }

  lemma {:induction false} FailedCut(env: Env, c: Conn, enqueued: seq<Item>)
    requires Intact(env, c, enqueued) && c.current != [] && env.socket(c.asked) == HardError
    ensures Cut(env, Offered(c).(queue := [], current := [], sent := 0, broken := true))
  {
    hide Stream, Received;
    RefusedRecord(env, c);
    var d := Offered(c);
    assert d.offers[..|d.offers| - 1] == c.offers;
  }

  lemma {:induction false} IntactPlaced(env: Env, c: Conn, enqueued: seq<Item>)
    requires Intact(env, c, enqueued)
    ensures Placed(c) && !c.broken && Received(env, c.offers) <= Stream(c.log)
  {
  }

  lemma {:induction false} RestedIntact(env: Env, c: Conn, enqueued: seq<Item>)
    requires Intact(env, c, enqueued)
    ensures Intact(env, c.(armed := false), enqueued)
  {
  }

  /** A drain keeps the stream and leaves the session at rest, or ends in an error with a clean prefix sent. */
  lemma {:induction false} DrainKeeps(c: Conn, env: Env, enqueued: seq<Item>)
    requires Intact(env, c, enqueued)
    ensures Placed(c)
    ensures var d := Drain(c, env);
            (Intact(env, d, enqueued) && AtRest(env, d)) || Cut(env, d)
    decreases |c.queue|, |c.current| - c.sent
  {
    hide Intact, Fill, Stream, Advance, Received, Cut, LastSaid, Taken;
    IntactPlaced(env, c, enqueued);
    FillPlaced(c, env);
    FillIntact(c, env, enqueued);
    var f := Fill(c, env);
    IntactPlaced(env, f, enqueued);
    if f.current == [] {
      RestedIntact(env, f, enqueued);
    } else {
      match env.socket(f.asked)
      case WouldBlock => BlockedIntact(env, f, enqueued);
      case HardError => FailedCut(env, f, enqueued);
      case Took(n) =>
        var k := Taken(n, |f.current| - f.sent);
        SendIntact(env, f, enqueued);
        AdvanceShrinks(Offered(f), k);
        DrainKeeps(Advance(Offered(f), k), env, enqueued);
    }
  }

  lemma {:induction false} AdvanceShrinks(c: Conn, k: nat)
    requires Placed(c) && c.current != [] && 1 <= k && c.sent + k <= |c.current|
    ensures var d := Advance(c, k);
            Placed(d) && d.queue == c.queue && |d.current| - d.sent < |c.current| - c.sent
  {
  }

  // ----- runs -----

  /** A packet or a PUBLISH is queued and a drain tried, or the socket becomes writable. */
  datatype Step = Enqueue(item: Item) | Writable

  /** Up to a hard error; the drain is defined for the placed states, and runs meet no others. */
  function Apply(c: Conn, env: Env, step: Step): Conn {
    if c.broken || !Placed(c) then c
    else if step.Enqueue? then Drain(c.(queue := c.queue + [step.item]), env)
    else Drain(c, env)
  }

  function Enqueued(steps: seq<Step>): seq<Item> {
    if steps == [] then []
    else
      var n := |steps| - 1;
      Enqueued(steps[..n]) + (if steps[n].Enqueue? then [steps[n].item] else [])
  }

  /** What every run keeps: an intact stream at rest, or a clean prefix after an error. */
  ghost predicate Kept(env: Env, c: Conn, enqueued: seq<Item>) {
    (Intact(env, c, enqueued) && AtRest(env, c)) || Cut(env, c)
  }

  lemma {:induction false} KeptPlaced(env: Env, c: Conn, enqueued: seq<Item>)
    requires Kept(env, c, enqueued)
    ensures Placed(c)
  {
  }

  lemma {:induction false} QueueMore(env: Env, c: Conn, enqueued: seq<Item>, item: Item)
    requires Intact(env, c, enqueued)
    ensures Intact(env, c.(queue := c.queue + [item]), enqueued + [item])
  {
    assert ItemsOf(c.log) + (c.queue + [item]) == (ItemsOf(c.log) + c.queue) + [item];
  }

  lemma {:induction false} ApplyKeeps(c: Conn, env: Env, step: Step, enqueued: seq<Item>)
    requires Kept(env, c, enqueued)
    ensures Kept(env, Apply(c, env, step), enqueued + (if step.Enqueue? then [step.item] else []))
  {
    hide Drain, Intact, Stream;
    KeptPlaced(env, c, enqueued);
    if Intact(env, c, enqueued) { IntactPlaced(env, c, enqueued); }
    if !c.broken {
      if step.Enqueue? {
        QueueMore(env, c, enqueued, step.item);
        DrainKeeps(c.(queue := c.queue + [step.item]), env, enqueued + [step.item]);
      } else {
        assert enqueued + [] == enqueued;
        DrainKeeps(c, env, enqueued);
      }
    }
  }

  function Run(env: Env, steps: seq<Step>): Conn {
    if steps == [] then IDLE else Apply(Run(env, steps[..|steps| - 1]), env, steps[|steps| - 1])
  }

  lemma {:induction false} RunKeeps(env: Env, steps: seq<Step>)
    ensures Kept(env, Run(env, steps), Enqueued(steps))
    decreases |steps|
  {
    hide Apply, Kept;
    if steps == [] {
      IdleKept(env);
    } else {
      var n := |steps| - 1;
      RunKeeps(env, steps[..n]);
      ApplyKeeps(Run(env, steps[..n]), env, steps[n], Enqueued(steps[..n]));
    }
  }

  lemma {:induction false} IdleKept(env: Env)
    ensures Kept(env, IDLE, [])
  {
  }

  /** For every interleaving of enqueues and writable events, with any short writes and would-blocks: what the socket
      has kept is a prefix of the kept packets in order; there is an error exactly if a send failed; and until one
      nothing is lost, reordered or stuck. */
  lemma {:induction false} StreamIntegrity(env: Env, steps: seq<Step>)
    ensures var c := Run(env, steps);
            var received := Received(env, c.offers);
            && received <= Stream(c.log) && Honest(env, c.log, c.asked)
            && (c.broken <==> !NoErrors(env, c.offers))
            && (!c.broken ==>
                  && Placed(c) && received + c.current[c.sent..] == Stream(c.log)
                  && ItemsOf(c.log) + c.queue == Enqueued(steps)
                  && (c.armed <==> c.current != []) && (c.armed ==> LastSaid(env, c, WouldBlock))
                  && (c.queue != [] ==> c.current != [])
                  && (!c.armed ==> received == Stream(c.log) && ItemsOf(c.log) == Enqueued(steps)))
  {
    hide Run, Stream, Honest, ItemsOf, Received;
    var c := Run(env, steps);
    RunKeeps(env, steps);
    if !c.broken && !c.armed {
      assert Received(env, c.offers) + [] == Received(env, c.offers) && ItemsOf(c.log) + [] == ItemsOf(c.log);
    }
  }

  // ----- in place -----

  /** One round of the drain loop. */
  lemma {:induction false} DrainOnce(c: Conn, env: Env)
    requires Placed(c)
    ensures var f := Fill(c, env);
            && Placed(f)
            && (f.current == [] ==> Drain(c, env) == f.(armed := false))
            && (f.current != [] ==>
                  var o := Offered(f);
                  match env.socket(f.asked)
                  case Took(n) =>
                    var d := Advance(o, Taken(n, |f.current| - f.sent));
                    && Placed(d) && Drain(c, env) == Drain(d, env)
                    && (|d.queue| < |c.queue| ||
                        (|d.queue| == |c.queue| && |d.current| - d.sent < |c.current| - c.sent))
                  case WouldBlock => Drain(c, env) == o.(armed := true)
                  case HardError => Drain(c, env) == o.(queue := [], current := [], sent := 0, broken := true))
  {
    hide Fill, Advance;
    FillPlaced(c, env);
    var f := Fill(c, env);
    if f.current != [] && env.socket(f.asked).Took? {
      AdvanceShrinks(Offered(f), Taken(env.socket(f.asked).n, |f.current| - f.sent));
    }
  }

  class ReactorSession {
    const env: Env
    var outQueue: seq<Item>
    var outCurrent: seq<Byte>
    var outSent: nat
    var writeInterestArmed: bool
    var teardownScheduled: bool
    var asked: nat
    ghost var offers: seq<Offer>
    ghost var log: seq<Logged>

    ghost function Value(): Conn
      reads this
    {
      Conn(outQueue, outCurrent, outSent, writeInterestArmed, teardownScheduled, asked, offers, log)
    }

    constructor (env: Env)
      ensures Value() == IDLE && this.env == env
    {
      this.env := env;
      outQueue, outCurrent, outSent, writeInterestArmed, teardownScheduled, asked := [], [], 0, false, false, 0;
      offers, log := [], [];
    }

    /** The inner loop of `try_drain_reactor_send`. */
    method NextPacket()
      requires Placed(Value())
      modifies this
      ensures Value() == Fill(old(Value()), env)
    {
      while outCurrent == [] && outQueue != []
        invariant Placed(Value()) && Fill(Value(), env) == Fill(old(Value()), env)
        decreases |outQueue|
      {
        ghost var before := Value();
        var item := outQueue[0];
        outQueue := outQueue[1..];
        var packet := if item.Raw? then Some(item.bytes) else env.build(asked);
        asked, log := asked + 1, log + [Logged(item, packet, asked)];
        if packet.None? { continue; }
        outCurrent, outSent := packet.value, 0;
      }
    }

    /** `send_some`: the socket's record grows by what it accepted of the bytes, and by nothing else. */
    method SendSome(bytes: seq<Byte>) returns (outcome: Outcome)
      modifies `asked, `offers
      ensures outcome == env.socket(old(asked)) && asked == old(asked) + 1
      ensures offers == old(offers) + [Offer(bytes, old(asked))]
      ensures Received(env, offers) == Received(env, old(offers)) + Accepted(outcome, bytes)
    {
      outcome := env.socket(asked);
      ReceivedMore(env, offers, Offer(bytes, asked));
      asked, offers := asked + 1, offers + [Offer(bytes, asked)];
    }

    /** The unsent bytes of the current packet go to the socket. */
    method OfferRest() returns (outcome: Outcome)
      requires outSent <= |outCurrent|
      modifies `asked, `offers
      ensures Value() == Offered(old(Value())) && outcome == env.socket(old(asked))
    {
      hide Received, Accepted;
      outcome := SendSome(outCurrent[outSent..]);
    }

    /** The socket has taken `k` more bytes of the current packet. */
    method Accept(k: nat)
      requires outSent + k <= |outCurrent|
      modifies `outCurrent, `outSent
      ensures Value() == Advance(old(Value()), k)
    {
      outSent := outSent + k;
      if outSent >= |outCurrent| { outCurrent, outSent := [], 0; }
    }

    /** One round of `try_drain_reactor_send`: is there more to do? */
    method Round() returns (more: bool)
      requires Placed(Value())
      modifies this
      ensures more ==> Placed(Value()) && Drain(Value(), env) == Drain(old(Value()), env)
      ensures more ==> |outQueue| < old(|outQueue|)
                       || (|outQueue| == old(|outQueue|) && |outCurrent| - outSent < old(|outCurrent| - outSent))
      ensures !more ==> Value() == Drain(old(Value()), env)
    {
      hide Fill, Drain, Advance, Received, Accepted, Offered;
      DrainOnce(Value(), env);
      NextPacket();
      if outCurrent == [] {
        writeInterestArmed := false;
        return false;
      }
      var outcome := OfferRest();
      if outcome.Took? {
        var left := |outCurrent| - outSent;
        Accept(if outcome.n < left then outcome.n else left);
        return true;
      }
      if outcome.HardError? {
        outQueue, outCurrent, outSent := [], [], 0;
        teardownScheduled := true;
        return false;
      }
      writeInterestArmed := true;
      more := false;
    }

    method TryDrain()
      requires Placed(Value())
      modifies this
      ensures Value() == Drain(old(Value()), env)
    {
      hide Drain;
      var more := true;
      while more
        invariant more ==> Placed(Value()) && Drain(Value(), env) == Drain(old(Value()), env)
        invariant !more ==> Value() == Drain(old(Value()), env)
        decreases more, |outQueue|, if more then |outCurrent| - outSent else 0
      {
        more := Round();
      }
    }

    /** `send_packet` and `enqueue_reactor_publish`, up to a hard error. */
    method Enqueue(item: Item, ghost enqueued: seq<Item>)
      requires Kept(env, Value(), enqueued) && !teardownScheduled
      modifies this
      ensures Value() == Apply(old(Value()), env, Step.Enqueue(item))
      ensures Kept(env, Value(), enqueued + [item])
    {
      hide Drain;
      KeptPlaced(env, Value(), enqueued);
      ApplyKeeps(Value(), env, Step.Enqueue(item), enqueued);
      outQueue := outQueue + [item];
      TryDrain();
    }

    /** The EPOLLOUT part of `on_reactor_ready`. */
    method OnWritable(ghost enqueued: seq<Item>)
      requires Kept(env, Value(), enqueued) && !teardownScheduled
      modifies this
      ensures Value() == Apply(old(Value()), env, Writable)
      ensures Kept(env, Value(), enqueued)
    {
      hide Drain;
      KeptPlaced(env, Value(), enqueued);
      ApplyKeeps(Value(), env, Writable, enqueued);
      assert enqueued + [] == enqueued;
      TryDrain();
    }
  }
}
