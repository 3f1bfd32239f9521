/** Topic aliases under a session's send queue: packets may be built at once or when they leave the queue, and may be
    dropped for their size after they took an alias (include/aero/broker/native_broker.hpp). */
module AliasQueue {
  import opened Wrappers
  import opened TopicAlias

  /** A queued delivery: a logical PUBLISH, built when it is taken from the queue, or one already built. */
  datatype Queued = Logical(topic: string) | Raw(build: nat)

  /** What happens to a logical PUBLISH when its turn comes. */
  datatype Fate = Kept | TooBig | Expired

  /** `enqueue_reactor_publish`; `publish_to`, which builds at once; the next item leaves the queue. */
  datatype Step = Enqueue(topic: string) | PublishTo(topic: string, fits: bool) | Dequeue(fate: Fate)

  /** Topics in the order in which packets were built for them, and which packets were sent. */
  datatype Session = Session(queue: seq<Queued>, builds: seq<string>, wire: seq<nat>)

  function Apply(s: Session, step: Step): Session {
    match step
    case Enqueue(topic) => s.(queue := s.queue + [Logical(topic)])
    case PublishTo(topic, fits) =>
      Session(if fits then s.queue + [Raw(|s.builds|)] else s.queue, s.builds + [topic], s.wire)
    case Dequeue(fate) =>
      if s.queue == [] then s
      else match s.queue[0]
        case Raw(i) => Session(s.queue[1..], s.builds, s.wire + [i])
        case Logical(topic) =>
          match fate
          case Kept => Session(s.queue[1..], s.builds + [topic], s.wire + [|s.builds|])
          case TooBig => Session(s.queue[1..], s.builds + [topic], s.wire)
          case Expired => s.(queue := s.queue[1..])
  }

  function Run(steps: seq<Step>): Session {
    if steps == [] then Session([], [], [])
    else Apply(Run(steps[..|steps| - 1]), steps[|steps| - 1])
  }

  /** What every run keeps. */
  ghost predicate Queueing(s: Session) {
    && Sends(s.builds, s.wire) && NonEmpty(s.builds)
    && (forall k :: 0 <= k < |s.queue| ==>
          match s.queue[k]
          case Raw(i) => i < |s.builds|
          case Logical(topic) => topic != "")
  }

  ghost predicate Topical(steps: seq<Step>) {
    forall k :: 0 <= k < |steps| ==>
      (steps[k].Enqueue? ==> steps[k].topic != "") && (steps[k].PublishTo? ==> steps[k].topic != "")
  }

  lemma {:induction false} RunQueues(steps: seq<Step>)
    requires Topical(steps)
    ensures Queueing(Run(steps))
    decreases |steps|
  {
    if steps != [] {
      RunQueues(steps[..|steps| - 1]);
      var s, step := Run(steps[..|steps| - 1]), steps[|steps| - 1];
      assert Topical([step]);
      ApplyQueues(s, step);
    }
  }

  lemma {:induction false} ApplyQueues(s: Session, step: Step)
    requires Queueing(s) && Topical([step])
    ensures Queueing(Apply(s, step))
  {
    assert [step][0] == step;
    if step.Dequeue? && s.queue != [] { assert s.queue[0] in s.queue; }
  }

  // ----- what a step builds and sends -----

  /** The topic for which the step builds a packet. */
  function BuildsTopic(s: Session, step: Step): Option<string> {
    match step
    case Enqueue(_) => None
    case PublishTo(topic, _) => Some(topic)
    case Dequeue(fate) =>
      if s.queue != [] && s.queue[0].Logical? && fate != Expired then Some(s.queue[0].topic) else None
  }

  /** The step drops the packet it builds for its size. */
  predicate Drops(s: Session, step: Step) {
    || (step.PublishTo? && !step.fits)
    || (step == Dequeue(TooBig) && s.queue != [] && s.queue[0].Logical?)
  }

  /** The build that the step sends. */
  function Sending(s: Session, step: Step): Option<nat> {
    if !step.Dequeue? || s.queue == [] then None
    else match s.queue[0]
      case Raw(i) => Some(i)
      case Logical(_) => if step.fate == Kept then Some(|s.builds|) else None
  }

  lemma {:induction false} StepEffect(s: Session, step: Step)
    ensures var s' := Apply(s, step);
            && s'.builds == s.builds + (match BuildsTopic(s, step) { case None => [] case Some(t) => [t] })
            && s'.wire == s.wire + (match Sending(s, step) { case None => [] case Some(k) => [k] })
  {
  }

  /** Builds so far stay what they were. */
  lemma {:induction false} PacketStable(builds: seq<string>, t: string, max: nat, i: nat)
    requires i < |builds|
    ensures PacketAt(builds + [t], max, i) == PacketAt(builds, max, i)
    ensures Establishes(builds + [t], max, i) == Establishes(builds, max, i)
    ensures Reuses(builds + [t], max, i) == Reuses(builds, max, i)
  {
    assert (builds + [t])[..i] == builds[..i];
  }

  lemma {:induction false} BeforeStable(builds: seq<string>, t: string, max: nat, wire: seq<nat>, k: nat)
    requires Sends(builds, wire) && k < |wire|
    ensures Sends(builds + [t], wire)
    ensures EstablishedBefore(builds + [t], max, wire, k) <==> EstablishedBefore(builds, max, wire, k)
  {
    hide Establishes;
    forall j | 0 <= j < |wire| ensures Establishes(builds + [t], max, wire[j]) == Establishes(builds, max, wire[j]) {
      PacketStable(builds, t, max, wire[j]);
    }
  }

  lemma {:induction false} OrderStable(builds: seq<string>, t: string, max: nat, wire: seq<nat>)
    requires Sends(builds, wire)
    ensures Sends(builds + [t], wire)
    ensures InOrder(builds + [t], max, wire) <==> InOrder(builds, max, wire)
  {
    hide Establishes, Reuses, EstablishedBefore;
    forall k | 0 <= k < |wire|
      ensures Reuses(builds + [t], max, wire[k]) == Reuses(builds, max, wire[k])
      ensures EstablishedBefore(builds + [t], max, wire, k) <==> EstablishedBefore(builds, max, wire, k)
    {
      PacketStable(builds, t, max, wire[k]);
      BeforeStable(builds, t, max, wire, k);
    }
  }

  /** The step sends a bare alias whose establishing packet has not been sent. */
  ghost predicate SendsUnknown(s: Session, step: Step, max: nat)
    requires Queueing(s)
  {
    var builds := Apply(s, step).builds;
    match Sending(s, step)
    case None => false
    case Some(k) =>
      && k < |builds| && Reuses(builds, max, k)
      && Sends(builds, s.wire) && !Established(builds, max, s.wire, builds[k])
  }

  lemma {:induction false} OrderStep(s: Session, step: Step, max: nat)
    requires Queueing(s) && Topical([step])
    ensures Queueing(Apply(s, step))
    ensures var s' := Apply(s, step);
            InOrder(s'.builds, max, s'.wire) <==> InOrder(s.builds, max, s.wire) && !SendsUnknown(s, step, max)
  {
    hide Apply, InOrder, Reuses, Established, EstablishedBefore, NonEmpty, Topical;
    ApplyQueues(s, step);
    StepEffect(s, step);
    var s' := Apply(s, step);
    if BuildsTopic(s, step).Some? {
      OrderStable(s.builds, BuildsTopic(s, step).value, max, s.wire);
    } else {
      assert s.builds + [] == s.builds;
    }
    if Sending(s, step).Some? {
      var k := Sending(s, step).value;
      assert s'.wire == s.wire + [k] && s'.wire[|s.wire|] == k;
      OrderLast(s'.builds, max, s.wire, k);
      EstablishedSame(s'.builds, max, s.wire, k);
    } else {
      assert s.wire + [] == s.wire;
    }
  }

  lemma {:induction false} OrderOfRun(steps: seq<Step>, max: nat)
    requires Topical(steps)
    ensures Queueing(Run(steps)) && Prefixes(steps)
    ensures InOrder(Run(steps).builds, max, Run(steps).wire) <==>
            forall j :: 0 <= j < |steps| ==> !SendsUnknown(Run(steps[..j]), steps[j], max)
    decreases |steps|
  {
    hide Run, InOrder, SendsUnknown, Queueing, Topical, Apply;
    PrefixesQueue(steps);
    RunQueues(steps);
    if steps == [] {
      NothingSent(max);
    } else {
      var n := |steps| - 1;
      var before := steps[..n];
      TopicalParts(steps);
      OrderOfRun(before, max);
      RunLast(steps);
      OrderStep(Run(before), steps[n], max);
      assert forall j :: 0 <= j < n ==> before[..j] == steps[..j] && before[j] == steps[j];
    }
  }

  ghost predicate Prefixes(steps: seq<Step>) {
    forall j :: 0 <= j < |steps| ==> Queueing(Run(steps[..j]))
  }

  lemma {:induction false} PrefixesQueue(steps: seq<Step>)
    requires Topical(steps)
    ensures Prefixes(steps)
  {
    forall j | 0 <= j < |steps| ensures Queueing(Run(steps[..j])) { RunQueues(steps[..j]); }
  }

  lemma {:induction false} TopicalParts(steps: seq<Step>)
    requires Topical(steps) && steps != []
    ensures Topical(steps[..|steps| - 1]) && Topical([steps[|steps| - 1]])
  {
  }

  lemma {:induction false} RunLast(steps: seq<Step>)
    requires steps != []
    ensures Run(steps) == Apply(Run(steps[..|steps| - 1]), steps[|steps| - 1])
  {
  }

  lemma {:induction false} NothingSent(max: nat)
    ensures Run([]) == Session([], [], []) && Sends([], []) && InOrder([], max, [])
  {
  }

  // ----- where a build is -----

  /** A built packet waits in the queue once, unsent, in build order. */
  ghost predicate Tidy(s: Session) {
    && (forall k :: 0 <= k < |s.queue| && s.queue[k].Raw? ==>
          s.queue[k].build < |s.builds| && s.queue[k].build !in s.wire)
    && (forall k :: 0 <= k < |s.wire| ==> s.wire[k] < |s.builds|)
    && (forall j, k :: 0 <= j < k < |s.queue| && s.queue[j].Raw? && s.queue[k].Raw? ==>
          s.queue[j].build < s.queue[k].build)
  }

  lemma {:induction false} ApplyTidy(s: Session, step: Step)
    requires Tidy(s)
    ensures Tidy(Apply(s, step))
  {
    var s' := Apply(s, step);
    if step.Dequeue? && s.queue != [] {
      forall j | 0 <= j < |s'.queue| ensures s'.queue[j] == s.queue[j + 1] {}
    }
  }

  lemma {:induction false} RunTidy(steps: seq<Step>)
    ensures Tidy(Run(steps))
    decreases |steps|
  {
    hide Apply, Tidy;
    if steps != [] {
      RunTidy(steps[..|steps| - 1]);
      ApplyTidy(Run(steps[..|steps| - 1]), steps[|steps| - 1]);
    } else {
      EmptyTidy();
    }
  }

  lemma {:induction false} EmptyTidy()
    ensures Tidy(Session([], [], []))
  {
  }

  predicate Waits(s: Session, e: nat) {
    Raw(e) in s.queue
  }

  /** Step `i` builds packet `e`. */
  ghost predicate Made(steps: seq<Step>, i: nat, e: nat) {
    i < |steps| && |Run(steps[..i]).builds| == e && BuildsTopic(Run(steps[..i]), steps[i]).Some?
  }

  /** What became of packet `e`, built at step `i`: sent, waiting since a `publish_to`, or dropped at once. */
  ghost predicate Whereabouts(steps: seq<Step>, i: nat, e: nat)
    requires Made(steps, i, e)
  {
    var s := Run(steps);
    && e < |s.builds| && Some(s.builds[e]) == BuildsTopic(Run(steps[..i]), steps[i])
    && if Drops(Run(steps[..i]), steps[i]) then e !in s.wire && !Waits(s, e)
       else e in s.wire || (Waits(s, e) && steps[i].PublishTo?)
  }

  lemma {:induction false} MadeStep(s: Session, step: Step, e: nat)
    requires Tidy(s) && e < |s.builds|
    ensures var s' := Apply(s, step);
            && e < |s'.builds| && s'.builds[e] == s.builds[e]
            && ((e in s'.wire || Waits(s', e)) <==> (e in s.wire || Waits(s, e)))
            && (e in s.wire ==> e in s'.wire) && (Waits(s', e) ==> Waits(s, e))
  {
    if step.Dequeue? && s.queue != [] {
      assert s.queue == [s.queue[0]] + s.queue[1..];
    }
  }

  lemma {:induction false} MadeNow(s: Session, step: Step)
    requires Tidy(s) && BuildsTopic(s, step).Some?
    ensures var s', e := Apply(s, step), |s.builds|;
            && e < |s'.builds| && Some(s'.builds[e]) == BuildsTopic(s, step)
            && (if Drops(s, step) then e !in s'.wire && !Waits(s', e)
                else e in s'.wire || (Waits(s', e) && step.PublishTo?))
  {
    if step.PublishTo? && step.fits { assert (s.queue + [Raw(|s.builds|)])[|s.queue|] == Raw(|s.builds|); }
    if step.Dequeue? { assert forall q :: q in s.queue[1..] ==> q in s.queue; }
    if step == Dequeue(Kept) { assert (s.wire + [|s.builds|])[|s.wire|] == |s.builds|; }
  }

  lemma {:induction false} MadeIsSomewhere(steps: seq<Step>, i: nat, e: nat)
    requires Made(steps, i, e)
    ensures Whereabouts(steps, i, e)
    decreases |steps|
  {
    hide Run, Tidy, Apply, BuildsTopic, Drops, Waits;
    var n := |steps| - 1;
    var before := steps[..n];
    RunLast(steps);
    RunTidy(before);
    if i == n {
      MadeNow(Run(before), steps[n]);
    } else {
      assert before[..i] == steps[..i];
      assert Made(before, i, e);
      MadeIsSomewhere(before, i, e);
      MadeStep(Run(before), steps[n], e);
    }
  }

  /** Every build was made at some step. */
  lemma {:induction false} WasMade(steps: seq<Step>, e: nat) returns (i: nat)
    requires e < |Run(steps).builds|
    ensures Made(steps, i, e)
    decreases |steps|
  {
    hide Apply, BuildsTopic;
    var n := |steps| - 1;
    var before := steps[..n];
    StepEffect(Run(before), steps[n]);
    if e < |Run(before).builds| {
      i := WasMade(before, e);
      assert before[..i] == steps[..i];
    } else {
      i := n;
    }
  }

  // ----- who breaks an alias -----

  lemma {:induction false} SizeGrows(topics: seq<string>, max: nat, i: nat)
    requires i <= |topics|
    ensures |TableAfter(topics[..i], max)| <= |TableAfter(topics, max)|
    decreases |topics|
  {
    if i < |topics| {
      var n := |topics| - 1;
      assert topics[..n][..i] == topics[..i];
      SizeGrows(topics[..n], max, i);
    } else {
      assert topics[..i] == topics;
    }
  }

  /** A topic's first packet is the one that establishes its alias. */
  lemma {:induction false} FirstEstablishes(topics: seq<string>, max: nat, k: nat, e: nat)
    requires k < |topics| && Establishes(topics, max, e) && topics[k] == topics[e]
    ensures e <= k
  {
    if k < e {
      var t, upTo := topics[k], topics[..e];
      hide TableAfter;
      assert upTo[..k + 1] == topics[..k + 1] && upTo[..k] == topics[..k];
      Unfold(topics, max, k);
      if t in TableAfter(topics[..k + 1], max) { TableGrows(upTo, max, k + 1, t); }
      SizeGrows(upTo, max, k);
      assert false;
    }
  }

  /** Later packets of the topic carry the bare alias. */
  lemma {:induction false} LaterReuse(topics: seq<string>, max: nat, k: nat, e: nat)
    requires k < |topics| && Establishes(topics, max, e) && topics[k] == topics[e] && k != e
    ensures Reuses(topics, max, k)
  {
    FirstEstablishes(topics, max, k, e);
    hide TableAfter;
    assert topics[..k][..e + 1] == topics[..e + 1] && topics[..k][..e] == topics[..e];
    Unfold(topics, max, e);
    TableGrows(topics[..k], max, e + 1, topics[k]);
  }

  /** The step gives `t` its alias. */
  ghost predicate Gives(s: Session, step: Step, max: nat, t: string) {
    BuildsTopic(s, step) == Some(t) && t !in TableAfter(s.builds, max) && |TableAfter(s.builds, max)| < max
  }

  /** The topic of the packet that the step sends. */
  function SendsTopic(s: Session, step: Step): Option<string> {
    match Sending(s, step)
    case None => None
    case Some(k) => if k < |Apply(s, step).builds| then Some(Apply(s, step).builds[k]) else None
  }

  /** Step `j` sends a packet of a topic whose alias step `i` gave, and either step `i` dropped its packet for its size,
      or step `i` was a `publish_to` whose packet still waits behind the queued PUBLISH of that topic sent now. */
  ghost predicate Breaks(steps: seq<Step>, max: nat, i: nat, j: nat) {
    && i < j < |steps|
    && var s, u := Run(steps[..i]), Run(steps[..j]);
       && SendsTopic(u, steps[j]).Some? && Gives(s, steps[i], max, SendsTopic(u, steps[j]).value)
       && (Drops(s, steps[i]) || (steps[i].PublishTo? && u.queue[0].Logical? && Waits(u, |s.builds|)))
  }

  lemma {:induction false} GivesEstablishes(s: Session, step: Step, max: nat, builds: seq<string>)
    requires BuildsTopic(s, step).Some? && s.builds + [BuildsTopic(s, step).value] <= builds
    requires BuildsTopic(s, step).value != ""
    ensures Gives(s, step, max, BuildsTopic(s, step).value) <==> Establishes(builds, max, |s.builds|)
  {
    assert builds[..|s.builds|] == s.builds;
  }

  /** The builds up to a step, and the one it makes, are a prefix of all later builds. */
  lemma {:induction false} BuildsPrefix(steps: seq<Step>, i: nat)
    requires i < |steps|
    ensures Run(steps[..i + 1]).builds <= Run(steps).builds
    decreases |steps|
  {
    hide Apply;
    var n := |steps| - 1;
    if i < n {
      assert steps[..n][..i + 1] == steps[..i + 1];
      BuildsPrefix(steps[..n], i);
      StepEffect(Run(steps[..n]), steps[n]);
    } else {
      assert steps[..i + 1] == steps;
    }
  }

  lemma {:induction false} MadePrefix(steps: seq<Step>, i: nat, e: nat)
    requires Made(steps, i, e)
    ensures Run(steps[..i]).builds + [BuildsTopic(Run(steps[..i]), steps[i]).value] <= Run(steps).builds
  {
    hide Apply, Run, BuildsTopic;
    BuildsPrefix(steps, i);
    assert steps[..i + 1][..i] == steps[..i];
    RunLast(steps[..i + 1]);
    StepEffect(Run(steps[..i]), steps[i]);
  }

  lemma {:induction false} UnknownIsBroken(steps: seq<Step>, max: nat, j: nat) returns (i: nat)
    requires Topical(steps) && j < |steps| && Queueing(Run(steps[..j])) && SendsUnknown(Run(steps[..j]), steps[j], max)
    ensures Breaks(steps, max, i, j)
  {
    hide Run, TableAfter, PacketAt, Topical;
    var before := steps[..j];
    var u, k := Run(before), Sending(Run(before), steps[j]).value;
    StepEffect(u, steps[j]);
    var builds := Apply(u, steps[j]).builds;
    RunTidy(before);
    SentTopicNonEmpty(steps, j);
    ReuseHasEstablisher(builds, max, k);
    var e: nat :| e < k && Establishes(builds, max, e) && builds[e] == builds[k];
    assert e < |u.builds|;
    i := WasMade(before, e);
    MadeIsSomewhere(before, i, e);
    MadePrefix(before, i, e);
    assert before[..i] == steps[..i] && before[i] == steps[i];
    GivesEstablishes(Run(steps[..i]), steps[i], max, builds);
    NotOnWire(builds, max, u.wire, e);
    BehindLogical(u, steps[j], e);
  }

  lemma {:induction false} NotOnWire(builds: seq<string>, max: nat, wire: seq<nat>, e: nat)
    requires Sends(builds, wire) && Establishes(builds, max, e) && !Established(builds, max, wire, builds[e])
    ensures e !in wire
  {
    hide Establishes;
  }

  /** A packet built earlier than the one sent waits only behind a logical PUBLISH. */
  lemma {:induction false} BehindLogical(u: Session, step: Step, e: nat)
    requires Tidy(u) && Sending(u, step).Some? && e < Sending(u, step).value
    ensures Waits(u, e) ==> u.queue[0].Logical?
  {
    if Waits(u, e) {
      var m :| 0 <= m < |u.queue| && u.queue[m] == Raw(e);
    }
  }

  lemma {:induction false} SentTopicNonEmpty(steps: seq<Step>, j: nat)
    requires Topical(steps) && j < |steps|
    ensures Queueing(Run(steps[..j])) && Queueing(Apply(Run(steps[..j]), steps[j]))
  {
    RunQueues(steps[..j]);
    ApplyQueues(Run(steps[..j]), steps[j]);
  }

  lemma {:induction false} ReuseHasEstablisher(builds: seq<string>, max: nat, k: nat)
    requires NonEmpty(builds) && Reuses(builds, max, k)
    ensures exists e: nat :: e < k && Establishes(builds, max, e) && builds[e] == builds[k]
  {
    hide TableAfter;
    var before := builds[..k];
    WasEstablished(before, max, builds[k]);
    var e: nat :| Establishes(before, max, e) && before[e] == builds[k];
    assert before[..e] == builds[..e];
    assert Establishes(builds, max, e);
  }

  lemma {:induction false} BrokenIsUnknown(steps: seq<Step>, max: nat, i: nat, j: nat)
    requires Topical(steps) && Breaks(steps, max, i, j)
    ensures Queueing(Run(steps[..j])) && SendsUnknown(Run(steps[..j]), steps[j], max)
  {
    hide Run, TableAfter, Topical, PacketAt;
    var before := steps[..j];
    var u, k := Run(before), Sending(Run(before), steps[j]).value;
    var builds, e := Apply(u, steps[j]).builds, |Run(steps[..i]).builds|;
    SentTopicNonEmpty(steps, j);
    StepEffect(u, steps[j]);
    RunTidy(before);
    assert before[..i] == steps[..i] && before[i] == steps[i];
    assert Made(before, i, e);
    MadeIsSomewhere(before, i, e);
    MadePrefix(before, i, e);
    GivesEstablishes(Run(steps[..i]), steps[i], max, builds);
    assert e !in u.wire && k != e;
    LaterReuse(builds, max, k, e);
    OnlyEstablisher(builds, max, u.wire, e);
  }

  lemma {:induction false} OnlyEstablisher(builds: seq<string>, max: nat, wire: seq<nat>, e: nat)
    requires Sends(builds, wire) && Establishes(builds, max, e) && e !in wire
    ensures !Established(builds, max, wire, builds[e])
  {
    hide Establishes;
    InBuilds(builds, max, e);
    forall j | 0 <= j < |wire| && Establishes(builds, max, wire[j]) && builds[wire[j]] == builds[e]
      ensures wire[j] == e
    {
      FirstEstablishes(builds, max, wire[j], e);
      FirstEstablishes(builds, max, e, wire[j]);
    }
  }

  lemma {:induction false} InBuilds(builds: seq<string>, max: nat, e: nat)
    requires Establishes(builds, max, e)
    ensures e < |builds|
  {
  }

  /** For every run: the client recovers all topics sent, in order, exactly when no step breaks an alias that an earlier
      step gave. */
  lemma {:induction false} RunRecoversExactly(steps: seq<Step>, max: nat)
    requires Topical(steps) && max <= ALIAS_MAX
    ensures var s := Run(steps);
            && Sends(s.builds, s.wire)
            && var r := Replay(s.builds, max, s.wire);
               && (r.Some? <==> forall i: nat, j: nat :: !Breaks(steps, max, i, j))
               && (r.Some? ==> r.value.1 == Sent(s.builds, s.wire))
  {
    hide Run, Replay, InOrder, Breaks, SendsUnknown, Topical;
    OrderOfRun(steps, max);
    RecoversExactly(Run(steps).builds, max, Run(steps).wire);
    forall i: nat, j: nat | Breaks(steps, max, i, j)
      ensures j < |steps| && SendsUnknown(Run(steps[..j]), steps[j], max)
    {
      BreaksInRange(steps, max, i, j);
      BrokenIsUnknown(steps, max, i, j);
    }
    forall j: nat | j < |steps| && SendsUnknown(Run(steps[..j]), steps[j], max)
      ensures exists i: nat :: Breaks(steps, max, i, j)
    {
      var i := UnknownIsBroken(steps, max, j);
    }
  }

  lemma {:induction false} BreaksInRange(steps: seq<Step>, max: nat, i: nat, j: nat)
    requires Breaks(steps, max, i, j)
    ensures i < j < |steps|
  {
  }

  /** Fan-out only, and nothing too big. */
  ghost predicate FanOut(steps: seq<Step>) {
    forall k :: 0 <= k < |steps| ==> !steps[k].PublishTo? && steps[k] != Dequeue(TooBig)
  }

  lemma {:induction false} FanOutInBuildOrder(steps: seq<Step>)
    requires FanOut(steps)
    ensures var s := Run(steps);
            s.wire == FirstOnes(|s.builds|) && forall k :: 0 <= k < |s.queue| ==> s.queue[k].Logical?
    decreases |steps|
  {
    if steps != [] {
      FanOutInBuildOrder(steps[..|steps| - 1]);
      var s, s' := Run(steps[..|steps| - 1]), Run(steps);
      assert !steps[|steps| - 1].PublishTo?;
      if |s'.wire| > |s.wire| {
        assert FirstOnes(|s.builds| + 1) == FirstOnes(|s.builds|) + [|s.builds|];
      }
    }
  }

  /** So fan-out deliveries always arrive with their topics. */
  lemma {:induction false} FanOutRoundTrip(steps: seq<Step>, max: nat)
    requires Topical(steps) && FanOut(steps) && max <= ALIAS_MAX
    ensures var s := Run(steps);
            && Sends(s.builds, s.wire) && Replay(s.builds, max, s.wire).Some?
            && Replay(s.builds, max, s.wire).value.1 == s.builds
  {
    hide Run, Replay;
    RunQueues(steps);
    FanOutInBuildOrder(steps);
    RoundTrip(Run(steps).builds, max);
  }

  /** A packet dropped for its size after it took an alias leaves the client without the mapping. */
  lemma {:induction false} SizeDropLosesAlias()
    ensures var s := Run([Enqueue("a"), Enqueue("a"), Dequeue(TooBig), Dequeue(Kept)]);
            s.builds == ["a", "a"] && s.wire == [1] && Reuses(s.builds, 1, 1)
            && Sends(s.builds, s.wire) && Replay(s.builds, 1, s.wire).None?
  {
    var s1 := Apply(Run([]), Enqueue("a"));
    var s2 := Apply(s1, Enqueue("a"));
    var s3 := Apply(s2, Dequeue(TooBig));
    var s4 := Apply(s3, Dequeue(Kept));
    RunFour(Enqueue("a"), Enqueue("a"), Dequeue(TooBig), Dequeue(Kept));
    assert s4 == Session([], ["a", "a"], [1]);
    BareSecond();
    BareAlone();
  }

  lemma {:induction false} RunFour(a: Step, b: Step, c: Step, d: Step)
    ensures Run([a, b, c, d]) == Apply(Apply(Apply(Apply(Session([], [], []), a), b), c), d)
  {
    hide Apply;
    assert [a][..0] == [] && [a, b][..1] == [a] && [a, b, c][..2] == [a, b] && [a, b, c, d][..3] == [a, b, c];
    assert Run([]) == Session([], [], []);
    assert Run([a]) == Apply(Run([]), a);
    assert Run([a, b]) == Apply(Run([a]), b);
    assert Run([a, b, c]) == Apply(Run([a, b]), c);
  }

  lemma {:induction false} BareSecond()
    ensures PacketAt(["a", "a"], 1, 1) == Packet("", Some(1)) && PacketAt(["a", "a"], 1, 0) == Packet("a", Some(1))
  {
    assert ["a", "a"][..1] == ["a"] && ["a"][..0] == [] && ["a", "a"][..0] == [];
    assert TableAfter([], 1) == map[];
    assert TableAfter(["a"], 1) == map["a" := 1];
  }

  lemma {:induction false} BareAlone()
    ensures Sends(["a", "a"], [1]) && Replay(["a", "a"], 1, [1]).None?
  {
    BareSecond();
    hide PacketAt;
    assert [1][..0] == [];
    assert Replay(["a", "a"], 1, []) == Some((map[], []));
  }

  /** A replayed PUBLISH that is built at once can be overtaken by a queued one that then reuses its alias. */
  lemma {:induction false} OvertakingLosesAlias()
    ensures var s := Run([Enqueue("a"), PublishTo("a", true), Dequeue(Kept), Dequeue(Kept)]);
            s.builds == ["a", "a"] && s.wire == [1, 0] && Sends(s.builds, s.wire) && Replay(s.builds, 1, s.wire).None?
  {
    var s1 := Apply(Run([]), Enqueue("a"));
    var s2 := Apply(s1, PublishTo("a", true));
    var s3 := Apply(s2, Dequeue(Kept));
    var s4 := Apply(s3, Dequeue(Kept));
    RunFour(Enqueue("a"), PublishTo("a", true), Dequeue(Kept), Dequeue(Kept));
    assert s4 == Session([], ["a", "a"], [1, 0]);
    BareAlone();
    assert [1, 0][..1] == [1];
  }
}
