/** The durable MES outbox across crashes: `Outbox::stage` and `drain` (include/aero/mes/outbox.hpp) over
    `DurableState::checkpoint` and `recover` (include/aero/core/persistent_actor.hpp). */
module Outbox {
  import opened Wrappers
  import opened OutboxKeys

  /** What a caller hands in; an empty key asks for a generated one. */
  datatype Report = Report(kind: Kind, line: string, metric: string, value: real, key: string)

  datatype Entry = Entry(report: Report, number: nat)

  datatype OutboxState = OutboxState(nextSeq: nat, pending: seq<Entry>)

  datatype MesResult = Delivered | Retry | Rejected

  ghost predicate Generated(e: Entry) {
    e.report.key == MakeKey(e.report.line, e.report.kind, e.number)
  }

  ghost predicate SameGeneratedKey(a: Entry, b: Entry) {
    Generated(a) && Generated(b) && a.report.key == b.report.key
  }

  /** The entry made of a report under a number. */
  function EntryOf(r: Report, number: nat): (e: Entry)
    ensures e.number == number && e.report == r.(key := e.report.key)
    ensures if r.key == "" then Generated(e) else e.report.key == r.key
  {
    Entry(if r.key == "" then r.(key := MakeKey(r.line, r.kind, number)) else r, number)
  }

  /** The entry staged for `r` under the next number. */
  function EntryFor(st: OutboxState, r: Report): Entry {
    EntryOf(r, st.nextSeq + 1)
  }

  /** The report `r` brings a key of its own, and it is the key that `s` gets under number `n`. */
  predicate Anticipates(r: Report, s: Report, n: nat) {
    r.key != "" && r.key == (if s.key == "" then MakeKey(s.line, s.kind, n) else s.key)
  }

  /** Two reports under different numbers end up with one key exactly when the caller of one supplied the other's. */
  lemma {:induction false} SharedKeyExactly(r: Report, n: nat, s: Report, m: nat)
    requires n != m
    ensures EntryOf(r, n).report.key == EntryOf(s, m).report.key <==> Anticipates(r, s, m) || Anticipates(s, r, n)
  {
    if r.key == "" && s.key == "" && MakeKey(r.line, r.kind, n) == MakeKey(s.line, s.kind, m) {
      KeysInjective(r.line, r.kind, n, s.line, s.kind, m);
      assert false;
    }
  }

  function Staged(st: OutboxState, r: Report): OutboxState {
    OutboxState(st.nextSeq + 1, st.pending + [EntryFor(st, r)])
  }

  // ----- the steps between which a crash may come -----

  /** Where the actor is: not running; between calls or rounds; an entry appended but not yet durable; durable but
      not yet returned; sent but not yet answered; answered but not yet dropped; dropped but not yet durably. */
  datatype Phase =
    | Down | Idle | Unsaved(e: Entry) | Saved(e: Entry) | Waiting(e: Entry) | Answered(e: Entry) | Dropped(e: Entry)

  /** In memory, on the store, and what has happened: entries whose `stage` returned, entries sent, entries the MES
      answered with Delivered or Rejected, and the report last staged under each number. */
  datatype Machine = Machine(
    phase: Phase, mem: OutboxState, disk: OutboxState,
    returned: seq<Entry>, sent: seq<Entry>, answered: seq<Entry>, asked: map<nat, Report>)

  datatype Step =
    | Append(r: Report) | SaveStaged | Return | Send | Answer(res: MesResult) | Drop | SaveDropped | Crash | Recover

  predicate Enabled(m: Machine, step: Step) {
    match step
    case Append(_) => m.phase == Idle
    case SaveStaged => m.phase.Unsaved?
    case Return => m.phase.Saved?
    case Send => m.phase == Idle && m.mem.pending != []
    case Answer(_) => m.phase.Waiting?
    case Drop => m.phase.Answered? && m.mem.pending != []
    case SaveDropped => m.phase.Dropped?
    case Crash => true
    case Recover => m.phase == Down
  }

  function Apply(m: Machine, step: Step): Machine
    requires Enabled(m, step)
  {
    match step
    case Append(r) =>
      m.(mem := Staged(m.mem, r), phase := Unsaved(EntryFor(m.mem, r)), asked := m.asked[m.mem.nextSeq + 1 := r])
    case SaveStaged => m.(disk := m.mem, phase := Saved(m.phase.e))
    case Return => m.(returned := m.returned + [m.phase.e], phase := Idle)
    case Send => m.(sent := m.sent + [m.mem.pending[0]], phase := Waiting(m.mem.pending[0]))
    case Answer(res) =>
      if res == Retry then m.(phase := Idle) else m.(answered := m.answered + [m.phase.e], phase := Answered(m.phase.e))
    case Drop => m.(mem := m.mem.(pending := m.mem.pending[1..]), phase := Dropped(m.phase.e))
    case SaveDropped => m.(disk := m.mem, phase := Idle)
    case Crash => m.(mem := OutboxState(0, []), phase := Down)
    case Recover => m.(mem := m.disk, phase := Idle)
  }

  const START: Machine := Machine(Idle, OutboxState(0, []), OutboxState(0, []), [], [], [], map[])

  // ----- what every step keeps -----

  /** Pending entries are in order and numbered up to `nextSeq`. */
  ghost predicate Ordered(st: OutboxState) {
    && (forall i, j :: 0 <= i < j < |st.pending| ==> st.pending[i].number < st.pending[j].number)
    && (forall i :: 0 <= i < |st.pending| ==> st.pending[i].number <= st.nextSeq)
  }

  /** How memory and store differ at each point. */
  ghost predicate InPhase(m: Machine) {
    match m.phase
    case Down => true
    case Idle => m.mem == m.disk
    case Unsaved(e) => m.mem == OutboxState(m.disk.nextSeq + 1, m.disk.pending + [e]) && e.number == m.disk.nextSeq + 1
    case Saved(e) => m.mem == m.disk && e in m.disk.pending
    case Waiting(e) => m.mem == m.disk && m.disk.pending != [] && e == m.disk.pending[0] && e in m.sent
    case Answered(e) => m.mem == m.disk && m.disk.pending != [] && e == m.disk.pending[0] && e in m.answered
    case Dropped(e) =>
      && m.disk.pending != [] && m.mem == m.disk.(pending := m.disk.pending[1..])
      && e == m.disk.pending[0] && e in m.answered
  }

  /** A sent entry is numbered no higher than what is durable and no higher than anything pending; equal numbers mean
      the same entry. */
  ghost predicate SentBefore(disk: OutboxState, s: Entry) {
    && s.number <= disk.nextSeq
    && (forall i :: 0 <= i < |disk.pending| ==>
          s.number <= disk.pending[i].number && (s.number == disk.pending[i].number ==> s == disk.pending[i]))
  }

  ghost predicate SentInOrder(sent: seq<Entry>) {
    forall i, j :: 0 <= i < j < |sent| ==>
      sent[i].number <= sent[j].number && (sent[i].number == sent[j].number ==> sent[i] == sent[j])
  }

  ghost predicate Kept(m: Machine) {
    forall k :: 0 <= k < |m.returned| ==> m.returned[k] in m.answered || m.returned[k] in m.disk.pending
  }

  ghost predicate Holds(entries: seq<Entry>, n: nat) {
    exists k :: 0 <= k < |entries| && entries[k].number == n
  }

  /** Every number made durable belongs to an answered or a pending entry; only sent entries are answered. */
  ghost predicate Accounted(m: Machine) {
    && (forall n :: 1 <= n <= m.disk.nextSeq ==> Holds(m.answered, n) || Holds(m.disk.pending, n))
    && (forall k :: 0 <= k < |m.answered| ==> m.answered[k] in m.sent)
  }

  ghost predicate Asked(asked: map<nat, Report>, e: Entry) {
    e.number in asked && e == EntryOf(asked[e.number], e.number)
  }

  /** Every entry about, pending or sent is the one its caller asked for. */
  ghost predicate AsAsked(m: Machine) {
    && (forall k :: 0 <= k < |m.disk.pending| ==> Asked(m.asked, m.disk.pending[k]))
    && (forall k :: 0 <= k < |m.sent| ==> Asked(m.asked, m.sent[k]))
    && (m.phase.Unsaved? ==> Asked(m.asked, m.phase.e))
  }

  ghost predicate Safe(m: Machine) {
    && Ordered(m.disk) && InPhase(m) && Kept(m) && Accounted(m) && AsAsked(m)
    && (forall k :: 0 <= k < |m.sent| ==> SentBefore(m.disk, m.sent[k]))
    && SentInOrder(m.sent)
  }

  lemma {:induction false} HoldsMore(a: seq<Entry>, e: Entry, n: nat)
    ensures Holds(a + [e], n) <==> Holds(a, n) || e.number == n
  {
    assert (a + [e])[|a|] == e;
    if Holds(a, n) {
      var k :| 0 <= k < |a| && a[k].number == n;
      assert (a + [e])[k] == a[k];
    }
  }

  lemma {:induction false} HoldsLess(p: seq<Entry>, answered: seq<Entry>, n: nat)
    requires p != [] && p[0] in answered && Holds(p, n)
    ensures Holds(answered, n) || Holds(p[1..], n)
  {
    var k :| 0 <= k < |p| && p[k].number == n;
    if k > 0 { assert p[1..][k - 1] == p[k]; }
  }

  lemma {:induction false} SaveStagedSafe(m: Machine)
    requires Safe(m) && m.phase.Unsaved?
    ensures Safe(Apply(m, SaveStaged))
  {
    var m' := Apply(m, SaveStaged);
    var n := |m.disk.pending|;
    assert m'.disk.pending[n] == m.phase.e;
    assert m'.disk.pending == m.disk.pending + [m.phase.e];
    forall n | 1 <= n <= m'.disk.nextSeq ensures Holds(m'.answered, n) || Holds(m'.disk.pending, n) {
      HoldsMore(m.disk.pending, m.phase.e, n);
    }
    forall k | 0 <= k < |m.sent| ensures SentBefore(m'.disk, m.sent[k]) {
      assert SentBefore(m.disk, m.sent[k]);
    }
  }

  lemma {:induction false} SendSafe(m: Machine)
    requires Safe(m) && Enabled(m, Send)
    ensures Safe(Apply(m, Send))
  {
    var m', e := Apply(m, Send), m.mem.pending[0];
    assert SentBefore(m.disk, e);
    assert m'.sent[|m.sent|] == e;
    forall k | 0 <= k < |m'.sent| ensures SentBefore(m'.disk, m'.sent[k]) {
      assert k < |m.sent| ==> m'.sent[k] == m.sent[k] && SentBefore(m.disk, m.sent[k]);
    }
    forall i, j | 0 <= i < j < |m'.sent|
      ensures m'.sent[i].number <= m'.sent[j].number
      ensures m'.sent[i].number == m'.sent[j].number ==> m'.sent[i] == m'.sent[j]
    {
      assert m'.sent[i] == m.sent[i] && SentBefore(m.disk, m.sent[i]);
    }
  }

  lemma {:induction false} SaveDroppedSafe(m: Machine)
    requires Safe(m) && m.phase.Dropped?
    ensures Safe(Apply(m, SaveDropped))
  {
    var m' := Apply(m, SaveDropped);
    var p := m.disk.pending;
    assert p == [p[0]] + p[1..];
    forall n | 1 <= n <= m'.disk.nextSeq ensures Holds(m'.answered, n) || Holds(m'.disk.pending, n) {
      if Holds(p, n) { HoldsLess(p, m.answered, n); }
    }
    forall k | 0 <= k < |m.returned| ensures m'.returned[k] in m'.answered || m'.returned[k] in m'.disk.pending {
    }
    forall k | 0 <= k < |m.sent| ensures SentBefore(m'.disk, m.sent[k]) {
      assert SentBefore(m.disk, m.sent[k]);
    }
  }

  /** A number may be used again after a crash, but only if no entry under it was durable. */
  lemma {:induction false} AppendSafe(m: Machine, r: Report)
    requires Safe(m) && m.phase == Idle
    ensures Safe(Apply(m, Append(r)))
  {
    var m' := Apply(m, Append(r));
    forall k | 0 <= k < |m'.sent| ensures Asked(m'.asked, m'.sent[k]) {
      assert SentBefore(m.disk, m.sent[k]) && Asked(m.asked, m.sent[k]);
    }
    forall k | 0 <= k < |m'.disk.pending| ensures Asked(m'.asked, m'.disk.pending[k]) {
      assert Asked(m.asked, m.disk.pending[k]);
    }
  }

  lemma {:induction false} StepSafe(m: Machine, step: Step)
    requires Safe(m) && Enabled(m, step)
    ensures Safe(Apply(m, step))
  {
    match step
    case SaveStaged => SaveStagedSafe(m);
    case Send => SendSafe(m);
    case SaveDropped => SaveDroppedSafe(m);
    case Append(r) => AppendSafe(m, r);
    case Return =>
    case Answer(res) =>
      forall n | 1 <= n <= m.disk.nextSeq ensures Holds(Apply(m, step).answered, n) || Holds(m.disk.pending, n) {
        if res != Retry { HoldsMore(m.answered, m.phase.e, n); }
      }
    case Drop =>
    case Crash =>
    case Recover =>
  }

  function Run(m: Machine, steps: seq<Step>): Option<Machine>
    decreases |steps|
  {
    if steps == [] then Some(m)
    else if !Enabled(m, steps[0]) then None
    else Run(Apply(m, steps[0]), steps[1..])
  }

  lemma {:induction false} RunSafe(m: Machine, steps: seq<Step>)
    requires Safe(m)
    ensures Run(m, steps).Some? ==> Safe(Run(m, steps).value)
    decreases |steps|
  {
    hide Safe, Apply;
    if steps != [] && Enabled(m, steps[0]) {
      StepSafe(m, steps[0]);
      RunSafe(Apply(m, steps[0]), steps[1..]);
    }
  }

  /** Over every run with crashes anywhere: a report whose `stage` returned has been answered or is durably pending;
      numbers are sent in non-decreasing order; entries sent under one generated key are one and the same; different
      entries share a key exactly when the caller of one supplied the other's; and every number made durable is answered
      or still pending; and what is sent is what the caller staged, with only the key filled in. */
  lemma {:induction false} OutboxCorrect(steps: seq<Step>)
    requires Run(START, steps).Some?
    ensures var m := Run(START, steps).value;
            && (forall k :: 0 <= k < |m.returned| ==> m.returned[k] in m.answered || m.returned[k] in m.disk.pending)
            && (forall i, j :: 0 <= i < j < |m.sent| ==> m.sent[i].number <= m.sent[j].number)
            && (forall i, j :: 0 <= i < j < |m.sent| && SameGeneratedKey(m.sent[i], m.sent[j]) ==>
                  m.sent[i] == m.sent[j])
            && (forall n :: 1 <= n <= m.disk.nextSeq ==> Holds(m.answered, n) || Holds(m.disk.pending, n))
            && (forall k :: 0 <= k < |m.answered| ==> m.answered[k] in m.sent)
            && (forall i, j :: 0 <= i < j < |m.sent| && m.sent[i] != m.sent[j] ==> KeysMeetExactly(m, i, j))
            && (forall k :: 0 <= k < |m.sent| ==> Untouched(m.asked, m.sent[k]))
  {
    hide Run, Ordered, InPhase, SentBefore, KeysMeetExactly, MakeKey;
    assert Safe(START) by { StartSafe(); }
    RunSafe(START, steps);
    var m := Run(START, steps).value;
    forall i, j | 0 <= i < j < |m.sent| && SameGeneratedKey(m.sent[i], m.sent[j])
      ensures m.sent[i] == m.sent[j]
    {
      var a, b := m.sent[i], m.sent[j];
      KeysInjective(a.report.line, a.report.kind, a.number, b.report.line, b.report.kind, b.number);
    }
    forall i, j | 0 <= i < j < |m.sent| && m.sent[i] != m.sent[j] ensures KeysMeetExactly(m, i, j) {
      KeysMeet(m, i, j);
    }
    forall k | 0 <= k < |m.sent| ensures Untouched(m.asked, m.sent[k]) {
      assert Asked(m.asked, m.sent[k]);
    }
  }

  /** The entry is the report its caller staged under that number, with the key filled in where there was none. */
  ghost predicate Untouched(asked: map<nat, Report>, e: Entry) {
    && e.number in asked && var r := asked[e.number];
    && e.report.kind == r.kind && e.report.line == r.line && e.report.metric == r.metric && e.report.value == r.value
    && e.report.key == if r.key == "" then MakeKey(r.line, r.kind, e.number) else r.key
  }

  /** Sent entries `i` and `j` carry one key exactly when the caller of one supplied the other's. */
  ghost predicate KeysMeetExactly(m: Machine, i: nat, j: nat) {
    && i < |m.sent| && j < |m.sent|
    && var a, b := m.sent[i], m.sent[j];
       && a.number in m.asked && b.number in m.asked
       && (a.report.key == b.report.key <==>
           || Anticipates(m.asked[a.number], m.asked[b.number], b.number)
           || Anticipates(m.asked[b.number], m.asked[a.number], a.number))
  }

  lemma {:induction false} KeysMeet(m: Machine, i: nat, j: nat)
    requires AsAsked(m) && SentInOrder(m.sent) && i < j < |m.sent| && m.sent[i] != m.sent[j]
    ensures KeysMeetExactly(m, i, j)
  {
    var a, b := m.sent[i], m.sent[j];
    assert Asked(m.asked, a) && Asked(m.asked, b);
    SharedKeyExactly(m.asked[a.number], a.number, m.asked[b.number], b.number);
  }

  // ----- a caller's key can meet a generated one -----

  lemma {:induction false} RunStep(m: Machine, step: Step, rest: seq<Step>)
    requires Enabled(m, step)
    ensures Run(m, [step] + rest) == Run(Apply(m, step), rest)
  {
    hide Apply;
    assert ([step] + rest)[1..] == rest;
  }

  function Staging(r: Report): seq<Step> {
    [Append(r)] + ([SaveStaged] + [Return])
  }

  /** Staging a report without a crash. */
  lemma {:induction false} StagingRuns(m: Machine, r: Report, rest: seq<Step>)
    requires m.phase == Idle
    ensures var e := EntryFor(m.mem, r);
            Run(m, Staging(r) + rest) ==
            Run(Machine(Idle, Staged(m.mem, r), Staged(m.mem, r), m.returned + [e], m.sent, m.answered,
                        m.asked[m.mem.nextSeq + 1 := r]), rest)
  {
    hide Run;
    var m1 := Apply(m, Append(r));
    var m2 := Apply(m1, SaveStaged);
    RunStep(m, Append(r), [SaveStaged] + ([Return] + rest));
    RunStep(m1, SaveStaged, [Return] + rest);
    RunStep(m2, Return, rest);
    assert Staging(r) + rest == [Append(r)] + ([SaveStaged] + ([Return] + rest));
  }

  function Delivering(): seq<Step> {
    [Send] + ([Answer(Delivered)] + ([Drop] + [SaveDropped]))
  }

  /** Delivering the front entry without a crash. */
  lemma {:induction false} DeliveringRuns(m: Machine, rest: seq<Step>)
    requires m.phase == Idle && m.mem.pending != []
    ensures var e, left := m.mem.pending[0], m.mem.(pending := m.mem.pending[1..]);
            Run(m, Delivering() + rest) ==
            Run(Machine(Idle, left, left, m.returned, m.sent + [e], m.answered + [e], m.asked), rest)
  {
    hide Run;
    var m1 := Apply(m, Send);
    var m2 := Apply(m1, Answer(Delivered));
    var m3 := Apply(m2, Drop);
    RunStep(m, Send, [Answer(Delivered)] + ([Drop] + ([SaveDropped] + rest)));
    RunStep(m1, Answer(Delivered), [Drop] + ([SaveDropped] + rest));
    RunStep(m2, Drop, [SaveDropped] + rest);
    RunStep(m3, SaveDropped, rest);
    assert Delivering() + rest == [Send] + ([Answer(Delivered)] + ([Drop] + ([SaveDropped] + rest)));
  }

  /** From an empty outbox: one caller supplies the key that the next report of that line and kind will be given. The
      MES is sent two different reports under one key. */
  lemma {:induction false} KeyReused(line: string, kind: Kind, metric: string, a: real, b: real)
    returns (steps: seq<Step>)
    ensures Run(START, steps).Some?
    ensures var sent := Run(START, steps).value.sent;
            && |sent| == 2 && sent[0].report.key == sent[1].report.key && sent[0].number != sent[1].number
            && sent[0].report.value == a && sent[1].report.value == b
  {
    hide Run, MakeKey;
    var first := Report(kind, line, metric, a, MakeKey(line, kind, 2));
    var second := Report(kind, line, metric, b, "");
    KeyNotEmpty(line, kind, 2);
    var e1, e2 := Entry(first, 1), Entry(second.(key := MakeKey(line, kind, 2)), 2);
    var deliveries := Delivering() + (Delivering() + []);
    steps := Staging(first) + (Staging(second) + deliveries);
    StagingRuns(START, first, Staging(second) + deliveries);
    var s1 := OutboxState(1, [e1]);
    assert Staged(START.mem, first) == s1;
    var m1 := Machine(Idle, s1, s1, [e1], [], [], map[1 := first]);
    assert [] + [e1] == [e1];
    StagingRuns(m1, second, deliveries);
    var s2 := OutboxState(2, [e1, e2]);
    assert Staged(s1, second) == s2;
    var m2 := Machine(Idle, s2, s2, [e1, e2], [], [], map[1 := first, 2 := second]);
    assert [e1] + [e2] == [e1, e2] && map[1 := first][2 := second] == map[1 := first, 2 := second];
    DeliveringRuns(m2, Delivering() + []);
    var s3 := OutboxState(2, [e2]);
    assert [e1, e2][1..] == [e2];
    var m3 := Machine(Idle, s3, s3, [e1, e2], [e1], [e1], map[1 := first, 2 := second]);
    DeliveringRuns(m3, []);
    RunNothing(Machine(Idle, OutboxState(2, [e2][1..]), OutboxState(2, [e2][1..]), [e1, e2], [e1] + [e2], [e1] + [e2],
                       map[1 := first, 2 := second]));
  }

  lemma {:induction false} RunNothing(m: Machine)
    ensures Run(m, []) == Some(m)
  {
  }

  lemma {:induction false} KeyNotEmpty(line: string, kind: Kind, n: nat)
    ensures MakeKey(line, kind, n) != ""
  {
    hide Decimal, KindName;
  }

  lemma {:induction false} StartSafe()
    ensures Safe(START)
  {
  }

  // ----- in place -----

  class OutboxActor {
    var state: OutboxState
    var store: OutboxState
    ghost var m: Machine

    ghost predicate Valid()
      reads this
    {
      m.phase == Idle && m.mem == state && m.disk == store && Safe(m)
    }

    /** Activation: `recover` loads the last checkpoint. */
    constructor (store: OutboxState, ghost before: Machine)
      requires before.phase == Down && before.disk == store && Safe(before)
      ensures Valid() && m == Apply(before, Recover) && state == store
    {
      this.store, state, m := store, store, Apply(before, Recover);
      new;
      StepSafe(before, Recover);
    }

    /** `stage` */
    method Stage(r: Report) returns (key: string)
      requires Valid()
      modifies this
      ensures Valid() && state == Staged(old(state), r) && store == state
      ensures key == EntryFor(old(state), r).report.key
      ensures Run(old(m), [Append(r), SaveStaged, Return]) == Some(m)
      ensures m.returned == old(m.returned) + [EntryFor(old(state), r)]
    {
      hide Safe;
      ghost var m1 := Apply(m, Append(r));
      ghost var m2 := Apply(m1, SaveStaged);
      ghost var m3 := Apply(m2, Return);
      StepSafe(m, Append(r));
      StepSafe(m1, SaveStaged);
      StepSafe(m2, Return);
      ThreeSteps(m, Append(r), SaveStaged, Return);
      var number := state.nextSeq + 1;
      key := if r.key == "" then MakeKey(r.line, r.kind, number) else r.key;
      state := OutboxState(number, state.pending + [Entry(r.(key := key), number)]);
      store := state;
      m := m3;
    }

    /** One round of `drain` for the front entry. */
    method DrainFront(res: MesResult)
      requires Valid() && state.pending != []
      modifies this
      ensures Valid() && store == state
      ensures m.sent == old(m.sent) + [old(state.pending[0])]
      ensures res == Retry ==> state == old(state) && m.answered == old(m.answered)
      ensures res != Retry ==> state == old(state).(pending := old(state.pending)[1..])
      ensures res != Retry ==> m.answered == old(m.answered) + [old(state.pending[0])]
    {
      hide Safe;
      IdleSynced(m);
      StepSafe(m, Send);
      m := Apply(m, Send);
      StepSafe(m, Answer(res));
      m := Apply(m, Answer(res));
      if res == Retry { return; }
      StepSafe(m, Drop);
      state, m := state.(pending := state.pending[1..]), Apply(m, Drop);
      StepSafe(m, SaveDropped);
      store, m := state, Apply(m, SaveDropped);
    }

    /** `drain`; `adapter(k)` is the MES's answer to the `k`-th report of this call. It sends the pending entries in
        order up to and including the first that is to be retried, and drops those answered for good. */
    method Drain(adapter: nat -> MesResult) returns (delivered: nat, dropped: nat)
      requires Valid()
      modifies this
      ensures Valid() && store == state
      ensures dropped <= |old(state.pending)| && state == old(state).(pending := old(state.pending)[dropped..])
      ensures forall k :: 0 <= k < dropped ==> adapter(k) != Retry
      ensures dropped < |old(state.pending)| ==> adapter(dropped) == Retry
      ensures delivered == Count(adapter, dropped)
      ensures m.answered == old(m.answered) + old(state.pending)[..dropped]
      ensures m.sent == old(m.sent) +
                        old(state.pending)[..if dropped < |old(state.pending)| then dropped + 1 else dropped]
    {
      hide Safe;
      IdleSynced(m);
      hide Valid;
      delivered, dropped := 0, 0;
      ghost var p := state.pending;
      while state.pending != []
        invariant Valid() && store == state && dropped <= |p|
        invariant state == old(state).(pending := p[dropped..])
        invariant forall k :: 0 <= k < dropped ==> adapter(k) != Retry
        invariant delivered == Count(adapter, dropped)
        invariant m.answered == old(m.answered) + p[..dropped] && m.sent == old(m.sent) + p[..dropped]
        decreases |state.pending|
      {
        var res := adapter(dropped);
        DrainFront(res);
        assert p[..dropped + 1] == p[..dropped] + [p[dropped]];
        if res == Retry { return; }
        assert p[dropped..][1..] == p[dropped + 1..];
        if res == Delivered { delivered := delivered + 1; }
        dropped := dropped + 1;
      }
    }
  }

  lemma {:induction false} IdleSynced(m: Machine)
    requires Safe(m) && m.phase == Idle
    ensures m.mem == m.disk
  {
  }

  /** How many of the first `n` answers are Delivered. */
  function Count(adapter: nat -> MesResult, n: nat): nat {
    if n == 0 then 0 else Count(adapter, n - 1) + (if adapter(n - 1) == Delivered then 1 else 0)
  }

  lemma {:induction false} ThreeSteps(m: Machine, a: Step, b: Step, c: Step)
    requires Enabled(m, a) && Enabled(Apply(m, a), b) && Enabled(Apply(Apply(m, a), b), c)
    ensures Run(m, [a, b, c]) == Some(Apply(Apply(Apply(m, a), b), c))
  {
    hide Apply;
    assert [a, b, c][1..] == [b, c] && [b, c][1..] == [c] && [c][1..] == [];
    var m3 := Apply(Apply(Apply(m, a), b), c);
    assert Run(m3, []) == Some(m3);
    assert Run(Apply(Apply(m, a), b), [c]) == Some(m3);
    assert Run(Apply(m, a), [b, c]) == Some(m3);
  }
}
