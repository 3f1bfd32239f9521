/** How often a counting loop runs its body (include/aero/nodes/loop_nodes.hpp). */
module LoopTrips {
  import opened Wrappers
  import opened FlowExecutor
  import opened FlowTermination

  /** The node always lets the flow go on. */
  ghost predicate Passing(node: Node) {
    node.Switch? || (node.Other? && forall ctx :: node.run(ctx).0 == Continue)
  }

  /** The node never changes what the tag `c` reads. */
  ghost predicate Keeps(node: Node, c: string) {
    node.Switch? || (node.Other? && forall ctx :: Lookup(node.run(ctx).1, c) == Lookup(ctx.tags, c))
  }

  /** Counting in the tag `tag` from `first` by `inc` to `last`, inclusive. */
  datatype Counter = Counter(tag: string, first: real, inc: real, last: real)

  /** The plan's loop counts like that: constant expressions, a body that neither stops nor writes the
      counter, and loop nodes that are never skipped. */
  ghost predicate Counting(plan: Plan, loop: Loop, c: Counter) {
    var Loop(s, b, t, m) := loop;
    && Geometry(plan, s, b, t, m) && s < t <= b && m >= 1
    && plan[s].branch == "" && plan[b].branch == ""
    && plan[s].node.counter == c.tag && plan[b].node.counter == c.tag
    && (forall tags :: plan[s].node.start(tags) == c.first)
    && (forall tags :: plan[b].node.step(tags) == c.inc) && (forall tags :: plan[b].node.end(tags) == c.last)
    && (forall i :: 0 <= i < b && i != s ==> Passing(plan[i].node))
    && (forall i :: s < i < b ==> Keeps(plan[i].node, c.tag))
  }

  /** If loop_back is called next, the clock has not reached the deadline that loop_start set. */
  predicate OnTime(clock: nat -> int, st: State, b: nat) {
    !st.halted && st.i == b && st.ctx.deadline.Some? ==> clock(|st.trace|) < st.ctx.deadline.value
  }

  /** No call of loop_back in the run comes too late. Other steps may take as long as they like. */
  ghost predicate Punctual(plan: Plan, clock: nat -> int, ctx: Ctx, b: nat) {
    forall k: nat :: OnTime(clock, Run(plan, clock, Begin(ctx), k), b)
  }

  function Count(trace: seq<nat>, b: nat): nat {
    if trace == [] then 0
    else Count(trace[..|trace| - 1], b) + (if trace[|trace| - 1] == b then 1 else 0)
  }

  lemma {:induction false} CountPush(trace: seq<nat>, b: nat, i: nat)
    ensures Count(trace + [i], b) == Count(trace, b) + (if i == b then 1 else 0)
  {
    assert (trace + [i])[..|trace|] == trace;
  }

  // ----- walking from step to step -----

  /** Every step in [lo, hi) without a label has been called `n` times. */
  ghost predicate Tally(plan: Plan, trace: seq<nat>, lo: nat, hi: nat, n: nat) {
    forall i :: lo <= i < hi && i < |plan| && plan[i].branch == "" ==> Count(trace, i) == n
  }

  /** What a walk from `lo` to `hi` over passing nodes adds to the calls, and what it leaves alone. */
  ghost predicate Walked(plan: Plan, st: State, st': State, lo: nat, hi: nat) {
    && st'.i == hi && !st'.halted && st'.ctx.loopContinue == st.ctx.loopContinue
    && st'.ctx.remaining == st.ctx.remaining && st'.ctx.failed == st.ctx.failed
    && forall i: nat ::
         && (lo <= i < hi && i < |plan| && plan[i].branch == "" ==> Count(st'.trace, i) == Count(st.trace, i) + 1)
         && (!(lo <= i < hi) ==> Count(st'.trace, i) == Count(st.trace, i))
  }

  lemma {:induction false} PassRound(plan: Plan, clock: nat -> int, st: State, c: string)
    requires !Done(plan, st) && Passing(plan[st.i].node) && plan[st.i].jump.None?
    ensures var st' := Round(plan, clock, st);
            && Walked(plan, st, st', st.i, st.i + 1)
            && (Keeps(plan[st.i].node, c) ==> Lookup(st'.ctx.tags, c) == Lookup(st.ctx.tags, c))
  {
    hide Lookup, Count;
    forall i: nat ensures Count(st.trace + [st.i], i) == Count(st.trace, i) + (if i == st.i then 1 else 0) {
      CountPush(st.trace, i, st.i);
    }
  }

  lemma {:induction false} WalkedOn(plan: Plan, st: State, st1: State, st': State, hi: nat)
    requires st.i < hi && Walked(plan, st, st1, st.i, st.i + 1) && Walked(plan, st1, st', st.i + 1, hi)
    ensures Walked(plan, st, st', st.i, hi)
  {
    hide Count;
  }

  lemma {:induction false} Walk(plan: Plan, clock: nat -> int, st: State, stop: nat, c: string) returns (k: nat)
    requires !st.halted && st.i <= stop < |plan|
    requires forall i :: st.i <= i < stop ==> Passing(plan[i].node) && plan[i].jump.None?
    ensures var st' := Run(plan, clock, st, k);
            && Walked(plan, st, st', st.i, stop)
            && ((forall i :: st.i <= i < stop ==> Keeps(plan[i].node, c)) ==>
                  Lookup(st'.ctx.tags, c) == Lookup(st.ctx.tags, c))
    decreases stop - st.i
  {
    hide Lookup, Round, Passing, Keeps, Count;
    if st.i == stop { return 0; }
    PassRound(plan, clock, st, c);
    var st1 := Round(plan, clock, st);
    var k' := Walk(plan, clock, st1, stop, c);
    k := k' + 1;
    WalkedOn(plan, st, st1, Run(plan, clock, st1, k'), stop);
  }

  // ----- one pass -----

  /** The counter after `k` passes. */
  function After(c: Counter, k: nat): real {
    c.first + k as real * c.inc
  }

  /** Does the loop ask for another pass once `k` have been made? */
  predicate WantsAfter(c: Counter, k: nat) {
    WantsContinue(c.inc, After(c, k), c.last)
  }

  /** In the loop with `j` passes made and more allowed. */
  ghost predicate InLoop(loop: Loop, c: Counter, st: State, j: nat) {
    && j < loop.maxIterations
    && !st.halted && !st.ctx.loopContinue && !st.ctx.failed
    && st.ctx.remaining == loop.maxIterations - j && Lookup(st.ctx.tags, c.tag) == After(c, j)
  }

  /** Every unlabelled step of the loop has been called `n` times. */
  ghost predicate Visited(plan: Plan, loop: Loop, st: State, n: nat) {
    Tally(plan, st.trace, loop.target, loop.back + 1, n)
  }

  /** Left through the loop's end after `n` passes. */
  ghost predicate LeftAfter(plan: Plan, loop: Loop, c: Counter, st: State, n: nat) {
    && !st.halted && st.i == loop.back + 1 && !st.ctx.failed
    && Visited(plan, loop, st, n) && Lookup(st.ctx.tags, c.tag) == After(c, n)
  }

  /** Failed at loop_back, in pass `n`. */
  ghost predicate FailedAfter(plan: Plan, loop: Loop, st: State, n: nat) {
    st.halted && st.ctx.failed && st.ctx.failedStep == loop.back && Visited(plan, loop, st, n)
  }

  lemma {:induction false} NextCount(c: Counter, j: nat)
    ensures After(c, j) + c.inc == After(c, j + 1)
  {
    assert (j + 1) as real == j as real + 1.0;
    assert (j as real + 1.0) * c.inc == j as real * c.inc + c.inc;
  }

  /** What loop_back does in pass `j + 1`. */
  lemma {:induction false} BackRound(plan: Plan, loop: Loop, c: Counter, clock: nat -> int, st: State, j: nat)
    requires Counting(plan, loop, c) && InLoop(loop, c, st, j) && st.i == loop.back
    ensures var st' := Round(plan, clock, st);
            && st'.trace == st.trace + [loop.back]
            && (if !WantsAfter(c, j + 1) then
                  !st'.halted && st'.i == loop.back + 1 && !st'.ctx.failed
                  && Lookup(st'.ctx.tags, c.tag) == After(c, j + 1)
                else if j + 1 == loop.maxIterations || !OnTime(clock, st, loop.back) then
                  st'.halted && st'.ctx.failed && st'.ctx.failedStep == loop.back
                else st'.i == loop.target && InLoop(loop, c, st', j + 1))
  {
    hide Lookup, Overwritten, After, Passing, Keeps;
    NextCount(c, j);
    LookupOverwritten(st.ctx.tags, c.tag, After(c, j + 1));
  }

  /** A walk over the body and a call of loop_back make one pass. */
  lemma {:induction false} PassTallied(plan: Plan, loop: Loop, st: State, st1: State, st2: State, j: nat)
    requires loop.target <= loop.back < |plan| && Visited(plan, loop, st, j)
    requires Walked(plan, st, st1, loop.target, loop.back) && st2.trace == st1.trace + [loop.back]
    ensures Visited(plan, loop, st2, j + 1)
  {
    hide Count;
    forall i | loop.target <= i < loop.back + 1 && i < |plan| && plan[i].branch == ""
      ensures Count(st2.trace, i) == j + 1
    {
      CountPush(st1.trace, i, loop.back);
    }
  }

  /** How the loop ends at the earliest pass `p` at which it asks for no more, has used up its budget, or is late. */
  ghost predicate Ended(
    plan: Plan, loop: Loop, c: Counter, clock: nat -> int, last: State, st: State, n: nat, p: nat)
  {
    && p <= n && p <= loop.maxIterations
    && (p == n ==> LeftAfter(plan, loop, c, st, n))
    && (p < n ==> FailedAfter(plan, loop, st, p) && (p == loop.maxIterations || !OnTime(clock, last, loop.back)))
  }

  /** From the head of the body to the end of the loop, on any clock. The first pass not asking for another is the
      `n`th, if there is one within the budget. */
  lemma {:induction false} Passes(plan: Plan, loop: Loop, c: Counter, clock: nat -> int, st: State, j: nat, n: nat)
    returns (k: nat, p: nat)
    requires Counting(plan, loop, c) && InLoop(loop, c, st, j) && st.i == loop.target && j < n
    requires Visited(plan, loop, st, j)
    requires forall i :: 1 <= i < n ==> WantsAfter(c, i)
    requires n <= loop.maxIterations ==> !WantsAfter(c, n)
    ensures Ended(plan, loop, c, clock, Run(plan, clock, st, k), Run(plan, clock, st, k + 1), n, p)
    decreases loop.maxIterations - j
  {
    hide Round, Run, Lookup, Count, After, Passing, Keeps, WantsAfter, Visited, Walked;
    k := Walk(plan, clock, st, loop.back, c.tag);
    var st1 := Run(plan, clock, st, k);
    WalkKeeps(plan, loop, c, st, st1, j);
    BackRound(plan, loop, c, clock, st1, j);
    RunOnce(plan, clock, st1);
    RunMore(plan, clock, st, k, 1);
    var st2 := Round(plan, clock, st1);
    PassTallied(plan, loop, st, st1, st2, j);
    p := j + 1;
    if WantsAfter(c, j + 1) && j + 1 < loop.maxIterations && OnTime(clock, st1, loop.back) {
      var k2, p2 := Passes(plan, loop, c, clock, st2, j + 1, n);
      RunMore(plan, clock, st, k + 1, k2);
      RunMore(plan, clock, st, k + 1, k2 + 1);
      k, p := k + 1 + k2, p2;
    }
  }

  lemma {:induction false} WalkKeeps(plan: Plan, loop: Loop, c: Counter, st: State, st1: State, j: nat)
    requires InLoop(loop, c, st, j) && Walked(plan, st, st1, st.i, loop.back)
    requires Lookup(st1.ctx.tags, c.tag) == Lookup(st.ctx.tags, c.tag)
    ensures InLoop(loop, c, st1, j) && st1.i == loop.back
  {
    hide Count, After, Lookup;
  }

  /** loop_start, first reached. */
  lemma {:induction false} StartRound(plan: Plan, loop: Loop, c: Counter, clock: nat -> int, st: State)
    requires Counting(plan, loop, c)
    requires !st.halted && st.i == loop.start && !st.ctx.loopContinue && !st.ctx.failed
    ensures var st' := Round(plan, clock, st);
            st'.i == loop.start + 1 && InLoop(loop, c, st', 0) && st'.trace == st.trace + [loop.start]
  {
    hide Lookup, Overwritten, Passing, Keeps;
    LookupOverwritten(st.ctx.tags, c.tag, c.first);
  }

  /** Before the first pass no step of the loop has been called. */
  lemma {:induction false} EntryTallied(plan: Plan, loop: Loop, ctx: Ctx, st1: State, st2: State, st3: State)
    requires loop.start < loop.target
    requires Walked(plan, Begin(ctx), st1, 0, loop.start) && st2.trace == st1.trace + [loop.start]
    requires Walked(plan, st2, st3, loop.start + 1, loop.target)
    ensures Visited(plan, loop, st3, 0)
  {
    hide Count;
    forall i: nat | loop.target <= i < loop.back + 1 && i < |plan| && plan[i].branch == ""
      ensures Count(st3.trace, i) == 0
    {
      CountPush(st1.trace, i, loop.start);
      EmptyCount(i);
    }
  }

  lemma {:induction false} EmptyCount(i: nat)
    ensures Count([], i) == 0
  {
  }

  /** From the start of a run to the end of its loop, on any clock. */
  lemma {:induction false} AnyClock(plan: Plan, loop: Loop, c: Counter, clock: nat -> int, ctx: Ctx, n: nat)
    returns (k: nat, p: nat)
    requires Counting(plan, loop, c) && !ctx.loopContinue && !ctx.failed && n >= 1
    requires forall i :: 1 <= i < n ==> WantsAfter(c, i)
    requires n <= loop.maxIterations ==> !WantsAfter(c, n)
    ensures Ended(plan, loop, c, clock, Run(plan, clock, Begin(ctx), k), Run(plan, clock, Begin(ctx), k + 1), n, p)
  {
    hide Round, Run, Lookup, Count, After, Passing, Keeps, WantsAfter, Visited, Ended;
    var st0 := Begin(ctx);
    var k1 := Walk(plan, clock, st0, loop.start, c.tag);
    var st1 := Run(plan, clock, st0, k1);
    StartRound(plan, loop, c, clock, st1);
    RunOnce(plan, clock, st1);
    RunMore(plan, clock, st0, k1, 1);
    var st2 := Round(plan, clock, st1);
    var k3 := Walk(plan, clock, st2, loop.target, c.tag);
    var st3 := Run(plan, clock, st2, k3);
    RunMore(plan, clock, st0, k1 + 1, k3);
    EntryTallied(plan, loop, ctx, st1, st2, st3);
    var k4;
    k4, p := Passes(plan, loop, c, clock, st3, 0, n);
    k := k1 + 1 + k3 + k4;
    RunMore(plan, clock, st0, k1 + 1 + k3, k4);
    RunMore(plan, clock, st0, k1 + 1 + k3, k4 + 1);
  }

  /** When no call of loop_back comes late: the loop makes `n` passes, or all the budget allows. */
  lemma {:induction false} WholeLoop(plan: Plan, loop: Loop, c: Counter, clock: nat -> int, ctx: Ctx, n: nat)
    returns (k: nat)
    requires Counting(plan, loop, c) && Punctual(plan, clock, ctx, loop.back)
    requires !ctx.loopContinue && !ctx.failed && n >= 1
    requires forall i :: 1 <= i < n ==> WantsAfter(c, i)
    requires n <= loop.maxIterations ==> !WantsAfter(c, n)
    ensures var st := Run(plan, clock, Begin(ctx), k);
            if n <= loop.maxIterations then LeftAfter(plan, loop, c, st, n)
            else FailedAfter(plan, loop, st, loop.maxIterations)
  {
    hide Run, Counting, WantsAfter, LeftAfter, FailedAfter, OnTime;
    var k', p := AnyClock(plan, loop, c, clock, ctx, n);
    assert OnTime(clock, Run(plan, clock, Begin(ctx), k'), loop.back);
    k := k' + 1;
  }

  // ----- clocks -----

  /** The deadline that loop_start has set, once the run is past it. */
  ghost predicate Dated(plan: Plan, clock: nat -> int, s: nat, st: State)
    requires s < |plan| && plan[s].node.LoopStart?
  {
    !st.halted && st.i > s ==>
      exists p: nat :: p < |st.trace| && st.ctx.deadline == Some(clock(p) + plan[s].node.maxDuration)
  }

  lemma {:induction false} RoundDated(plan: Plan, clock: nat -> int, loop: Loop, st: State)
    requires Geometry(plan, loop.start, loop.back, loop.target, loop.maxIterations)
    requires loop.start < loop.target <= loop.back && plan[loop.start].branch == ""
    requires !Done(plan, st) && Dated(plan, clock, loop.start, st)
    ensures Dated(plan, clock, loop.start, Round(plan, clock, st))
    ensures |st.trace| <= |Round(plan, clock, st).trace|
  {
    hide Lookup, Overwritten;
    var st' := Round(plan, clock, st);
    if st.i == loop.start {
      assert st'.ctx.deadline == Some(clock(|st.trace|) + plan[loop.start].node.maxDuration);
    } else if !st'.halted && st.i > loop.start {
      var p: nat :| p < |st.trace| && st.ctx.deadline == Some(clock(p) + plan[loop.start].node.maxDuration);
      assert p < |st'.trace| && st'.ctx.deadline == Some(clock(p) + plan[loop.start].node.maxDuration);
    }
  }

  lemma {:induction false} RunDated(plan: Plan, clock: nat -> int, loop: Loop, st: State, k: nat)
    requires Geometry(plan, loop.start, loop.back, loop.target, loop.maxIterations)
    requires loop.start < loop.target <= loop.back && plan[loop.start].branch == ""
    requires Dated(plan, clock, loop.start, st)
    ensures Dated(plan, clock, loop.start, Run(plan, clock, st, k))
    ensures |st.trace| <= |Run(plan, clock, st, k).trace|
    decreases k
  {
    hide Round, Dated;
    if k > 0 && !Done(plan, st) {
      RoundDated(plan, clock, loop, st);
      RunDated(plan, clock, loop, Round(plan, clock, st), k - 1);
    }
  }

  /** The readings within the call bound stay within the loop's duration of each other. */
  ghost predicate Brisk(plan: Plan, loop: Loop, clock: nat -> int)
    requires loop.start < |plan| && plan[loop.start].node.LoopStart?
  {
    forall p: nat, q: nat :: p < q < |plan| + (loop.maxIterations - 1) * (loop.back - loop.target + 1) ==>
      clock(q) < clock(p) + plan[loop.start].node.maxDuration
  }

  /** On such a clock no call of loop_back comes late. */
  lemma {:induction false} BriskIsPunctual(plan: Plan, loop: Loop, clock: nat -> int, ctx: Ctx)
    requires Geometry(plan, loop.start, loop.back, loop.target, loop.maxIterations)
    requires loop.start < loop.target <= loop.back && plan[loop.start].branch == "" && plan[loop.back].branch == ""
    requires loop.maxIterations >= 1 && ctx.remaining == 0 && Brisk(plan, loop, clock)
    ensures Punctual(plan, clock, ctx, loop.back)
  {
    hide Run, Round, Geometry, Dated;
    var end := CallBound(plan, clock, loop, ctx);
    forall k: nat ensures OnTime(clock, Run(plan, clock, Begin(ctx), k), loop.back) {
      BoundedCalls(plan, clock, loop, ctx, k, end);
    }
  }

  lemma {:induction false} BoundedCalls(plan: Plan, clock: nat -> int, loop: Loop, ctx: Ctx, k: nat, end: nat)
    requires Geometry(plan, loop.start, loop.back, loop.target, loop.maxIterations)
    requires loop.start < loop.target <= loop.back && plan[loop.start].branch == "" && plan[loop.back].branch == ""
    requires Brisk(plan, loop, clock) && Done(plan, Run(plan, clock, Begin(ctx), end))
    requires |Run(plan, clock, Begin(ctx), end).trace| <=
             |plan| + (loop.maxIterations - 1) * (loop.back - loop.target + 1)
    ensures OnTime(clock, Run(plan, clock, Begin(ctx), k), loop.back)
  {
    hide Run, Round, Brisk;
    var st0 := Begin(ctx);
    var st := Run(plan, clock, st0, k);
    RunDated(plan, clock, loop, st0, k);
    if !st.halted && st.i == loop.back {
      var p: nat :| p < |st.trace| && st.ctx.deadline == Some(clock(p) + plan[loop.start].node.maxDuration);
      if end <= k {
        RunMore(plan, clock, st0, end, k - end);
        RunStays(plan, clock, Run(plan, clock, st0, end), k - end);
        assert false;
      }
      RunMore(plan, clock, st0, k, 1);
      RunOnce(plan, clock, st);
      RunMore(plan, clock, st0, k + 1, end - k - 1);
      CalledAtBack(plan, clock, st);
      RunDated(plan, clock, loop, st, 1);
      RunDated(plan, clock, loop, Run(plan, clock, st, 1), end - k - 1);
      BriskAt(plan, loop, clock, p, |st.trace|);
    }
  }

  lemma {:induction false} BriskAt(plan: Plan, loop: Loop, clock: nat -> int, p: nat, q: nat)
    requires loop.start < |plan| && plan[loop.start].node.LoopStart? && Brisk(plan, loop, clock)
    requires p < q < |plan| + (loop.maxIterations - 1) * (loop.back - loop.target + 1)
    ensures clock(q) < clock(p) + plan[loop.start].node.maxDuration
  {
  }

  /** An unlabelled step is called, not skipped. */
  lemma {:induction false} CalledAtBack(plan: Plan, clock: nat -> int, st: State)
    requires !Done(plan, st) && plan[st.i].branch == ""
    ensures |Round(plan, clock, st).trace| == |st.trace| + 1
  {
    hide Lookup, Overwritten;
  }

  // ----- the trip count -----

  /** max(1, floor((last - first) / inc) + 1) */
  function Trips(c: Counter): (n: nat)
    requires c.inc != 0.0
    ensures n >= 1
  {
    Larger(1, ((c.last - c.first) / c.inc).Floor + 1)
  }

  lemma {:induction false} FloorAtLeast(x: real, k: nat)
    ensures k as real <= x <==> k <= x.Floor
  {
  }

  lemma {:induction false} QuotientAtLeast(x: real, d: real, k: real)
    requires d != 0.0
    ensures d > 0.0 ==> (k * d <= x <==> k <= x / d)
    ensures d < 0.0 ==> (k * d >= x <==> k <= x / d)
  {
    assert (x / d) * d == x;
    if d > 0.0 {
      if k <= x / d { MonotoneTimes(k, x / d, d); }
      if x / d < k { MonotoneTimes(x / d, k, d); StrictTimes(x / d, k, d); }
    } else {
      if k <= x / d { MonotoneTimes(k, x / d, -d); }
      if x / d < k { StrictTimes(x / d, k, -d); }
    }
  }

  lemma {:induction false} MonotoneTimes(a: real, b: real, d: real)
    requires a <= b && d > 0.0
    ensures a * d <= b * d
  {
    assert (b - a) * d >= 0.0;
  }

  lemma {:induction false} StrictTimes(a: real, b: real, d: real)
    requires a < b && d > 0.0
    ensures a * d < b * d
  {
    assert (b - a) * d > 0.0;
  }

  /** The loop asks for another pass after `k` of them exactly while `k` is below the trip count. */
  lemma {:induction false} WantsUntilTrips(c: Counter, k: nat)
    requires c.inc != 0.0 && k >= 1
    ensures WantsAfter(c, k) <==> k < Trips(c)
  {
    QuotientAtLeast(c.last - c.first, c.inc, k as real);
    FloorAtLeast((c.last - c.first) / c.inc, k);
  }

  /** The body runs exactly `Trips` times when the budget allows it; otherwise the run fails at loop_back in
      the last pass the budget allows. Upward and downward counting alike. */
  lemma {:induction false} ExactTripCount(plan: Plan, loop: Loop, c: Counter, clock: nat -> int, ctx: Ctx)
    returns (k: nat)
    requires Counting(plan, loop, c) && Punctual(plan, clock, ctx, loop.back)
    requires !ctx.loopContinue && !ctx.failed && c.inc != 0.0
    ensures var st := Run(plan, clock, Begin(ctx), k);
            if Trips(c) <= loop.maxIterations then LeftAfter(plan, loop, c, st, Trips(c))
            else FailedAfter(plan, loop, st, loop.maxIterations)
  {
    hide Trips, WantsAfter, Counting, Punctual;
    var n := Trips(c);
    forall i | 1 <= i < n ensures WantsAfter(c, i) { WantsUntilTrips(c, i); }
    WantsUntilTrips(c, n);
    k := WholeLoop(plan, loop, c, clock, ctx, n);
  }

  /** A step of zero: one pass if the start is already past the end, and otherwise never enough. */
  lemma {:induction false} ZeroStep(plan: Plan, loop: Loop, c: Counter, clock: nat -> int, ctx: Ctx)
    returns (k: nat)
    requires Counting(plan, loop, c) && Punctual(plan, clock, ctx, loop.back)
    requires !ctx.loopContinue && !ctx.failed && c.inc == 0.0
    ensures var st := Run(plan, clock, Begin(ctx), k);
            if c.first > c.last then LeftAfter(plan, loop, c, st, 1)
            else FailedAfter(plan, loop, st, loop.maxIterations)
  {
    hide Punctual, LeftAfter, FailedAfter, Passing, Keeps;
    forall i: nat ensures WantsAfter(c, i) <==> c.first <= c.last {
      assert i as real * 0.0 == 0.0;
    }
    k := WholeLoop(plan, loop, c, clock, ctx, if c.first > c.last then 1 else loop.maxIterations + 1);
  }
}
