/** When a run of a compiled flow ends: the budget of loop_start against the jump (include/aero/core/compiled_flow.hpp,
    include/aero/nodes/loop_nodes.hpp). */
module FlowTermination {
  import opened Wrappers
  import opened FlowExecutor

  /** Step `b`, whatever its node, jumps to `t`; no other step jumps. */
  ghost predicate Jumps(plan: Plan, b: nat, t: nat) {
    && b < |plan| && t < |plan| && plan[b].jump == Some(t)
    && (forall i :: 0 <= i < |plan| && i != b ==> plan[i].jump.None?)
  }

  // ----- budgets along a plan -----

  /** What the loop's budget sees of a step; one without a label always runs. */
  datatype Mark = Plain | Start(passes: nat, always: bool) | Back(always: bool)

  type Marks = seq<Mark>

  function MarkOf(step: Step): Mark {
    if step.node.LoopStart? then Start(step.node.maxIterations, step.branch == "")
    else if step.node.LoopBack? then Back(step.branch == "")
    else Plain
  }

  function MarksOf(plan: Plan): (r: Marks)
    ensures |r| == |plan|
  {
    seq(|plan|, i requires 0 <= i < |plan| => MarkOf(plan[i]))
  }

  /** The most budget left after a step that finds `r`; a step that `must` run is not skipped. */
  function Passed(mark: Mark, r: nat, must: bool): nat {
    match mark
    case Plain => r
    case Start(passes, always) => if always || must then passes else Larger(passes, r)
    case Back(always) => if (always || must) && r > 0 then r - 1 else r
  }

  /** The most budget found at step `j` by a run that stands at `i` with `r`, goes straight on, and runs `b` if it
      passes it. */
  function Budget(marks: Marks, b: nat, i: nat, j: nat, r: nat): nat
    requires j <= |marks|
    decreases j - i
  {
    if i >= j then r else Budget(marks, b, i + 1, j, Passed(marks[i], r, i == b))
  }

  lemma {:induction false} BudgetMonotone(marks: Marks, b: nat, i: nat, j: nat, r: nat, r': nat)
    requires j <= |marks| && r <= r'
    ensures Budget(marks, b, i, j, r) <= Budget(marks, b, i, j, r')
    decreases j - i
  {
    if i < j { BudgetMonotone(marks, b, i + 1, j, Passed(marks[i], r, i == b), Passed(marks[i], r', i == b)); }
  }

  lemma {:induction false} BudgetJoined(marks: Marks, b: nat, i: nat, m: nat, j: nat, r: nat)
    requires i <= m <= j <= |marks|
    ensures Budget(marks, b, i, j, r) == Budget(marks, b, m, j, Budget(marks, b, i, m, r))
    decreases m - i
  {
    if i < m { BudgetJoined(marks, b, i + 1, m, j, Passed(marks[i], r, i == b)); }
  }

  /** A stretch hands on what it was given, or what it would have given anyway. */
  lemma {:induction false} BudgetFromNothing(marks: Marks, b: nat, i: nat, j: nat, r: nat, r0: nat)
    requires j <= |marks|
    ensures Budget(marks, b, i, j, r) <= Larger(r, Budget(marks, b, i, j, r0))
    decreases j - i
  {
    if i < j {
      var p, p0 := Passed(marks[i], r, i == b), Passed(marks[i], r0, i == b);
      BudgetFromNothing(marks, b, i + 1, j, p, p0);
      if p > r { BudgetMonotone(marks, b, i + 1, j, p, p0); }
    }
  }

  // ----- who decides about the jump -----

  /** No loop_back that always runs stands in [i, b], and `b` is none: what loop_continue holds at `i` it may still hold
      when the jump is up. */
  ghost predicate Lasting(marks: Marks, b: nat, i: nat) {
    forall r :: i <= r <= b && r < |marks| && marks[r].Back? ==> !marks[r].always && r != b
  }

  /** The loop_back at `q` can be the last to run before the jump. */
  ghost predicate Decides(marks: Marks, b: nat, q: nat) {
    q <= b && q < |marks| && marks[q].Back? && Lasting(marks, b, q + 1)
  }

  /** The most budget that `q` finds again, once around from right behind it to `b` and on from `t`, if it left none. */
  function Again(marks: Marks, b: nat, t: nat, q: nat): nat
    requires q <= b < |marks|
  {
    Budget(marks, b, t, q, Budget(marks, b, q + 1, b + 1, 0))
  }

  /** No loop_back that the jump runs again and that can decide about it wins back a budget of two. */
  ghost predicate Tame(marks: Marks, b: nat, t: nat) {
    forall q :: t <= q <= b < |marks| && Decides(marks, b, q) ==> Again(marks, b, t, q) <= 1
  }

  // ----- how many jumps are left -----

  /** The most budget that `q` finds when it is next reached from `i`; none if it is not reached again. */
  function Next(marks: Marks, b: nat, t: nat, q: nat, i: nat, r: nat): nat
    requires q <= b < |marks|
  {
    if i <= q then Budget(marks, b, i, q, r)
    else if i <= b && t <= q then Budget(marks, b, t, q, Budget(marks, b, i, b + 1, r))
    else 0
  }

  /** The jumps that `q` can still cause. */
  ghost function Causes(marks: Marks, b: nat, t: nat, q: nat, i: nat, r: nat): nat
    requires q <= b < |marks|
  {
    if Decides(marks, b, q) then Larger(Next(marks, b, t, q, i, r), 1) - 1 else 0
  }

  ghost function CausesBelow(marks: Marks, b: nat, t: nat, n: nat, i: nat, r: nat): nat
    requires n <= b + 1 <= |marks|
  {
    if n == 0 then 0 else CausesBelow(marks, b, t, n - 1, i, r) + Causes(marks, b, t, n - 1, i, r)
  }

  ghost function JumpsLeft(marks: Marks, b: nat, t: nat, i: nat, r: nat, going: bool): nat
    requires b < |marks|
  {
    if i > b then 0
    else CausesBelow(marks, b, t, b + 1, i, r) + (if going && Lasting(marks, b, i) then 1 else 0)
  }

  /** Rounds still possible. */
  ghost function Fuel(marks: Marks, b: nat, t: nat, i: nat, r: nat, going: bool): int
    requires b < |marks|
  {
    |marks| - i + (if t <= b then JumpsLeft(marks, b, t, i, r, going) * (b - t + 1) else 0)
  }

  lemma {:induction false} FewerJumps(j: nat, j': nat, len: nat)
    requires j' <= j
    ensures j' * len <= j * len
    ensures j' < j ==> j' * len + len <= j * len
  {
    assert j * len == j' * len + (j - j') * len;
    if j' < j { assert (j - j') * len == len + (j - j' - 1) * len; }
  }

  // ----- one round -----

  /** The run goes on to the next step; only a loop_back sets loop_continue, and then it found a budget of two. */
  ghost predicate WentOn(marks: Marks, i: nat, r: nat, going: bool, r': nat, going': bool)
    requires i < |marks|
  {
    && r' <= Passed(marks[i], r, false)
    && (going' ==> if marks[i].Back? then (r >= 2 && r' < r) || (!marks[i].always && going) else going)
  }

  /** The run jumps: loop_continue was set, or step `b` is a loop_back and sets it. */
  ghost predicate JumpedBack(marks: Marks, b: nat, r: nat, going: bool, r': nat)
    requires b < |marks|
  {
    r' <= Passed(marks[b], r, true) && if marks[b].Back? then r >= 2 && r' < r else going
  }

  lemma {:induction false} RoundMoves(plan: Plan, clock: nat -> int, b: nat, t: nat, st: State)
    requires Jumps(plan, b, t) && !Done(plan, st)
    ensures var st' := Round(plan, clock, st);
            var marks := MarksOf(plan);
            && |st'.trace| <= |st.trace| + 1
            && (|| st'.halted
                || (&& st'.i == st.i + 1
                    && WentOn(marks, st.i, st.ctx.remaining, st.ctx.loopContinue,
                              st'.ctx.remaining, st'.ctx.loopContinue))
                || (&& st.i == b && st'.i == t && !st'.ctx.loopContinue
                    && JumpedBack(marks, b, st.ctx.remaining, st.ctx.loopContinue, st'.ctx.remaining)))
  {
    hide Lookup, Overwritten;
  }

  lemma {:induction false} BudgetStep(marks: Marks, b: nat, i: nat, j: nat, r: nat, r': nat)
    requires i < j <= |marks| && r' <= Passed(marks[i], r, i == b)
    ensures Budget(marks, b, i + 1, j, r') <= Budget(marks, b, i, j, r)
  {
    hide Passed;
    BudgetMonotone(marks, b, i + 1, j, r', Passed(marks[i], r, i == b));
  }

  /** Passing another step does not raise what `q` will find. */
  lemma {:induction false} NextElsewhere(marks: Marks, b: nat, t: nat, q: nat, i: nat, r: nat, r': nat)
    requires q <= b < |marks| && i < b && i != q && r' <= Passed(marks[i], r, false)
    ensures Next(marks, b, t, q, i + 1, r') <= Next(marks, b, t, q, i, r)
  {
    hide Budget, Passed;
    if i < q {
      BudgetStep(marks, b, i, q, r, r');
    } else if t <= q {
      BudgetStep(marks, b, i, b + 1, r, r');
      BudgetMonotone(marks, b, t, q, Budget(marks, b, i + 1, b + 1, r'), Budget(marks, b, i, b + 1, r));
    }
  }

  /** Passing a deciding `q` itself: it finds no more than it left, or a budget of one. */
  lemma {:induction false} NextHere(marks: Marks, b: nat, t: nat, q: nat, r': nat)
    requires q < b < |marks| && Decides(marks, b, q) && Tame(marks, b, t)
    ensures Next(marks, b, t, q, q + 1, r') <= Larger(r', 1)
  {
    hide Budget, Decides;
    if t <= q { AroundAgain(marks, b, t, q, r'); }
  }

  lemma {:induction false} AroundAgain(marks: Marks, b: nat, t: nat, q: nat, r: nat)
    requires q <= b < |marks|
    ensures Budget(marks, b, t, q, Budget(marks, b, q + 1, b + 1, r)) <= Larger(r, Again(marks, b, t, q))
  {
    hide Budget;
    var x, x0 := Budget(marks, b, q + 1, b + 1, r), Budget(marks, b, q + 1, b + 1, 0);
    BudgetFromNothing(marks, b, q + 1, b + 1, r, 0);
    BudgetFromNothing(marks, b, t, q, x, x0);
    if x > r { BudgetMonotone(marks, b, t, q, x, x0); }
  }

  /** A jump takes up where `b` leaves off. */
  lemma {:induction false} NextAfterJump(marks: Marks, b: nat, t: nat, q: nat, r: nat, r': nat)
    requires t <= b < |marks| && q < b && r' <= Passed(marks[b], r, true)
    ensures Next(marks, b, t, q, t, r') <= Next(marks, b, t, q, b, r)
  {
    hide Passed;
    if t <= q {
      assert Budget(marks, b, b, b + 1, r) == Passed(marks[b], r, true);
      BudgetMonotone(marks, b, t, q, r', Passed(marks[b], r, true));
    }
  }

  lemma {:induction false} NextAfterOwnJump(marks: Marks, b: nat, t: nat, r': nat)
    requires t <= b < |marks| && marks[b].Back? && Tame(marks, b, t)
    ensures Next(marks, b, t, b, t, r') <= Larger(r', 1)
  {
    assert Decides(marks, b, b);
    assert Budget(marks, b, b + 1, b + 1, 0) == 0;
    hide Budget, Decides;
    BudgetFromNothing(marks, b, t, b, r', 0);
  }

  // ----- a round uses up fuel -----

  lemma {:induction false} FewerCauses(marks: Marks, b: nat, t: nat, n: nat, i: nat, r: nat, i': nat, r': nat)
    requires n <= b + 1 <= |marks|
    requires forall q: nat :: q < n ==> Causes(marks, b, t, q, i', r') <= Causes(marks, b, t, q, i, r)
    ensures CausesBelow(marks, b, t, n, i', r') <= CausesBelow(marks, b, t, n, i, r)
    ensures forall q: nat :: q < n && Causes(marks, b, t, q, i', r') < Causes(marks, b, t, q, i, r) ==>
              CausesBelow(marks, b, t, n, i', r') < CausesBelow(marks, b, t, n, i, r)
    decreases n
  {
    hide Causes;
    if n > 0 { FewerCauses(marks, b, t, n - 1, i, r, i', r'); }
  }

  lemma {:induction false} CausesOnward(
    marks: Marks, b: nat, t: nat, q: nat, i: nat, r: nat, going: bool, r': nat, going': bool)
    requires q <= b < |marks| && i < b && Tame(marks, b, t) && WentOn(marks, i, r, going, r', going')
    ensures Causes(marks, b, t, q, i + 1, r') <= Causes(marks, b, t, q, i, r)
    ensures q == i && Decides(marks, b, q) && r >= 2 && r' < r ==>
              Causes(marks, b, t, q, i + 1, r') < Causes(marks, b, t, q, i, r)
  {
    hide Budget, Decides, Tame;
    if q != i {
      NextElsewhere(marks, b, t, q, i, r, r');
    } else if Decides(marks, b, q) {
      NextHere(marks, b, t, q, r');
      assert Next(marks, b, t, q, i, r) == r by { BudgetHere(marks, b, i, r); }
      BackLowers(marks, b, q, r, r');
    }
  }

  lemma {:induction false} BudgetHere(marks: Marks, b: nat, i: nat, r: nat)
    requires i <= |marks|
    ensures Budget(marks, b, i, i, r) == r
  {
  }

  lemma {:induction false} BackLowers(marks: Marks, b: nat, q: nat, r: nat, r': nat)
    requires Decides(marks, b, q) && r' <= Passed(marks[q], r, false)
    ensures r' <= r
  {
  }

  /** loop_continue set at `i` lasts only if `i` decides; otherwise it was set before. */
  lemma {:induction false} LastingOnward(marks: Marks, b: nat, i: nat)
    requires i < b < |marks|
    ensures Lasting(marks, b, i + 1) && marks[i].Back? ==> Decides(marks, b, i)
    ensures Lasting(marks, b, i + 1) && !(marks[i].Back? && marks[i].always) ==> Lasting(marks, b, i)
  {
  }

  lemma {:induction false} OnwardJumps(
    marks: Marks, b: nat, t: nat, i: nat, r: nat, going: bool, r': nat, going': bool)
    requires i <= b < |marks| && Tame(marks, b, t) && WentOn(marks, i, r, going, r', going')
    ensures JumpsLeft(marks, b, t, i + 1, r', going') <= JumpsLeft(marks, b, t, i, r, going)
  {
    hide Causes, Decides, Tame, Lasting;
    if i < b {
      forall q: nat | q < b + 1 ensures Causes(marks, b, t, q, i + 1, r') <= Causes(marks, b, t, q, i, r) {
        CausesOnward(marks, b, t, q, i, r, going, r', going');
      }
      FewerCauses(marks, b, t, b + 1, i, r, i + 1, r');
      CausesOnward(marks, b, t, i, i, r, going, r', going');
      LastingOnward(marks, b, i);
    }
  }

  lemma {:induction false} CausesAfterJump(marks: Marks, b: nat, t: nat, q: nat, r: nat, going: bool, r': nat)
    requires q <= b && t <= b < |marks| && Tame(marks, b, t) && JumpedBack(marks, b, r, going, r')
    ensures Causes(marks, b, t, q, t, r') <= Causes(marks, b, t, q, b, r)
    ensures q == b && marks[b].Back? ==> Causes(marks, b, t, q, t, r') < Causes(marks, b, t, q, b, r)
  {
    hide Budget, Tame;
    if q < b {
      NextAfterJump(marks, b, t, q, r, r');
    } else if marks[b].Back? {
      NextAfterOwnJump(marks, b, t, r');
      BudgetHere(marks, b, b, r);
    }
  }

  lemma {:induction false} LastingAtJump(marks: Marks, b: nat)
    requires b < |marks|
    ensures Lasting(marks, b, b) <==> !marks[b].Back?
  {
    if !Lasting(marks, b, b) { assert marks[b].Back?; }
  }

  lemma {:induction false} JumpUsesOne(marks: Marks, b: nat, t: nat, r: nat, going: bool, r': nat)
    requires t <= b < |marks| && Tame(marks, b, t) && JumpedBack(marks, b, r, going, r')
    ensures JumpsLeft(marks, b, t, t, r', false) < JumpsLeft(marks, b, t, b, r, going)
  {
    hide Causes, Tame, Lasting;
    forall q: nat | q < b + 1 ensures Causes(marks, b, t, q, t, r') <= Causes(marks, b, t, q, b, r) {
      CausesAfterJump(marks, b, t, q, r, going, r');
    }
    FewerCauses(marks, b, t, b + 1, b, r, t, r');
    CausesAfterJump(marks, b, t, b, r, going, r');
    LastingAtJump(marks, b);
  }

  ghost function StateFuel(plan: Plan, b: nat, t: nat, i: nat, ctx: Ctx): int
    requires b < |plan|
  {
    Fuel(MarksOf(plan), b, t, i, ctx.remaining, ctx.loopContinue)
  }

  /** Every round uses up fuel, and calls at most one node. */
  lemma {:induction false} RoundBurns(plan: Plan, clock: nat -> int, b: nat, t: nat, st: State)
    requires Jumps(plan, b, t) && Tame(MarksOf(plan), b, t) && !Done(plan, st)
    ensures var st' := Round(plan, clock, st);
            && |st'.trace| <= |st.trace| + 1
            && (!st'.halted ==>
                  st'.i <= |plan| && StateFuel(plan, b, t, st'.i, st'.ctx) < StateFuel(plan, b, t, st.i, st.ctx))
  {
    hide Round, Tame, JumpsLeft, WentOn, JumpedBack;
    RoundMoves(plan, clock, b, t, st);
    var st', marks := Round(plan, clock, st), MarksOf(plan);
    var r, going := st.ctx.remaining, st.ctx.loopContinue;
    var r', going' := st'.ctx.remaining, st'.ctx.loopContinue;
    var j, j' := JumpsLeft(marks, b, t, st.i, r, going), JumpsLeft(marks, b, t, st'.i, r', going');
    if st'.halted {
    } else if st'.i == st.i + 1 && WentOn(marks, st.i, r, going, r', going') {
      if t <= b {
        if st.i <= b { OnwardJumps(marks, b, t, st.i, r, going, r', going'); }
        BehindTheJump(marks, b, t, st'.i, r', going');
        FewerJumps(j, j', b - t + 1);
      }
    } else if t <= b {
      JumpUsesOne(marks, b, t, r, going, r');
      FewerJumps(j, j', b - t + 1);
    }
  }

  lemma {:induction false} BehindTheJump(marks: Marks, b: nat, t: nat, i: nat, r: nat, going: bool)
    requires b < |marks|
    ensures i > b ==> JumpsLeft(marks, b, t, i, r, going) == 0
  {
  }

  /** A plan whose runs all end: no jump at all, or one that is tame. */
  ghost predicate Bounded(plan: Plan, jump: Option<(nat, nat)>) {
    match jump
    case None => forall i :: 0 <= i < |plan| ==> plan[i].jump.None?
    case Some((b, t)) => Jumps(plan, b, t) && Tame(MarksOf(plan), b, t)
  }

  ghost function FuelOf(plan: Plan, jump: Option<(nat, nat)>, i: nat, ctx: Ctx): int {
    match jump
    case None => |plan| - i
    case Some((b, t)) => if b < |plan| then StateFuel(plan, b, t, i, ctx) else 0
  }

  lemma {:induction false} RoundBurnsFuel(plan: Plan, jump: Option<(nat, nat)>, clock: nat -> int, st: State)
    requires Bounded(plan, jump) && !Done(plan, st)
    ensures var st' := Round(plan, clock, st);
            && |st'.trace| <= |st.trace| + 1
            && FuelOf(plan, jump, st.i, st.ctx) >= 1
            && (!st'.halted ==>
                  st'.i <= |plan| && FuelOf(plan, jump, st'.i, st'.ctx) < FuelOf(plan, jump, st.i, st.ctx))
  {
    hide Tame, JumpsLeft, Lookup, Overwritten;
    if jump.Some? {
      hide Round;
      var (b, t) := jump.value;
      RoundBurns(plan, clock, b, t, st);
      if t <= b {
        FewerJumps(JumpsLeft(MarksOf(plan), b, t, st.i, st.ctx.remaining, st.ctx.loopContinue), 0, b - t + 1);
      }
    }
  }

  /** Every run of a bounded plan ends, from any context, after no more rounds and node calls than its fuel. */
  lemma {:induction false} RunEnds(plan: Plan, jump: Option<(nat, nat)>, clock: nat -> int, st: State) returns (k: nat)
    requires Bounded(plan, jump) && st.i <= |plan|
    ensures Done(plan, Run(plan, clock, st, k))
    ensures !Done(plan, st) ==>
              && k <= FuelOf(plan, jump, st.i, st.ctx)
              && |Run(plan, clock, st, k).trace| <= |st.trace| + FuelOf(plan, jump, st.i, st.ctx)
    decreases if Done(plan, st) then 0 else FuelOf(plan, jump, st.i, st.ctx)
  {
    hide Round, FuelOf, Bounded;
    if Done(plan, st) { return 0; }
    RoundBurnsFuel(plan, jump, clock, st);
    var st' := Round(plan, clock, st);
    if Done(plan, st') {
      k := 1;
      assert Run(plan, clock, st, 1) == Run(plan, clock, st', 0);
    } else {
      var k' := RunEnds(plan, jump, clock, st');
      k := k' + 1;
    }
  }

  // ----- one loop_start -----

  /** One loop_start at `s` allowing `m` iterations, and one jump, from the loop_back at `b` to `t`. */
  ghost predicate Geometry(plan: Plan, s: nat, b: nat, t: nat, m: nat) {
    && Jumps(plan, b, t) && plan[b].node.LoopBack?
    && s < |plan| && plan[s].node.LoopStart? && plan[s].node.maxIterations == m
    && (forall i :: 0 <= i < |plan| && i != s ==> !plan[i].node.LoopStart?)
  }

  datatype Loop = Loop(start: nat, back: nat, target: nat, maxIterations: nat)

  /** With no loop_start ahead the budget does not grow; with the one ahead it is at most the larger of the two. */
  lemma {:induction false} OneStartBudget(plan: Plan, loop: Loop, i: nat, j: nat, r: nat)
    requires Geometry(plan, loop.start, loop.back, loop.target, loop.maxIterations) && j <= |plan|
    ensures Budget(MarksOf(plan), loop.back, i, j, r) <=
            if i <= loop.start < j then Larger(r, loop.maxIterations) else r
    decreases j - i
  {
    if i < j {
      OneStartBudget(plan, loop, i + 1, j, Passed(MarksOf(plan)[i], r, i == loop.back));
    }
  }

  /** A jump that leaves a loop_back is decided there alone. */
  lemma {:induction false} OwnDecision(marks: Marks, b: nat, t: nat, n: nat, i: nat, r: nat)
    requires n <= b < |marks| && marks[b].Back?
    ensures CausesBelow(marks, b, t, n, i, r) == 0
    ensures forall q :: 0 <= q < n ==> !Decides(marks, b, q)
    decreases n
  {
    if n > 0 { OwnDecision(marks, b, t, n - 1, i, r); }
  }

  lemma {:induction false} OneStartTame(plan: Plan, loop: Loop)
    requires Geometry(plan, loop.start, loop.back, loop.target, loop.maxIterations)
    requires loop.start < loop.target <= loop.back
    ensures Tame(MarksOf(plan), loop.back, loop.target)
  {
    var marks, b, t := MarksOf(plan), loop.back, loop.target;
    OwnDecision(marks, b, t, b, 0, 0);
    OneStartBudget(plan, loop, b + 1, b + 1, 0);
    OneStartBudget(plan, loop, t, b, 0);
    hide Budget, Decides, Geometry;
    forall q | t <= q <= b && Decides(marks, b, q) ensures Again(marks, b, t, q) <= 1 {
      assert q == b;
    }
  }

  /** The bound on node calls: the whole plan once, plus the loop's span for each further iteration. */
  lemma {:induction false} CallBound(plan: Plan, clock: nat -> int, loop: Loop, ctx: Ctx) returns (k: nat)
    requires Geometry(plan, loop.start, loop.back, loop.target, loop.maxIterations)
    requires loop.start < loop.target <= loop.back
    requires loop.maxIterations >= 1 && ctx.remaining == 0
    ensures Done(plan, Run(plan, clock, Begin(ctx), k))
    ensures |Run(plan, clock, Begin(ctx), k).trace| <=
            |plan| + (loop.maxIterations - 1) * (loop.back - loop.target + 1)
  {
    hide Run, Tame, Budget;
    var Loop(s, b, t, m) := loop;
    var marks := MarksOf(plan);
    OneStartTame(plan, loop);
    OneStartBudget(plan, loop, 0, b, 0);
    OwnDecision(marks, b, t, b, 0, 0);
    assert !Lasting(marks, b, 0) by { assert marks[b].Back?; }
    assert JumpsLeft(marks, b, t, 0, 0, ctx.loopContinue) <= m - 1;
    FewerJumps(m - 1, JumpsLeft(marks, b, t, 0, 0, ctx.loopContinue), b - t + 1);
    hide JumpsLeft;
    k := RunEnds(plan, Some((b, t)), clock, Begin(ctx));
  }

  /** `execute` */
  method Execute(plan: Plan, clock: nat -> int, ctx0: Ctx, ghost jump: Option<(nat, nat)>)
    returns (ctx: Ctx, calls: nat, rounds: nat)
    requires Bounded(plan, jump)
    ensures var final := Run(plan, clock, Begin(ctx0), rounds);
            Done(plan, final) && ctx == final.ctx && calls == |final.trace|
  {
    hide FuelOf, Bounded;
    var i := 0;
    ctx, calls, rounds := ctx0, 0, 0;
    ghost var st := Begin(ctx0);
    while i < |plan|
      invariant st == Run(plan, clock, Begin(ctx0), rounds) && !st.halted
      invariant i == st.i <= |plan| && ctx == st.ctx && calls == |st.trace|
      decreases FuelOf(plan, jump, i, ctx)
    {
      RoundBurnsFuel(plan, jump, clock, st);
      RunMore(plan, clock, Begin(ctx0), rounds, 1);
      st := Round(plan, clock, st);
      assert st == Run(plan, clock, Begin(ctx0), rounds + 1) by {
        RunOnce(plan, clock, Run(plan, clock, Begin(ctx0), rounds));
      }
      rounds := rounds + 1;
      var step := plan[i];
      if step.branch != "" && step.branch != ctx.activeBranch {
        i := i + 1;
        continue;
      }
      var r;
      r, ctx := ProcessNode(step.node, ctx, clock(calls));
      calls := calls + 1;
      if r == Stop { return; }
      if r == Error {
        ctx := ctx.(failed := true, failedStep := i);
        return;
      }
      if ctx.loopContinue && step.jump.Some? {
        i := step.jump.value;
        ctx := ctx.(loopContinue := false);
        continue;
      }
      i := i + 1;
    }
  }
}
