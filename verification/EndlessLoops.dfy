/** Exactly which placements of loop nodes and of the jump let a run go on for ever
    (include/aero/core/compiled_flow.hpp, include/aero/nodes/loop_nodes.hpp). */
module EndlessLoops {
  import opened Wrappers
  import opened FlowExecutor
  import opened FlowTermination

  /** The plan has loop nodes like these, and one jump, from `b` to `t`. */
  ghost predicate Placed(plan: Plan, marks: Marks, b: nat, t: nat) {
    Jumps(plan, b, t) && MarksOf(plan) == marks
  }

  /** The most budget that `q` finds when it is first reached. */
  function First(marks: Marks, b: nat, q: nat): nat
    requires q <= b < |marks|
  {
    Budget(marks, b, 0, q, 0)
  }

  /** Of the loop_backs that the jump runs again and that can decide about it, none finds a budget of two both at first
      and ever again. */
  ghost predicate Safe(marks: Marks, b: nat, t: nat) {
    forall q :: t <= q <= b < |marks| && Decides(marks, b, q) ==>
      First(marks, b, q) <= 1 || Again(marks, b, t, q) <= 1
  }

  /** No loop_back before the jump's target decides with a budget of two while another one behind the target can decide
      too. So it is if no loop_back carries a label, if the jump leaves a loop_back, and if all of them stand behind the
      target. */
  ghost predicate Settled(marks: Marks, b: nat, t: nat) {
    forall p: nat, q: nat :: p < t <= q <= b < |marks| && Decides(marks, b, p) && Decides(marks, b, q) ==>
      First(marks, b, p) <= 1
  }

  ghost predicate Unlabelled(marks: Marks) {
    forall i :: 0 <= i < |marks| && !marks[i].Plain? ==> marks[i].always
  }

  lemma {:induction false} UnlabelledIsSettled(marks: Marks, b: nat, t: nat)
    requires Unlabelled(marks)
    ensures Settled(marks, b, t)
  {
    forall p: nat, q: nat | p < q <= b < |marks| && Decides(marks, b, q) ensures !Decides(marks, b, p) {
      assert marks[q].always;
    }
  }

  lemma {:induction false} OwnJumpIsSettled(marks: Marks, b: nat, t: nat)
    requires b < |marks| && marks[b].Back?
    ensures Settled(marks, b, t)
  {
    OwnDecision(marks, b, t, b, 0, 0);
  }

  lemma {:induction false} BehindTargetIsSettled(marks: Marks, b: nat, t: nat)
    requires forall p :: 0 <= p < t && p < |marks| ==> !marks[p].Back?
    ensures Settled(marks, b, t)
  {
  }

  /** As a context is when a run begins: no budget yet, and no pass asked for. */
  ghost predicate Rested(ctx: Ctx) {
    ctx.remaining == 0 && !ctx.loopContinue
  }

  ghost predicate Ends(plan: Plan, clock: nat -> int, ctx: Ctx) {
    exists k: nat :: Done(plan, Run(plan, clock, Begin(ctx), k))
  }

  ghost predicate EndsAlways(plan: Plan) {
    forall clock: nat -> int, ctx: Ctx :: Rested(ctx) ==> Ends(plan, clock, ctx)
  }

  // ----- a first pass that cannot jump -----

  /** Every loop_back that can decide will find a budget of one at most. */
  ghost predicate Poor(marks: Marks, b: nat, i: nat, r: nat)
    requires b < |marks|
  {
    forall q :: i <= q <= b && Decides(marks, b, q) ==> Budget(marks, b, i, q, r) <= 1
  }

  /** So nothing that lasts asks for a jump. */
  ghost predicate Quiet(marks: Marks, b: nat, i: nat, r: nat, going: bool)
    requires b < |marks|
  {
    Poor(marks, b, i, r) && (i <= b && going ==> !Lasting(marks, b, i))
  }

  lemma {:induction false} PoorOnward(marks: Marks, b: nat, i: nat, r: nat, r': nat)
    requires i <= b < |marks| && Poor(marks, b, i, r) && r' <= Passed(marks[i], r, false)
    ensures Poor(marks, b, i + 1, r')
  {
    hide Budget, Decides, Passed;
    forall q | i + 1 <= q <= b && Decides(marks, b, q) ensures Budget(marks, b, i + 1, q, r') <= 1 {
      StepOn(marks, b, i, q, r, r');
    }
  }

  lemma {:induction false} StepOn(marks: Marks, b: nat, i: nat, q: nat, r: nat, r': nat)
    requires i < q <= b < |marks| && r' <= Passed(marks[i], r, false)
    ensures Budget(marks, b, i + 1, q, r') <= Budget(marks, b, i, q, r)
  {
    hide Passed;
    BudgetStep(marks, b, i, q, r, r');
  }

  lemma {:induction false} QuietOnward(marks: Marks, b: nat, i: nat, r: nat, going: bool, r': nat, going': bool)
    requires b < |marks| && i < |marks| && Quiet(marks, b, i, r, going) && WentOn(marks, i, r, going, r', going')
    ensures Quiet(marks, b, i + 1, r', going')
  {
    hide Lasting, Budget, Decides, Poor;
    if i <= b { PoorOnward(marks, b, i, r, r'); } else { NobodyPoor(marks, b, i + 1, r'); }
    if i < b {
      LastingOnward(marks, b, i);
      PoorHere(marks, b, i, r);
    }
  }

  lemma {:induction false} NobodyPoor(marks: Marks, b: nat, i: nat, r: nat)
    requires b < |marks| && i > b
    ensures Poor(marks, b, i, r)
  {
  }

  lemma {:induction false} PoorHere(marks: Marks, b: nat, i: nat, r: nat)
    requires i <= b < |marks| && Poor(marks, b, i, r)
    ensures Decides(marks, b, i) ==> r <= 1
  {
    hide Decides;
    BudgetHere(marks, b, i, r);
  }

  lemma {:induction false} QuietNeverJumps(marks: Marks, b: nat, r: nat, going: bool, r': nat)
    requires b < |marks| && Quiet(marks, b, b, r, going)
    ensures !JumpedBack(marks, b, r, going, r')
  {
    LastingAtJump(marks, b);
    PoorHere(marks, b, b, r);
    if marks[b].Back? { assert Decides(marks, b, b); }
  }

  lemma {:induction false} QuietEnds(plan: Plan, clock: nat -> int, b: nat, t: nat, st: State) returns (k: nat)
    requires Jumps(plan, b, t)
    requires Quiet(MarksOf(plan), b, st.i, st.ctx.remaining, st.ctx.loopContinue)
    ensures Done(plan, Run(plan, clock, st, k))
    decreases if st.halted then 0 else |plan| - st.i
  {
    hide Round, Quiet, WentOn, JumpedBack;
    if Done(plan, st) { return 0; }
    RoundMoves(plan, clock, b, t, st);
    var st', marks := Round(plan, clock, st), MarksOf(plan);
    if st.i == b {
      QuietNeverJumps(marks, b, st.ctx.remaining, st.ctx.loopContinue, st'.ctx.remaining);
    }
    if st'.halted {
      k := 1;
      assert Run(plan, clock, st, 1) == Run(plan, clock, st', 0);
    } else {
      QuietOnward(marks, b, st.i, st.ctx.remaining, st.ctx.loopContinue, st'.ctx.remaining, st'.ctx.loopContinue);
      var k' := QuietEnds(plan, clock, b, t, st');
      k := k' + 1;
    }
  }

  // ----- if one is restless but never gets going, so is no other -----

  lemma {:induction false} EarlierIsRestless(marks: Marks, b: nat, t: nat, p: nat, q: nat)
    requires t <= p < q <= b < |marks|
    requires First(marks, b, p) >= 2 && First(marks, b, q) <= 1 && Again(marks, b, t, q) >= 2
    ensures Again(marks, b, t, p) >= 2
  {
    hide Budget;
    var y, y' := Budget(marks, b, q + 1, b + 1, 0), Budget(marks, b, p + 1, b + 1, 0);
    var x := Budget(marks, b, t, p, y);
    BudgetJoined(marks, b, t, p, q, y);
    BudgetJoined(marks, b, 0, p, q, 0);
    if x <= First(marks, b, p) { BudgetMonotone(marks, b, p, q, x, First(marks, b, p)); }
    BudgetJoined(marks, b, p + 1, q + 1, b + 1, 0);
    BudgetMonotone(marks, b, q + 1, b + 1, 0, Budget(marks, b, p + 1, q + 1, 0));
    BudgetMonotone(marks, b, t, p, y, y');
  }

  lemma {:induction false} LaterIsRestless(marks: Marks, b: nat, t: nat, p: nat, q: nat)
    requires t <= q < p <= b < |marks|
    requires First(marks, b, p) >= 2 && First(marks, b, q) <= 1
    ensures Again(marks, b, t, p) >= 2
  {
    hide Budget;
    var y := Budget(marks, b, p + 1, b + 1, 0);
    BudgetJoined(marks, b, 0, q, p, 0);
    BudgetFromNothing(marks, b, q, p, First(marks, b, q), 0);
    BudgetJoined(marks, b, t, q, p, y);
    BudgetMonotone(marks, b, q, p, 0, Budget(marks, b, t, q, y));
  }

  lemma {:induction false} TameOrPoor(marks: Marks, b: nat, t: nat)
    requires b < |marks| && Settled(marks, b, t) && Safe(marks, b, t)
    ensures Tame(marks, b, t) || Poor(marks, b, 0, 0)
  {
    hide Budget, Decides, Again;
    if !Tame(marks, b, t) {
      var q :| t <= q <= b && Decides(marks, b, q) && Again(marks, b, t, q) >= 2;
      forall p | 0 <= p <= b && Decides(marks, b, p) ensures First(marks, b, p) <= 1 {
        if First(marks, b, p) >= 2 {
          if t <= p < q { EarlierIsRestless(marks, b, t, p, q); }
          if q < p { LaterIsRestless(marks, b, t, p, q); }
        }
      }
    }
  }

  /** A safe placement: every run ends. */
  lemma {:induction false} SafeEnds(plan: Plan, clock: nat -> int, b: nat, t: nat, ctx: Ctx) returns (k: nat)
    requires Jumps(plan, b, t) && Settled(MarksOf(plan), b, t) && Safe(MarksOf(plan), b, t) && Rested(ctx)
    ensures Done(plan, Run(plan, clock, Begin(ctx), k))
  {
    hide Run, Poor, Settled, Safe, Tame;
    TameOrPoor(MarksOf(plan), b, t);
    if Tame(MarksOf(plan), b, t) {
      k := RunEnds(plan, Some((b, t)), clock, Begin(ctx));
    } else {
      k := QuietEnds(plan, clock, b, t, Begin(ctx));
    }
  }

  // ----- a run that never ends -----

  /** A loop_back that always asks for another pass, and one that never does. */
  const INSATIABLE: Node := LoopBack("n", _ => 0.0, (tags: Tags) => Lookup(tags, "n"))
  const SATED: Node := LoopBack("n", _ => 0.0, (tags: Tags) => Lookup(tags, "n") - 1.0)

  function Starter(passes: nat): Node {
    LoopStart("n", _ => 0.0, passes, 1)
  }

  const TURN: Node := Switch(_ => 1.0)

  function EndlessNode(mark: Mark, asks: bool, turns: bool): Node {
    match mark
    case Plain => if turns then TURN else IDLE
    case Start(passes, _) => Starter(passes)
    case Back(_) => if asks then INSATIABLE else SATED
  }

  /** Of the labelled steps these run: `q`, the jump, and every loop_start that gives `q` a budget of two. */
  function Chosen(marks: Marks, b: nat, t: nat, q: nat, i: nat): bool
    requires q <= b < |marks| && i < |marks|
  {
    i == q || i == b || (marks[i].Start? && Next(marks, b, t, q, i + 1, marks[i].passes) >= 2)
  }

  /** Loop nodes with a label stand behind the plain step `w`, if there are any. So they do in every flow: its first
      node is a Source, and no edge enters it. */
  ghost predicate Opens(marks: Marks, w: nat) {
    && (w < |marks| ==> marks[w].Plain?)
    && forall i :: 0 <= i < w && i < |marks| && !marks[i].Plain? ==> marks[i].always
  }

  function EndlessStep(marks: Marks, b: nat, t: nat, q: nat, w: nat, i: nat): (step: Step)
    requires q <= b < |marks| && i < |marks|
    ensures MarkOf(step) == marks[i]
  {
    Step(EndlessNode(marks[i], i == q, i == w),
         if marks[i].Plain? || marks[i].always then "" else if Chosen(marks, b, t, q, i) then "true" else "false",
         if i == b then Some(t) else None)
  }

  /** A plan with these loop nodes in which step `w` turns to "true" and `q` always asks for another pass. */
  function Endless(marks: Marks, b: nat, t: nat, q: nat, w: nat): (plan: Plan)
    requires q <= b < |marks| && t < |marks|
    ensures Placed(plan, marks, b, t)
  {
    var plan := seq(|marks|, i requires 0 <= i < |marks| => EndlessStep(marks, b, t, q, w, i));
    assert MarksOf(plan) == marks;
    plan
  }

  /** `q` decides about the jump and finds a budget of two again and again. */
  ghost predicate Restless(marks: Marks, b: nat, t: nat, q: nat) {
    t <= q <= b < |marks| && Decides(marks, b, q) && Again(marks, b, t, q) >= 2
  }

  /** What stays true while the endless loop runs on a clock that stands still. */
  ghost predicate Circling(marks: Marks, b: nat, t: nat, q: nat, w: nat, st: State)
    requires q <= b < |marks|
  {
    && !st.halted && st.i <= b && (st.ctx.deadline.None? || st.ctx.deadline == Some(1))
    && (w < st.i ==> st.ctx.activeBranch == "true")
    && Next(marks, b, t, q, st.i, st.ctx.remaining) >= 2
    && (q < st.i ==> st.ctx.loopContinue)
  }

  lemma {:induction false} NextUnfolds(marks: Marks, b: nat, t: nat, q: nat, i: nat, r: nat)
    requires t <= q <= b < |marks| && i < b && i != q
    ensures Next(marks, b, t, q, i, r) == Next(marks, b, t, q, i + 1, Passed(marks[i], r, false))
  {
  }

  lemma {:induction false} CirclesPlain(marks: Marks, b: nat, t: nat, q: nat, w: nat, st: State)
    requires Restless(marks, b, t, q) && t < |marks| && Opens(marks, w)
    requires Circling(marks, b, t, q, w, st) && st.i < b && marks[st.i].Plain?
    ensures Circling(marks, b, t, q, w, Round(Endless(marks, b, t, q, w), STILL, st))
  {
    hide Next, Budget, Lasting;
    NextUnfolds(marks, b, t, q, st.i, st.ctx.remaining);
  }

  lemma {:induction false} CirclesStart(marks: Marks, b: nat, t: nat, q: nat, w: nat, st: State)
    requires Restless(marks, b, t, q) && t < |marks| && Opens(marks, w)
    requires Circling(marks, b, t, q, w, st) && st.i < b && marks[st.i].Start?
    ensures Circling(marks, b, t, q, w, Round(Endless(marks, b, t, q, w), STILL, st))
  {
    hide Next, Budget, Lasting, Overwritten;
    NextUnfolds(marks, b, t, q, st.i, st.ctx.remaining);
  }

  lemma {:induction false} CirclesOtherBack(marks: Marks, b: nat, t: nat, q: nat, w: nat, st: State)
    requires Restless(marks, b, t, q) && t < |marks| && Opens(marks, w) && Circling(marks, b, t, q, w, st)
    requires st.i < b && marks[st.i].Back? && st.i != q
    ensures Circling(marks, b, t, q, w, Round(Endless(marks, b, t, q, w), STILL, st))
  {
    hide Next, Budget, Overwritten, Lookup;
    NextUnfolds(marks, b, t, q, st.i, st.ctx.remaining);
    LookupOverwritten(st.ctx.tags, "n", Lookup(st.ctx.tags, "n") + 0.0);
    assert st.i < q || !marks[st.i].always;
  }

  lemma {:induction false} CirclesAsking(marks: Marks, b: nat, t: nat, q: nat, w: nat, st: State)
    requires Restless(marks, b, t, q) && t < |marks| && Opens(marks, w) && Circling(marks, b, t, q, w, st) && st.i == q
    ensures Circling(marks, b, t, q, w, Round(Endless(marks, b, t, q, w), STILL, st))
  {
    hide Budget, Overwritten, Lookup, Lasting;
    var r := st.ctx.remaining;
    BudgetHere(marks, b, q, r);
    LookupOverwritten(st.ctx.tags, "n", Lookup(st.ctx.tags, "n") + 0.0);
    BudgetMonotone(marks, b, q + 1, b + 1, 0, r - 1);
    BudgetMonotone(marks, b, t, q, Budget(marks, b, q + 1, b + 1, 0), Budget(marks, b, q + 1, b + 1, r - 1));
    if q == b { BudgetHere(marks, b, b + 1, 0); BudgetHere(marks, b, b + 1, r - 1); }
  }

  lemma {:induction false} CirclesJump(marks: Marks, b: nat, t: nat, q: nat, w: nat, st: State)
    requires Restless(marks, b, t, q) && t < |marks| && Opens(marks, w)
    requires Circling(marks, b, t, q, w, st) && st.i == b && q < b
    ensures Circling(marks, b, t, q, w, Round(Endless(marks, b, t, q, w), STILL, st))
  {
    hide Overwritten, Lookup;
    assert !marks[b].Back?;
    assert Budget(marks, b, b, b + 1, st.ctx.remaining) == Passed(marks[b], st.ctx.remaining, true);
  }

  lemma {:induction false} CirclesOn(marks: Marks, b: nat, t: nat, q: nat, w: nat, st: State)
    requires Restless(marks, b, t, q) && t < |marks| && Opens(marks, w) && Circling(marks, b, t, q, w, st)
    ensures !Done(Endless(marks, b, t, q, w), st)
    ensures Circling(marks, b, t, q, w, Round(Endless(marks, b, t, q, w), STILL, st))
  {
    hide Round, Next, Decides, Again, Endless;
    if st.i == q {
      CirclesAsking(marks, b, t, q, w, st);
    } else if st.i == b {
      CirclesJump(marks, b, t, q, w, st);
    } else {
      match marks[st.i]
      case Plain => CirclesPlain(marks, b, t, q, w, st);
      case Start(_, _) => CirclesStart(marks, b, t, q, w, st);
      case Back(_) => CirclesOtherBack(marks, b, t, q, w, st);
    }
  }

  lemma {:induction false} CirclesForever(marks: Marks, b: nat, t: nat, q: nat, w: nat, st: State, k: nat)
    requires Restless(marks, b, t, q) && t < |marks| && Opens(marks, w) && Circling(marks, b, t, q, w, st)
    ensures !Done(Endless(marks, b, t, q, w), Run(Endless(marks, b, t, q, w), STILL, st, k))
    decreases k
  {
    hide Round, Endless, Circling, Decides, Again;
    CirclesOn(marks, b, t, q, w, st);
    if k > 0 {
      CirclesForever(marks, b, t, q, w, Round(Endless(marks, b, t, q, w), STILL, st), k - 1);
    }
  }

  /** A deciding loop_back that finds a budget of two at first and ever again can keep a run going for ever. */
  lemma {:induction false} NeverEnds(marks: Marks, b: nat, t: nat, q: nat, w: nat)
    requires Restless(marks, b, t, q) && t < |marks| && Opens(marks, w) && First(marks, b, q) >= 2
    ensures !Ends(Endless(marks, b, t, q, w), STILL, FRESH)
  {
    hide Run, Endless, Budget, Opens, Decides, Again;
    forall k: nat ensures !Done(Endless(marks, b, t, q, w), Run(Endless(marks, b, t, q, w), STILL, Begin(FRESH), k)) {
      CirclesForever(marks, b, t, q, w, Begin(FRESH), k);
    }
  }

  // ----- exactness -----

  lemma {:induction false} SafeIsNeeded(marks: Marks, b: nat, t: nat, w: nat)
    requires b < |marks| && t < |marks| && Opens(marks, w) && !Safe(marks, b, t)
    ensures exists plan :: Placed(plan, marks, b, t) && !Ends(plan, STILL, FRESH)
  {
    hide Endless, Budget, Opens, Decides, Ends, Placed;
    var q :| t <= q <= b && Decides(marks, b, q) && First(marks, b, q) >= 2 && Again(marks, b, t, q) >= 2;
    NeverEnds(marks, b, t, q, w);
    assert Placed(Endless(marks, b, t, q, w), marks, b, t);
  }

  lemma {:induction false} SafeSuffices(marks: Marks, b: nat, t: nat, plan: Plan, clock: nat -> int, ctx: Ctx)
    requires Settled(marks, b, t) && Safe(marks, b, t) && Placed(plan, marks, b, t) && Rested(ctx)
    ensures Ends(plan, clock, ctx)
  {
    hide Safe, Settled, Run;
    var k := SafeEnds(plan, clock, b, t, ctx);
  }

  /** Whatever node the jump leaves, and however many loop nodes there are: exactly the safe placements guarantee that
      every run from a context just reset ends; and then so does every run from any context at rest. */
  lemma {:induction false} EndsExactlyWhenSafe(marks: Marks, b: nat, t: nat, w: nat)
    requires b < |marks| && t < |marks| && Settled(marks, b, t) && Opens(marks, w)
    ensures Safe(marks, b, t) <==>
            forall plan, clock: nat -> int :: Placed(plan, marks, b, t) ==> Ends(plan, clock, FRESH)
    ensures Safe(marks, b, t) ==> forall plan :: Placed(plan, marks, b, t) ==> EndsAlways(plan)
  {
    hide Safe, Settled, Placed, Ends, Opens;
    if Safe(marks, b, t) {
      forall plan, clock: nat -> int, ctx: Ctx | Placed(plan, marks, b, t) && Rested(ctx)
        ensures Ends(plan, clock, ctx)
      {
        SafeSuffices(marks, b, t, plan, clock, ctx);
      }
    } else {
      SafeIsNeeded(marks, b, t, w);
    }
  }

  /** If no loop node carries a label, nothing else need be known. */
  lemma {:induction false} UnlabelledEndsExactly(marks: Marks, b: nat, t: nat)
    requires b < |marks| && t < |marks| && Unlabelled(marks)
    ensures Safe(marks, b, t) <==>
            forall plan, clock: nat -> int :: Placed(plan, marks, b, t) ==> Ends(plan, clock, FRESH)
  {
    hide Safe, Settled, Placed, Ends, Decides;
    UnlabelledIsSettled(marks, b, t);
    assert Opens(marks, |marks|);
    hide Opens, Unlabelled;
    EndsExactlyWhenSafe(marks, b, t, |marks|);
  }

  /** If the jump leaves a loop_back, exactly the tame placements guarantee it, and from any context at all. */
  lemma {:induction false} OwnJumpEndsExactly(marks: Marks, b: nat, t: nat, w: nat)
    requires b < |marks| && t < |marks| && marks[b].Back? && Opens(marks, w)
    ensures Tame(marks, b, t) <==>
            forall plan, clock: nat -> int, ctx: Ctx :: Placed(plan, marks, b, t) ==> Ends(plan, clock, ctx)
  {
    hide Tame, Safe, Ends, Run, Placed, Opens;
    if Tame(marks, b, t) {
      forall plan, clock: nat -> int, ctx: Ctx | Placed(plan, marks, b, t) ensures Ends(plan, clock, ctx) {
        TameSuffices(marks, b, t, plan, clock, ctx);
      }
    } else {
      OwnJumpUnsafe(marks, b, t);
      SafeIsNeeded(marks, b, t, w);
    }
  }

  lemma {:induction false} TameSuffices(marks: Marks, b: nat, t: nat, plan: Plan, clock: nat -> int, ctx: Ctx)
    requires Tame(marks, b, t) && Placed(plan, marks, b, t)
    ensures Ends(plan, clock, ctx)
  {
    hide Tame, Run;
    var k := RunEnds(plan, Some((b, t)), clock, Begin(ctx));
  }

  lemma {:induction false} OwnJumpUnsafe(marks: Marks, b: nat, t: nat)
    requires b < |marks| && marks[b].Back? && !Tame(marks, b, t)
    ensures !Safe(marks, b, t)
  {
    OwnDecision(marks, b, t, b, 0, 0);
    hide Budget, Decides;
    var q :| t <= q <= b && Decides(marks, b, q) && Again(marks, b, t, q) >= 2;
    BudgetHere(marks, b, b + 1, 0);
    BudgetJoined(marks, b, 0, t, b, 0);
    BudgetMonotone(marks, b, t, b, 0, Budget(marks, b, 0, t, 0));
  }

  // ----- one loop_back -----

  /** The passes that the last loop_start in [i, j) allows. */
  function LastStart(marks: Marks, i: nat, j: nat): Option<nat>
    requires j <= |marks|
    decreases j - i
  {
    if i >= j then None
    else
      match LastStart(marks, i + 1, j)
      case Some(passes) => Some(passes)
      case None => if marks[i].Start? then Some(marks[i].passes) else None
  }

  function OrElse(o: Option<nat>, r: nat): nat {
    match o
    case None => r
    case Some(v) => v
  }

  lemma {:induction false} BudgetOfStarts(marks: Marks, b: nat, i: nat, j: nat, r: nat)
    requires Unlabelled(marks) && j <= |marks| && forall k :: i <= k < j ==> !marks[k].Back?
    ensures Budget(marks, b, i, j, r) == OrElse(LastStart(marks, i, j), r)
    decreases j - i
  {
    if i < j { BudgetOfStarts(marks, b, i + 1, j, Passed(marks[i], r, i == b)); }
  }

  /** With one loop_back up to the jump and no labels, a placement is unsafe exactly if the jump runs that loop_back
      again, the last loop_start before it allows two passes, and so does the last one before it on the way around. */
  lemma {:induction false} LoneBackSafe(marks: Marks, b: nat, t: nat, q: nat)
    requires Unlabelled(marks) && q <= b < |marks| && marks[q].Back?
    requires forall i :: 0 <= i <= b && i != q ==> !marks[i].Back?
    ensures !Safe(marks, b, t) <==>
            && t <= q && OrElse(LastStart(marks, 0, q), 0) >= 2
            && OrElse(LastStart(marks, t, q), OrElse(LastStart(marks, q + 1, b + 1), 0)) >= 2
  {
    hide Budget, LastStart, Unlabelled;
    BudgetOfStarts(marks, b, 0, q, 0);
    BudgetOfStarts(marks, b, q + 1, b + 1, 0);
    BudgetOfStarts(marks, b, t, q, Budget(marks, b, q + 1, b + 1, 0));
    assert Decides(marks, b, q);
    assert forall q': nat :: q' != q ==> !Decides(marks, b, q');
  }
}
