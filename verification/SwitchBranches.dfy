/** Which branches of a flow one run can take (include/aero/core/compiled_flow.hpp,
    include/aero/nodes/switch_node.hpp). */
module SwitchBranches {
  import opened Wrappers
  import opened FlowExecutor

  /** What branch routing sees of a step. */
  datatype Spot = Spot(isSwitch: bool, branch: string)

  type Shape = seq<Spot>

  function ShapeOf(plan: Plan): Shape {
    seq(|plan|, i requires 0 <= i < |plan| => Spot(plan[i].node.Switch?, plan[i].branch))
  }

  /** The labels of the two sides of a switch. */
  predicate Opposite(a: string, b: string) {
    (a == "true" && b == "false") || (a == "false" && b == "true")
  }

  /** The steps `i` and `j` are on opposite branches, a switch that always runs stands before `i`, and a switch that
      runs whenever `i` does stands between them. */
  ghost predicate Interferes(shape: Shape, i: nat, j: nat) {
    && i < j < |shape| && Opposite(shape[i].branch, shape[j].branch)
    && (exists u :: 0 <= u < i && shape[u] == Spot(true, ""))
    && (exists w :: i <= w < j && shape[w].isSwitch && shape[w].branch in {"", shape[i].branch})
  }

  // ----- what every run keeps -----

  predicate Called(plan: Plan, trace: seq<nat>, w: int) {
    0 <= w < |trace| && trace[w] < |plan|
  }

  /** The call at position `w` is of a switch that always runs. */
  predicate Decides(plan: Plan, trace: seq<nat>, w: int) {
    Called(plan, trace, w) && plan[trace[w]].node.Switch? && plan[trace[w]].branch == ""
  }

  /** The call at position `w` is of a switch that leaves branch `branch`. */
  predicate Turns(plan: Plan, trace: seq<nat>, w: int, branch: string) {
    Called(plan, trace, w) && plan[trace[w]].node.Switch? && plan[trace[w]].branch in {"", branch}
  }

  /** The branch that the call at position `x` is on. */
  function BranchAt(plan: Plan, trace: seq<nat>, x: int): string {
    if Called(plan, trace, x) then plan[trace[x]].branch else ""
  }

  /** Whenever a branch is active a deciding switch has been called. */
  ghost predicate Decided(plan: Plan, st: State) {
    && st.ctx.activeBranch in {"", "true", "false"}
    && (st.ctx.activeBranch != "" ==> exists w :: Decides(plan, st.trace, w))
  }

  /** So it has before every labelled call. */
  ghost predicate DecidedBefore(plan: Plan, trace: seq<nat>, x: int) {
    BranchAt(plan, trace, x) != "" ==>
      BranchAt(plan, trace, x) in {"true", "false"} && exists w :: 0 <= w < x && Decides(plan, trace, w)
  }

  /** If the call at `x` is on another branch than `branch`, a switch that leaves its branch was called from `x` on and
      before `y`. */
  ghost predicate TurnedBetween(plan: Plan, trace: seq<nat>, x: int, y: int, branch: string) {
    BranchAt(plan, trace, x) != "" && branch != BranchAt(plan, trace, x) ==>
      exists w :: x <= w < y && Turns(plan, trace, w, BranchAt(plan, trace, x))
  }

  ghost predicate Routed(plan: Plan, st: State) {
    && Decided(plan, st)
    && (forall x :: 0 <= x < |st.trace| ==> Called(plan, st.trace, x))
    && (forall x :: 0 <= x < |st.trace| ==> DecidedBefore(plan, st.trace, x))
    && (forall x :: 0 <= x < |st.trace| ==> TurnedBetween(plan, st.trace, x, |st.trace|, st.ctx.activeBranch))
    && (forall x, y :: 0 <= x < y < |st.trace| && BranchAt(plan, st.trace, y) != "" ==>
          TurnedBetween(plan, st.trace, x, y, BranchAt(plan, st.trace, y)))
  }

  /** What one round does to the calls and the active branch. */
  ghost predicate Moved(plan: Plan, st: State, st': State)
    requires st.i < |plan|
  {
    || (st'.trace == st.trace && st'.ctx.activeBranch == st.ctx.activeBranch)
    || (&& st'.trace == st.trace + [st.i] && plan[st.i].branch in {"", st.ctx.activeBranch}
        && (if plan[st.i].node.Switch? then st'.ctx.activeBranch in {"true", "false"}
            else st'.ctx.activeBranch == st.ctx.activeBranch))
  }

  lemma {:induction false} RoundMoved(plan: Plan, clock: nat -> int, st: State)
    requires !Done(plan, st)
    ensures Moved(plan, st, Round(plan, clock, st))
  {
    hide Lookup, Overwritten;
  }

  /** Earlier calls stay what they were. */
  lemma {:induction false} Earlier(plan: Plan, trace: seq<nat>, i: nat, x: int)
    requires i < |plan| && x < |trace|
    ensures Called(plan, trace + [i], x) == Called(plan, trace, x)
    ensures Decides(plan, trace + [i], x) == Decides(plan, trace, x)
    ensures BranchAt(plan, trace + [i], x) == BranchAt(plan, trace, x)
    ensures forall branch :: Turns(plan, trace + [i], x, branch) == Turns(plan, trace, x, branch)
  {
  }

  lemma {:induction false} DecidedNext(plan: Plan, st: State, st': State)
    requires st.i < |plan| && Routed(plan, st) && Moved(plan, st, st')
    ensures Decided(plan, st')
  {
    hide DecidedBefore, TurnedBetween, BranchAt, Turns;
    if st'.trace == st.trace + [st.i] && st'.ctx.activeBranch != "" {
      if plan[st.i].node.Switch? && plan[st.i].branch == "" {
        assert Decides(plan, st'.trace, |st.trace|);
      } else {
        var w :| Decides(plan, st.trace, w);
        Earlier(plan, st.trace, st.i, w);
      }
    }
  }

  lemma {:induction false} DecidedBeforeNext(plan: Plan, st: State, x: nat)
    requires st.i < |plan| && Routed(plan, st) && x <= |st.trace|
    requires plan[st.i].branch in {"", st.ctx.activeBranch}
    ensures DecidedBefore(plan, st.trace + [st.i], x)
  {
    hide TurnedBetween, Turns;
    var trace' := st.trace + [st.i];
    if BranchAt(plan, trace', x) != "" {
      if x < |st.trace| {
        Earlier(plan, st.trace, st.i, x);
        assert DecidedBefore(plan, st.trace, x);
        var w :| 0 <= w < x && Decides(plan, st.trace, w);
        Earlier(plan, st.trace, st.i, w);
      } else {
        var w :| Decides(plan, st.trace, w);
        Earlier(plan, st.trace, st.i, w);
      }
    }
  }

  /** A turn seen earlier is still there. */
  lemma {:induction false} TurnedEarlier(plan: Plan, trace: seq<nat>, i: nat, x: int, y: int, branch: string)
    requires i < |plan| && 0 <= x < |trace| && y <= |trace| && TurnedBetween(plan, trace, x, y, branch)
    ensures TurnedBetween(plan, trace + [i], x, y, branch)
  {
    hide BranchAt, Turns;
    Earlier(plan, trace, i, x);
    if BranchAt(plan, trace, x) != "" && branch != BranchAt(plan, trace, x) {
      var w :| x <= w < y && Turns(plan, trace, w, BranchAt(plan, trace, x));
      Earlier(plan, trace, i, w);
    }
  }

  lemma {:induction false} TurnedLonger(plan: Plan, trace: seq<nat>, x: int, y: int, y': int, branch: string)
    requires y <= y' && TurnedBetween(plan, trace, x, y, branch)
    ensures TurnedBetween(plan, trace, x, y', branch)
  {
    hide BranchAt, Turns;
  }

  lemma {:induction false} TurnedNext(plan: Plan, st: State, st': State, x: nat)
    requires st.i < |plan| && Routed(plan, st) && Moved(plan, st, st')
    requires st'.trace == st.trace + [st.i] && x <= |st.trace|
    ensures TurnedBetween(plan, st'.trace, x, |st'.trace|, st'.ctx.activeBranch)
  {
    hide DecidedBefore, Decided;
    var n := |st.trace|;
    if x < n {
      TurnedEarlier(plan, st.trace, st.i, x, n, st.ctx.activeBranch);
      TurnedLonger(plan, st'.trace, x, n, n + 1, st.ctx.activeBranch);
      Earlier(plan, st.trace, st.i, x);
    }
    if plan[st.i].node.Switch? && plan[st.i].branch in {"", BranchAt(plan, st'.trace, x)} {
      assert Turns(plan, st'.trace, n, BranchAt(plan, st'.trace, x));
    }
  }

  lemma {:induction false} PairNext(plan: Plan, st: State, x: nat, y: nat)
    requires st.i < |plan| && Routed(plan, st) && x < y <= |st.trace|
    requires plan[st.i].branch in {"", st.ctx.activeBranch} && BranchAt(plan, st.trace + [st.i], y) != ""
    ensures TurnedBetween(plan, st.trace + [st.i], x, y, BranchAt(plan, st.trace + [st.i], y))
  {
    hide DecidedBefore, Decided, TurnedBetween, Turns;
    if y < |st.trace| { Earlier(plan, st.trace, st.i, y); }
    TurnedEarlier(plan, st.trace, st.i, x, y, BranchAt(plan, st.trace + [st.i], y));
  }

  lemma {:induction false} RoundRouted(plan: Plan, clock: nat -> int, st: State)
    requires !Done(plan, st) && Routed(plan, st)
    ensures Routed(plan, Round(plan, clock, st))
  {
    hide Round, DecidedBefore, Decided, TurnedBetween, BranchAt, Routed;
    var st' := Round(plan, clock, st);
    RoundMoved(plan, clock, st);
    DecidedNext(plan, st, st');
    if st'.trace == st.trace {
      SameRouted(plan, st, st');
    } else {
      CallsNext(plan, st, st');
    }
  }

  lemma {:induction false} SameRouted(plan: Plan, st: State, st': State)
    requires Routed(plan, st) && Decided(plan, st')
    requires st'.trace == st.trace && st'.ctx.activeBranch == st.ctx.activeBranch
    ensures Routed(plan, st')
  {
    hide DecidedBefore, Decided, TurnedBetween, BranchAt;
  }

  lemma {:induction false} CallsNext(plan: Plan, st: State, st': State)
    requires st.i < |plan| && Routed(plan, st) && Moved(plan, st, st') && Decided(plan, st')
    requires st'.trace == st.trace + [st.i]
    ensures Routed(plan, st')
  {
    hide DecidedBefore, Decided, TurnedBetween, BranchAt;
    forall x | 0 <= x < |st'.trace|
      ensures Called(plan, st'.trace, x) && DecidedBefore(plan, st'.trace, x)
      ensures TurnedBetween(plan, st'.trace, x, |st'.trace|, st'.ctx.activeBranch)
    {
      if x < |st.trace| { Earlier(plan, st.trace, st.i, x); }
      DecidedBeforeNext(plan, st, x);
      TurnedNext(plan, st, st', x);
    }
    forall x, y | 0 <= x < y < |st'.trace| && BranchAt(plan, st'.trace, y) != ""
      ensures TurnedBetween(plan, st'.trace, x, y, BranchAt(plan, st'.trace, y))
    {
      PairNext(plan, st, x, y);
    }
  }

  /** Every run, with or without jumps, keeps it. */
  lemma {:induction false} RunRouted(plan: Plan, clock: nat -> int, st: State, k: nat)
    requires Routed(plan, st)
    ensures Routed(plan, Run(plan, clock, st, k))
    decreases k
  {
    hide Round, Routed;
    if k > 0 && !Done(plan, st) {
      RoundRouted(plan, clock, st);
      RunRouted(plan, clock, Round(plan, clock, st), k - 1);
    }
  }

  predicate Differ(a: string, b: string) {
    a != "" && b != "" && a != b
  }

  /** The run took no jump back. */
  ghost predicate Straight(trace: seq<nat>) {
    forall x, y :: 0 <= x < y < |trace| ==> trace[x] < trace[y]
  }

  /** Two labelled steps called in one straight run are on the same branch, or they interfere. */
  lemma {:induction false} BranchesApart(plan: Plan, clock: nat -> int, ctx: Ctx, k: nat, x: nat, y: nat)
    requires ctx.activeBranch == ""
    requires var trace := Run(plan, clock, Begin(ctx), k).trace;
             x < y < |trace| && Straight(trace)
    ensures var trace := Run(plan, clock, Begin(ctx), k).trace;
            && trace[x] < |plan| && trace[y] < |plan|
            && (Differ(plan[trace[x]].branch, plan[trace[y]].branch) ==>
                  Interferes(ShapeOf(plan), trace[x], trace[y]))
  {
    hide Run;
    RunRouted(plan, clock, Begin(ctx), k);
    var st := Run(plan, clock, Begin(ctx), k);
    assert Called(plan, st.trace, x) && Called(plan, st.trace, y);
    var i, j := st.trace[x], st.trace[y];
    if Differ(plan[i].branch, plan[j].branch) {
      assert DecidedBefore(plan, st.trace, x) && DecidedBefore(plan, st.trace, y);
      assert TurnedBetween(plan, st.trace, x, y, BranchAt(plan, st.trace, y));
      TurnInterferes(plan, st.trace, x, y);
    }
  }

  lemma {:induction false} TurnInterferes(plan: Plan, trace: seq<nat>, x: nat, y: nat)
    requires Straight(trace) && x < y && Called(plan, trace, x) && Called(plan, trace, y)
    requires Differ(BranchAt(plan, trace, x), BranchAt(plan, trace, y))
    requires DecidedBefore(plan, trace, x) && DecidedBefore(plan, trace, y)
    requires TurnedBetween(plan, trace, x, y, BranchAt(plan, trace, y))
    ensures Interferes(ShapeOf(plan), trace[x], trace[y])
  {
    var u :| 0 <= u < x && Decides(plan, trace, u);
    var w :| x <= w < y && Turns(plan, trace, w, BranchAt(plan, trace, x));
    var shape := ShapeOf(plan);
    assert shape[trace[u]] == Spot(true, "");
    assert trace[x] <= trace[w] < trace[y] && shape[trace[w]].isSwitch;
  }

  // ----- both branches in one run -----

  /** Some run of a plan of this shape without jumps calls steps of both branches. */
  ghost predicate CanRunBoth(shape: Shape) {
    exists plan: Plan, clock: nat -> int, ctx: Ctx, k: nat ::
      ShapeOf(plan) == shape && RunsBoth(plan, clock, ctx, k)
  }

  ghost predicate RunsBoth(plan: Plan, clock: nat -> int, ctx: Ctx, k: nat) {
    && ctx.activeBranch == "" && (forall i :: 0 <= i < |plan| ==> plan[i].jump.None?)
    && CallsBoth(plan, Run(plan, clock, Begin(ctx), k).trace)
  }

  ghost predicate CallsBoth(plan: Plan, trace: seq<nat>) {
    exists i: nat, j: nat :: Opposes(plan, trace, i, j)
  }

  ghost predicate Opposes(plan: Plan, trace: seq<nat>, i: nat, j: nat) {
    i in trace && j in trace && i < |plan| && j < |plan| && Opposite(plan[i].branch, plan[j].branch)
  }

  lemma {:induction false} RoundStraight(plan: Plan, clock: nat -> int, st: State)
    requires (forall i :: 0 <= i < |plan| ==> plan[i].jump.None?) && !Done(plan, st) && Ahead(st)
    ensures Ahead(Round(plan, clock, st))
  {
    hide Lookup, Overwritten;
  }

  /** The calls so far come in order, all before the next step. */
  ghost predicate Ahead(st: State) {
    && Straight(st.trace)
    && (forall x :: 0 <= x < |st.trace| ==> if st.halted then st.trace[x] <= st.i else st.trace[x] < st.i)
  }

  lemma {:induction false} RunStraight(plan: Plan, clock: nat -> int, st: State, k: nat)
    requires (forall i :: 0 <= i < |plan| ==> plan[i].jump.None?) && Ahead(st)
    ensures Ahead(Run(plan, clock, st, k))
    decreases k
  {
    hide Round, Ahead;
    if k > 0 && !Done(plan, st) {
      RoundStraight(plan, clock, st);
      RunStraight(plan, clock, Round(plan, clock, st), k - 1);
    }
  }

  lemma {:induction false} BothMeansInterference(plan: Plan, clock: nat -> int, ctx: Ctx, k: nat)
    requires RunsBoth(plan, clock, ctx, k)
    ensures exists i: nat, j: nat :: Interferes(ShapeOf(plan), i, j)
  {
    hide Run, Interferes;
    var st := Run(plan, clock, Begin(ctx), k);
    RunStraight(plan, clock, Begin(ctx), k);
    var i: nat, j: nat :| Opposes(plan, st.trace, i, j);
    var x :| 0 <= x < |st.trace| && st.trace[x] == i;
    var y :| 0 <= y < |st.trace| && st.trace[y] == j;
    assert i != j && x != y;
    if x < y {
      BranchesApart(plan, clock, ctx, k, x, y);
    } else {
      BranchesApart(plan, clock, ctx, k, y, x);
    }
  }

  // ----- a run that takes both -----

  function Toward(branch: string): Node {
    Switch(_ => if branch == "true" then 1.0 else 0.0)
  }

  /** Switches before `i` turn to its branch, later ones to the branch of `j`. */
  function Steering(shape: Shape, i: nat, j: nat): (plan: Plan)
    requires i < |shape| && j < |shape|
    ensures |plan| == |shape|
  {
    seq(|shape|, q requires 0 <= q < |shape| => Step(
      if !shape[q].isSwitch then IDLE else Toward(shape[if q < i then i else j].branch), shape[q].branch, None))
  }

  ghost predicate Turned(shape: Shape, i: nat, j: nat, u: nat, w: nat) {
    && i < j < |shape| && Opposite(shape[i].branch, shape[j].branch)
    && u < i && shape[u] == Spot(true, "")
    && i <= w < j && shape[w].isSwitch && shape[w].branch in {"", shape[i].branch}
  }

  /** How far the steered run has come. */
  ghost predicate Steered(shape: Shape, i: nat, j: nat, u: nat, w: nat, st: State)
    requires i < |shape| && j < |shape|
  {
    && !st.halted
    && (st.i <= i ==> st.ctx.activeBranch in {"", shape[i].branch})
    && (u < st.i <= i ==> st.ctx.activeBranch == shape[i].branch)
    && (i < st.i ==> i in st.trace)
    && (i < st.i <= j ==> st.ctx.activeBranch in {shape[i].branch, shape[j].branch})
    && (w < st.i <= j ==> st.ctx.activeBranch == shape[j].branch)
    && (j < st.i ==> j in st.trace)
  }

  lemma {:induction false} SteerRound(
    shape: Shape, i: nat, j: nat, u: nat, w: nat, clock: nat -> int, st: State)
    requires Turned(shape, i, j, u, w) && Steered(shape, i, j, u, w, st) && st.i < |shape|
    ensures var st' := Round(Steering(shape, i, j), clock, st);
            st'.i == st.i + 1 && Steered(shape, i, j, u, w, st')
  {
    var plan := Steering(shape, i, j);
    var st' := Round(plan, clock, st);
    CallRound(plan, clock, st);
    assert st.i == i ==> st.ctx.activeBranch == shape[i].branch;
    assert st.i == j ==> st.ctx.activeBranch == shape[j].branch;
  }

  /** An idle step or a switch that is not skipped is called. */
  lemma {:induction false} CallRound(plan: Plan, clock: nat -> int, st: State)
    requires !Done(plan, st) && plan[st.i].jump.None? && (plan[st.i].node == IDLE || plan[st.i].node.Switch?)
    ensures var st' := Round(plan, clock, st);
            && !st'.halted && st'.i == st.i + 1
            && (if plan[st.i].branch != "" && plan[st.i].branch != st.ctx.activeBranch then
                  st'.trace == st.trace && st'.ctx.activeBranch == st.ctx.activeBranch
                else
                  && st'.trace == st.trace + [st.i]
                  && st'.ctx.activeBranch == (if plan[st.i].node.Switch? then
                                                if plan[st.i].node.cond(st.ctx.tags) != 0.0 then "true" else "false"
                                              else st.ctx.activeBranch))
  {
  }

  lemma {:induction false} SteerRun(
    shape: Shape, i: nat, j: nat, u: nat, w: nat, clock: nat -> int, st: State, k: nat)
    requires Turned(shape, i, j, u, w) && Steered(shape, i, j, u, w, st) && st.i + k == j + 1
    ensures var st' := Run(Steering(shape, i, j), clock, st, k);
            i in st'.trace && j in st'.trace
    decreases k
  {
    hide Round;
    if k > 0 {
      SteerRound(shape, i, j, u, w, clock, st);
      SteerRun(shape, i, j, u, w, clock, Round(Steering(shape, i, j), clock, st), k - 1);
    }
  }

  lemma {:induction false} InterferenceRuns(shape: Shape, i: nat, j: nat)
    requires Interferes(shape, i, j)
    ensures CanRunBoth(shape)
  {
    hide Run;
    var u :| 0 <= u < i && shape[u] == Spot(true, "");
    var w :| i <= w < j && shape[w].isSwitch && shape[w].branch in {"", shape[i].branch};
    var plan := Steering(shape, i, j);
    SteerRun(shape, i, j, u, w, STILL, Begin(FRESH), j + 1);
    assert ShapeOf(plan) == shape;
    assert Opposes(plan, Run(plan, STILL, Begin(FRESH), j + 1).trace, i, j);
    assert RunsBoth(plan, STILL, FRESH, j + 1);
  }

  /** A plan without jumps can run steps of both branches in one run exactly when two of its steps interfere. */
  lemma {:induction false} InterferenceExact(shape: Shape)
    ensures CanRunBoth(shape) <==> exists i: nat, j: nat :: Interferes(shape, i, j)
  {
    hide Run;
    if CanRunBoth(shape) {
      hide RunsBoth, Interferes;
      var plan: Plan, clock: nat -> int, ctx: Ctx, k: nat :|
        ShapeOf(plan) == shape && RunsBoth(plan, clock, ctx, k);
      BothMeansInterference(plan, clock, ctx, k);
    }
    if i: nat, j: nat :| Interferes(shape, i, j) {
      InterferenceRuns(shape, i, j);
    }
  }

  /** With at most one switch no two steps interfere. */
  ghost predicate SingleSwitch(shape: Shape) {
    forall i, j :: 0 <= i < j < |shape| ==> !shape[i].isSwitch || !shape[j].isSwitch
  }

  lemma {:induction false} SingleSwitchNeverInterferes(shape: Shape, i: nat, j: nat)
    requires SingleSwitch(shape)
    ensures !Interferes(shape, i, j)
  {
  }
}
