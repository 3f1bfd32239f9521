/** Running a compiled flow: `CompiledFlow::execute` (include/aero/core/compiled_flow.hpp) over switch, loop
    and other nodes (include/aero/nodes/switch_node.hpp, include/aero/nodes/loop_nodes.hpp). */
module FlowExecutor {
  import opened Wrappers

  datatype Tag = Tag(name: string, value: real)

  type Tags = seq<Tag>

  /** The fields of ProcessingContext that steer execution, and the working set. */
  datatype Ctx = Ctx(
    tags: Tags,
    activeBranch: string,
    loopContinue: bool,
    remaining: nat,
    deadline: Option<int>,
    failed: bool,
    failedStep: nat)

  /** A context after `reset`. */
  const FRESH: Ctx := Ctx([], "", false, 0, None, false, 0)

  datatype NodeResult = Continue | Stop | Error

  /** A node's behaviour. Expressions are functions of the working set. `Other` is any node that is
      neither a switch nor a loop node: it may rewrite the working set and pick its result freely, and it
      leaves the steering fields alone. */
  datatype Node =
    | Switch(cond: Tags -> real)
    | LoopStart(counter: string, start: Tags -> real, maxIterations: nat, maxDuration: int)
    | LoopBack(counter: string, step: Tags -> real, end: Tags -> real)
    | Other(run: Ctx -> (NodeResult, Tags))

  /** One step of the plan: the branch label it needs, and where to jump back to. */
  datatype Step = Step(node: Node, branch: string, jump: Option<nat>)

  type Plan = seq<Step>

  /** The first tag of that name; a missing tag reads as 0.0. */
  function Lookup(tags: Tags, name: string): real {
    if tags == [] then 0.0
    else if tags[0].name == name then tags[0].value
    else Lookup(tags[1..], name)
  }

  function Overwritten(tags: Tags, name: string, v: real): Tags {
    if tags == [] then [Tag(name, v)]
    else if tags[0].name == name then [Tag(name, v)] + tags[1..]
    else [tags[0]] + Overwritten(tags[1..], name, v)
  }

  lemma {:induction false} LookupOverwritten(tags: Tags, name: string, v: real)
    ensures Lookup(Overwritten(tags, name, v), name) == v
    decreases |tags|
  {
    if tags != [] && tags[0].name != name {
      LookupOverwritten(tags[1..], name, v);
      assert Overwritten(tags, name, v)[1..] == Overwritten(tags[1..], name, v);
    }
  }

  /** Position `k` holds the first tag of that name. */
  ghost predicate FirstAt(tags: Tags, name: string, k: int) {
    0 <= k < |tags| && tags[k].name == name && Absent(tags[..k], name)
  }

  ghost predicate Absent(tags: Tags, name: string) {
    forall i :: 0 <= i < |tags| ==> tags[i].name != name
  }

  lemma {:induction false} AbsentParts(a: Tags, b: Tags, name: string)
    ensures Absent(a + b, name) <==> Absent(a, name) && Absent(b, name)
  {
    if Absent(a + b, name) {
      forall i | 0 <= i < |a| ensures a[i].name != name { assert (a + b)[i] == a[i]; }
      forall i | 0 <= i < |b| ensures b[i].name != name { assert (a + b)[|a| + i] == b[i]; }
    }
  }

  /** Behind tags of other names, `Lookup` and `Overwritten` go on with the rest. */
  lemma {:induction false} SkipOthers(a: Tags, b: Tags, name: string, v: real)
    requires Absent(a, name)
    ensures Lookup(a + b, name) == Lookup(b, name) && Overwritten(a + b, name, v) == a + Overwritten(b, name, v)
    decreases |a|
  {
    if a == [] {
      assert a + b == b;
    } else {
      SkipOthers(a[1..], b, name, v);
      assert (a + b)[1..] == a[1..] + b && a == [a[0]] + a[1..];
      assert a[0].name != name;
    }
  }

  lemma {:induction false} FirstSplit(tags: Tags, name: string, k: int)
    requires FirstAt(tags, name, k)
    ensures tags == tags[..k] + ([tags[k]] + tags[k + 1..])
  {
  }

  /** `Lookup` reads the value of the first tag of the name, and 0.0 if there is none. */
  lemma {:induction false} LookupReads(tags: Tags, name: string, k: int)
    ensures FirstAt(tags, name, k) ==> Lookup(tags, name) == tags[k].value
    ensures Absent(tags, name) ==> Lookup(tags, name) == 0.0
  {
    if FirstAt(tags, name, k) {
      FirstSplit(tags, name, k);
      SkipOthers(tags[..k], [tags[k]] + tags[k + 1..], name, 0.0);
    }
    if Absent(tags, name) {
      SkipOthers(tags, [], name, 0.0);
      assert tags + [] == tags;
    }
  }

  lemma {:induction false} FirstOrAbsent(tags: Tags, name: string) returns (k: int)
    ensures Absent(tags, name) || FirstAt(tags, name, k)
    decreases |tags|
  {
    if tags == [] { return 0; }
    var n := |tags| - 1;
    assert tags == tags[..n] + [tags[n]];
    k := FirstOrAbsent(tags[..n], name);
    if Absent(tags[..n], name) {
      AbsentParts(tags[..n], [tags[n]], name);
      k := n;
    } else {
      assert tags[..n][..k] == tags[..k];
    }
  }

  /** `r` is `tags` with the value of one tag changed: the first of that name in place, or a new one at the end. */
  ghost predicate Puts(tags: Tags, name: string, v: real, r: Tags) {
    if Absent(tags, name) then r == tags + [Tag(name, v)]
    else exists k :: FirstAt(tags, name, k) && r == tags[k := Tag(name, v)]
  }

  /** That is what `Overwritten` computes, and nothing else is. */
  lemma {:induction false} PutsExactly(tags: Tags, name: string, v: real, r: Tags)
    ensures Puts(tags, name, v, r) <==> r == Overwritten(tags, name, v)
  {
    hide Overwritten;
    var k := FirstOrAbsent(tags, name);
    if Absent(tags, name) {
      OverwriteAbsent(tags, name, v);
    } else {
      OverwriteFirst(tags, name, v, k);
      forall j | FirstAt(tags, name, j) ensures j == k { OneFirst(tags, name, j, k); }
    }
  }

  lemma {:induction false} NoneBefore(tags: Tags, name: string, j: int, k: int)
    requires FirstAt(tags, name, k)
    ensures 0 <= j < k ==> tags[j].name != name
  {
    if 0 <= j < k { assert tags[..k][j] == tags[j]; }
  }

  lemma {:induction false} OneFirst(tags: Tags, name: string, j: int, k: int)
    requires FirstAt(tags, name, j) && FirstAt(tags, name, k)
    ensures j == k
  {
    NoneBefore(tags, name, j, k);
    NoneBefore(tags, name, k, j);
  }

  lemma {:induction false} OverwriteAbsent(tags: Tags, name: string, v: real)
    requires Absent(tags, name)
    ensures Overwritten(tags, name, v) == tags + [Tag(name, v)]
  {
    SkipOthers(tags, [], name, v);
    assert tags + [] == tags;
  }

  lemma {:induction false} OverwriteFirst(tags: Tags, name: string, v: real, k: int)
    requires FirstAt(tags, name, k)
    ensures Overwritten(tags, name, v) == tags[k := Tag(name, v)]
  {
    var rest := [tags[k]] + tags[k + 1..];
    FirstSplit(tags, name, k);
    SkipOthers(tags[..k], rest, name, v);
    assert rest[1..] == tags[k + 1..];
    assert tags[k := Tag(name, v)] == tags[..k] + ([Tag(name, v)] + tags[k + 1..]);
  }

  /** No other tag changes, nor does its place. */
  lemma {:induction false} PutsKeepsOthers(tags: Tags, name: string, v: real, r: Tags, other: string)
    requires Puts(tags, name, v, r) && other != name
    ensures Lookup(r, other) == Lookup(tags, other)
    ensures |r| == |tags| + (if Absent(tags, name) then 1 else 0)
    ensures forall i :: 0 <= i < |tags| && !FirstAt(tags, name, i) ==> r[i] == tags[i]
  {
    hide Lookup;
    var j := FirstOrAbsent(tags, other);
    LookupReads(tags, other, j);
    LookupReads(r, other, j);
    if Absent(tags, other) {
      assert Absent(r, other);
    } else {
      assert forall i :: 0 <= i < j ==> r[i].name == tags[i].name;
      forall i | 0 <= i < j ensures r[..j][i].name != other { assert tags[..j][i].name != other; }
      assert FirstAt(r, other, j) && r[j] == tags[j];
    }
  }

  /** `overwrite_or_append` */
  method OverwriteOrAppend(tags: Tags, name: string, v: real) returns (r: Tags)
    ensures r == Overwritten(tags, name, v) && Puts(tags, name, v, r)
  {
    hide Overwritten;
    var i := 0;
    while i < |tags|
      invariant 0 <= i <= |tags| && Absent(tags[..i], name)
    {
      if tags[i].name == name {
        assert FirstAt(tags, name, i);
        r := tags[i := Tag(name, v)];
        NotAbsent(tags, name, i);
        PutsExactly(tags, name, v, r);
        return;
      }
      assert tags[..i + 1] == tags[..i] + [tags[i]];
      AbsentParts(tags[..i], [tags[i]], name);
      i := i + 1;
    }
    assert tags[..i] == tags;
    r := tags + [Tag(name, v)];
    PutsExactly(tags, name, v, r);
  }

  lemma {:induction false} NotAbsent(tags: Tags, name: string, k: int)
    requires FirstAt(tags, name, k)
    ensures !Absent(tags, name)
  {
  }

  /** Does the loop want another pass once its counter has become `counter`? */
  predicate WantsContinue(step: real, counter: real, end: real) {
    if step >= 0.0 then counter <= end else counter >= end
  }

  /** `process`, at clock reading `now`. */
  function Process(node: Node, ctx: Ctx, now: int): (NodeResult, Ctx) {
    match node
    case Switch(cond) =>
      (Continue, ctx.(activeBranch := if cond(ctx.tags) != 0.0 then "true" else "false"))
    case LoopStart(counter, start, maxIterations, maxDuration) =>
      (Continue, ctx.(tags := Overwritten(ctx.tags, counter, start(ctx.tags)),
                      remaining := maxIterations, deadline := Some(now + maxDuration)))
    case LoopBack(counter, step, end) =>
      var stepV := step(ctx.tags);
      var next := Lookup(ctx.tags, counter) + stepV;
      var tags := Overwritten(ctx.tags, counter, next);
      var wants := WantsContinue(stepV, next, end(tags));
      var left := if ctx.remaining > 0 then ctx.remaining - 1 else 0;
      var timeUp := ctx.deadline.Some? && now >= ctx.deadline.value;
      var ctx' := ctx.(tags := tags, remaining := left);
      if wants && (left == 0 || timeUp) then (Error, ctx')
      else (Continue, ctx'.(loopContinue := wants))
    case Other(run) =>
      var (r, tags) := run(ctx);
      (r, ctx.(tags := tags))
  }

  // ----- what the nodes do, seen from outside -----

  /** A loop_start sets its counter to the start value and opens the budget; nothing else changes. */
  lemma {:induction false} StartLaw(counter: string, start: Tags -> real, max: nat, duration: int, ctx: Ctx, now: int)
    ensures var (r, ctx') := Process(LoopStart(counter, start, max, duration), ctx, now);
            && r == Continue && Puts(ctx.tags, counter, start(ctx.tags), ctx'.tags)
            && ctx' == ctx.(tags := ctx'.tags, remaining := max, deadline := Some(now + duration))
  {
    hide Overwritten, Puts;
    var v := start(ctx.tags);
    PutsExactly(ctx.tags, counter, v, Overwritten(ctx.tags, counter, v));
  }

  /** The loop has not passed its end, both read after the counter was advanced; the end is included. */
  ghost predicate NotPassed(counter: string, step: real, end: Tags -> real, tags: Tags) {
    if step < 0.0 then end(tags) <= Lookup(tags, counter) else Lookup(tags, counter) <= end(tags)
  }

  /** A loop_back adds the step to its counter. It fails exactly when it wants another pass and this was the last in the
      budget or the time is up; otherwise it asks for another pass exactly when it wants one. */
  lemma {:induction false} BackLaw(counter: string, step: Tags -> real, end: Tags -> real, ctx: Ctx, now: int)
    ensures var (r, ctx') := Process(LoopBack(counter, step, end), ctx, now);
            var more := NotPassed(counter, step(ctx.tags), end, ctx'.tags);
            && Puts(ctx.tags, counter, Lookup(ctx.tags, counter) + step(ctx.tags), ctx'.tags)
            && (r == Error <==> more && (ctx.remaining <= 1 || (ctx.deadline.Some? && ctx.deadline.value <= now)))
            && (r != Error ==> r == Continue && ctx'.loopContinue == more)
            && (ctx'.remaining + 1 == ctx.remaining || ctx'.remaining == ctx.remaining == 0)
            && ctx' == ctx.(tags := ctx'.tags, remaining := ctx'.remaining, loopContinue := ctx'.loopContinue)
  {
    hide Overwritten, Lookup, Puts;
    var v := Lookup(ctx.tags, counter) + step(ctx.tags);
    PutsExactly(ctx.tags, counter, v, Overwritten(ctx.tags, counter, v));
    LookupOverwritten(ctx.tags, counter, v);
  }

  /** A switch only picks the branch. */
  lemma {:induction false} SwitchLaw(cond: Tags -> real, ctx: Ctx, now: int)
    ensures var (r, ctx') := Process(Switch(cond), ctx, now);
            && r == Continue && ctx' == ctx.(activeBranch := ctx'.activeBranch)
            && ctx'.activeBranch in ["true", "false"] && (ctx'.activeBranch == "false" <==> cond(ctx.tags) == 0.0)
  {
    assert "true"[0] != "false"[0];
  }

  /** The scan for the counter's present value. */
  method ReadCounter(tags: Tags, name: string) returns (v: real)
    ensures v == Lookup(tags, name)
  {
    v := 0.0;
    var i := 0;
    while i < |tags|
      invariant 0 <= i <= |tags| && Lookup(tags, name) == Lookup(tags[i..], name) && v == 0.0
    {
      if tags[i].name == name { return tags[i].value; }
      i := i + 1;
    }
  }

  /** `LoopBackNode::process` */
  method ProcessLoopBack(counter: string, step: Tags -> real, end: Tags -> real, ctx: Ctx, now: int)
    returns (r: NodeResult, ctx': Ctx)
    ensures (r, ctx') == Process(LoopBack(counter, step, end), ctx, now)
  {
    hide Overwritten, Lookup, Puts;
    var stepV := step(ctx.tags);
    var oldCounter := ReadCounter(ctx.tags, counter);
    var newCounter := oldCounter + stepV;
    var tags := OverwriteOrAppend(ctx.tags, counter, newCounter);
    ctx' := ctx.(tags := tags);
    var endV := end(tags);
    var wantsContinue := if stepV >= 0.0 then newCounter <= endV else newCounter >= endV;
    if ctx'.remaining > 0 { ctx' := ctx'.(remaining := ctx'.remaining - 1); }
    var timeUp := ctx'.deadline.Some? && now >= ctx'.deadline.value;
    if wantsContinue && (ctx'.remaining == 0 || timeUp) { return Error, ctx'; }
    return Continue, ctx'.(loopContinue := wantsContinue);
  }

  /** A node's `process`. */
  method ProcessNode(node: Node, ctx: Ctx, now: int) returns (r: NodeResult, ctx': Ctx)
    ensures (r, ctx') == Process(node, ctx, now)
  {
    hide Overwritten, Lookup, Puts;
    match node {
      case Switch(cond) =>
        return Continue, ctx.(activeBranch := if cond(ctx.tags) != 0.0 then "true" else "false");
      case LoopStart(counter, start, maxIterations, maxDuration) =>
        var tags := OverwriteOrAppend(ctx.tags, counter, start(ctx.tags));
        return Continue, ctx.(tags := tags, remaining := maxIterations, deadline := Some(now + maxDuration));
      case LoopBack(counter, step, end) =>
        r, ctx' := ProcessLoopBack(counter, step, end, ctx, now);
      case Other(run) =>
        var (result, tags) := run(ctx);
        return result, ctx.(tags := tags);
    }
  }

  /** Where a run stands: the next step, the context, how many nodes have been called, which steps they
      were, and whether a Stop or Error has ended it. */
  datatype State = State(i: nat, ctx: Ctx, trace: seq<nat>, halted: bool)

  predicate Done(plan: Plan, s: State) {
    s.halted || s.i >= |plan|
  }

  /** One round of `execute`'s loop. The clock is read by the number of nodes called before. */
  function Round(plan: Plan, clock: nat -> int, s: State): State
    requires !Done(plan, s)
  {
    var step := plan[s.i];
    if step.branch != "" && step.branch != s.ctx.activeBranch then s.(i := s.i + 1)
    else
      var (r, ctx) := Process(step.node, s.ctx, clock(|s.trace|));
      var trace := s.trace + [s.i];
      match r
      case Stop => State(s.i, ctx, trace, true)
      case Error => State(s.i, ctx.(failed := true, failedStep := s.i), trace, true)
      case Continue =>
        if ctx.loopContinue && step.jump.Some? then State(step.jump.value, ctx.(loopContinue := false), trace, false)
        else State(s.i + 1, ctx, trace, false)
  }

  /** The run after `k` rounds (a finished run stays put). */
  function Run(plan: Plan, clock: nat -> int, s: State, k: nat): State
    decreases k
  {
    if k == 0 || Done(plan, s) then s else Run(plan, clock, Round(plan, clock, s), k - 1)
  }

  function Begin(ctx: Ctx): State {
    State(0, ctx, [], false)
  }

  lemma {:induction false} RunMore(plan: Plan, clock: nat -> int, s: State, k: nat, m: nat)
    ensures Run(plan, clock, s, k + m) == Run(plan, clock, Run(plan, clock, s, k), m)
    decreases k
  {
    hide Round;
    if k > 0 && !Done(plan, s) {
      RunMore(plan, clock, Round(plan, clock, s), k - 1, m);
    }
  }

  lemma {:induction false} RunOnce(plan: Plan, clock: nat -> int, s: State)
    requires !Done(plan, s)
    ensures Run(plan, clock, s, 1) == Round(plan, clock, s)
  {
    hide Round;
    assert Run(plan, clock, Round(plan, clock, s), 0) == Round(plan, clock, s);
  }

  /** A finished run stays put. */
  lemma {:induction false} RunStays(plan: Plan, clock: nat -> int, st: State, k: nat)
    requires Done(plan, st)
    ensures Run(plan, clock, st, k) == st
  {
  }

  // ----- what a run leaves alone, and how it ends -----

  /** The node writes no tag but its counter, if it has one. */
  ghost predicate Spares(node: Node, name: string) {
    match node
    case Switch(_) => true
    case LoopStart(counter, _, _, _) => counter != name
    case LoopBack(counter, _, _) => counter != name
    case Other(run) => forall ctx: Ctx :: Lookup(run(ctx).1, name) == Lookup(ctx.tags, name)
  }

  lemma {:induction false} ProcessSpares(node: Node, ctx: Ctx, now: int, name: string)
    requires Spares(node, name)
    ensures Lookup(Process(node, ctx, now).1.tags, name) == Lookup(ctx.tags, name)
  {
    hide Lookup, Overwritten;
    match node
    case LoopStart(counter, start, _, _) =>
      var v := start(ctx.tags);
      PutsExactly(ctx.tags, counter, v, Overwritten(ctx.tags, counter, v));
      PutsKeepsOthers(ctx.tags, counter, v, Overwritten(ctx.tags, counter, v), name);
    case LoopBack(counter, step, _) =>
      var v := Lookup(ctx.tags, counter) + step(ctx.tags);
      PutsExactly(ctx.tags, counter, v, Overwritten(ctx.tags, counter, v));
      PutsKeepsOthers(ctx.tags, counter, v, Overwritten(ctx.tags, counter, v), name);
    case Switch(_) =>
    case Other(_) =>
  }

  /** A tag that no node but loop nodes could write, and none of them counts in, reads the same throughout a run. */
  lemma {:induction false} RunSparesTag(plan: Plan, clock: nat -> int, st: State, k: nat, name: string)
    requires forall i :: 0 <= i < |plan| ==> Spares(plan[i].node, name)
    ensures Lookup(Run(plan, clock, st, k).ctx.tags, name) == Lookup(st.ctx.tags, name)
    decreases k
  {
    hide Lookup, Process, Spares;
    if k > 0 && !Done(plan, st) {
      ProcessSpares(plan[st.i].node, st.ctx, clock(|st.trace|), name);
      RunSparesTag(plan, clock, Round(plan, clock, st), k - 1, name);
    }
  }

  /** What the node last called answered, with the context it found. */
  ghost predicate Answered(plan: Plan, clock: nat -> int, st: State, found: Ctx, r: NodeResult) {
    && st.trace != [] && st.trace[|st.trace| - 1] < |plan|
    && Process(plan[st.trace[|st.trace| - 1]].node, found, clock(|st.trace| - 1)).0 == r
  }

  /** A run that has been stopped has been stopped by the node last called, and has failed, at that node, exactly if it
      answered Error. */
  ghost predicate HaltExplained(plan: Plan, clock: nat -> int, st: State) {
    && (!st.halted ==> !st.ctx.failed)
    && (st.halted ==> exists found: Ctx, r: NodeResult {:trigger Answered(plan, clock, st, found, r)} ::
          && Answered(plan, clock, st, found, r) && r != Continue && (st.ctx.failed <==> r == Error)
          && (st.ctx.failed ==> st.ctx.failedStep == st.trace[|st.trace| - 1]))
  }

  lemma {:induction false} RoundExplained(plan: Plan, clock: nat -> int, st: State)
    requires !Done(plan, st) && HaltExplained(plan, clock, st)
    ensures HaltExplained(plan, clock, Round(plan, clock, st))
  {
    hide Lookup, Overwritten;
    var st' := Round(plan, clock, st);
    if st'.halted {
      assert Answered(plan, clock, st', st.ctx, Process(plan[st.i].node, st.ctx, clock(|st.trace|)).0);
    }
  }

  lemma {:induction false} RunExplained(plan: Plan, clock: nat -> int, st: State, k: nat)
    requires HaltExplained(plan, clock, st)
    ensures HaltExplained(plan, clock, Run(plan, clock, st, k))
    decreases k
  {
    hide Round, HaltExplained;
    if k > 0 && !Done(plan, st) {
      RoundExplained(plan, clock, st);
      RunExplained(plan, clock, Round(plan, clock, st), k - 1);
    }
  }

  // ----- plain nodes and clocks -----

  /** A clock that stands still. */
  const STILL: nat -> int := (_: nat) => 0

  const IDLE: Node := Other((ctx: Ctx) => (Continue, ctx.tags))
}
