/** Client-id ownership and stored sessions under interleaving: the two locked blocks of `handle_connect` and the
    locked part of `teardown_session` (include/aero/broker/native_broker.hpp), for sections 3.1.4 and 3.1.2.4 of
    MQTT 3.1.1. */
module Takeover {
  import opened Wrappers

  type Handle = nat

  /** Accepted; between the two blocks of its CONNECT; connected. */
  datatype Phase = Fresh | Claimed | Connected

  /** `restored` is the stored state this session took over, if any. */
  datatype Session = Session(id: string, clean: bool, phase: Phase, kicked: bool, restored: Option<nat>)

  /** Live sessions, `client_sessions_`, `stored_sessions_`. Every state stored has a number of its own;
      `tokens` is the next one. */
  datatype Broker = Broker(
    live: map<Handle, Session>, owner: map<string, Handle>, stored: map<string, nat>, tokens: nat)

  datatype Step =
    | Accept(s: Handle)
    | Claim(s: Handle, id: string, clean: bool)
    | Finish(s: Handle, expired: bool)
    | Teardown(s: Handle)

  /** One CONNECT per connection; its second block follows its first. */
  predicate Enabled(b: Broker, step: Step) {
    match step
    case Accept(s) => s !in b.live
    case Claim(s, _, _) => s in b.live && b.live[s].phase == Fresh
    case Finish(s, _) => s in b.live && b.live[s].phase == Claimed
    case Teardown(s) => s in b.live
  }

  /** The first block: the id's present owner is kicked and replaced. */
  function ClaimId(b: Broker, s: Handle, id: string, clean: bool): Broker
    requires s in b.live
  {
    var live := b.live[s := Session(id, clean, Claimed, b.live[s].kicked, None)];
    if id == "" then b.(live := live)
    else if id in b.owner && b.owner[id] != s && b.owner[id] in live then
      b.(live := live[b.owner[id] := live[b.owner[id]].(kicked := true)], owner := b.owner[id := s])
    else b.(live := live, owner := b.owner[id := s])
  }

  /** The second block: stored state is discarded, or moves to this session unless it has expired. */
  function FinishConnect(b: Broker, s: Handle, expired: bool): Broker
    requires s in b.live
  {
    var me := b.live[s].(phase := Connected);
    if me.id == "" then b.(live := b.live[s := me])
    else if me.clean || me.id !in b.stored || expired then b.(live := b.live[s := me], stored := b.stored - {me.id})
    else b.(live := b.live[s := me.(restored := Some(b.stored[me.id]))], stored := b.stored - {me.id})
  }

  /** Only the id's owner leaves a stored session behind. */
  function TeardownSession(b: Broker, s: Handle): Broker
    requires s in b.live
  {
    var me := b.live[s];
    var rest := b.(live := b.live - {s});
    if me.id == "" || me.id !in b.owner || b.owner[me.id] != s then rest
    else if me.clean then rest.(owner := b.owner - {me.id})
    else rest.(owner := b.owner - {me.id}, stored := b.stored[me.id := b.tokens], tokens := b.tokens + 1)
  }

  function Apply(b: Broker, step: Step): Broker
    requires Enabled(b, step)
  {
    match step
    case Accept(s) => b.(live := b.live[s := Session("", true, Fresh, false, None)])
    case Claim(s, id, clean) => ClaimId(b, s, id, clean)
    case Finish(s, expired) => FinishConnect(b, s, expired)
    case Teardown(s) => TeardownSession(b, s)
  }

  // ----- what every interleaving keeps -----

  ghost predicate Named(b: Broker, s: Handle) {
    s in b.live && b.live[s].phase != Fresh && b.live[s].id != ""
  }

  ghost predicate OwnsOrKicked(b: Broker, s: Handle) {
    && (Named(b, s) ==> b.live[s].kicked || (b.live[s].id in b.owner && b.owner[b.live[s].id] == s))
    && (s in b.live && b.live[s].phase == Fresh ==> !b.live[s].kicked)
  }

  ghost predicate GoodOwner(b: Broker, id: string) {
    id in b.owner ==>
      && Named(b, b.owner[id]) && b.live[b.owner[id]].id == id && !b.live[b.owner[id]].kicked
      && (b.live[b.owner[id]].phase == Connected ==> id !in b.stored)
  }

  /** Every session with a client-id owns it or has been kicked; owners are live, unkicked and connecting or connected
      under their id; an owner whose connect has finished leaves no stored session. */
  ghost predicate Owned(b: Broker) {
    (forall s :: OwnsOrKicked(b, s)) && (forall id :: GoodOwner(b, id))
  }

  lemma {:induction false} OwnedStep(b: Broker, step: Step)
    requires Owned(b) && Enabled(b, step)
    ensures Owned(Apply(b, step))
  {
    var b' := Apply(b, step);
    forall s ensures OwnsOrKicked(b', s) { SessionStep(b, step, s); }
    forall id ensures GoodOwner(b', id) { OwnerStep(b, step, id); }
  }

  lemma {:induction false} SessionStep(b: Broker, step: Step, x: Handle)
    requires Owned(b) && Enabled(b, step)
    ensures OwnsOrKicked(Apply(b, step), x)
  {
    assert OwnsOrKicked(b, x) && OwnsOrKicked(b, step.s);
    if step.Claim? {
      assert GoodOwner(b, step.id);
    }
    if x in b.live {
      assert GoodOwner(b, b.live[x].id);
    }
  }

  lemma {:induction false} OwnerStep(b: Broker, step: Step, id: string)
    requires Owned(b) && Enabled(b, step)
    ensures GoodOwner(Apply(b, step), id)
  {
    assert GoodOwner(b, id) && OwnsOrKicked(b, step.s);
    if step.s in b.live {
      assert GoodOwner(b, b.live[step.s].id);
    }
    if step.Claim? {
      assert GoodOwner(b, step.id);
    }
  }

  // ----- stored state moves, it is never copied -----

  ghost predicate Numbered(b: Broker, id: string, jd: string) {
    && (id in b.stored ==> b.stored[id] < b.tokens)
    && (id in b.stored && jd in b.stored && b.stored[id] == b.stored[jd] ==> id == jd)
  }

  ghost predicate Moved(b: Broker, s: Handle, id: string) {
    s in b.live && b.live[s].restored.Some? ==>
      b.live[s].restored.value < b.tokens && (id in b.stored ==> b.stored[id] != b.live[s].restored.value)
  }

  ghost predicate TakenOnce(b: Broker, s: Handle, t: Handle) {
    s in b.live && t in b.live && b.live[s].restored.Some? && b.live[s].restored == b.live[t].restored ==> s == t
  }

  /** Stored states are distinct, and none that a session took over is still stored or taken over twice. */
  ghost predicate MovedOnce(b: Broker) {
    && (forall id, jd :: Numbered(b, id, jd)) && (forall s, id :: Moved(b, s, id))
    && (forall s, t :: TakenOnce(b, s, t))
  }

  lemma {:induction false} NumberedStep(b: Broker, step: Step, id: string, jd: string)
    requires MovedOnce(b) && Enabled(b, step)
    ensures Numbered(Apply(b, step), id, jd)
  {
    assert Numbered(b, id, jd) && Numbered(b, jd, id);
  }

  lemma {:induction false} TakenStep(b: Broker, step: Step, s: Handle, id: string)
    requires MovedOnce(b) && Enabled(b, step)
    ensures Moved(Apply(b, step), s, id)
  {
    assert Moved(b, s, id);
    if step.s in b.live {
      var mine := b.live[step.s].id;
      assert Numbered(b, mine, id);
    }
  }

  lemma {:induction false} OnceStep(b: Broker, step: Step, s: Handle, t: Handle)
    requires MovedOnce(b) && Enabled(b, step)
    ensures TakenOnce(Apply(b, step), s, t)
  {
    assert TakenOnce(b, s, t);
    if step.s in b.live {
      var mine := b.live[step.s].id;
      assert Moved(b, s, mine) && Moved(b, t, mine);
    }
  }

  lemma {:induction false} MovedStep(b: Broker, step: Step)
    requires MovedOnce(b) && Enabled(b, step)
    ensures MovedOnce(Apply(b, step))
  {
    var b' := Apply(b, step);
    hide Apply, Numbered, Moved, TakenOnce;
    forall id, jd ensures Numbered(b', id, jd) { NumberedStep(b, step, id, jd); }
    forall s, id ensures Moved(b', s, id) { TakenStep(b, step, s, id); }
    forall s, t ensures TakenOnce(b', s, t) { OnceStep(b, step, s, t); }
  }

  // ----- runs -----

  const EMPTY: Broker := Broker(map[], map[], map[], 0)

  /** A run; None if some step could not happen. */
  function Run(b: Broker, steps: seq<Step>): Option<Broker>
    decreases |steps|
  {
    if steps == [] then Some(b)
    else if !Enabled(b, steps[0]) then None
    else Run(Apply(b, steps[0]), steps[1..])
  }

  lemma {:induction false} RunKeeps(b: Broker, steps: seq<Step>)
    requires Owned(b) && MovedOnce(b)
    ensures var r := Run(b, steps); r.Some? ==> Owned(r.value) && MovedOnce(r.value)
    decreases |steps|
  {
    hide Owned, MovedOnce, Apply;
    if steps != [] && Enabled(b, steps[0]) {
      OwnedStep(b, steps[0]);
      MovedStep(b, steps[0]);
      RunKeeps(Apply(b, steps[0]), steps[1..]);
    }
  }

  /** Over every interleaving: a connected session that does not own its client-id is kicked, two unkicked sessions
      never share one, and a finished owner leaves no stored session. */
  lemma {:induction false} TakeoverSafety(steps: seq<Step>, s: Handle)
    requires Run(EMPTY, steps).Some? && Named(Run(EMPTY, steps).value, s)
    ensures var b := Run(EMPTY, steps).value;
            var me := b.live[s];
            && (!(me.id in b.owner && b.owner[me.id] == s) ==> me.kicked)
            && (forall t :: Named(b, t) && b.live[t].id == me.id && !b.live[t].kicked && !me.kicked ==> s == t)
            && (me.id in b.owner && b.owner[me.id] == s && me.phase == Connected ==> me.id !in b.stored)
            && (forall t :: t in b.live && t != s && me.restored.Some? ==> b.live[t].restored != me.restored)
  {
    hide Run;
    assert Owned(EMPTY) && MovedOnce(EMPTY);
    RunKeeps(EMPTY, steps);
    var b := Run(EMPTY, steps).value;
    assert OwnsOrKicked(b, s) && GoodOwner(b, b.live[s].id);
    forall t | Named(b, t) && b.live[t].id == b.live[s].id && !b.live[t].kicked && !b.live[s].kicked ensures s == t {
      assert OwnsOrKicked(b, t);
    }
    forall t | t in b.live && t != s && b.live[s].restored.Some? ensures b.live[t].restored != b.live[s].restored {
      assert TakenOnce(b, s, t);
    }
  }

  // ----- who gets the stored session -----

  /** A step after which `id`'s stored state is not what it was: some session of that id runs its second block, or its
      owner ends and leaves a newer state. */
  predicate Consumes(b: Broker, step: Step, id: string) {
    match step
    case Finish(s, _) => s in b.live && b.live[s].id == id
    case Teardown(s) => s in b.live && b.live[s].id == id && id in b.owner && b.owner[id] == s && !b.live[s].clean
    case _ => false
  }

  predicate Undisturbed(b: Broker, steps: seq<Step>, id: string)
    decreases |steps|
  {
    steps == [] ||
    (Enabled(b, steps[0]) && !Consumes(b, steps[0], id) && Undisturbed(Apply(b, steps[0]), steps[1..], id))
  }

  predicate Holds(b: Broker, id: string, t: nat) {
    id in b.stored && b.stored[id] == t
  }

  lemma {:induction false} HoldsStep(b: Broker, step: Step, id: string, t: nat)
    requires Enabled(b, step) && id != "" && t < b.tokens
    ensures Holds(Apply(b, step), id, t) <==> Holds(b, id, t) && !Consumes(b, step, id)
    ensures t < Apply(b, step).tokens
  {
  }

  lemma {:induction false} HoldsLost(b: Broker, steps: seq<Step>, id: string, t: nat)
    requires id != "" && t < b.tokens && !Holds(b, id, t) && Run(b, steps).Some?
    ensures !Holds(Run(b, steps).value, id, t)
    decreases |steps|
  {
    hide Apply, Holds;
    if steps != [] {
      HoldsStep(b, steps[0], id, t);
      HoldsLost(Apply(b, steps[0]), steps[1..], id, t);
    }
  }

  /** The state stored for a client-id survives a run exactly when no step of the run consumes it. */
  lemma {:induction false} HoldsExactly(b: Broker, steps: seq<Step>, id: string, t: nat)
    requires id != "" && t < b.tokens && Holds(b, id, t) && Run(b, steps).Some?
    ensures Holds(Run(b, steps).value, id, t) <==> Undisturbed(b, steps, id)
    decreases |steps|
  {
    hide Apply, Holds, Consumes;
    if steps != [] {
      HoldsStep(b, steps[0], id, t);
      if Consumes(b, steps[0], id) {
        HoldsLost(Apply(b, steps[0]), steps[1..], id, t);
      } else {
        HoldsExactly(Apply(b, steps[0]), steps[1..], id, t);
      }
    }
  }

  /** A session that claims a client-id and finishes later takes over the state stored at its claim exactly when it
      asked to keep state, the state has not expired, and nothing between its two blocks consumed it. */
  lemma {:induction false} HandoverExactly(
    b: Broker, s: Handle, id: string, clean: bool, between: seq<Step>, expired: bool, t: nat)
    requires MovedOnce(b) && Enabled(b, Claim(s, id, clean)) && id != "" && Holds(b, id, t)
    requires Run(Apply(b, Claim(s, id, clean)), between).Some?
    requires forall k :: 0 <= k < |between| ==> between[k].s != s
    ensures var claimed := Apply(b, Claim(s, id, clean));
            var c := Run(claimed, between).value;
            && Enabled(c, Finish(s, expired))
            && (Apply(c, Finish(s, expired)).live[s].restored == Some(t) <==>
                !clean && !expired && Undisturbed(claimed, between, id))
  {
    hide Run, Undisturbed;
    assert Numbered(b, id, id);
    var claimed := Apply(b, Claim(s, id, clean));
    HoldsExactly(claimed, between, id, t);
    StaysClaimed(claimed, between, s, id, clean);
  }

  /** Other sessions' steps leave this one between its blocks. */
  lemma {:induction false} StaysClaimed(b: Broker, steps: seq<Step>, s: Handle, id: string, clean: bool)
    requires s in b.live && b.live[s] == Session(id, clean, Claimed, b.live[s].kicked, None)
    requires Run(b, steps).Some? && forall k :: 0 <= k < |steps| ==> steps[k].s != s
    ensures var c := Run(b, steps).value;
            s in c.live && c.live[s] == Session(id, clean, Claimed, c.live[s].kicked, None)
    decreases |steps|
  {
    if steps != [] {
      OthersStep(b, steps[0], s);
      hide Apply;
      StaysClaimed(Apply(b, steps[0]), steps[1..], s, id, clean);
    }
  }

  lemma {:induction false} OthersStep(b: Broker, step: Step, s: Handle)
    requires s in b.live && Enabled(b, step) && step.s != s
    ensures s in Apply(b, step).live && Apply(b, step).live[s] == b.live[s].(kicked := Apply(b, step).live[s].kicked)
  {
  }

  lemma {:induction false} RunStep(b: Broker, step: Step, rest: seq<Step>)
    requires Enabled(b, step)
    ensures Run(b, [step] + rest) == Run(Apply(b, step), rest)
  {
    hide Apply;
    assert ([step] + rest)[1..] == rest;
  }

  lemma {:induction false} RunTwo(b: Broker, s: Step, t: Step, rest: seq<Step>)
    requires Enabled(b, s) && Enabled(Apply(b, s), t)
    ensures Run(b, [s, t] + rest) == Run(Apply(Apply(b, s), t), rest)
  {
    hide Apply, Run;
    RunStep(b, s, [t] + rest);
    RunStep(Apply(b, s), t, rest);
    assert [s] + ([t] + rest) == [s, t] + rest;
  }

  lemma {:induction false} RunNone(b: Broker)
    ensures Run(b, []) == Some(b)
  {
  }

  function Theft(ousted: Handle, heir: Handle, id: string): seq<Step> {
    [Claim(heir, id, false), Finish(ousted, false), Finish(heir, false)]
  }

  /** So a kicked session whose second block runs late takes the state away from the session that replaced it. */
  lemma {:induction false} LateFinishSteals(b: Broker, ousted: Handle, heir: Handle, id: string, t: nat)
    requires id != "" && Holds(b, id, t) && ousted in b.live
    requires b.live[ousted].id == id && b.live[ousted].phase == Claimed && !b.live[ousted].clean
    requires Enabled(b, Claim(heir, id, false))
    ensures var c := Run(b, Theft(ousted, heir, id));
            && c.Some? && ousted in c.value.live && heir in c.value.live
            && c.value.live[ousted].restored == Some(t) && c.value.live[heir].restored == None
            && id in c.value.owner && c.value.owner[id] == heir && id !in c.value.stored
            && (id in b.owner && b.owner[id] == ousted ==> c.value.live[ousted].kicked)
            && c.value.live[heir].kicked == b.live[heir].kicked && !c.value.live[heir].clean
  {
    hide Run;
    var s0 := Apply(b, Claim(heir, id, false));
    var s1 := Apply(s0, Finish(ousted, false));
    var s2 := Apply(s1, Finish(heir, false));
    assert s2.live[ousted].restored == Some(t) && s2.live[heir].restored == None && s2.owner[id] == heir;
    RunTwo(b, Claim(heir, id, false), Finish(ousted, false), [Finish(heir, false)]);
    assert Theft(ousted, heir, id) == [Claim(heir, id, false), Finish(ousted, false)] + [Finish(heir, false)];
    RunStep(s1, Finish(heir, false), []);
    assert [Finish(heir, false)] + [] == [Finish(heir, false)];
    RunNone(s2);
  }

  /** A session connects, keeps its state and leaves. */
  function Visit(s: Handle, id: string): seq<Step> {
    [Accept(s), Claim(s, id, false)] + ([Finish(s, false), Teardown(s)] + [])
  }

  lemma {:induction false} VisitStores(s: Handle, id: string)
    requires id != ""
    ensures Run(EMPTY, Visit(s, id)) == Some(Broker(map[], map[], map[id := 0], 1))
  {
    hide Run;
    var b1 := Apply(EMPTY, Accept(s));
    var b2 := Apply(b1, Claim(s, id, false));
    RunTwo(EMPTY, Accept(s), Claim(s, id, false), [Finish(s, false), Teardown(s)] + []);
    assert s in b2.live && b2.live[s] == Session(id, false, Claimed, false, None) && b2.stored == map[];
    var b3 := Apply(b2, Finish(s, false));
    assert b3 == Broker(map[s := Session(id, false, Connected, false, None)], map[id := s], map[], 0);
    RunTwo(b2, Finish(s, false), Teardown(s), []);
    assert Apply(b3, Teardown(s)) == Broker(map[], map[], map[id := 0], 1);
    RunNone(Apply(b3, Teardown(s)));
  }

  lemma {:induction false} RunJoined(b: Broker, xs: seq<Step>, ys: seq<Step>)
    requires Run(b, xs).Some?
    ensures Run(b, xs + ys) == Run(Run(b, xs).value, ys)
    decreases |xs|
  {
    hide Apply;
    if xs == [] {
      assert xs + ys == ys;
    } else {
      assert (xs + ys)[1..] == xs[1..] + ys;
      RunJoined(Apply(b, xs[0]), xs[1..], ys);
    }
  }

  /** From an empty broker: a session leaves state behind, a second one and then a third claim its client-id, and the
      second, already kicked, finishes first. It walks off with the state, and the id's owner has none. */
  lemma {:induction false} StateStolen(first: Handle, ousted: Handle, heir: Handle, id: string)
    returns (steps: seq<Step>)
    requires id != "" && ousted != heir
    ensures Run(EMPTY, steps).Some?
    ensures var c := Run(EMPTY, steps).value;
            && ousted in c.live && c.live[ousted].kicked && c.live[ousted].restored == Some(0)
            && heir in c.live && !c.live[heir].kicked && c.live[heir].restored == None && !c.live[heir].clean
            && id in c.owner && c.owner[id] == heir && id !in c.stored
  {
    hide Run;
    VisitStores(first, id);
    var b0 := Broker(map[], map[], map[id := 0], 1);
    var connect, theft := Arrivals(ousted, heir, id), Theft(ousted, heir, id);
    ArrivalsClaim(b0, ousted, heir, id);
    var b := Run(b0, connect).value;
    LateFinishSteals(b, ousted, heir, id, 0);
    RunJoined(EMPTY, Visit(first, id), connect + theft);
    RunJoined(b0, connect, theft);
    steps := Visit(first, id) + (connect + theft);
  }

  function Arrivals(ousted: Handle, heir: Handle, id: string): seq<Step> {
    [Accept(ousted), Claim(ousted, id, false)] + [Accept(heir)]
  }

  lemma {:induction false} ArrivalsClaim(b0: Broker, ousted: Handle, heir: Handle, id: string)
    requires id != "" && ousted != heir && b0 == Broker(map[], map[], map[id := 0], 1)
    ensures Run(b0, Arrivals(ousted, heir, id)) == Some(Waiting(ousted, heir, id))
  {
    hide Run;
    var b1 := Apply(b0, Accept(ousted));
    var b2 := Apply(b1, Claim(ousted, id, false));
    RunTwo(b0, Accept(ousted), Claim(ousted, id, false), [Accept(heir)]);
    assert b2 == Broker(map[ousted := Session(id, false, Claimed, false, None)], map[id := ousted], map[id := 0], 1);
    RunStep(b2, Accept(heir), []);
    assert [Accept(heir)] + [] == [Accept(heir)];
    RunNone(Apply(b2, Accept(heir)));
  }

  /** One session between its blocks, another accepted, and a state stored for the first one's id. */
  function Waiting(ousted: Handle, heir: Handle, id: string): Broker {
    Broker(map[ousted := Session(id, false, Claimed, false, None), heir := Session("", true, Fresh, false, None)],
           map[id := ousted], map[id := 0], 1)
  }

  // ----- in place -----

  class SessionTables {
    var live: map<Handle, Session>
    var clientSessions: map<string, Handle>
    var storedSessions: map<string, nat>
    var tokens: nat

    ghost function Value(): Broker
      reads this
    {
      Broker(live, clientSessions, storedSessions, tokens)
    }

    constructor ()
      ensures Value() == EMPTY && Owned(Value()) && MovedOnce(Value())
    {
      live, clientSessions, storedSessions, tokens := map[], map[], map[], 0;
    }

    /** The block of `handle_connect` under `client_sessions_mu_`. */
    method ClaimClientId(s: Handle, id: string, clean: bool)
      requires Owned(Value()) && MovedOnce(Value()) && Enabled(Value(), Claim(s, id, clean))
      modifies this
      ensures Value() == Apply(old(Value()), Claim(s, id, clean)) && Owned(Value()) && MovedOnce(Value())
    {
      OwnedStep(Value(), Claim(s, id, clean));
      MovedStep(Value(), Claim(s, id, clean));
      assert GoodOwner(Value(), id);
      hide Owned, MovedOnce;
      live := live[s := Session(id, clean, Claimed, live[s].kicked, None)];
      if id == "" { return; }
      if id in clientSessions && clientSessions[id] != s {
        var other := clientSessions[id];
        live := live[other := live[other].(kicked := true)];
      }
      clientSessions := clientSessions[id := s];
    }

    /** The block of `handle_connect` under `stored_sessions_mu_`. */
    method RestoreStored(s: Handle, expired: bool)
      requires Owned(Value()) && MovedOnce(Value()) && Enabled(Value(), Finish(s, expired))
      modifies this
      ensures Value() == Apply(old(Value()), Finish(s, expired)) && Owned(Value()) && MovedOnce(Value())
    {
      OwnedStep(Value(), Finish(s, expired));
      MovedStep(Value(), Finish(s, expired));
      hide Owned, MovedOnce;
      var me := live[s].(phase := Connected);
      if me.id != "" {
        if me.clean {
          storedSessions := storedSessions - {me.id};
        } else if me.id in storedSessions {
          if !expired { me := me.(restored := Some(storedSessions[me.id])); }
          storedSessions := storedSessions - {me.id};
        } else {
          assert storedSessions - {me.id} == storedSessions;
        }
      }
      live := live[s := me];
    }

    /** The locked part of `teardown_session`. */
    method TeardownOwnership(s: Handle)
      requires Owned(Value()) && MovedOnce(Value()) && s in live
      modifies this
      ensures Value() == Apply(old(Value()), Teardown(s)) && Owned(Value()) && MovedOnce(Value())
    {
      OwnedStep(Value(), Teardown(s));
      MovedStep(Value(), Teardown(s));
      hide Owned, MovedOnce;
      var me := live[s];
      live := live - {s};
      if me.id != "" && me.id in clientSessions && clientSessions[me.id] == s {
        clientSessions := clientSessions - {me.id};
        if !me.clean {
          storedSessions, tokens := storedSessions[me.id := tokens], tokens + 1;
        }
      }
    }
  }
}
