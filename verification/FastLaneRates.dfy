/** How often the UDP fast lane may knock: the bootstrap requests of the retry timer and
    the spacing of its cooldowns, over whole runs of the client runtime. */
module FastLaneRates {
  import opened Common
  import opened FastLane
  import opened Runtime
  import opened RuntimeRuns

  /** Ghost counters over a run: scene entries, bootstrap requests sent by the retry
      timer, attaches, cooldowns started, and when the last of those started. */
  datatype Tally = Tally(entries: nat, sends: nat, attaches: nat, cooldowns: nat, lastStart: int)

  function Count(t: Tally, rt: Rt, i: Input, o: Outcome): Tally {
    var started := o.rt.lane.cooldownUntil.Some? && o.rt.lane.cooldownUntil != rt.lane.cooldownUntil;
    Tally(t.entries + Flag(EnteredScene in o.events),
          t.sends + Flag(i.RetryTimer? && o.outs != []),
          t.attaches + Flag(o.rt.lane.attached && !rt.lane.attached),
          t.cooldowns + Flag(started),
          if started then o.rt.lane.cooldownUntil.value - REBOOTSTRAP_COOLDOWN_MS else t.lastStart)
  }

  ghost function Tallied(inputs: seq<Input>): Tally {
    if inputs == [] then Tally(0, 0, 0, 0, 0)
    else
      var n := |inputs| - 1;
      var rt := Run(NEW, inputs[..n]);
      Count(Tallied(inputs[..n]), rt, inputs[n], Step(rt, inputs[n]))
  }

  function TimeOf(i: Input, clock: nat): nat {
    match i
    case RetryTimer(now) => now
    case FromServer(_, _, now) => now
    case SocketFailed(_, now) => now
    case _ => clock
  }

  function ClockAfter(start: nat, inputs: seq<Input>): nat {
    if inputs == [] then start else TimeOf(inputs[|inputs| - 1], ClockAfter(start, inputs[..|inputs| - 1]))
  }

  predicate TimeOrdered(start: nat, inputs: seq<Input>) {
    inputs == [] ||
    (&& TimeOrdered(start, inputs[..|inputs| - 1])
     && ClockAfter(start, inputs[..|inputs| - 1]) <= ClockAfter(start, inputs))
  }

  predicate TouchesLane(m: ServerMessage) {
    m.Result? || m.FastLaneResult? || m.FastLaneAttached? || m.EnterSceneResult?
  }

  /** No other message touches the phase or the lane. */
  lemma OtherKeepsLane(rt: Rt, i: Input)
    requires i.FromServer? && !TouchesLane(i.msg)
    ensures var o := Step(rt, i);
      o.rt.lane == rt.lane && o.rt.phase == rt.phase && o.rt.live == rt.live && EnteredScene !in o.events
  {
  }

  // ----- how many requests -----

  /** What the counters and the lane still allow: no step raises it. */
  function Potential(t: Tally, l: Lane): int {
    t.sends + Allowance(l) - 3 * t.attaches - 4 * t.cooldowns
  }

  predicate Spends(t: Tally, rt: Rt, i: Input, o: Outcome) {
    var t' := Count(t, rt, i, o);
    Potential(t', o.rt.lane) <= Potential(t, rt.lane) && t'.attaches >= t.attaches && t'.cooldowns >= t.cooldowns
  }

  lemma ReplySpends(t: Tally, rt: Rt, i: Input)
    requires Coherent(rt.lane) && rt.live && i.FromServer?
    requires i.msg.Result? || i.msg.FastLaneResult? || i.msg.FastLaneAttached?
    ensures Spends(t, rt, i, Step(rt, i))
  {
  }

  lemma {:induction false} StepSpends(t: Tally, rt: Rt, i: Input)
    requires Coherent(rt.lane)
    ensures Spends(t, rt, i, Step(rt, i))
  {
    if rt.live && i.FromServer? {
      if i.msg.Result? || i.msg.FastLaneResult? || i.msg.FastLaneAttached? {
        ReplySpends(t, rt, i);
      } else if !i.msg.EnterSceneResult? {
        OtherKeepsLane(rt, i);
      }
    }
  }

  lemma {:induction false} TalliedSnoc(inputs: seq<Input>, i: nat)
    requires i < |inputs|
    ensures Tallied(inputs[..i + 1]) ==
      Count(Tallied(inputs[..i]), Run(NEW, inputs[..i]), inputs[i], At(NEW, inputs, i))
    ensures Tallied(inputs[..i + 1]).entries >= Tallied(inputs[..i]).entries
  {
    assert inputs[..i + 1][..i] == inputs[..i];
  }

  /** The counters and the lane at one moment of a run. */
  datatype Moment = Moment(tally: Tally, lane: Lane)

  ghost function MomentAt(inputs: seq<Input>, n: nat): Moment
    requires n <= |inputs|
  {
    Moment(Tallied(inputs[..n]), Run(NEW, inputs[..n]).lane)
  }

  /** From one moment to the next the counters grow and the potential falls. */
  predicate Falls(a: Moment, b: Moment) {
    && Potential(b.tally, b.lane) <= Potential(a.tally, a.lane)
    && a.tally.attaches <= b.tally.attaches && a.tally.cooldowns <= b.tally.cooldowns
  }

  lemma MomentFalls(inputs: seq<Input>, n: nat)
    requires n < |inputs|
    ensures Falls(MomentAt(inputs, n), MomentAt(inputs, n + 1))
  {
    TalliedSnoc(inputs, n);
    RunSnoc(NEW, inputs, n);
    LaneAlwaysCoherent(inputs[..n]);
    StepSpends(Tallied(inputs[..n]), Run(NEW, inputs[..n]), inputs[n]);
  }

  lemma {:induction false} TraceFalls(trace: seq<Moment>, i: nat, j: nat)
    requires i <= j < |trace| && forall k :: 0 <= k < |trace| - 1 ==> Falls(trace[k], trace[k + 1])
    ensures Falls(trace[i], trace[j])
    decreases j - i
  {
    if i < j {
      TraceFalls(trace, i, j - 1);
      assert Falls(trace[j - 1], trace[j - 1 + 1]);
    }
  }

  lemma MomentsFall(inputs: seq<Input>, i: nat, j: nat)
    requires i <= j <= |inputs|
    ensures Falls(MomentAt(inputs, i), MomentAt(inputs, j))
  {
    var trace := seq(|inputs| + 1, k requires 0 <= k <= |inputs| => MomentAt(inputs, k));
    forall k | 0 <= k < |trace| - 1
      ensures Falls(trace[k], trace[k + 1])
    {
      MomentFalls(inputs, k);
    }
    TraceFalls(trace, i, j);
  }

  /** Main result: between any two moments of any run the retry timer sends at most what
      the lane allowed at the first (3 after joining, 4 once in a cooldown), three more
      for every attach and four more for every cooldown started in between. */
  lemma SendsBetween(inputs: seq<Input>, i: nat, j: nat)
    requires i <= j <= |inputs|
    ensures var a, b := MomentAt(inputs, i), MomentAt(inputs, j);
      && a.tally.attaches <= b.tally.attaches && a.tally.cooldowns <= b.tally.cooldowns
      && b.tally.sends - a.tally.sends <=
           Allowance(a.lane) + 3 * (b.tally.attaches - a.tally.attaches) + 4 * (b.tally.cooldowns - a.tally.cooldowns)
  {
    MomentsFall(inputs, i, j);
    LaneAlwaysCoherent(inputs[..j]);
  }

  lemma SendsFromStart(inputs: seq<Input>)
    ensures Tallied(inputs).sends <= 3 + 3 * Tallied(inputs).attaches + 4 * Tallied(inputs).cooldowns
  {
    SendsBetween(inputs, 0, |inputs|);
    assert inputs[..0] == [] && inputs[..|inputs|] == inputs;
  }

  // ----- when a cooldown starts -----

  predicate StartsCooldown(rt: Rt, o: Outcome) {
    o.rt.lane.cooldownUntil.Some? && o.rt.lane.cooldownUntil != rt.lane.cooldownUntil
  }

  /** The moment a step that starts a cooldown reckons it from. */
  function StartOf(o: Outcome): int
    requires o.rt.lane.cooldownUntil.Some?
  {
    o.rt.lane.cooldownUntil.value - REBOOTSTRAP_COOLDOWN_MS
  }

  /** The three ways the lane can fail with a retry allowed. */
  predicate Failure(rt: Rt, i: Input) {
    rt.live &&
    match i
    case SocketFailed(_, _) => true
    case FromServer(t, Result(_, ok), _) => t == Udp && !ok
    case FromServer(_, FastLaneAttached(packet, ok), _) => rt.lane.attach == Some(packet) && !ok
    case _ => false
  }

  /** A step starts a cooldown exactly when it is such a failure, in scene, with the
      retries used up and no earlier cooldown still running; and it lasts 15 s from then. */
  lemma StepStartsCooldownIff(rt: Rt, i: Input, clock: nat)
    requires Coherent(rt.lane)
    ensures StartsCooldown(rt, Step(rt, i)) <==>
      && Failure(rt, i) && rt.phase == InScene && rt.lane.attempts == MAX_REBOOTSTRAP_ATTEMPTS
      && (rt.lane.cooldownUntil.Some? ==> rt.lane.cooldownUntil.value <= TimeOf(i, clock))
    ensures StartsCooldown(rt, Step(rt, i)) ==> StartOf(Step(rt, i)) == TimeOf(i, clock)
  {
    match i
    case SocketFailed(reason, now) =>
      FailStartsCooldownIff(rt.lane, rt.phase == InScene, now, reason, true);
    case FromServer(_, m, now) =>
      if m.Result? {
        FailStartsCooldownIff(rt.lane, rt.phase == InScene, now, "udp movement rejected by gate", true);
      } else if m.FastLaneAttached? {
        FailStartsCooldownIff(rt.lane, rt.phase == InScene, now, "udp attach rejected by gate", true);
      } else if !m.FastLaneResult? && !m.EnterSceneResult? {
        OtherKeepsLane(rt, i);
      }
    case _ =>
  }

  /** Every cooldown started from one moment to the other waited for the one before it. */
  predicate Waits(t: Tally, u: Tally) {
    t.cooldowns > 0 ==>
      t.cooldowns <= u.cooldowns && u.lastStart - t.lastStart >= REBOOTSTRAP_COOLDOWN_MS * (u.cooldowns - t.cooldowns)
  }

  // ----- the spacing of cooldowns -----

  /** A scene entry less than 15 s after the last cooldown started. */
  predicate EarlyJoin(t: Tally, o: Outcome, at: nat) {
    EnteredScene in o.events && t.cooldowns > 0 && at < t.lastStart + REBOOTSTRAP_COOLDOWN_MS
  }

  ghost predicate NoEarlyJoin(start: nat, inputs: seq<Input>) {
    inputs == [] ||
    (var before, last := inputs[..|inputs| - 1], inputs[|inputs| - 1];
     && NoEarlyJoin(start, before)
     && !EarlyJoin(Tallied(before), Step(Run(NEW, before), last), TimeOf(last, ClockAfter(start, before))))
  }

  /** Every cooldown of the run waited for the one before it. */
  ghost predicate Spaced(inputs: seq<Input>) {
    inputs == [] || (Spaced(inputs[..|inputs| - 1]) && Waits(Tallied(inputs[..|inputs| - 1]), Tallied(inputs)))
  }

  /** Retries used up, nothing under way and, while in scene, a cooldown set. */
  predicate HeldBack(rt: Rt) {
    && rt.lane.attempts == MAX_REBOOTSTRAP_ATTEMPTS
    && rt.lane.bootstrap == None && rt.lane.attach == None && !rt.lane.attached && rt.lane.retryAt == None
    && (rt.live && rt.phase == InScene ==> rt.lane.cooldownUntil.Some?)
  }

  /** A running cooldown is the last one started, and within 15 s of its start the lane
      is held back. */
  predicate SpacingInv(t: Tally, rt: Rt, start: nat, clock: nat) {
    && start <= clock
    && (t.cooldowns == 0 ==> rt.lane.cooldownUntil == None)
    && (t.cooldowns > 0 ==>
          && start + REBOOTSTRAP_COOLDOWN_MS * (t.cooldowns - 1) <= t.lastStart <= clock
          && (rt.lane.cooldownUntil.Some? ==> rt.lane.cooldownUntil.value == t.lastStart + REBOOTSTRAP_COOLDOWN_MS)
          && (t.lastStart + REBOOTSTRAP_COOLDOWN_MS <= clock || HeldBack(rt)))
  }

  predicate KeepsSpacing(t: Tally, rt: Rt, i: Input, o: Outcome, start: nat, now: nat) {
    SpacingInv(Count(t, rt, i, o), o.rt, start, now) && Waits(t, Count(t, rt, i, o))
  }

  lemma FailKeepsSpacing(t: Tally, rt: Rt, i: Input, start: nat, clock: nat, now: nat, reason: string, allow: bool)
    requires Coherent(rt.lane) && SpacingInv(t, rt, start, clock) && rt.live && clock <= now
    requires allow || rt.lane.cooldownUntil == None
    ensures KeepsSpacing(t, rt, i, LaneFailed(rt, now, reason, allow), start, now)
  {
  }

  /** Attach and its rejection, ticket and its refusal, authentication, UDP rejection. */
  lemma ReplyKeepsSpacing(t: Tally, rt: Rt, i: Input, start: nat, clock: nat)
    requires Coherent(rt.lane) && SpacingInv(t, rt, start, clock) && rt.live && i.FromServer? && clock <= i.now
    requires i.msg.Result? || i.msg.FastLaneResult? || i.msg.FastLaneAttached?
    ensures KeepsSpacing(t, rt, i, Step(rt, i), start, i.now)
  {
    match i.msg
    case Result(_, ok) =>
      if i.transport == Udp && !ok {
        FailKeepsSpacing(t, rt, i, start, clock, i.now, "udp movement rejected by gate", true);
      }
    case FastLaneResult(packet, ok, _, _) =>
      if rt.lane.bootstrap == Some(packet) && !ok {
        FailKeepsSpacing(t, rt, i, start, clock, i.now, "bootstrap rejected by gate", false);
      }
    case FastLaneAttached(packet, ok) =>
      if rt.lane.attach == Some(packet) && !ok {
        FailKeepsSpacing(t, rt, i, start, clock, i.now, "udp attach rejected by gate", true);
      }
  }

  /** Every input but an early join keeps the spacing. */
  lemma {:induction false} StepKeepsSpacing(t: Tally, rt: Rt, i: Input, start: nat, clock: nat)
    requires Coherent(rt.lane) && SpacingInv(t, rt, start, clock) && clock <= TimeOf(i, clock)
    requires !EarlyJoin(t, Step(rt, i), TimeOf(i, clock))
    ensures KeepsSpacing(t, rt, i, Step(rt, i), start, TimeOf(i, clock))
  {
    if rt.live {
      match i
      case FromServer(_, m, _) =>
        if m.Result? || m.FastLaneResult? || m.FastLaneAttached? {
          ReplyKeepsSpacing(t, rt, i, start, clock);
        } else if !m.EnterSceneResult? {
          OtherKeepsLane(rt, i);
        }
      case SocketFailed(reason, now) => FailKeepsSpacing(t, rt, i, start, clock, now, reason, true);
      case _ =>
    }
  }

  lemma {:induction false} RunKeepsSpacing(inputs: seq<Input>, start: nat)
    requires TimeOrdered(start, inputs) && NoEarlyJoin(start, inputs)
    ensures SpacingInv(Tallied(inputs), Run(NEW, inputs), start, ClockAfter(start, inputs)) && Spaced(inputs)
  {
    if inputs != [] {
      var n := |inputs| - 1;
      RunKeepsSpacing(inputs[..n], start);
      LaneAlwaysCoherent(inputs[..n]);
      StepKeepsSpacing(Tallied(inputs[..n]), Run(NEW, inputs[..n]), inputs[n], start, ClockAfter(start, inputs[..n]));
    }
  }

  lemma {:induction false} TraceWaits(trace: seq<Tally>, i: nat, j: nat)
    requires i <= j < |trace| && forall k :: 0 <= k < |trace| - 1 ==> Waits(trace[k], trace[k + 1])
    ensures Waits(trace[i], trace[j])
    decreases j - i
  {
    if i < j {
      TraceWaits(trace, i, j - 1);
      assert Waits(trace[j - 1], trace[j - 1 + 1]);
    }
  }

  lemma {:induction false} SpacedPrefix(inputs: seq<Input>, n: nat)
    requires Spaced(inputs) && n <= |inputs|
    ensures Spaced(inputs[..n])
    decreases |inputs| - n
  {
    if n < |inputs| {
      SpacedPrefix(inputs, n + 1);
      assert inputs[..n + 1][..n] == inputs[..n];
    } else {
      assert inputs[..n] == inputs;
    }
  }

  lemma SpacedStep(inputs: seq<Input>, k: nat)
    requires Spaced(inputs) && k < |inputs|
    ensures Waits(Tallied(inputs[..k]), Tallied(inputs[..k + 1]))
  {
    SpacedPrefix(inputs, k + 1);
    assert inputs[..k + 1][..k] == inputs[..k];
  }

  /** In a spaced run any two moments are apart, not only neighbours. */
  lemma SpacedBetween(inputs: seq<Input>, i: nat, j: nat)
    requires Spaced(inputs) && i <= j <= |inputs|
    ensures Waits(Tallied(inputs[..i]), Tallied(inputs[..j]))
  {
    var trace := seq(|inputs| + 1, k requires 0 <= k <= |inputs| => Tallied(inputs[..k]));
    forall k | 0 <= k < |trace| - 1
      ensures Waits(trace[k], trace[k + 1])
    {
      SpacedStep(inputs, k);
    }
    TraceWaits(trace, i, j);
  }

  /** Main result: in a session without early joins cooldowns start at least 15 s apart,
      even where late failures hit a lane that is already cooling down. */
  lemma {:induction false} CooldownsStartApart(inputs: seq<Input>, start: nat, i: nat, j: nat)
    requires TimeOrdered(start, inputs) && NoEarlyJoin(start, inputs) && i <= j <= |inputs|
    ensures Waits(Tallied(inputs[..i]), Tallied(inputs[..j]))
  {
    RunKeepsSpacing(inputs, start);
    SpacedBetween(inputs, i, j);
  }

  // ----- early joins are exactly what breaks it -----

  /** The run, and then the UDP socket fails at that very moment. */
  ghost function ThenFails(start: nat, inputs: seq<Input>): seq<Input> {
    inputs + [SocketFailed("udp send failed", ClockAfter(start, inputs))]
  }

  /** However early the socket fails, cooldowns stay apart. */
  ghost predicate SpacedThroughFailures(start: nat, inputs: seq<Input>) {
    Spaced(ThenFails(start, inputs)) && (inputs != [] ==> SpacedThroughFailures(start, inputs[..|inputs| - 1]))
  }

  lemma FailureKeepsRun(inputs: seq<Input>, start: nat)
    requires TimeOrdered(start, inputs) && NoEarlyJoin(start, inputs)
    ensures Spaced(ThenFails(start, inputs))
  {
    var rt, clock := Run(NEW, inputs), ClockAfter(start, inputs);
    RunKeepsSpacing(inputs, start);
    LaneAlwaysCoherent(inputs);
    assert ThenFails(start, inputs)[..|inputs|] == inputs;
    if rt.live {
      var failed := SocketFailed("udp send failed", clock);
      FailKeepsSpacing(Tallied(inputs), rt, failed, start, clock, clock, failed.reason, true);
    }
  }

  /** After an early join the lane is bootstrapping with its retries used up. */
  lemma EarlyJoinDisarms(t: Tally, rt: Rt, i: Input, start: nat, clock: nat)
    requires Coherent(rt.lane) && SpacingInv(t, rt, start, clock) && clock <= TimeOf(i, clock)
    requires EarlyJoin(t, Step(rt, i), TimeOf(i, clock))
    ensures var rt' := Step(rt, i).rt;
      && rt'.live && rt'.phase == InScene
      && rt'.lane.attempts == MAX_REBOOTSTRAP_ATTEMPTS && rt'.lane.cooldownUntil == None
      && Count(t, rt, i, Step(rt, i)).cooldowns == t.cooldowns && Count(t, rt, i, Step(rt, i)).lastStart == t.lastStart
  {
    if i.FromServer? && !TouchesLane(i.msg) {
      OtherKeepsLane(rt, i);
    }
  }

  /** A first early join, and a socket failure at that moment. */
  lemma EarlyJoinBreaks(inputs: seq<Input>, start: nat)
    requires inputs != [] && TimeOrdered(start, inputs) && NoEarlyJoin(start, inputs[..|inputs| - 1])
    ensures !NoEarlyJoin(start, inputs) ==> !Spaced(ThenFails(start, inputs))
  {
    if !NoEarlyJoin(start, inputs) {
      var n := |inputs| - 1;
      RunKeepsSpacing(inputs[..n], start);
      LaneAlwaysCoherent(inputs[..n]);
      EarlyJoinDisarms(Tallied(inputs[..n]), Run(NEW, inputs[..n]), inputs[n], start, ClockAfter(start, inputs[..n]));
      LaneAlwaysCoherent(inputs);
      assert ThenFails(start, inputs)[..|inputs|] == inputs;
    }
  }

  /** Main result: the cooldowns of a session stay apart wherever the socket may fail
      exactly when no scene entry comes early. */
  lemma {:induction false} SpacingIffNoEarlyJoin(inputs: seq<Input>, start: nat)
    requires TimeOrdered(start, inputs)
    ensures SpacedThroughFailures(start, inputs) <==> NoEarlyJoin(start, inputs)
  {
    if inputs != [] {
      SpacingIffNoEarlyJoin(inputs[..|inputs| - 1], start);
    }
    if NoEarlyJoin(start, inputs) {
      FailureKeepsRun(inputs, start);
    } else if NoEarlyJoin(start, inputs[..|inputs| - 1]) {
      EarlyJoinBreaks(inputs, start);
    }
  }

  // ----- the rate -----

  /** Main result: in a session without early joins, however failures, late rejections
      and polls interleave, the retry timer sends a bounded number of bootstrap requests
      by any time; every attach earns three more. */
  lemma {:induction false} FastLaneRateBound(inputs: seq<Input>, start: nat)
    requires TimeOrdered(start, inputs) && NoEarlyJoin(start, inputs)
    ensures var t := Tallied(inputs);
      var elapsed := ClockAfter(start, inputs) - start;
      && t.sends <= 3 + 3 * t.attaches + 4 * t.cooldowns
      && t.cooldowns <= 1 + elapsed / REBOOTSTRAP_COOLDOWN_MS
      && t.sends <= 3 + 3 * t.attaches + 4 * (1 + elapsed / REBOOTSTRAP_COOLDOWN_MS)
  {
    RunKeepsSpacing(inputs, start);
    SendsFromStart(inputs);
  }

  /** Before the first scene entry the lane does nothing that could fail. */
  predicate Unjoined(t: Tally, rt: Rt) {
    t.entries == 0 ==> (rt.phase == InScene ==> !rt.live) && t.cooldowns == 0
  }

  lemma StepKeepsUnjoined(t: Tally, rt: Rt, i: Input)
    requires Coherent(rt.lane) && Unjoined(t, rt)
    ensures Unjoined(Count(t, rt, i, Step(rt, i)), Step(rt, i).rt)
  {
    if StartsCooldown(rt, Step(rt, i)) {
      StepStartsCooldownIff(rt, i, 0);
    }
    if i.FromServer? && !TouchesLane(i.msg) {
      OtherKeepsLane(rt, i);
    }
  }

  lemma {:induction false} RunKeepsUnjoined(inputs: seq<Input>)
    ensures Unjoined(Tallied(inputs), Run(NEW, inputs))
  {
    if inputs != [] {
      var n := |inputs| - 1;
      RunKeepsUnjoined(inputs[..n]);
      LaneAlwaysCoherent(inputs[..n]);
      StepKeepsUnjoined(Tallied(inputs[..n]), Run(NEW, inputs[..n]), inputs[n]);
    }
  }

  /** A session that joins its scene once joins it early never. */
  lemma {:induction false} OneJoinIsNotEarly(inputs: seq<Input>, start: nat)
    requires Tallied(inputs).entries <= 1
    ensures NoEarlyJoin(start, inputs)
  {
    if inputs != [] {
      OneJoinIsNotEarly(inputs[..|inputs| - 1], start);
      RunKeepsUnjoined(inputs[..|inputs| - 1]);
    }
  }
}
