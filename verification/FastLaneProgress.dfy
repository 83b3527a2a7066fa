/** The UDP fast lane does not get stuck: when it asks again after a failure or a
    cooldown, that it always waits for something while in scene, and how an attach ends in
    movement over UDP. */
module FastLaneProgress {
  import opened Common
  import opened FastLane
  import opened Runtime
  import opened RuntimeRuns
  import opened FastLaneRates

  predicate Playing(rt: Rt) { rt.live && rt.phase == InScene }

  // ----- when the retry timer sends -----

  predicate DueBy(at: Option<nat>, now: nat) { at.Some? && at.value <= now }

  /** A poll sends exactly for a retry that is due, and then it sends one bootstrap
      request with the next id and waits for its answer. */
  lemma PollSendsIff(rt: Rt, now: nat)
    requires Coherent(rt.lane)
    ensures var o := Step(rt, RetryTimer(now));
      if Playing(rt) && DueBy(rt.lane.retryAt, now) then
        && o.outs == [TcpOut(FastLaneRequest(rt.nextId))]
        && o.rt.lane.bootstrap == Some(rt.nextId) && o.rt.lane.attempts == rt.lane.attempts
      else o.outs == [] && (o.rt.lane == rt.lane || DueBy(rt.lane.cooldownUntil, now))
  {
  }

  /** Main result: a cooldown is over at its time, not before. The first poll from then on
      schedules a retry with all attempts restored, and a poll sends the bootstrap request
      exactly from 250 ms after that one. */
  lemma CooldownEnds(rt: Rt, first: nat, second: nat)
    requires Coherent(rt.lane) && Playing(rt) && rt.lane.cooldownUntil.Some?
    ensures var o := Step(rt, RetryTimer(first));
      && o.outs == []
      && (first < rt.lane.cooldownUntil.value ==> o.rt == rt)
      && (first >= rt.lane.cooldownUntil.value ==>
            && o.rt.lane.attempts == 0 && o.rt.nextId == rt.nextId
            && Step(o.rt, RetryTimer(second)).outs ==
                 if second >= first + 250 then [TcpOut(FastLaneRequest(rt.nextId))] else [])
  {
  }

  function Delay(attempts: nat): nat {
    match attempts case 0 => 250 case 1 => 1000 case _ => 3000
  }

  /** Main result: a failure with no cooldown running, the attempts not used up, is
      followed by the next bootstrap request 250, 1000 and then 3000 ms later, and not
      before; with the attempts used up by none within 15 s. */
  lemma RetryComesAfterDelay(rt: Rt, i: Input, at: nat, poll: nat)
    requires Coherent(rt.lane) && Playing(rt) && Failure(rt, i) && TimeOf(i, 0) == at
    requires rt.lane.cooldownUntil == None
    ensures var failed := Step(rt, i).rt;
      Step(failed, RetryTimer(poll)).outs ==
        if rt.lane.attempts < MAX_REBOOTSTRAP_ATTEMPTS && poll >= at + Delay(rt.lane.attempts)
        then [TcpOut(FastLaneRequest(rt.nextId))] else []
    ensures rt.lane.attempts == MAX_REBOOTSTRAP_ATTEMPTS ==> Step(rt, i).rt.lane.cooldownUntil == Some(at + 15000)
  {
    FailureEffect(rt, i, at);
  }

  predicate IdleLane(l: Lane) {
    l.bootstrap == None && l.attach == None && l.endpoint == None && l.ticket == None && !l.attached
  }

  /** What every failure leaves: nothing in use, a reason to show, and a coherent lane. */
  lemma FailureEffect(rt: Rt, i: Input, at: nat)
    requires Coherent(rt.lane) && Failure(rt, i) && TimeOf(i, 0) == at
    ensures var o := Step(rt, i);
      && o.outs == [] && o.rt.nextId == rt.nextId && o.rt.phase == rt.phase && o.rt.live
      && IdleLane(o.rt.lane) && o.rt.lane.lastError.Some? && Coherent(o.rt.lane)
      && (exists reason :: o.rt.lane == Fail(rt.lane, rt.phase == InScene, at, reason, true)
                           && o.rt.lane.lastError == Some(reason))
  {
    match i
    case SocketFailed(reason, now) =>
      assert Step(rt, i).rt.lane == Fail(rt.lane, rt.phase == InScene, at, reason, true);
    case FromServer(_, Result(_, _), now) =>
      assert Step(rt, i).rt.lane == Fail(rt.lane, rt.phase == InScene, at, "udp movement rejected by gate", true);
    case FromServer(_, FastLaneAttached(_, _), now) =>
      assert Step(rt, i).rt.lane == Fail(rt.lane, rt.phase == InScene, at, "udp attach rejected by gate", true);
  }

  /** Before the scene and after it a failure schedules nothing. */
  lemma OutsideNothingScheduled(rt: Rt, i: Input, at: nat)
    requires Coherent(rt.lane) && Failure(rt, i) && rt.phase != InScene && TimeOf(i, 0) == at
    ensures var l := Step(rt, i).rt.lane; l.retryAt == None && l.cooldownUntil == None && l.attempts == rt.lane.attempts
  {
    FailureEffect(rt, i, at);
  }

  // ----- something is always under way -----

  predicate Engaged(l: Lane) {
    l.bootstrap.Some? || l.attach.Some? || l.attached || l.retryAt.Some? || l.cooldownUntil.Some?
  }

  /** The gate refuses the bootstrap request that is waited for. */
  predicate Refusal(rt: Rt, i: Input) {
    rt.live && i.FromServer? && i.msg.FastLaneResult? && rt.lane.bootstrap == Some(i.msg.packet) && !i.msg.ok
  }

  /** One input parks the lane exactly if it refuses the bootstrap, and takes it out of
      there exactly if it enters the scene or is another failure. */
  lemma {:induction false} StepParksIff(rt: Rt, i: Input)
    requires Coherent(rt.lane) && Playing(Step(rt, i).rt) && (Playing(rt) || EnteredScene in Step(rt, i).events)
    ensures var o := Step(rt, i);
      !Engaged(o.rt.lane) <==>
        Refusal(rt, i) || (!Engaged(rt.lane) && EnteredScene !in o.events && !Failure(rt, i))
  {
    if i.FromServer? && !TouchesLane(i.msg) {
      OtherKeepsLane(rt, i);
    } else if Failure(rt, i) {
      FailureEffect(rt, i, TimeOf(i, 0));
    }
  }

  /** The last event that decides is a refused bootstrap. */
  ghost predicate Parked(inputs: seq<Input>) {
    inputs != [] &&
    (var before, last := inputs[..|inputs| - 1], inputs[|inputs| - 1];
     var rt := Run(NEW, before);
     Refusal(rt, last) || (Parked(before) && EnteredScene !in Step(rt, last).events && !Failure(rt, last)))
  }

  /** A live session comes into the scene by entering it. */
  lemma ComesByEntry(rt: Rt, i: Input)
    requires Playing(Step(rt, i).rt)
    ensures Playing(rt) || EnteredScene in Step(rt, i).events
  {
    if i.FromServer? && !TouchesLane(i.msg) {
      OtherKeepsLane(rt, i);
    }
  }

  /** Main result: whenever a live session is in scene, its fast lane is waiting for an
      answer, attached, or waiting for its next retry, unless the gate refused the last
      bootstrap outright and neither a failure nor a scene entry has come since. */
  lemma {:induction false} LaneEngagedIff(inputs: seq<Input>)
    requires Playing(Run(NEW, inputs))
    ensures Engaged(Run(NEW, inputs).lane) <==> !Parked(inputs)
  {
    var n := |inputs| - 1;
    var rt := Run(NEW, inputs[..n]);
    LaneAlwaysCoherent(inputs[..n]);
    ComesByEntry(rt, inputs[n]);
    if Playing(rt) {
      LaneEngagedIff(inputs[..n]);
    }
    StepParksIff(rt, inputs[n]);
  }

  /** An attach is opened only for the ticket and the port that the awaited reply grants,
      under a fresh id that the lane then waits for. */
  lemma TicketIsPresented(rt: Rt, i: Input, out: Outbound)
    requires out in Step(rt, i).outs && out.OpenUdpAndAttach?
    ensures var l := Step(rt, i).rt.lane;
      && i.FromServer? && rt.lane.bootstrap.Some?
      && i.msg == FastLaneResult(rt.lane.bootstrap.value, true, Some(out.endpoint), Some(out.ticket))
      && out.id == rt.nextId && l.attach == Some(out.id)
      && l.endpoint == Some(out.endpoint) && l.ticket == Some(out.ticket)
  {
  }

  // ----- when a session ends itself -----

  /** A handler drops the session exactly for a refused login or scene entry, or an
      accepted scene entry or ticket that lacks what it should carry. */
  lemma DropsIff(rt: Rt, i: Input)
    requires rt.live
    ensures !Step(rt, i).rt.live <==>
      match i
      case FromServer(t, Result(packet, ok), _) => t == Tcp && packet == 1 && !ok
      case FromServer(_, EnterSceneResult(packet, ok, hasLocation, expectedSeq), _) =>
        rt.enterId == Some(packet) && !(ok && hasLocation && expectedSeq.Some?)
      case FromServer(_, FastLaneResult(packet, ok, port, ticket), _) =>
        rt.lane.bootstrap == Some(packet) && ok && !(port.Some? && ticket.Some?)
      case _ => false
  {
  }

  // ----- time syncs are matched once -----

  predicate Matches(rt: Rt, i: Input, id: nat) { SyncMatched(id) in Step(rt, i).events }

  /** A reply is matched exactly if its request is pending, and then it no longer is. */
  lemma MatchedIff(rt: Rt, i: Input, id: nat)
    ensures Matches(rt, i, id) <==>
      rt.live && i.FromServer? && i.msg == TimeSyncReply(id) && id in rt.pendingSync
    ensures Matches(rt, i, id) ==> Step(rt, i).rt.pendingSync == rt.pendingSync - {id}
    ensures rt.live && i.FromServer? && !Matches(rt, i, id) ==>
      (id in Step(rt, i).rt.pendingSync <==> id in rt.pendingSync)
  {
    if i.FromServer? && !i.msg.TimeSyncReply? {
      OtherKeepsPending(rt, i);
    }
  }

  lemma GoneStaysGone(rt: Rt, i: Input, id: nat)
    requires Spent(rt, id)
    ensures Spent(Step(rt, i).rt, id)
  {
    StepIssuesNext(rt, i);
    if i.FromServer? && !i.msg.TimeSyncReply? {
      OtherKeepsPending(rt, i);
    }
  }

  /** The id was issued and is not pending. */
  predicate Spent(rt: Rt, id: nat) { id !in rt.pendingSync && id < rt.nextId }

  lemma SpentStep(inputs: seq<Input>, n: nat, id: nat)
    requires n < |inputs| && Spent(Run(NEW, inputs[..n]), id)
    ensures Spent(Run(NEW, inputs[..n + 1]), id)
  {
    RunSnoc(NEW, inputs, n);
    GoneStaysGone(Run(NEW, inputs[..n]), inputs[n], id);
  }

  lemma {:induction false} SpentThrough(inputs: seq<Input>, i: nat, j: nat, id: nat)
    requires i <= j <= |inputs| && Spent(Run(NEW, inputs[..i]), id)
    ensures Spent(Run(NEW, inputs[..j]), id)
    decreases j - i
  {
    if i < j {
      SpentStep(inputs, i, id);
      SpentThrough(inputs, i + 1, j, id);
    }
  }

  /** Main result: over every run a time-sync request is matched with at most one reply. */
  lemma {:induction false} SyncMatchedOnce(inputs: seq<Input>, i: nat, j: nat, id: nat)
    requires i < j < |inputs| && Matches(Run(NEW, inputs[..i]), inputs[i], id)
    ensures !Matches(Run(NEW, inputs[..j]), inputs[j], id)
  {
    var rt := Run(NEW, inputs[..i]);
    MatchedIff(rt, inputs[i], id);
    RunKeepsInv(NEW, inputs[..i]);
    StepIssuesNext(rt, inputs[i]);
    RunSnoc(NEW, inputs, i);
    SpentThrough(inputs, i + 1, j, id);
    MatchedIff(Run(NEW, inputs[..j]), inputs[j], id);
  }
}
