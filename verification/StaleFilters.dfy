/** Reordering-proof watermarks: which movement acks and remote moves get through. */
module StaleFilters {
  import opened Common
  import opened Runtime

  predicate LexLess(a: (nat, nat), b: (nat, nat)) {
    a.0 < b.0 || (a.0 == b.0 && a.1 < b.1)
  }

  /** A step that joins the scene and so starts a new epoch for every watermark. */
  predicate Joins(rt: Rt, i: Input) {
    rt.live && i.FromServer? && i.msg.EnterSceneResult? && rt.enterId == Some(i.msg.packet) && i.msg.ok
  }

  ghost predicate NoJoin(rt: Rt, inputs: seq<Input>)
  {
    forall k :: 0 <= k < |inputs| ==> !Joins(Run(rt, inputs[..k]), inputs[k])
  }

  predicate IsAck(i: Input) { i.FromServer? && i.msg.MovementAck? }

  function AckOf(i: Input): (nat, nat)
    requires IsAck(i)
  {
    (i.msg.ackSeq, i.msg.authTick)
  }

  lemma OtherKeepsAck(rt: Rt, i: Input)
    requires !Joins(rt, i) && !IsAck(i)
    ensures var o := Step(rt, i);
      (o.rt.live ==> rt.live) && o.rt.ack == rt.ack && forall e :: e in o.events ==> !e.AckApplied?
  {
    if i.FromServer? {
      match i.msg
      case Result(_, _) =>
      case EnterSceneResult(_, _, _, _) =>
      case FastLaneResult(_, _, _, _) =>
      case FastLaneAttached(_, _) =>
      case _ =>
    }
  }

  lemma StepAck(rt: Rt, i: Input)
    requires !Joins(rt, i)
    ensures var o := Step(rt, i);
      && (o.rt.live ==> rt.live)
      && (if rt.live && IsAck(i) && LexLess(rt.ack, AckOf(i))
          then o.rt.ack == AckOf(i) && o.events == [AckApplied(i.msg.ackSeq, i.msg.authTick)]
          else o.rt.ack == rt.ack && forall e :: e in o.events ==> !e.AckApplied?)
  {
    if !IsAck(i) {
      OtherKeepsAck(rt, i);
    }
  }

  lemma {:induction false} NoJoinPrefix(rt: Rt, inputs: seq<Input>, n: nat)
    requires NoJoin(rt, inputs) && n <= |inputs|
    ensures NoJoin(rt, inputs[..n])
  {
    assert forall k :: 0 <= k < n ==> inputs[..n][..k] == inputs[..k];
  }

  /** The acks delivered over a run, forgetting order, duplicates and transport. */
  function Delivered(inputs: seq<Input>): set<(nat, nat)> {
    if inputs == [] then {}
    else
      var last := inputs[|inputs| - 1];
      Delivered(inputs[..|inputs| - 1]) + if IsAck(last) then {AckOf(last)} else {}
  }

  ghost predicate IsMax(w: (nat, nat), candidates: set<(nat, nat)>) {
    w in candidates && forall c :: c in candidates ==> !LexLess(w, c)
  }

  /** Main result: the final watermark is the lexicographic maximum of the first one
      and everything delivered. */
  lemma {:induction false} WatermarkIsMax(rt: Rt, inputs: seq<Input>)
    requires NoJoin(rt, inputs) && Run(rt, inputs).live
    ensures rt.live && IsMax(Run(rt, inputs).ack, {rt.ack} + Delivered(inputs))
  {
    if inputs != [] {
      var n := |inputs| - 1;
      NoJoinPrefix(rt, inputs, n);
      StepAck(Run(rt, inputs[..n]), inputs[n]);
      WatermarkIsMax(rt, inputs[..n]);
    }
  }

  /** Main result: two sessions that are delivered the same acks, in any order, with
      any duplicates, over any transport and among any other traffic, end at the same
      watermark. */
  lemma {:induction false} WatermarkIgnoresOrder(rt: Rt, a: seq<Input>, b: seq<Input>)
    requires NoJoin(rt, a) && NoJoin(rt, b) && Run(rt, a).live && Run(rt, b).live
    requires Delivered(a) == Delivered(b)
    ensures Run(rt, a).ack == Run(rt, b).ack
  {
    WatermarkIsMax(rt, a);
    WatermarkIsMax(rt, b);
  }

  lemma WatermarkStep(rt: Rt, inputs: seq<Input>, n: nat)
    requires n < |inputs| && !Joins(Run(rt, inputs[..n]), inputs[n])
    ensures !LexLess(Run(rt, inputs[..n + 1]).ack, Run(rt, inputs[..n]).ack)
  {
    RunSnoc(rt, inputs, n);
    StepAck(Run(rt, inputs[..n]), inputs[n]);
  }

  lemma {:induction false} WatermarkGrows(rt: Rt, inputs: seq<Input>, i: nat, j: nat)
    requires NoJoin(rt, inputs) && i <= j <= |inputs|
    ensures !LexLess(Run(rt, inputs[..j]).ack, Run(rt, inputs[..i]).ack)
    decreases j - i
  {
    if i < j {
      WatermarkStep(rt, inputs, i);
      WatermarkGrows(rt, inputs, i + 1, j);
    }
  }

  /** Main result: the acks applied within one scene session strictly increase. */
  lemma AppliedAcksIncrease(rt: Rt, inputs: seq<Input>, i: nat, j: nat, x: (nat, nat), y: (nat, nat))
    requires NoJoin(rt, inputs) && i < j < |inputs|
    requires AckApplied(x.0, x.1) in At(rt, inputs, i).events
    requires AckApplied(y.0, y.1) in At(rt, inputs, j).events
    ensures LexLess(x, y)
  {
    StepAck(Run(rt, inputs[..i]), inputs[i]);
    StepAck(Run(rt, inputs[..j]), inputs[j]);
    RunSnoc(rt, inputs, i);
    WatermarkGrows(rt, inputs, i + 1, j);
  }

  /** Joining forgets every watermark, even if the reply lacks what it should carry: the
      first positive ack and every positive move of the new scene get through. */
  lemma JoiningForgets(rt: Rt, i: Input)
    requires Joins(rt, i)
    ensures var rt' := Step(rt, i).rt;
      rt'.ack == (0, 0) && rt'.phase == InScene && forall cid :: TickOf(rt', cid) == 0
  {
  }

  // ----- remote moves -----

  predicate IsMove(i: Input, cid: int) { i.FromServer? && i.msg.PlayerMove? && i.msg.cid == cid }

  /** Entering, leaving and joining a scene start a new tick epoch for an actor. */
  predicate Resets(rt: Rt, i: Input, cid: int) {
    Joins(rt, i) || (rt.live && i.FromServer? && (i.msg == PlayerEnter(cid) || i.msg == PlayerLeave(cid)))
  }

  /** Input j is a move of this actor in the epoch that is current at the end of the run. */
  ghost predicate InEpoch(inputs: seq<Input>, cid: int, j: nat) {
    && j < |inputs| && IsMove(inputs[j], cid)
    && forall k :: j < k < |inputs| ==> !ResetsAt(inputs, cid, k)
  }

  ghost predicate ResetsAt(inputs: seq<Input>, cid: int, k: nat)
    requires k < |inputs|
  {
    Resets(Run(NEW, inputs[..k]), inputs[k], cid)
  }

  lemma ResetsAtPrefix(inputs: seq<Input>, cid: int, n: nat, k: nat)
    requires k < n <= |inputs|
    ensures ResetsAt(inputs[..n], cid, k) == ResetsAt(inputs, cid, k)
  {
    assert inputs[..n][..k] == inputs[..k];
  }

  lemma OtherKeepsTicks(rt: Rt, i: Input)
    requires i.FromServer? ==> i.msg.Result? || i.msg.MovementAck? || i.msg.FastLaneResult? || i.msg.FastLaneAttached?
                               || i.msg.TimeSyncReply? || i.msg.OtherMessage?
    ensures Step(rt, i).rt.moveTicks == rt.moveTicks && (Step(rt, i).rt.live ==> rt.live)
  {
  }

  lemma StepTick(rt: Rt, i: Input, cid: int)
    ensures var rt' := Step(rt, i).rt;
      && (rt'.live ==> rt.live)
      && TickOf(rt', cid) == if Resets(rt, i, cid) then 0
                             else if rt.live && IsMove(i, cid) then Max(TickOf(rt, cid), i.msg.tick)
                             else TickOf(rt, cid)
  {
    if i.FromServer? && (i.msg.EnterSceneResult? || i.msg.PlayerEnter? || i.msg.PlayerMove? || i.msg.PlayerLeave?) {
    } else {
      OtherKeepsTicks(rt, i);
    }
  }

  lemma InEpochSnoc(inputs: seq<Input>, cid: int, j: nat)
    requires j + 1 < |inputs|
    ensures InEpoch(inputs, cid, j) <==>
      InEpoch(inputs[..|inputs| - 1], cid, j) && !Resets(Run(NEW, inputs[..|inputs| - 1]), inputs[|inputs| - 1], cid)
  {
    var n := |inputs| - 1;
    forall k | 0 <= k < n
      ensures ResetsAt(inputs[..n], cid, k) == ResetsAt(inputs, cid, k)
    {
      ResetsAtPrefix(inputs, cid, n, k);
    }
    assert ResetsAt(inputs, cid, n) == Resets(Run(NEW, inputs[..n]), inputs[n], cid);
  }

  /** The stored tick is 0 or the largest tick of the current epoch. */
  ghost predicate IsEpochMax(w: nat, inputs: seq<Input>, cid: int) {
    && (forall j :: 0 <= j < |inputs| && InEpoch(inputs, cid, j) ==> inputs[j].msg.tick <= w)
    && (w == 0 || exists j :: 0 <= j < |inputs| && InEpoch(inputs, cid, j) && inputs[j].msg.tick == w)
  }

  lemma {:induction false} TickIsEpochMax(inputs: seq<Input>, cid: int)
    requires Run(NEW, inputs).live
    ensures IsEpochMax(TickOf(Run(NEW, inputs), cid), inputs, cid)
  {
    if inputs != [] {
      var n := |inputs| - 1;
      var before := Run(NEW, inputs[..n]);
      StepTick(before, inputs[n], cid);
      TickIsEpochMax(inputs[..n], cid);
      forall j | 0 <= j < n
        ensures InEpoch(inputs, cid, j) <==> InEpoch(inputs[..n], cid, j) && !Resets(before, inputs[n], cid)
      {
        InEpochSnoc(inputs, cid, j);
      }
      var w := TickOf(before, cid);
      if w != 0 && !Resets(before, inputs[n], cid) {
        var j :| 0 <= j < n && InEpoch(inputs[..n], cid, j) && inputs[..n][j].msg.tick == w;
        assert InEpoch(inputs, cid, j) && inputs[j].msg.tick == w;
      }
      if IsMove(inputs[n], cid) {
        assert InEpoch(inputs, cid, n);
      }
    }
  }

  /** Main result: a remote move is forwarded exactly when its tick is positive and
      larger than every tick of that actor since it last entered, left, or the scene
      was joined. */
  lemma ForwardedIffRecord(inputs: seq<Input>, i: nat, cid: int)
    requires i < |inputs| && IsMove(inputs[i], cid) && Run(NEW, inputs[..i]).live
    ensures var tick := inputs[i].msg.tick;
      MoveForwarded(cid, tick) in At(NEW, inputs, i).events <==>
      tick > 0 && forall j :: 0 <= j < i && InEpoch(inputs[..i], cid, j) ==> inputs[j].msg.tick < tick
  {
    TickIsEpochMax(inputs[..i], cid);
  }
}
