/** A session of the network thread is a run of the client runtime, so what holds over
    runs holds for what the session puts on the wire. */
module SessionRuns {
  import opened FastLane
  import opened Runtime
  import opened RuntimeRuns
  import opened FastLaneRates
  import opened NetworkThread

  /** The failure that applying an outcome reports to the runtime, if any. */
  function Reported(n: Net, o: Outcome, io: Io, now: nat): seq<Input> {
    if !o.rt.live || o.outs == [] then []
    else match o.outs[0]
      case TcpOut(_) => []
      case UdpOut(m) =>
        if n.udpOpen then if io.udp then [] else [SocketFailed("udp send failed", now)]
        else if m.MovementInput? then [] else [SocketFailed("udp socket missing", now)]
      case OpenUdpAndAttach(_, _, _) => if io.bound && io.udp then [] else [SocketFailed("udp attach failed", now)]
  }

  /** What the runtime is told in one pass of the session loop. */
  function Told(n: Net, ni: NetInput): seq<Input> {
    if !n.rt.live || !Enabled(n, ni) then []
    else match ni
      case Handle(i, io, now) => [i] + Reported(n, Step(n.rt, i), io, now)
      case UdpReadFailed(now) => [SocketFailed("udp socket read failed", now)]
  }

  function SessionInputs(inputs: seq<NetInput>): seq<Input> {
    if inputs == [] then []
    else
      var before := inputs[..|inputs| - 1];
      SessionInputs(before) + Told(NetRun(before), inputs[|inputs| - 1])
  }

  lemma {:induction false} RunAppend(rt: Rt, a: seq<Input>, b: seq<Input>)
    ensures Run(rt, a + b) == Run(Run(rt, a), b)
  {
    if b == [] {
      assert a + b == a;
    } else {
      var n := |b| - 1;
      assert (a + b)[..|a| + n] == a + b[..n];
      RunAppend(rt, a, b[..n]);
    }
  }

  /** The session's runtime is this one, unless a failed send dropped the session. */
  predicate Agrees(n: Net, rt: Rt) {
    n.rt.(live := true) == rt.(live := true) && (n.rt.live ==> rt.live)
  }

  lemma ReportAgrees(n: Net, o: Outcome, io: Io, now: nat)
    requires o.rt.live && |o.outs| <= 1
    ensures Agrees(Finish(n, o, io, now), Run(o.rt, Reported(n, o, io, now)))
  {
    if o.outs != [] {
      ApplySingle(n.(rt := o.rt), o.outs, io, now);
    }
  }

  lemma StepAgrees(n: Net, ni: NetInput)
    requires n.rt.live
    ensures Agrees(NetStep(n, ni), Run(n.rt, Told(n, ni)))
  {
    if Enabled(n, ni) {
      match ni
      case Handle(i, io, now) =>
        StepIssuesNext(n.rt, i);
        var o := Step(n.rt, i);
        RunAppend(n.rt, [i], Reported(n, o, io, now));
        if o.rt.live {
          ReportAgrees(n, o, io, now);
        }
      case UdpReadFailed(_) =>
    }
  }

  /** Main result: over every session, whatever the sockets and the server do, the
      runtime's state is that of a run of the runtime from the start. */
  lemma {:induction false} SessionIsRun(inputs: seq<NetInput>)
    ensures Agrees(NetRun(inputs), Run(NEW, SessionInputs(inputs)))
  {
    if inputs != [] {
      var before := inputs[..|inputs| - 1];
      SessionIsRun(before);
      var n := NetRun(before);
      RunAppend(NEW, SessionInputs(before), Told(n, inputs[|inputs| - 1]));
      if n.rt.live {
        StepAgrees(n, inputs[|inputs| - 1]);
      }
    }
  }

  // ----- ids on the wire -----

  /** The ids the sockets accepted increase, and all are issued already. */
  predicate LogIncreases(log: seq<(Transport, Message)>, next: nat) {
    && (forall k :: 0 <= k < |log| && IdOf(log[k].1).Some? ==> IdOf(log[k].1).value < next)
    && (forall i, j :: 0 <= i < j < |log| && IdOf(log[i].1).Some? && IdOf(log[j].1).Some? ==>
          IdOf(log[i].1).value < IdOf(log[j].1).value)
  }

  /** What applying one action adds to the log: nothing, or a message with its id. */
  lemma ApplyOneLogs(n: Net, out: Outbound, io: Io, now: nat)
    ensures var a := ApplyOne(n, out, io, now).net;
      && a.rt.nextId == n.rt.nextId
      && (a.log == n.log ||
          (|a.log| == |n.log| + 1 && a.log[..|n.log|] == n.log && IdOf(a.log[|n.log|].1) == Issued(out)
           && (a.log[|n.log|].1.FastLaneRequest? ==> !out.OpenUdpAndAttach? && out.msg.FastLaneRequest?)))
  {
  }

  lemma FinishLogs(n: Net, o: Outcome, io: Io, now: nat)
    requires LogIncreases(n.log, n.rt.nextId) && IssuesNext(n.rt, o)
    ensures var n' := Finish(n, o, io, now); LogIncreases(n'.log, n'.rt.nextId)
  {
    if o.rt.live && o.outs != [] {
      ApplySingle(n.(rt := o.rt), o.outs, io, now);
      ApplyOneLogs(n.(rt := o.rt), o.outs[0], io, now);
    }
  }

  /** Main result: over a session no two messages that a socket accepted share an id,
      and their ids increase in the order they were accepted. */
  lemma {:induction false} WireIdsIncrease(inputs: seq<NetInput>)
    ensures LogIncreases(NetRun(inputs).log, NetRun(inputs).rt.nextId)
  {
    if inputs != [] {
      var before, last := inputs[..|inputs| - 1], inputs[|inputs| - 1];
      var n := NetRun(before);
      WireIdsIncrease(before);
      if n.rt.live && Enabled(n, last) && last.Handle? {
        StepIssuesNext(n.rt, last.i);
        FinishLogs(n, Step(n.rt, last.i), last.io, last.now);
      }
    }
  }

  // ----- bootstrap requests on the wire -----

  function Bootstraps(log: seq<(Transport, Message)>): nat {
    if log == [] then 0 else Bootstraps(log[..|log| - 1]) + Flag(log[|log| - 1].1.FastLaneRequest?)
  }

  function AsksBootstrap(o: Outcome): bool {
    o.outs != [] && !o.outs[0].OpenUdpAndAttach? && o.outs[0].msg.FastLaneRequest?
  }

  /** Only a scene entry and the retry timer ask for a bootstrap. */
  lemma AskedByEntryOrTimer(t: Tally, rt: Rt, i: Input)
    requires AsksBootstrap(Step(rt, i))
    ensures var u := Count(t, rt, i, Step(rt, i)); u.entries + u.sends == t.entries + t.sends + 1
  {
  }

  lemma FinishBootstraps(n: Net, o: Outcome, io: Io, now: nat)
    requires |o.outs| <= 1
    ensures Bootstraps(Finish(n, o, io, now).log) <= Bootstraps(n.log) + Flag(AsksBootstrap(o))
  {
    if o.rt.live && o.outs != [] {
      ApplySingle(n.(rt := o.rt), o.outs, io, now);
      ApplyOneLogs(n.(rt := o.rt), o.outs[0], io, now);
    }
  }

  ghost function Asked(inputs: seq<Input>): nat { Tallied(inputs).entries + Tallied(inputs).sends }

  lemma AskedSnoc(inputs: seq<Input>, i: Input)
    ensures Asked(inputs + [i]) >= Asked(inputs) + Flag(AsksBootstrap(Step(Run(NEW, inputs), i)))
  {
    assert (inputs + [i])[..|inputs|] == inputs;
    if AsksBootstrap(Step(Run(NEW, inputs), i)) {
      AskedByEntryOrTimer(Tallied(inputs), Run(NEW, inputs), i);
    }
  }

  lemma {:induction false} BootstrapsCounted(inputs: seq<NetInput>)
    ensures Bootstraps(NetRun(inputs).log) <= Asked(SessionInputs(inputs))
  {
    if inputs != [] {
      var before, last := inputs[..|inputs| - 1], inputs[|inputs| - 1];
      var n, told := NetRun(before), SessionInputs(before);
      BootstrapsCounted(before);
      SessionIsRun(before);
      if !n.rt.live || !Enabled(n, last) {
        assert told + [] == told;
      } else {
        PassCounted(n, last, told);
      }
    }
  }

  lemma PassCounted(n: Net, ni: NetInput, told: seq<Input>)
    requires n.rt.live && Enabled(n, ni) && Run(NEW, told) == n.rt && Bootstraps(n.log) <= Asked(told)
    ensures Bootstraps(NetStep(n, ni).log) <= Asked(told + Told(n, ni))
  {
    match ni
    case Handle(i, io, now) =>
      var o := Step(n.rt, i);
      StepIssuesNext(n.rt, i);
      FinishBootstraps(n, o, io, now);
      AskedSnoc(told, i);
      var reported := Reported(n, o, io, now);
      if reported == [] {
        assert told + ([i] + reported) == told + [i];
      } else {
        AskedSnoc(told + [i], reported[0]);
        assert told + ([i] + reported) == told + [i] + [reported[0]];
      }
    case UdpReadFailed(now) => AskedSnoc(told, SocketFailed("udp socket read failed", now));
  }

  /** Main result: in a session without early joins the bootstrap requests on the wire by
      any time are bounded, however the sockets fail: one per scene entry and what the
      retry timer may send. */
  lemma {:induction false} WireRateBound(inputs: seq<NetInput>, start: nat)
    requires TimeOrdered(start, SessionInputs(inputs)) && NoEarlyJoin(start, SessionInputs(inputs))
    ensures var t := Tallied(SessionInputs(inputs));
      var elapsed := ClockAfter(start, SessionInputs(inputs)) - start;
      Bootstraps(NetRun(inputs).log) <= t.entries + 3 + 3 * t.attaches + 4 * (1 + elapsed / REBOOTSTRAP_COOLDOWN_MS)
  {
    BootstrapsCounted(inputs);
    FastLaneRateBound(SessionInputs(inputs), start);
  }
}
