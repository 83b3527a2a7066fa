/** The network thread's glue between the runtime and its sockets: applying an
    outcome, falling back from UDP to TCP, and the session loop. */
module NetworkThread {
  import opened FastLane
  import opened Runtime
  import opened ClientRuntimeObject

  /** What the sockets answer while one outbound action is applied. */
  datatype Io = Io(bound: bool, udp: bool, tcp: bool)

  /** `log` records every message a socket accepted, with its channel. */
  datatype Net = Net(rt: Rt, udpOpen: bool, log: seq<(Transport, Message)>)

  datatype Applied = Applied(net: Net, ok: bool)

  function DropUdp(n: Net, now: nat, reason: string): Net {
    Net(LaneFailed(n.rt, now, reason, true).rt, false, n.log)
  }

  function SendTcp(n: Net, m: Message, accepted: bool): Applied {
    Applied(if accepted then n.(log := n.log + [(Tcp, m)]) else n, accepted)
  }

  function ApplyOne(n: Net, out: Outbound, io: Io, now: nat): Applied {
    match out
    case TcpOut(m) => SendTcp(n, m, io.tcp)
    case UdpOut(m) =>
      if n.udpOpen then
        if io.udp then Applied(n.(log := n.log + [(Udp, m)]), true)
        else if m.MovementInput? then SendTcp(DropUdp(n, now, "udp send failed"), m, io.tcp)
        else Applied(DropUdp(n, now, "udp send failed"), true)
      else if m.MovementInput? then SendTcp(n, m, io.tcp)
      else Applied(DropUdp(n, now, "udp socket missing"), true)
    case OpenUdpAndAttach(_, id, ticket) =>
      if io.bound && io.udp then
        Applied(Net(n.rt, true, n.log + [(Udp, FastLaneAttach(id, ticket))]), true)
      else Applied(DropUdp(n, now, "udp attach failed"), true)
  }

  /** Actions are applied in order; a TCP failure abandons the rest. */
  function ApplyAll(n: Net, outs: seq<Outbound>, io: seq<Io>, now: nat): Applied
    requires |io| == |outs|
    decreases |outs|
  {
    if outs == [] then Applied(n, true)
    else
      var first := ApplyOne(n, outs[0], io[0], now);
      if first.ok then ApplyAll(first.net, outs[1..], io[1..], now) else first
  }

  function MovementsOut(outs: seq<Outbound>): seq<Message> {
    if outs == [] then []
    else
      var first := if !outs[0].OpenUdpAndAttach? && outs[0].msg.MovementInput? then [outs[0].msg] else [];
      first + MovementsOut(outs[1..])
  }

  function MovementsSent(log: seq<(Transport, Message)>): seq<Message> {
    if log == [] then []
    else MovementsSent(log[..|log| - 1]) + if log[|log| - 1].1.MovementInput? then [log[|log| - 1].1] else []
  }

  lemma ApplyOneSends(n: Net, out: Outbound, io: Io, now: nat)
    ensures var a := ApplyOne(n, out, io, now);
      a.ok ==> MovementsSent(a.net.log) == MovementsSent(n.log) + MovementsOut([out])
  {
  }

  /** Main result: when an outcome is applied without error, its movement inputs have
      been sent exactly once each, in order, over UDP or the TCP fallback. */
  lemma {:induction false} MovementsSentOnce(n: Net, outs: seq<Outbound>, io: seq<Io>, now: nat)
    requires |io| == |outs|
    ensures var a := ApplyAll(n, outs, io, now);
      a.ok ==> MovementsSent(a.net.log) == MovementsSent(n.log) + MovementsOut(outs)
    decreases |outs|
  {
    if outs != [] {
      ApplyOneSends(n, outs[0], io[0], now);
      var first := ApplyOne(n, outs[0], io[0], now);
      if first.ok {
        MovementsSentOnce(first.net, outs[1..], io[1..], now);
        var sent := MovementsSent(n.log);
        assert sent + MovementsOut([outs[0]]) + MovementsOut(outs[1..]) == sent + MovementsOut(outs);
      }
    }
  }

  // ----- runtime and socket agree -----

  /** The hand-off invariant: a lane that is attached or attaching has a socket. */
  predicate Linked(n: Net) {
    n.rt.lane.attached || n.rt.lane.attach.Some? ==> n.udpOpen
  }

  datatype NetInput =
    | Handle(i: Input, io: Io, now: nat)  // the sockets answer at time `now`
    | UdpReadFailed(now: nat)

  /** UDP messages reach the runtime only while the socket is open. */
  predicate Enabled(n: Net, ni: NetInput) {
    match ni
    case Handle(FromServer(Udp, _, _), _, _) => n.udpOpen
    case Handle(SocketFailed(_, _), _, _) => false
    case UdpReadFailed(_) => n.udpOpen
    case _ => true
  }

  /** A failed send drops the session. */
  function Settle(a: Applied): Net {
    if a.ok then a.net else a.net.(rt := a.net.rt.(live := false))
  }

  function Finish(n: Net, o: Outcome, io: Io, now: nat): Net {
    if !o.rt.live then n.(rt := o.rt)
    else Settle(ApplyAll(n.(rt := o.rt), o.outs, seq(|o.outs|, _ => io), now))
  }

  lemma ApplySingle(n: Net, outs: seq<Outbound>, io: Io, now: nat)
    requires |outs| == 1
    ensures ApplyAll(n, outs, seq(1, _ => io), now) == ApplyOne(n, outs[0], io, now)
  {
  }

  /** One pass of the session loop for one input. */
  function NetStep(n: Net, ni: NetInput): Net {
    if !n.rt.live || !Enabled(n, ni) then n
    else match ni
      case Handle(i, io, now) => Finish(n, Step(n.rt, i), io, now)
      case UdpReadFailed(now) => DropUdp(n, now, "udp socket read failed")
  }

  /** A handler leaves a new attach only together with the action that opens a
      socket, and sends over UDP only movement inputs while a socket is open. */
  predicate Links(n: Net, o: Outcome) {
    && |o.outs| <= 1
    && ((o.outs != [] && o.outs[0].OpenUdpAndAttach?) || Linked(n.(rt := o.rt)))
    && (o.outs != [] && o.outs[0].UdpOut? ==> n.udpOpen && o.outs[0].msg.MovementInput?)
  }

  lemma StepLinks(n: Net, i: Input)
    requires Coherent(n.rt.lane) && Linked(n) && n.rt.live
    ensures Links(n, Step(n.rt, i))
  {
    match i
    case FromServer(t, m, now) =>
      match m {
        case Result(_, _) =>
        case EnterSceneResult(_, _, _, _) =>
        case FastLaneResult(_, _, _, _) =>
        case FastLaneAttached(_, _) =>
        case _ =>
      }
    case _ =>
  }

  lemma ApplyOneLinks(n: Net, out: Outbound, io: Io, now: nat)
    requires out.OpenUdpAndAttach? || Linked(n)
    ensures Linked(ApplyOne(n, out, io, now).net)
  {
  }

  lemma ApplyOneKeepsInv(n: Net, out: Outbound, io: Io, now: nat)
    requires Inv(n.rt)
    ensures Inv(ApplyOne(n, out, io, now).net.rt)
  {
    LaneFailedKeepsInv(n.rt, now, "udp send failed", true);
    LaneFailedKeepsInv(n.rt, now, "udp socket missing", true);
    LaneFailedKeepsInv(n.rt, now, "udp attach failed", true);
  }

  lemma FinishKeepsLinked(n: Net, o: Outcome, io: Io, now: nat)
    requires Inv(o.rt) && Links(n, o) && Linked(n) && (!o.rt.live ==> Linked(n.(rt := o.rt)))
    ensures Inv(Finish(n, o, io, now).rt) && Linked(Finish(n, o, io, now))
  {
    var m := n.(rt := o.rt);
    if o.rt.live && o.outs != [] {
      ApplySingle(m, o.outs, io, now);
      ApplyOneLinks(m, o.outs[0], io, now);
      ApplyOneKeepsInv(m, o.outs[0], io, now);
    }
  }

  /** A handler that fails the session leaves the lane alone and sends nothing. */
  lemma FailedStepIsSilent(rt: Rt, i: Input)
    requires rt.live && !Step(rt, i).rt.live
    ensures Step(rt, i).outs == [] && Step(rt, i).rt.lane == rt.lane
  {
  }

  lemma HandleKeepsLinked(n: Net, i: Input, io: Io, now: nat)
    requires Inv(n.rt) && Linked(n) && n.rt.live
    ensures var n' := Finish(n, Step(n.rt, i), io, now); Inv(n'.rt) && Linked(n')
  {
    StepKeepsInv(n.rt, i);
    StepLinks(n, i);
    if !Step(n.rt, i).rt.live {
      FailedStepIsSilent(n.rt, i);
    }
    FinishKeepsLinked(n, Step(n.rt, i), io, now);
  }

  lemma NetStepKeepsLinked(n: Net, ni: NetInput)
    requires Inv(n.rt) && Linked(n)
    ensures Inv(NetStep(n, ni).rt) && Linked(NetStep(n, ni))
  {
    if n.rt.live && Enabled(n, ni) {
      match ni
      case Handle(i, io, now) => HandleKeepsLinked(n, i, io, now);
      case UdpReadFailed(now) => LaneFailedKeepsInv(n.rt, now, "udp socket read failed", true);
    }
  }

  function NetRun(inputs: seq<NetInput>): Net {
    if inputs == [] then Net(NEW, false, []) else NetStep(NetRun(inputs[..|inputs| - 1]), inputs[|inputs| - 1])
  }

  /** Main result: at every loop boundary of every session, attached or attaching
      implies an open UDP socket, whatever the sockets and the server do. */
  lemma {:induction false} SocketAlwaysBacksLane(inputs: seq<NetInput>)
    ensures Inv(NetRun(inputs).rt) && Linked(NetRun(inputs))
  {
    if inputs != [] {
      SocketAlwaysBacksLane(inputs[..|inputs| - 1]);
      NetStepKeepsLinked(NetRun(inputs[..|inputs| - 1]), inputs[|inputs| - 1]);
    }
  }

  /** The session's mutable half: the runtime, the UDP socket, and what was sent. */
  class Session {
    const runtime: ClientRuntime
    var udpOpen: bool
    var log: seq<(Transport, Message)>

    constructor ()
      ensures View() == Net(NEW, false, []) && fresh(runtime) && fresh(runtime.fastLane)
    {
      runtime := new ClientRuntime();
      udpOpen, log := false, [];
    }

    function View(): Net
      reads this, runtime, runtime.fastLane
    {
      Net(runtime.View(), udpOpen, log)
    }

    method TrySendTcp(m: Message, accepted: bool) returns (ok: bool)
      modifies this
      ensures Applied(View(), ok) == SendTcp(old(View()), m, accepted)
    {
      if accepted {
        log := log + [(Tcp, m)];
      }
      ok := accepted;
    }

    /** Closes UDP, tells the runtime, and applies its outcome: the recursion stops at
        once because a failure outcome carries no outbound actions. */
    method FallBack(reason: string, now: nat)
      modifies this, runtime, runtime.fastLane
      ensures View() == DropUdp(old(View()), now, reason)
      decreases 0, 1
    {
      udpOpen := false;
      var fallback := runtime.MarkFastLaneFailedAt(now, reason, true);
      var ok := ApplyRuntimeOutcome(fallback.outs, [], now);
      assert ok;
    }

    method ApplyRuntimeOutcome(outs: seq<Outbound>, io: seq<Io>, now: nat) returns (ok: bool)
      requires |io| == |outs|
      modifies this, runtime, runtime.fastLane
      ensures Applied(View(), ok) == ApplyAll(old(View()), outs, io, now)
      decreases |outs|, 0
    {
      for i := 0 to |outs|
        invariant ApplyAll(old(View()), outs, io, now) == ApplyAll(View(), outs[i..], io[i..], now)
      {
        ok := ApplyAction(outs[i], io[i], now);
        assert outs[i..][1..] == outs[i + 1..] && io[i..][1..] == io[i + 1..];
        if !ok {
          return;
        }
      }
      ok := true;
    }

    method ApplyAction(out: Outbound, io: Io, now: nat) returns (ok: bool)
      modifies this, runtime, runtime.fastLane
      ensures Applied(View(), ok) == ApplyOne(old(View()), out, io, now)
      decreases 0, 2
    {
      ok := true;
      match out
      case TcpOut(m) => ok := TrySendTcp(m, io.tcp);
      case UdpOut(m) =>
        if udpOpen {
          if io.udp {
            log := log + [(Udp, m)];
          } else {
            FallBack("udp send failed", now);
            if m.MovementInput? {
              ok := TrySendTcp(m, io.tcp);
            }
          }
        } else if m.MovementInput? {
          ok := TrySendTcp(m, io.tcp);
        } else {
          FallBack("udp socket missing", now);
        }
      case OpenUdpAndAttach(_, id, ticket) =>
        if io.bound && io.udp {
          udpOpen := true;
          log := log + [(Udp, FastLaneAttach(id, ticket))];
        } else {
          FallBack("udp attach failed", now);
        }
    }
  }
}
