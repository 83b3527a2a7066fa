/** What a session puts on its sockets: every outbound message on its channel, once and in
    order, and every command of the application that it acted on. */
module SessionTraffic {
  import opened Common
  import opened FastLane
  import opened Runtime
  import opened RuntimeRuns
  import opened FastLaneProgress
  import opened NetworkThread

  type Log = seq<(Transport, Message)>

  // ----- one outcome -----

  /** The log entry that an action comes to. A movement input meant for UDP may have fallen
      back to TCP; it is on UDP only if that socket took it. */
  predicate Carries(out: Outbound, io: Io, entry: (Transport, Message)) {
    match out
    case TcpOut(m) => entry == (Tcp, m)
    case UdpOut(m) => entry.1 == m && (entry.0 == Udp ==> io.udp) && (entry.0 == Tcp ==> m.MovementInput?)
    case OpenUdpAndAttach(_, id, ticket) => entry == (Udp, FastLaneAttach(id, ticket)) && io.bound && io.udp
  }

  /** Only a UDP message may come to nothing, and no movement input does. */
  predicate MayVanish(out: Outbound, io: Io) {
    match out
    case TcpOut(_) => false
    case UdpOut(m) => !m.MovementInput?
    case OpenUdpAndAttach(_, _, _) => !(io.bound && io.udp)
  }

  /** The entries are those of the actions, each once, in order. */
  predicate Carried(outs: seq<Outbound>, io: seq<Io>, entries: Log)
    requires |io| == |outs|
    decreases |outs|
  {
    if outs == [] then entries == []
    else
      || (entries != [] && Carries(outs[0], io[0], entries[0]) && Carried(outs[1..], io[1..], entries[1..]))
      || (MayVanish(outs[0], io[0]) && Carried(outs[1..], io[1..], entries))
  }

  /** Main result: an outcome applied without error has put every TCP message on TCP, every
      movement input on one channel or the other and every attach with its id and ticket on
      an open UDP socket, each exactly once and in order. An error comes of a TCP refusal,
      and then what precedes it has been sent. */
  lemma {:induction false} OutcomeCarried(n: Net, outs: seq<Outbound>, io: seq<Io>, now: nat)
    returns (k: nat, entries: Log)
    requires |io| == |outs|
    ensures var a := ApplyAll(n, outs, io, now);
      && k <= |outs| && (a.ok <==> k == |outs|) && (!a.ok ==> !io[k].tcp)
      && a.net.log == n.log + entries && Carried(outs[..k], io[..k], entries)
    decreases |outs|
  {
    k, entries := 0, [];
    if outs != [] {
      var first := ApplyOne(n, outs[0], io[0], now);
      if first.ok {
        k, entries := OutcomeCarried(first.net, outs[1..], io[1..], now);
        k := k + 1;
        assert outs[..k][1..] == outs[1..][..k - 1] && io[..k][1..] == io[1..][..k - 1];
        if first.net.log != n.log {
          var entry :| Carries(outs[0], io[0], entry) && first.net.log == n.log + [entry];
          var rest := entries;
          entries := [entry] + rest;
          assert entries[1..] == rest && n.log + [entry] + rest == n.log + entries;
        }
      } else {
        assert n.log + [] == n.log;
      }
    }
    assert outs[..|outs|] == outs && io[..|io|] == io;
  }

  /** The TCP messages of an outcome, and those that were sent over TCP because they had to be. */
  function TcpWanted(outs: seq<Outbound>): seq<Message> {
    if outs == [] then []
    else (if outs[0].TcpOut? && !outs[0].msg.MovementInput? then [outs[0].msg] else []) + TcpWanted(outs[1..])
  }

  function TcpSent(log: Log): seq<Message> {
    if log == [] then []
    else (if log[0].0 == Tcp && !log[0].1.MovementInput? then [log[0].1] else []) + TcpSent(log[1..])
  }

  lemma {:induction false} CarriedTcp(outs: seq<Outbound>, io: seq<Io>, entries: Log)
    requires |io| == |outs| && Carried(outs, io, entries)
    ensures TcpSent(entries) == TcpWanted(outs)
    decreases |outs|
  {
    if outs != [] {
      if entries != [] && Carries(outs[0], io[0], entries[0]) && Carried(outs[1..], io[1..], entries[1..]) {
        CarriedTcp(outs[1..], io[1..], entries[1..]);
      } else {
        CarriedTcp(outs[1..], io[1..], entries);
      }
    }
  }

  /** So every TCP message that is no movement input is sent, as it is, once and in order. */
  lemma TcpSentOnce(n: Net, outs: seq<Outbound>, io: seq<Io>, now: nat) returns (entries: Log)
    requires |io| == |outs| && ApplyAll(n, outs, io, now).ok
    ensures ApplyAll(n, outs, io, now).net.log == n.log + entries && TcpSent(entries) == TcpWanted(outs)
  {
    var k;
    k, entries := OutcomeCarried(n, outs, io, now);
    assert outs[..k] == outs && io[..k] == io;
    CarriedTcp(outs, io, entries);
  }

  /** When UDP fails, the socket is closed and the lane is not in use any more; in scene
      it has a retry or a cooldown to wait for. Nothing else closes the socket. */
  lemma UdpFailureDetaches(n: Net, out: Outbound, io: Io, now: nat)
    ensures var a := ApplyOne(n, out, io, now).net;
      var failed := match out
        case TcpOut(_) => false
        case UdpOut(m) => if n.udpOpen then !io.udp else !m.MovementInput?
        case OpenUdpAndAttach(_, _, _) => !(io.bound && io.udp);
      && (failed ==>
            && !a.udpOpen && !a.rt.lane.attached && a.rt.lane.attach == None && a.rt.lane.bootstrap == None
            && (a.rt.phase == InScene ==> a.rt.lane.retryAt.Some? || a.rt.lane.cooldownUntil.Some?))
      && (!failed ==> a.rt == n.rt && a.udpOpen == (n.udpOpen || out.OpenUdpAndAttach?))
  {
  }

  // ----- the commands of a whole session -----

  /** The command that a message carries out, if it is one of the application's. */
  function CommandOf(m: Message): Option<Command> {
    match m
    case MovementInput(frame) => Some(MoveInputSample(frame))
    case AppRequest(_, what) => Some(Request(what))
    case Unsubscribe(_, chunks) => Some(UnsubscribeChunks(chunks))
    case EditIntent(_, _, what) => Some(Edit(what))
    case _ => None
  }

  function CommandsSent(log: Log): seq<Command> {
    if log == [] then []
    else
      var c := CommandOf(log[|log| - 1].1);
      CommandsSent(log[..|log| - 1]) + if c.Some? then [c.value] else []
  }

  /** Commands that ask for something to be sent. */
  predicate Calls(c: Command) { c != OtherCommand && c != UnsubscribeChunks([]) }

  /** The command of a pass of the loop, if the session acts on it. */
  function Given(n: Net, ni: NetInput): seq<Command> {
    if n.rt.live && n.rt.phase == InScene && ni.Handle? && ni.i.FromApp? && Calls(ni.i.command) then [ni.i.command]
    else []
  }

  function CommandsGiven(inputs: seq<NetInput>): seq<Command> {
    if inputs == [] then []
    else CommandsGiven(inputs[..|inputs| - 1]) + Given(NetRun(inputs[..|inputs| - 1]), inputs[|inputs| - 1])
  }

  /** Nothing but a command in scene makes the runtime send one. */
  lemma OthersAskNothing(rt: Rt, i: Input)
    requires !(Playing(rt) && i.FromApp?)
    ensures var o := Step(rt, i);
      |o.outs| <= 1 && forall out :: out in o.outs ==> out.OpenUdpAndAttach? || CommandOf(out.msg) == None
  {
    StepIssuesNext(rt, i);
  }

  /** One action adds the command it carries; if it fails, it adds nothing. */
  lemma ActionAdds(n: Net, out: Outbound, io: Io, now: nat)
    requires out.UdpOut? ==> out.msg.MovementInput?
    ensures var a := ApplyOne(n, out, io, now);
      var c := if out.OpenUdpAndAttach? then None else CommandOf(out.msg);
      CommandsSent(a.net.log) == CommandsSent(n.log) + if a.ok && c.Some? then [c.value] else []
  {
    var a := ApplyOne(n, out, io, now);
    if a.net.log != n.log {
      var entry :| Carries(out, io, entry) && a.net.log == n.log + [entry];
      assert a.net.log[..|n.log|] == n.log;
    }
  }

  predicate OutIs(o: Outcome, c: Option<Command>) {
    && |o.outs| <= 1 && (c.Some? ==> o.outs != [])
    && forall out :: out in o.outs ==>
         && (out.UdpOut? ==> out.msg.MovementInput?)
         && (if out.OpenUdpAndAttach? then None else CommandOf(out.msg)) == c
  }

  lemma FinishAdds(n: Net, o: Outcome, io: Io, now: nat, c: Option<Command>)
    requires OutIs(o, c) && (c.Some? ==> o.rt.live)
    ensures var n' := Finish(n, o, io, now);
      && CommandsSent(n.log) <= CommandsSent(n'.log)
      && (n'.rt.live ==> CommandsSent(n'.log) == CommandsSent(n.log) + if c.Some? then [c.value] else [])
      && (CommandsSent(n'.log) == CommandsSent(n.log)
          || (c.Some? && CommandsSent(n'.log) == CommandsSent(n.log) + [c.value]))
  {
    if o.rt.live && o.outs != [] {
      ApplySingle(n.(rt := o.rt), o.outs, io, now);
      ActionAdds(n.(rt := o.rt), o.outs[0], io, now);
    }
  }

  lemma PassAdds(n: Net, ni: NetInput)
    ensures var n' := NetStep(n, ni);
      && (n'.rt.live ==> CommandsSent(n'.log) == CommandsSent(n.log) + Given(n, ni))
      && (CommandsSent(n'.log) == CommandsSent(n.log) || CommandsSent(n'.log) == CommandsSent(n.log) + Given(n, ni))
  {
    if n.rt.live && Enabled(n, ni) && ni.Handle? {
      var o := Step(n.rt, ni.i);
      if Playing(n.rt) && ni.i.FromApp? {
        FinishAdds(n, o, ni.io, ni.now, if Calls(ni.i.command) then Some(ni.i.command) else None);
      } else {
        OthersAskNothing(n.rt, ni.i);
        FinishAdds(n, o, ni.io, ni.now, None);
      }
    }
  }

  /** Main result: over every session the commands that were sent, on TCP or UDP, are the
      commands given in scene, each once, unchanged and in order: all of them while the
      session lives, and all but possibly the one it was dropped on. */
  lemma {:induction false} CommandsReachTheWire(inputs: seq<NetInput>)
    ensures var sent, given := CommandsSent(NetRun(inputs).log), CommandsGiven(inputs);
      && (NetRun(inputs).rt.live ==> sent == given)
      && (sent == given || (given != [] && sent == given[..|given| - 1]))
  {
    if inputs != [] {
      var n := |inputs| - 1;
      CommandsReachTheWire(inputs[..n]);
      var net := NetRun(inputs[..n]);
      if net.rt.live {
        PassAdds(net, inputs[n]);
        var given := CommandsGiven(inputs[..n]);
        assert given + [] == given;
        assert Given(net, inputs[n]) != [] ==> CommandsGiven(inputs)[..|given|] == given;
      } else {
        assert CommandsGiven(inputs) == CommandsGiven(inputs[..n]);
      }
    }
  }

  // ----- from a ticket to movement over UDP -----

  function TicketFor(id: nat, port: nat, ticket: string, now: nat, io: Io): NetInput {
    Handle(FromServer(Tcp, FastLaneResult(id, true, Some(port), Some(ticket)), now), io, now)
  }

  const ALL_WELL := Io(true, true, true)

  lemma TicketOpens(n: Net, id: nat, port: nat, ticket: string, now: nat)
    requires Playing(n.rt) && n.rt.lane.bootstrap == Some(id)
    ensures var n' := NetStep(n, TicketFor(id, port, ticket, now, ALL_WELL));
      && Playing(n'.rt) && n'.udpOpen && n'.log == n.log + [(Udp, FastLaneAttach(n.rt.nextId, ticket))]
      && n'.rt.lane.attach == Some(n.rt.nextId) && n'.rt.lane.endpoint == Some(port)
      && n'.rt.lane.ticket == Some(ticket)
  {
    var o := Step(n.rt, FromServer(Tcp, FastLaneResult(id, true, Some(port), Some(ticket)), now));
    ApplySingle(n.(rt := o.rt), o.outs, ALL_WELL, now);
  }

  lemma MovementTravels(n: Net, frame: nat, now: nat)
    requires Playing(n.rt) && (n.rt.lane.attached ==> n.udpOpen)
    ensures NetStep(n, Handle(FromApp(MoveInputSample(frame)), ALL_WELL, now)).log ==
      n.log + [(if n.rt.lane.attached then Udp else Tcp, MovementInput(frame))]
  {
    var o := Step(n.rt, FromApp(MoveInputSample(frame)));
    ApplySingle(n.(rt := o.rt), o.outs, ALL_WELL, now);
  }

  /** Main result: with sockets that work, a granted ticket is presented once to the port
      it names, with a fresh id; the answer to that id attaches the lane there, and from
      then on movement goes over UDP. */
  lemma HandshakeAttaches(n: Net, id: nat, port: nat, ticket: string, t: Transport, frame: nat, now: nat)
    requires Playing(n.rt) && n.rt.lane.bootstrap == Some(id)
    ensures var n1 := NetStep(n, TicketFor(id, port, ticket, now, ALL_WELL));
      var n2 := NetStep(n1, Handle(FromServer(t, FastLaneAttached(n.rt.nextId, true), now), ALL_WELL, now));
      var n3 := NetStep(n2, Handle(FromApp(MoveInputSample(frame)), ALL_WELL, now));
      && n2.rt.lane.attached && n2.rt.lane.endpoint == Some(port)
      && n3.log == n.log + [(Udp, FastLaneAttach(n.rt.nextId, ticket)), (Udp, MovementInput(frame))]
  {
    TicketOpens(n, id, port, ticket, now);
    var n1 := NetStep(n, TicketFor(id, port, ticket, now, ALL_WELL));
    MovementTravels(NetStep(n1, Handle(FromServer(t, FastLaneAttached(n.rt.nextId, true), now), ALL_WELL, now)),
                    frame, now);
  }
}
