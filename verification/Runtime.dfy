/** The client network runtime: session phase, request ids, pending time syncs,
    stale filters and the fast lane, driven by application commands, timers,
    server messages and socket failures. */
module Runtime {
  import opened Common
  import opened FastLane

  const MAX_PENDING_TIME_SYNC: nat := 32
  const TIME_SYNC_TIMEOUT_MS: nat := 30000
  const AUTH_REQUEST_ID: nat := 1

  datatype Phase = AwaitingAuth | AwaitingEnterScene | InScene

  datatype Transport = Tcp | Udp

  datatype Command =
    | MoveInputSample(frame: nat)
    | Request(what: nat)                    // chat, skill casts, chunk subscription
    | UnsubscribeChunks(chunks: seq<(int, int, int)>)
    | Edit(what: nat)                       // voxel edit, prefab, surface element
    | OtherCommand

  datatype Message =
    | EnterScene(id: nat)
    | FastLaneRequest(id: nat)
    | FastLaneAttach(id: nat, ticket: string)
    | MovementInput(frame: nat)
    | TimeSync(id: nat, sentAt: nat)
    | AppRequest(id: nat, what: nat)
    | Unsubscribe(id: nat, chunks: seq<(int, int, int)>)
    | EditIntent(id: nat, seqNo: nat, what: nat)

  datatype Outbound =
    | TcpOut(msg: Message)
    | UdpOut(msg: Message)
    | OpenUdpAndAttach(endpoint: nat, id: nat, ticket: string)

  datatype ServerMessage =
    | Result(packet: nat, ok: bool)
    | EnterSceneResult(packet: nat, ok: bool, hasLocation: bool, expectedSeq: Option<nat>)
    | MovementAck(ackSeq: nat, authTick: nat)
    | FastLaneResult(packet: nat, ok: bool, port: Option<nat>, ticket: Option<string>)
    | FastLaneAttached(packet: nat, ok: bool)
    | PlayerEnter(cid: int)
    | PlayerMove(cid: int, tick: nat)
    | PlayerLeave(cid: int)
    | TimeSyncReply(packet: nat)
    | OtherMessage

  datatype Event =
    | EnteredScene
    | AckApplied(ackSeq: nat, authTick: nat)
    | MoveForwarded(cid: int, tick: nat)
    | SyncMatched(id: nat)
    | Notice

  /** `live` is false once a handler has returned an error and the session is dropped. */
  datatype Rt = Rt(
    live: bool, phase: Phase, nextId: nat, enterId: Option<nat>, pendingSync: map<nat, nat>,
    ack: (nat, nat), moveTicks: map<int, nat>, lane: Lane, editSeq: nat)

  datatype Input =
    | FromApp(command: Command)
    | SyncTimer(now: nat, dropped: set<nat>)
    | RetryTimer(now: nat)
    | FromServer(transport: Transport, msg: ServerMessage, now: nat)
    | SocketFailed(reason: string, now: nat)

  datatype Outcome = Outcome(rt: Rt, outs: seq<Outbound>, events: seq<Event>)

  const NEW := Rt(true, AwaitingAuth, 2, None, map[], (0, 0), map[], IDLE, 0)

  // ----- handlers -----

  function Silent(rt: Rt): Outcome { Outcome(rt, [], []) }

  function TakeId(rt: Rt): Rt { rt.(nextId := rt.nextId + 1) }

  function HandleCommand(rt: Rt, c: Command): Outcome {
    if rt.phase != InScene then Silent(rt)
    else match c
      case MoveInputSample(frame) =>
        Outcome(rt, [if rt.lane.attached then UdpOut(MovementInput(frame)) else TcpOut(MovementInput(frame))], [])
      case Request(what) => Outcome(TakeId(rt), [TcpOut(AppRequest(rt.nextId, what))], [])
      case UnsubscribeChunks(chunks) =>
        if chunks == [] then Silent(rt) else Outcome(TakeId(rt), [TcpOut(Unsubscribe(rt.nextId, chunks))], [])
      case Edit(what) =>
        Outcome(TakeId(rt).(editSeq := rt.editSeq + 1), [TcpOut(EditIntent(rt.nextId, rt.editSeq + 1, what))], [])
      case OtherCommand => Silent(rt)
  }

  /** Entries young enough to keep; a clock that went back makes an entry young. */
  function Fresh(pending: map<nat, nat>, now: nat): map<nat, nat> {
    map id | id in pending && now <= pending[id] + TIME_SYNC_TIMEOUT_MS :: pending[id]
  }

  /** A legal choice of overflow victims: as many as exceed the limit, oldest first,
      ties broken any way. */
  predicate Victims(young: map<nat, nat>, dropped: set<nat>) {
    && dropped <= young.Keys
    && |dropped| == Max(0, |young| - MAX_PENDING_TIME_SYNC)
    && forall d, k :: d in dropped && k in young && k !in dropped ==> young[d] <= young[k]
  }

  function Pruned(pending: map<nat, nat>, now: nat, dropped: set<nat>): map<nat, nat> {
    Fresh(pending, now) - dropped
  }

  function SyncTick(rt: Rt, now: nat, dropped: set<nat>): Outcome {
    if rt.phase == AwaitingAuth || !Victims(Fresh(rt.pendingSync, now), dropped) then Silent(rt)
    else Outcome(TakeId(rt).(pendingSync := Pruned(rt.pendingSync, now, dropped)[rt.nextId := now]),
                 [TcpOut(TimeSync(rt.nextId, now))], [])
  }

  function RetryTick(rt: Rt, now: nat): Outcome {
    var p := Poll(rt.lane, rt.phase == InScene, now, rt.nextId);
    if p.sends then Outcome(TakeId(rt).(lane := p.lane), [TcpOut(FastLaneRequest(rt.nextId))], [Notice])
    else Outcome(rt.(lane := p.lane), [], if p.lane == rt.lane then [] else [Notice])
  }

  function LaneFailed(rt: Rt, now: nat, reason: string, allow: bool): Outcome
  {
    Outcome(rt.(lane := Fail(rt.lane, rt.phase == InScene, now, reason, allow)), [], [Notice])
  }

  predicate Stale(ack: (nat, nat), ackSeq: nat, authTick: nat) {
    ackSeq < ack.0 || (ackSeq == ack.0 && authTick <= ack.1)
  }

  function TickOf(rt: Rt, cid: int): nat {
    if cid in rt.moveTicks then rt.moveTicks[cid] else 0
  }

  function OnResult(rt: Rt, t: Transport, packet: nat, ok: bool, now: nat): Outcome
  {
    if t == Udp && !ok then LaneFailed(rt, now, "udp movement rejected by gate", true)
    else if packet != AUTH_REQUEST_ID then Outcome(rt, [], [Notice])
    else if !ok then Silent(rt.(live := false))
    else Outcome(TakeId(rt).(phase := AwaitingEnterScene, enterId := Some(rt.nextId)),
                 [TcpOut(EnterScene(rt.nextId))], [Notice])
  }

  function OnEnterScene(rt: Rt, packet: nat, ok: bool, hasLocation: bool, expectedSeq: Option<nat>): Outcome {
    if rt.enterId != Some(packet) then Outcome(rt, [], [Notice])
    else if !ok then Silent(rt.(live := false))
    else
      var joined := rt.(phase := InScene, ack := (0, 0), moveTicks := map[]);
      if !hasLocation || expectedSeq == None then Silent(joined.(live := false))
      else Outcome(TakeId(joined).(lane := ResetForBootstrap(rt.lane, rt.nextId)),
                   [TcpOut(FastLaneRequest(rt.nextId))], [EnteredScene])
  }

  function OnTicket(rt: Rt, packet: nat, ok: bool, port: Option<nat>, ticket: Option<string>, now: nat): Outcome
  {
    if rt.lane.bootstrap != Some(packet) then Outcome(rt, [], [Notice])
    else if !ok then LaneFailed(rt, now, "bootstrap rejected by gate", false)
    else if port == None || ticket == None then Silent(rt.(live := false))
    else Outcome(TakeId(rt).(lane := PrepareAttach(rt.lane, rt.nextId, port.value, ticket.value)),
                 [OpenUdpAndAttach(port.value, rt.nextId, ticket.value)], [Notice])
  }

  function OnAttached(rt: Rt, packet: nat, ok: bool, now: nat): Outcome
  {
    if rt.lane.attach != Some(packet) then Outcome(rt, [], [Notice])
    else if !ok then LaneFailed(rt, now, "udp attach rejected by gate", true)
    else Outcome(rt.(lane := MarkAttached(rt.lane)), [], [Notice])
  }

  function OnAck(rt: Rt, ackSeq: nat, authTick: nat): Outcome {
    if Stale(rt.ack, ackSeq, authTick) then Outcome(rt, [], [Notice])
    else Outcome(rt.(ack := (ackSeq, authTick)), [], [AckApplied(ackSeq, authTick)])
  }

  function OnMove(rt: Rt, cid: int, tick: nat): Outcome {
    if tick <= TickOf(rt, cid) then Outcome(rt, [], [Notice])
    else Outcome(rt.(moveTicks := rt.moveTicks[cid := tick]), [], [MoveForwarded(cid, tick)])
  }

  function OnSyncReply(rt: Rt, packet: nat): Outcome {
    if packet in rt.pendingSync
    then Outcome(rt.(pendingSync := rt.pendingSync - {packet}), [], [SyncMatched(packet)])
    else Outcome(rt, [], [Notice])
  }

  function HandleServer(rt: Rt, t: Transport, m: ServerMessage, now: nat): Outcome
  {
    match m
    case Result(packet, ok) => OnResult(rt, t, packet, ok, now)
    case EnterSceneResult(packet, ok, hasLocation, expectedSeq) =>
      OnEnterScene(rt, packet, ok, hasLocation, expectedSeq)
    case MovementAck(ackSeq, authTick) => OnAck(rt, ackSeq, authTick)
    case FastLaneResult(packet, ok, port, ticket) => OnTicket(rt, packet, ok, port, ticket, now)
    case FastLaneAttached(packet, ok) => OnAttached(rt, packet, ok, now)
    case PlayerEnter(cid) => Outcome(rt.(moveTicks := rt.moveTicks - {cid}), [], [Notice])
    case PlayerMove(cid, tick) => OnMove(rt, cid, tick)
    case PlayerLeave(cid) => Outcome(rt.(moveTicks := rt.moveTicks - {cid}), [], [Notice])
    case TimeSyncReply(packet) => OnSyncReply(rt, packet)
    case OtherMessage => Outcome(rt, [], [Notice])
  }

  function Step(rt: Rt, i: Input): Outcome
  {
    if !rt.live then Silent(rt)
    else match i
      case FromApp(c) => HandleCommand(rt, c)
      case SyncTimer(now, dropped) => SyncTick(rt, now, dropped)
      case RetryTimer(now) => RetryTick(rt, now)
      case FromServer(t, m, now) => HandleServer(rt, t, m, now)
      case SocketFailed(reason, now) => LaneFailed(rt, now, reason, true)
  }

  // ----- the state invariant -----

  predicate IdOk(rt: Rt, id: Option<nat>) {
    id.Some? ==> 2 <= id.value < rt.nextId && id.value !in rt.pendingSync
  }

  predicate Apart(a: Option<nat>, b: Option<nat>) { a.Some? ==> a != b }

  /** The pending ids are old, pairwise distinct ids. */
  predicate IdsInv(rt: Rt) {
    && 2 <= rt.nextId
    && (forall id :: id in rt.pendingSync ==> 2 <= id < rt.nextId)
    && IdOk(rt, rt.enterId) && IdOk(rt, rt.lane.bootstrap) && IdOk(rt, rt.lane.attach)
    && Apart(rt.enterId, rt.lane.bootstrap) && Apart(rt.enterId, rt.lane.attach)
    && Apart(rt.lane.bootstrap, rt.lane.attach)
  }

  predicate Inv(rt: Rt) { Coherent(rt.lane) && IdsInv(rt) }

  lemma LaneFailedKeepsInv(rt: Rt, now: nat, reason: string, allow: bool)
    requires Inv(rt)
    ensures Inv(LaneFailed(rt, now, reason, allow).rt)
  {
    FailStaysCoherent(rt.lane, rt.phase == InScene, now, reason, allow);
  }

  lemma OnEnterSceneKeepsInv(rt: Rt, packet: nat, ok: bool, hasLocation: bool, expectedSeq: Option<nat>)
    requires Inv(rt)
    ensures Inv(OnEnterScene(rt, packet, ok, hasLocation, expectedSeq).rt)
  {
    ResetStaysCoherent(rt.lane, rt.nextId);
  }

  lemma OnTicketKeepsInv(rt: Rt, packet: nat, ok: bool, port: Option<nat>, ticket: Option<string>, now: nat)
    requires Inv(rt)
    ensures Inv(OnTicket(rt, packet, ok, port, ticket, now).rt)
  {
    LaneFailedKeepsInv(rt, now, "bootstrap rejected by gate", false);
    if port.Some? && ticket.Some? {
      PrepareStaysCoherent(rt.lane, rt.nextId, port.value, ticket.value);
    }
  }

  lemma OnAttachedKeepsInv(rt: Rt, packet: nat, ok: bool, now: nat)
    requires Inv(rt)
    ensures Inv(OnAttached(rt, packet, ok, now).rt)
  {
    LaneFailedKeepsInv(rt, now, "udp attach rejected by gate", true);
    if rt.lane.attach.Some? {
      AttachedStaysCoherent(rt.lane);
    }
  }

  /** Acks, remote players and time-sync replies leave the ids and the lane alone, but
      for the pending sync that is answered. */
  lemma OtherMessagesKeepInv(rt: Rt, t: Transport, m: ServerMessage, now: nat)
    requires Inv(rt)
    requires !m.Result? && !m.EnterSceneResult? && !m.FastLaneResult? && !m.FastLaneAttached?
    ensures Inv(HandleServer(rt, t, m, now).rt)
  {
  }

  lemma {:induction false} HandleServerKeepsInv(rt: Rt, t: Transport, m: ServerMessage, now: nat)
    requires Inv(rt)
    ensures Inv(HandleServer(rt, t, m, now).rt)
  {
    match m
    case Result(_, _) =>
    case EnterSceneResult(packet, ok, hasLocation, expectedSeq) =>
      OnEnterSceneKeepsInv(rt, packet, ok, hasLocation, expectedSeq);
    case FastLaneResult(packet, ok, port, ticket) => OnTicketKeepsInv(rt, packet, ok, port, ticket, now);
    case FastLaneAttached(packet, ok) => OnAttachedKeepsInv(rt, packet, ok, now);
    case _ => OtherMessagesKeepInv(rt, t, m, now);
  }

  lemma {:induction false} StepKeepsInv(rt: Rt, i: Input)
    requires Inv(rt)
    ensures Inv(Step(rt, i).rt)
  {
    match i
    case FromServer(t, m, now) => HandleServerKeepsInv(rt, t, m, now);
    case SocketFailed(reason, now) => LaneFailedKeepsInv(rt, now, reason, true);
    case _ =>
  }

  // ----- runs -----

  function Run(rt: Rt, inputs: seq<Input>): Rt {
    if inputs == [] then rt else Step(Run(rt, inputs[..|inputs| - 1]), inputs[|inputs| - 1]).rt
  }

  lemma {:induction false} RunKeepsInv(rt: Rt, inputs: seq<Input>)
    requires Inv(rt)
    ensures Inv(Run(rt, inputs))
  {
    if inputs != [] {
      RunKeepsInv(rt, inputs[..|inputs| - 1]);
      StepKeepsInv(Run(rt, inputs[..|inputs| - 1]), inputs[|inputs| - 1]);
    }
  }

  /** The outcome of the i-th step of a run. */
  function At(rt: Rt, inputs: seq<Input>, i: nat): Outcome
    requires i < |inputs|
  {
    Step(Run(rt, inputs[..i]), inputs[i])
  }

  lemma RunSnoc(rt: Rt, inputs: seq<Input>, i: nat)
    requires i < |inputs|
    ensures Run(rt, inputs[..i + 1]) == At(rt, inputs, i).rt
  {
    assert inputs[..i + 1][..i] == inputs[..i];
  }
}
