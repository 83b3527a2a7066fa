/** Server payloads: the decoder, and the documented big-endian layouts it inverts. */
module ServerPayload {
  import opened Common
  import opened Bytes
  import opened Payload

  datatype ActorKind = Player | Npc | UnknownActor(code: nat)
  datatype EffectCueKind = MeleeArc | Projectile | AoeRing | ChainArc | ImpactPulse | UnknownCue(code: nat)

  datatype ServerMessage =
    | ResultMessage(packetId: nat, ok: bool)
    | MovementAck(ackSeq: nat, authTick: nat, cid: int, location: Vec3, velocity: Vec3, acceleration: Vec3,
                  mode: nat, correctionFlags: nat, fixedDtMs: nat, groundZ: nat)
    | EnterSceneResult(packetId: nat, ok: bool, place: Option<Vec3>, expectedSeq: Option<nat>)
    | PlayerEnter(cid: int, location: Vec3)
    | PlayerLeave(cid: int)
    | PlayerMove(cid: int, serverTick: nat, location: Vec3, velocity: Vec3, acceleration: Vec3, mode: nat)
    | TimeSyncReply(packetId: nat, clientSendTs: nat, serverRecvTs: nat, serverSendTs: nat)
    | HeartbeatReply(timestamp: nat)
    | FastLaneResult(packetId: nat, ok: bool, udpPort: Option<nat>, ticket: Option<Text>)
    | FastLaneAttached(packetId: nat, ok: bool)
    | ChatMessage(cid: int, username: Text, text: Text)
    | SkillEvent(cid: int, skillId: nat, location: Vec3)
    | PlayerState(cid: int, hp: nat, maxHp: nat, alive: bool)
    | CombatHit(cid: int, targetCid: int, skillId: nat, damage: nat, hpAfter: nat, location: Vec3)
    | ActorIdentity(cid: int, kind: ActorKind, name: Text)
    | EffectEvent(cid: int, skillId: nat, cue: EffectCueKind, target: Option<int>, location: Vec3,
                  targetPosition: Vec3, radius: nat, durationMs: nat)
    | Voxel(opcode: Byte, body: seq<Byte>)  // handed to the voxel codec undecoded

  function DecodeActorKind(code: nat): ActorKind {
    if code == 0 then Player else if code == 1 then Npc else UnknownActor(code)
  }

  function ActorCode(k: ActorKind): nat {
    match k case Player => 0 case Npc => 1 case UnknownActor(code) => code
  }

  function DecodeCue(code: nat): EffectCueKind {
    if code == 0 then MeleeArc else if code == 1 then Projectile else if code == 2 then AoeRing
    else if code == 3 then ChainArc else if code == 4 then ImpactPulse else UnknownCue(code)
  }

  function CueCode(k: EffectCueKind): nat {
    match k
    case MeleeArc => 0 case Projectile => 1 case AoeRing => 2 case ChainArc => 3 case ImpactPulse => 4
    case UnknownCue(code) => code
  }

  function DecodeTargetCid(n: int): Option<int> { if n < 0 then None else Some(n) }

  // ----- the decoder -----

  function DecodeResult(body: seq<Byte>): Read<ServerMessage> {
    if |body| != 9 then Err(BadLength)
    else
      var packetId :- ReadUint(body, 0, 8);
      var status :- ReadUint(body, 8, 1);
      Ok(ResultMessage(packetId, status == 0))
  }

  function DecodeMovementAck(body: seq<Byte>): Read<ServerMessage> {
    var _ :- RequireLen(body, 103);
    var ackSeq :- ReadUint(body, 0, 4);
    var authTick :- ReadUint(body, 4, 4);
    var cid :- ReadI64(body, 8);
    var location :- ReadVec3(body, 16);
    var velocity :- ReadVec3(body, 40);
    var acceleration :- ReadVec3(body, 64);
    var mode :- ReadUint(body, 88, 1);
    var correctionFlags :- ReadUint(body, 89, 4);
    var fixedDtMs :- ReadUint(body, 93, 2);
    var groundZ :- ReadUint(body, 95, 8);
    Ok(MovementAck(ackSeq, authTick, cid, location, velocity, acceleration, mode, correctionFlags, fixedDtMs, groundZ))
  }

  function DecodePlayerEnter(body: seq<Byte>): Read<ServerMessage> {
    var _ :- RequireLen(body, 32);
    var cid :- ReadI64(body, 0);
    var location :- ReadVec3(body, 8);
    Ok(PlayerEnter(cid, location))
  }

  function DecodePlayerLeave(body: seq<Byte>): Read<ServerMessage> {
    var _ :- RequireLen(body, 8);
    var cid :- ReadI64(body, 0);
    Ok(PlayerLeave(cid))
  }

  function DecodePlayerMove(body: seq<Byte>): Read<ServerMessage> {
    var _ :- RequireLen(body, 85);
    var cid :- ReadI64(body, 0);
    var serverTick :- ReadUint(body, 8, 4);
    var location :- ReadVec3(body, 12);
    var velocity :- ReadVec3(body, 36);
    var acceleration :- ReadVec3(body, 60);
    var mode :- ReadUint(body, 84, 1);
    Ok(PlayerMove(cid, serverTick, location, velocity, acceleration, mode))
  }

  function DecodeEnterSceneResult(body: seq<Byte>): Read<ServerMessage> {
    var _ :- RequireLen(body, 9);
    var packetId :- ReadUint(body, 0, 8);
    var status :- ReadUint(body, 8, 1);
    if status != 0 then Ok(EnterSceneResult(packetId, false, None, None))
    else
      var place :- ReadVec3(body, 9);
      var expectedSeq :- ReadUint(body, 33, 4);
      Ok(EnterSceneResult(packetId, true, Some(place), Some(expectedSeq)))
  }

  function DecodeTimeSyncReply(body: seq<Byte>): Read<ServerMessage> {
    var _ :- RequireLen(body, 32);
    var packetId :- ReadUint(body, 0, 8);
    var clientSendTs :- ReadUint(body, 8, 8);
    var serverRecvTs :- ReadUint(body, 16, 8);
    var serverSendTs :- ReadUint(body, 24, 8);
    Ok(TimeSyncReply(packetId, clientSendTs, serverRecvTs, serverSendTs))
  }

  function DecodeHeartbeatReply(body: seq<Byte>): Read<ServerMessage> {
    var _ :- RequireLen(body, 8);
    var timestamp :- ReadUint(body, 0, 8);
    Ok(HeartbeatReply(timestamp))
  }

  /** A success too short for a port and a string length carries neither. */
  function DecodeFastLaneResult(utf8: Text -> bool, body: seq<Byte>): Read<ServerMessage> {
    var _ :- RequireLen(body, 9);
    var packetId :- ReadUint(body, 0, 8);
    var status :- ReadUint(body, 8, 1);
    if status == 0 && |body| >= 13 then
      var udpPort :- ReadUint(body, 9, 2);
      var (ticket, _) :- ReadString(utf8, body, 11);
      Ok(FastLaneResult(packetId, true, Some(udpPort), Some(ticket)))
    else Ok(FastLaneResult(packetId, status == 0, None, None))
  }

  function DecodeFastLaneAttached(body: seq<Byte>): Read<ServerMessage> {
    var _ :- RequireLen(body, 9);
    var packetId :- ReadUint(body, 0, 8);
    var status :- ReadUint(body, 8, 1);
    Ok(FastLaneAttached(packetId, status == 0))
  }

  function DecodeChatMessage(utf8: Text -> bool, body: seq<Byte>): Read<ServerMessage> {
    var _ :- RequireLen(body, 10);
    var cid :- ReadI64(body, 0);
    var (username, afterName) :- ReadString(utf8, body, 8);
    var (text, _) :- ReadString(utf8, body, afterName);
    Ok(ChatMessage(cid, username, text))
  }

  function DecodeSkillEvent(body: seq<Byte>): Read<ServerMessage> {
    var _ :- RequireLen(body, 34);
    var cid :- ReadI64(body, 0);
    var skillId :- ReadUint(body, 8, 2);
    var location :- ReadVec3(body, 10);
    Ok(SkillEvent(cid, skillId, location))
  }

  function DecodePlayerState(body: seq<Byte>): Read<ServerMessage> {
    var _ :- RequireLen(body, 13);
    var cid :- ReadI64(body, 0);
    var hp :- ReadUint(body, 8, 2);
    var maxHp :- ReadUint(body, 10, 2);
    var alive :- ReadUint(body, 12, 1);
    Ok(PlayerState(cid, hp, maxHp, alive != 0))
  }

  function DecodeCombatHit(body: seq<Byte>): Read<ServerMessage> {
    var _ :- RequireLen(body, 46);
    var cid :- ReadI64(body, 0);
    var targetCid :- ReadI64(body, 8);
    var skillId :- ReadUint(body, 16, 2);
    var damage :- ReadUint(body, 18, 2);
    var hpAfter :- ReadUint(body, 20, 2);
    var location :- ReadVec3(body, 22);
    Ok(CombatHit(cid, targetCid, skillId, damage, hpAfter, location))
  }

  function DecodeActorIdentity(utf8: Text -> bool, body: seq<Byte>): Read<ServerMessage> {
    var _ :- RequireLen(body, 11);
    var cid :- ReadI64(body, 0);
    var kind :- ReadUint(body, 8, 1);
    var (name, _) :- ReadString(utf8, body, 9);
    Ok(ActorIdentity(cid, DecodeActorKind(kind), name))
  }

  function DecodeEffectEvent(body: seq<Byte>): Read<ServerMessage> {
    var _ :- RequireLen(body, 79);
    var cid :- ReadI64(body, 0);
    var skillId :- ReadUint(body, 8, 2);
    var cue :- ReadUint(body, 10, 1);
    var target :- ReadI64(body, 11);
    var location :- ReadVec3(body, 19);
    var targetPosition :- ReadVec3(body, 43);
    var radius :- ReadUint(body, 67, 8);
    var durationMs :- ReadUint(body, 75, 4);
    Ok(EffectEvent(cid, skillId, DecodeCue(cue), DecodeTargetCid(target), location, targetPosition, radius, durationMs))
  }

  function DecodeServer(utf8: Text -> bool, payload: seq<Byte>): Read<ServerMessage> {
    if payload == [] then Err(EmptyPayload)
    else DecodeBody(utf8, payload[0], payload[1..])
  }

  function DecodeBody(utf8: Text -> bool, opcode: Byte, body: seq<Byte>): Read<ServerMessage> {
    match opcode
    case 0x80 => DecodeResult(body)
    case 0x81 => DecodePlayerEnter(body)
    case 0x82 => DecodePlayerLeave(body)
    case 0x83 => DecodePlayerMove(body)
    case 0x84 => DecodeEnterSceneResult(body)
    case 0x85 => DecodeTimeSyncReply(body)
    case 0x86 => DecodeHeartbeatReply(body)
    case 0x87 => DecodeFastLaneResult(utf8, body)
    case 0x88 => DecodeFastLaneAttached(body)
    case 0x89 => DecodeChatMessage(utf8, body)
    case 0x8A => DecodeSkillEvent(body)
    case 0x8B => DecodeMovementAck(body)
    case 0x8C => DecodePlayerState(body)
    case 0x8D => DecodeCombatHit(body)
    case 0x8E => DecodeActorIdentity(utf8, body)
    case 0x8F => DecodeEffectEvent(body)
    case _ => if 0x60 <= opcode <= 0x75 then Ok(Voxel(opcode, body)) else Err(UnknownType)
  }

  /** Opcodes whose whole layout is fixed, with the least body length. */
  function FixedLength(opcode: Byte): Option<nat> {
    match opcode
    case 0x81 => Some(32) case 0x82 => Some(8) case 0x83 => Some(85) case 0x85 => Some(32) case 0x86 => Some(8)
    case 0x88 => Some(9) case 0x8A => Some(34) case 0x8B => Some(103) case 0x8C => Some(13) case 0x8D => Some(46)
    case 0x8F => Some(79)
    case _ => None
  }

  /** The length check is exact: a fixed-layout body decodes precisely when it is long
      enough, so no read after the check can fail. */
  lemma FixedLayoutAcceptedIff(utf8: Text -> bool, opcode: Byte, body: seq<Byte>)
    requires FixedLength(opcode).Some?
    ensures DecodeServer(utf8, [opcode] + body).Ok? <==> |body| >= FixedLength(opcode).value
  {
  }

  /** Bytes after a complete fixed-layout body change nothing. */
  lemma TrailingBytesIgnored(utf8: Text -> bool, opcode: Byte, body: seq<Byte>, extra: seq<Byte>)
    requires FixedLength(opcode).Some? && |body| >= FixedLength(opcode).value
    ensures DecodeBody(utf8, opcode, body + extra) == DecodeBody(utf8, opcode, body)
  {
    assert forall offset: nat, n: nat :: offset + n <= |body| ==>
      ReadUint(body + extra, offset, n) == ReadUint(body, offset, n) by {
      forall offset: nat, n: nat | offset + n <= |body|
        ensures ReadUint(body + extra, offset, n) == ReadUint(body, offset, n)
      {
        assert (body + extra)[offset..offset + n] == body[offset..offset + n];
      }
    }
  }

  // ----- the documented layouts -----

  function ServerOpcode(m: ServerMessage): Byte
    requires !m.Voxel?
  {
    match m
    case ResultMessage(_, _) => 0x80 case PlayerEnter(_, _) => 0x81 case PlayerLeave(_) => 0x82
    case PlayerMove(_, _, _, _, _, _) => 0x83 case EnterSceneResult(_, _, _, _) => 0x84
    case TimeSyncReply(_, _, _, _) => 0x85
    case HeartbeatReply(_) => 0x86 case FastLaneResult(_, _, _, _) => 0x87 case FastLaneAttached(_, _) => 0x88
    case ChatMessage(_, _, _) => 0x89 case SkillEvent(_, _, _) => 0x8A
    case MovementAck(_, _, _, _, _, _, _, _, _, _) => 0x8B
    case PlayerState(_, _, _, _) => 0x8C case CombatHit(_, _, _, _, _, _) => 0x8D case ActorIdentity(_, _, _) => 0x8E
    case EffectEvent(_, _, _, _, _, _, _, _) => 0x8F
  }

  /** Value ranges, and the pairings the wire format can express (see ExpressibleIff). */
  predicate ServerFits(m: ServerMessage) {
    match m
    case ResultMessage(packetId, _) => U64Fits(packetId)
    case MovementAck(ackSeq, authTick, cid, location, velocity, acceleration, mode, correctionFlags, fixedDtMs,
                     groundZ) =>
      U32(ackSeq) && U32(authTick) && IsI64(cid) && Vec3Fits(location) && Vec3Fits(velocity) && Vec3Fits(acceleration)
      && mode < 0x100 && U32(correctionFlags) && U16(fixedDtMs) && U64Fits(groundZ)
    case EnterSceneResult(packetId, ok, place, expectedSeq) =>
      && U64Fits(packetId)
      && (if ok then place.Some? && expectedSeq.Some? && Vec3Fits(place.value) && U32(expectedSeq.value)
          else place == None && expectedSeq == None)
    case PlayerEnter(cid, location) => IsI64(cid) && Vec3Fits(location)
    case PlayerLeave(cid) => IsI64(cid)
    case PlayerMove(cid, serverTick, location, velocity, acceleration, mode) =>
      IsI64(cid) && U32(serverTick) && Vec3Fits(location) && Vec3Fits(velocity) && Vec3Fits(acceleration)
        && mode < 0x100
    case TimeSyncReply(packetId, a, b, c) => U64Fits(packetId) && U64Fits(a) && U64Fits(b) && U64Fits(c)
    case HeartbeatReply(timestamp) => U64Fits(timestamp)
    case FastLaneResult(packetId, ok, udpPort, ticket) =>
      && U64Fits(packetId) && (udpPort.Some? <==> ticket.Some?)
      && (udpPort.Some? ==> ok && U16(udpPort.value))
    case FastLaneAttached(packetId, _) => U64Fits(packetId)
    case ChatMessage(cid, _, _) => IsI64(cid)
    case SkillEvent(cid, skillId, location) => IsI64(cid) && U16(skillId) && Vec3Fits(location)
    case PlayerState(cid, hp, maxHp, _) => IsI64(cid) && U16(hp) && U16(maxHp)
    case CombatHit(cid, targetCid, skillId, damage, hpAfter, location) =>
      IsI64(cid) && IsI64(targetCid) && U16(skillId) && U16(damage) && U16(hpAfter) && Vec3Fits(location)
    case ActorIdentity(cid, kind, _) => IsI64(cid) && (kind.UnknownActor? ==> 2 <= kind.code < 0x100)
    case EffectEvent(cid, skillId, cue, target, location, targetPosition, radius, durationMs) =>
      IsI64(cid) && U16(skillId) && (cue.UnknownCue? ==> 5 <= cue.code < 0x100)
        && (target.Some? ==> 0 <= target.value < U63)
      && Vec3Fits(location) && Vec3Fits(targetPosition) && U64Fits(radius) && U32(durationMs)
    case Voxel(_, _) => false
  }

  function Status(ok: bool): nat { if ok then 0 else 1 }

  function ServerFields(m: ServerMessage): seq<Field>
    requires ServerFits(m)
  {
    match m
    case ResultMessage(packetId, ok) => [Field(8, packetId), Field(1, Status(ok))]
    case MovementAck(ackSeq, authTick, cid, l, v, a, mode, correctionFlags, fixedDtMs, groundZ) =>
      [Field(4, ackSeq), Field(4, authTick), Field(8, FromI64(cid)), Field(8, l.0), Field(8, l.1), Field(8, l.2),
       Field(8, v.0), Field(8, v.1), Field(8, v.2), Field(8, a.0), Field(8, a.1), Field(8, a.2),
       Field(1, mode), Field(4, correctionFlags), Field(2, fixedDtMs), Field(8, groundZ)]
    case EnterSceneResult(packetId, ok, place, expectedSeq) =>
      if ok then [Field(8, packetId), Field(1, 0), Field(8, place.value.0), Field(8, place.value.1),
                  Field(8, place.value.2), Field(4, expectedSeq.value)]
      else [Field(8, packetId), Field(1, 1)]
    case PlayerEnter(cid, l) => [Field(8, FromI64(cid)), Field(8, l.0), Field(8, l.1), Field(8, l.2)]
    case PlayerLeave(cid) => [Field(8, FromI64(cid))]
    case PlayerMove(cid, serverTick, l, v, a, mode) =>
      [Field(8, FromI64(cid)), Field(4, serverTick), Field(8, l.0), Field(8, l.1), Field(8, l.2),
       Field(8, v.0), Field(8, v.1), Field(8, v.2), Field(8, a.0), Field(8, a.1), Field(8, a.2), Field(1, mode)]
    case TimeSyncReply(packetId, a, b, c) => [Field(8, packetId), Field(8, a), Field(8, b), Field(8, c)]
    case HeartbeatReply(timestamp) => [Field(8, timestamp)]
    case FastLaneResult(packetId, ok, udpPort, _) =>
      [Field(8, packetId), Field(1, Status(ok))] + if udpPort.Some? then [Field(2, udpPort.value)] else []
    case FastLaneAttached(packetId, ok) => [Field(8, packetId), Field(1, Status(ok))]
    case ChatMessage(cid, _, _) => [Field(8, FromI64(cid))]
    case SkillEvent(cid, skillId, l) =>
      [Field(8, FromI64(cid)), Field(2, skillId), Field(8, l.0), Field(8, l.1), Field(8, l.2)]
    case PlayerState(cid, hp, maxHp, alive) =>
      [Field(8, FromI64(cid)), Field(2, hp), Field(2, maxHp), Field(1, if alive then 1 else 0)]
    case CombatHit(cid, targetCid, skillId, damage, hpAfter, l) =>
      [Field(8, FromI64(cid)), Field(8, FromI64(targetCid)), Field(2, skillId), Field(2, damage), Field(2, hpAfter),
       Field(8, l.0), Field(8, l.1), Field(8, l.2)]
    case ActorIdentity(cid, kind, _) => [Field(8, FromI64(cid)), Field(1, ActorCode(kind))]
    case EffectEvent(cid, skillId, cue, target, l, t, radius, durationMs) =>
      [Field(8, FromI64(cid)), Field(2, skillId), Field(1, CueCode(cue)),
       Field(8, FromI64(if target.Some? then target.value else -1)),
       Field(8, l.0), Field(8, l.1), Field(8, l.2), Field(8, t.0), Field(8, t.1), Field(8, t.2), Field(8, radius),
       Field(4, durationMs)]
  }

  function ServerTexts(m: ServerMessage): seq<Text> {
    match m
    case ChatMessage(_, username, text) => [username, text]
    case ActorIdentity(_, _, name) => [name]
    case FastLaneResult(_, _, _, ticket) => if ticket.Some? then [ticket.value] else []
    case _ => []
  }

  function ServerOffsets(m: ServerMessage): seq<nat> {
    match m
    case MovementAck(_, _, _, _, _, _, _, _, _, _) => [0, 4, 8, 16, 24, 32, 40, 48, 56, 64, 72, 80, 88, 89, 93, 95, 103]
    case EnterSceneResult(_, ok, _, _) => if ok then [0, 8, 9, 17, 25, 33, 37] else [0, 8, 9]
    case PlayerEnter(_, _) => [0, 8, 16, 24, 32]
    case PlayerMove(_, _, _, _, _, _) => [0, 8, 12, 20, 28, 36, 44, 52, 60, 68, 76, 84, 85]
    case TimeSyncReply(_, _, _, _) => [0, 8, 16, 24, 32]
    case FastLaneResult(_, _, udpPort, _) => if udpPort.Some? then [0, 8, 9, 11] else [0, 8, 9]
    case SkillEvent(_, _, _) => [0, 8, 10, 18, 26, 34]
    case PlayerState(_, _, _, _) => [0, 8, 10, 12, 13]
    case CombatHit(_, _, _, _, _, _) => [0, 8, 16, 18, 20, 22, 30, 38, 46]
    case EffectEvent(_, _, _, _, _, _, _, _) => [0, 8, 10, 11, 19, 27, 35, 43, 51, 59, 67, 75, 79]
    case ResultMessage(_, _) => [0, 8, 9]
    case FastLaneAttached(_, _) => [0, 8, 9]
    case ActorIdentity(_, _, _) => [0, 8, 9]
    case _ => [0, 8]
  }

  function EncodeServer(m: ServerMessage): seq<Byte>
    requires ServerFits(m)
  {
    [ServerOpcode(m)] + (Pack(ServerFields(m)) + PackTexts(ServerTexts(m)))
  }

  lemma MoveOffsets(m: ServerMessage)
    requires ServerFits(m) && (m.PlayerMove? || m.CombatHit?)
    ensures Offsets(ServerFields(m), ServerOffsets(m))
  {
  }

  lemma EffectOffsets(m: ServerMessage)
    requires ServerFits(m) && m.EffectEvent?
    ensures Offsets(ServerFields(m), ServerOffsets(m))
  {
  }

  lemma {:induction false} VectorMessagesFit(m: ServerMessage)
    requires ServerFits(m) && (m.MovementAck? || m.PlayerMove? || m.EffectEvent? || m.CombatHit?)
    ensures Fitting(ServerFields(m))
  {
    Powers();
  }

  lemma SmallOffsets(m: ServerMessage)
    requires ServerFits(m) && !(m.MovementAck? || m.PlayerMove? || m.EffectEvent? || m.CombatHit?)
    ensures Offsets(ServerFields(m), ServerOffsets(m))
  {
  }

  lemma {:induction false} SmallMessagesFit(m: ServerMessage)
    requires ServerFits(m) && !(m.MovementAck? || m.PlayerMove? || m.EffectEvent? || m.CombatHit?)
    ensures Fitting(ServerFields(m))
  {
    Powers();
  }

  lemma {:induction false} ServerFieldsLaidOut(m: ServerMessage)
    requires ServerFits(m)
    ensures Offsets(ServerFields(m), ServerOffsets(m)) && Fitting(ServerFields(m))
  {
    if m.MovementAck? || m.PlayerMove? || m.EffectEvent? || m.CombatHit? {
      if m.MovementAck? {
      } else if m.EffectEvent? {
        EffectOffsets(m);
      } else {
        MoveOffsets(m);
      }
      VectorMessagesFit(m);
    } else {
      SmallOffsets(m);
      SmallMessagesFit(m);
    }
  }

  predicate HoldsMessage(body: seq<Byte>, m: ServerMessage)
    requires ServerFits(m)
  {
    Holds(body, ServerFields(m), ServerOffsets(m))
  }

  lemma AckScalarsRead(m: ServerMessage, body: seq<Byte>)
    requires m.MovementAck? && ServerFits(m) && HoldsMessage(body, m)
    ensures ReadUint(body, 0, 4) == Ok(m.ackSeq) && ReadUint(body, 4, 4) == Ok(m.authTick)
      && ReadI64(body, 8) == Ok(m.cid)
    ensures ReadUint(body, 88, 1) == Ok(m.mode) && ReadUint(body, 89, 4) == Ok(m.correctionFlags)
    ensures ReadUint(body, 93, 2) == Ok(m.fixedDtMs) && ReadUint(body, 95, 8) == Ok(m.groundZ)
  {
    var o := ServerOffsets(m);
    assert o[0] == 0 && o[1] == 4 && o[2] == 8 && o[12] == 88 && o[13] == 89 && o[14] == 93 && o[15] == 95;
  }

  /** Three 8-byte fields in a row read back as a vector. */
  lemma VectorReads(body: seq<Byte>, fields: seq<Field>, offs: seq<nat>, k: nat)
    requires Holds(body, fields, offs) && k + 2 < |fields|
    requires fields[k].width == fields[k + 1].width == fields[k + 2].width == 8
    requires offs[k + 1] == offs[k] + 8 && offs[k + 2] == offs[k] + 16
    ensures ReadVec3(body, offs[k]) == Ok((fields[k].value, fields[k + 1].value, fields[k + 2].value))
  {
  }

  lemma AckVectorsRead(m: ServerMessage, body: seq<Byte>)
    requires m.MovementAck? && ServerFits(m) && HoldsMessage(body, m)
    ensures ReadVec3(body, 16) == Ok(m.location) && ReadVec3(body, 40) == Ok(m.velocity)
      && ReadVec3(body, 64) == Ok(m.acceleration)
  {
    VectorReads(body, ServerFields(m), ServerOffsets(m), 3);
    VectorReads(body, ServerFields(m), ServerOffsets(m), 6);
    VectorReads(body, ServerFields(m), ServerOffsets(m), 9);
  }

  lemma MovementAckReads(utf8: Text -> bool, m: ServerMessage, body: seq<Byte>)
    requires m.MovementAck? && ServerFits(m) && HoldsMessage(body, m)
    ensures DecodeBody(utf8, ServerOpcode(m), body) == Ok(m)
  {
    AckScalarsRead(m, body);
    AckVectorsRead(m, body);
  }

  lemma PlayerMoveReads(utf8: Text -> bool, m: ServerMessage, body: seq<Byte>)
    requires m.PlayerMove? && ServerFits(m) && HoldsMessage(body, m)
    ensures DecodeBody(utf8, ServerOpcode(m), body) == Ok(m)
  {
    var o := ServerOffsets(m);
    assert o[0] == 0 && o[1] == 8 && o[2] == 12 && o[3] == 20 && o[4] == 28 && o[5] == 36 && o[6] == 44 && o[7] == 52;
    assert o[8] == 60 && o[9] == 68 && o[10] == 76 && o[11] == 84;
  }

  lemma EffectEventReads(utf8: Text -> bool, m: ServerMessage, body: seq<Byte>)
    requires m.EffectEvent? && ServerFits(m) && HoldsMessage(body, m)
    ensures DecodeBody(utf8, ServerOpcode(m), body) == Ok(m)
  {
    var o := ServerOffsets(m);
    assert o[0] == 0 && o[1] == 8 && o[2] == 10 && o[3] == 11 && o[4] == 19 && o[5] == 27 && o[6] == 35 && o[7] == 43;
    assert o[8] == 51 && o[9] == 59 && o[10] == 67 && o[11] == 75;
  }

  lemma CombatHitReads(utf8: Text -> bool, m: ServerMessage, body: seq<Byte>)
    requires m.CombatHit? && ServerFits(m) && HoldsMessage(body, m)
    ensures DecodeBody(utf8, ServerOpcode(m), body) == Ok(m)
  {
    var o := ServerOffsets(m);
    assert o[0] == 0 && o[1] == 8 && o[2] == 16 && o[3] == 18 && o[4] == 20 && o[5] == 22 && o[6] == 30 && o[7] == 38;
  }

  lemma EnterSceneResultReads(utf8: Text -> bool, m: ServerMessage, body: seq<Byte>)
    requires m.EnterSceneResult? && ServerFits(m) && HoldsMessage(body, m)
    ensures DecodeBody(utf8, ServerOpcode(m), body) == Ok(m)
  {
    var o := ServerOffsets(m);
    assert o[0] == 0 && o[1] == 8;
    assert m.ok ==> o[2] == 9 && o[3] == 17 && o[4] == 25 && o[5] == 33;
    assert ReadUint(body, o[0], 8) == Ok(m.packetId) && ReadUint(body, o[1], 1) == Ok(Status(m.ok));
  }

  lemma SkillEventReads(utf8: Text -> bool, m: ServerMessage, body: seq<Byte>)
    requires m.SkillEvent? && ServerFits(m) && HoldsMessage(body, m)
    ensures DecodeBody(utf8, ServerOpcode(m), body) == Ok(m)
  {
    var o := ServerOffsets(m);
    assert o[0] == 0 && o[1] == 8 && o[2] == 10 && o[3] == 18 && o[4] == 26;
  }

  lemma PlayerStateReads(utf8: Text -> bool, m: ServerMessage, body: seq<Byte>)
    requires m.PlayerState? && ServerFits(m) && HoldsMessage(body, m)
    ensures DecodeBody(utf8, ServerOpcode(m), body) == Ok(m)
  {
    var o := ServerOffsets(m);
    assert o[0] == 0 && o[1] == 8 && o[2] == 10 && o[3] == 12;
  }

  /** Layouts of 8-byte words and one trailing status byte. */
  lemma ShortMessageReads(utf8: Text -> bool, m: ServerMessage, body: seq<Byte>)
    requires ServerFits(m) && HoldsMessage(body, m)
    requires m.PlayerEnter? || m.PlayerLeave? || m.TimeSyncReply? || m.HeartbeatReply? || m.FastLaneAttached?
             || (m.ResultMessage? && |body| == 9) || (m.FastLaneResult? && m.ticket.None? && |body| == 9)
    ensures DecodeBody(utf8, ServerOpcode(m), body) == Ok(m)
  {
    var o, f := ServerOffsets(m), ServerFields(m);
    assert o[0] == 0 && ReadUint(body, o[0], f[0].width) == Ok(f[0].value);
    if |f| > 1 {
      assert o[1] == 8 && ReadUint(body, o[1], f[1].width) == Ok(f[1].value);
    }
    if |f| > 2 {
      assert o[2] == 16 && o[3] == 24;
    }
  }

  lemma FixedMessageReads(utf8: Text -> bool, m: ServerMessage, body: seq<Byte>)
    requires ServerFits(m) && ServerTexts(m) == [] && HoldsMessage(body, m)
    requires m.ResultMessage? || m.FastLaneResult? ==> |body| == 9
    ensures DecodeBody(utf8, ServerOpcode(m), body) == Ok(m)
  {
    match m
    case MovementAck(_, _, _, _, _, _, _, _, _, _) => MovementAckReads(utf8, m, body);
    case PlayerMove(_, _, _, _, _, _) => PlayerMoveReads(utf8, m, body);
    case EffectEvent(_, _, _, _, _, _, _, _) => EffectEventReads(utf8, m, body);
    case CombatHit(_, _, _, _, _, _) => CombatHitReads(utf8, m, body);
    case EnterSceneResult(_, _, _, _) => EnterSceneResultReads(utf8, m, body);
    case SkillEvent(_, _, _) => SkillEventReads(utf8, m, body);
    case PlayerState(_, _, _, _) => PlayerStateReads(utf8, m, body);
    case _ => ShortMessageReads(utf8, m, body);
  }

  lemma ChatMessageReads(utf8: Text -> bool, m: ServerMessage, body: seq<Byte>)
    requires m.ChatMessage? && ServerFits(m) && HoldsMessage(body, m)
    requires TextsIn(utf8, body, [m.username, m.text])
    ensures DecodeBody(utf8, ServerOpcode(m), body) == Ok(m)
  {
  }

  /** A name or a ticket after 9 or 11 bytes of fixed fields. */
  lemma OneTextReads(utf8: Text -> bool, m: ServerMessage, head: seq<Byte>)
    requires ServerFits(m) && (m.ActorIdentity? || m.FastLaneResult?) && |ServerTexts(m)| == 1
    requires |head| == if m.ActorIdentity? then 9 else 11
    requires HoldsMessage(head + WriteString(ServerTexts(m)[0]), m)
    requires utf8(ServerTexts(m)[0]) && |ServerTexts(m)[0]| < 0x1_0000
    ensures DecodeBody(utf8, ServerOpcode(m), head + WriteString(ServerTexts(m)[0])) == Ok(m)
  {
    var s := ServerTexts(m)[0];
    var body := head + WriteString(s);
    var o, f := ServerOffsets(m), ServerFields(m);
    assert body + [] == body;
    ReadWritten(utf8, head, s, []);
    assert o[0] == 0 && o[1] == 8 && ReadUint(body, o[0], f[0].width) == Ok(f[0].value)
      && ReadUint(body, o[1], f[1].width) == Ok(f[1].value);
    if m.FastLaneResult? {
      assert o[2] == 9 && ReadUint(body, o[2], f[2].width) == Ok(f[2].value);
    }
  }

  lemma ServerTextsRead(utf8: Text -> bool, m: ServerMessage, head: seq<Byte>)
    requires ServerFits(m) && ServerTexts(m) != [] && HoldsMessage(head + PackTexts(ServerTexts(m)), m)
    requires |head| == if m.ChatMessage? then 8 else if m.ActorIdentity? then 9 else 11
    requires forall s :: s in ServerTexts(m) ==> utf8(s) && |s| < 0x1_0000
    ensures DecodeBody(utf8, ServerOpcode(m), head + PackTexts(ServerTexts(m))) == Ok(m)
  {
    var texts := ServerTexts(m);
    assert texts[0] in texts && texts[|texts| - 1] in texts;
    PackTextsShort(texts);
    if m.ChatMessage? {
      TwoTextsIn(utf8, head, m.username, m.text);
      ChatMessageReads(utf8, m, head + PackTexts(texts));
    } else {
      OneTextReads(utf8, m, head);
    }
  }

  lemma ShortServerTextsInvert(utf8: Text -> bool, m: ServerMessage)
    requires ServerFits(m) && forall s :: s in ServerTexts(m) ==> utf8(s) && |s| < 0x1_0000
    ensures DecodeServer(utf8, EncodeServer(m)) == Ok(m)
  {
    var head := Pack(ServerFields(m));
    var body := head + PackTexts(ServerTexts(m));
    ServerFieldsLaidOut(m);
    ReadPacked(ServerFields(m), ServerOffsets(m), PackTexts(ServerTexts(m)));
    assert EncodeServer(m)[1..] == body;
    if ServerTexts(m) == [] {
      FixedMessageReads(utf8, m, body);
    } else {
      ServerTextsRead(utf8, m, head);
    }
  }

  predicate HasShortTexts(r: Read<ServerMessage>) {
    r.Ok? ==> forall s :: s in ServerTexts(r.value) ==> |s| < 0x1_0000
  }

  lemma ChatTextsAreShort(utf8: Text -> bool, body: seq<Byte>)
    ensures HasShortTexts(DecodeChatMessage(utf8, body))
  {
    ReadStringShort(utf8, body, 8);
    if ReadString(utf8, body, 8).Ok? {
      ReadStringShort(utf8, body, ReadString(utf8, body, 8).value.1);
    }
  }

  lemma NameAndTicketAreShort(utf8: Text -> bool, body: seq<Byte>)
    ensures HasShortTexts(DecodeActorIdentity(utf8, body)) && HasShortTexts(DecodeFastLaneResult(utf8, body))
  {
    ReadStringShort(utf8, body, 9);
    ReadStringShort(utf8, body, 11);
  }

  lemma DecodedServerTextsAreShort(utf8: Text -> bool, payload: seq<Byte>)
    ensures HasShortTexts(DecodeServer(utf8, payload))
  {
    if payload != [] {
      match payload[0]
      case 0x89 => ChatTextsAreShort(utf8, payload[1..]);
      case 0x87 => NameAndTicketAreShort(utf8, payload[1..]);
      case 0x8E => NameAndTicketAreShort(utf8, payload[1..]);
      case _ =>
    }
  }

  /** Main result: every server message reads back from its documented layout exactly
      when each of its strings is shorter than 65536 bytes. */
  lemma {:induction false} ServerInverts(utf8: Text -> bool, m: ServerMessage)
    requires ServerFits(m) && forall s :: s in ServerTexts(m) ==> utf8(s)
    ensures DecodeServer(utf8, EncodeServer(m)) == Ok(m) <==> forall s :: s in ServerTexts(m) ==> |s| < 0x1_0000
  {
    if forall s :: s in ServerTexts(m) ==> |s| < 0x1_0000 {
      ShortServerTextsInvert(utf8, m);
    } else if DecodeServer(utf8, EncodeServer(m)).Ok? {
      DecodedServerTextsAreShort(utf8, EncodeServer(m));
    }
  }

  // ----- nothing else decodes -----

  lemma ReadUintFits(body: seq<Byte>, offset: nat, n: nat)
    ensures ReadUint(body, offset, n).Ok? ==> ReadUint(body, offset, n).value < Pow256(n)
  {
    if offset + n <= |body| {
      BEOfValue(body[offset..offset + n]);
    }
  }

  /** What the wide reads yield always fits. */
  lemma WideReadsFit(body: seq<Byte>, offset: nat)
    ensures ReadUint(body, offset, 8).Ok? ==> U64Fits(ReadUint(body, offset, 8).value)
    ensures ReadI64(body, offset).Ok? ==> IsI64(ReadI64(body, offset).value)
    ensures ReadVec3(body, offset).Ok? ==> Vec3Fits(ReadVec3(body, offset).value)
  {
    Powers();
    ReadUintFits(body, offset, 8);
    ReadUintFits(body, offset + 8, 8);
    ReadUintFits(body, offset + 16, 8);
  }

  lemma NarrowReadsFit(body: seq<Byte>, offset: nat)
    ensures ReadUint(body, offset, 1).Ok? ==> ReadUint(body, offset, 1).value < 0x100
    ensures ReadUint(body, offset, 2).Ok? ==> U16(ReadUint(body, offset, 2).value)
    ensures ReadUint(body, offset, 4).Ok? ==> U32(ReadUint(body, offset, 4).value)
  {
    Powers();
    ReadUintFits(body, offset, 1);
    ReadUintFits(body, offset, 2);
    ReadUintFits(body, offset, 4);
  }

  predicate Fits(r: Read<ServerMessage>) { r.Ok? ==> r.value.Voxel? || ServerFits(r.value) }

  lemma MovementAckFits(body: seq<Byte>)
    ensures Fits(DecodeMovementAck(body))
  {
    NarrowReadsFit(body, 0);
    NarrowReadsFit(body, 4);
    WideReadsFit(body, 8);
    WideReadsFit(body, 16);
    WideReadsFit(body, 40);
    WideReadsFit(body, 64);
    NarrowReadsFit(body, 88);
    NarrowReadsFit(body, 89);
    NarrowReadsFit(body, 93);
    WideReadsFit(body, 95);
  }

  lemma PlayerMessagesFit(body: seq<Byte>)
    ensures Fits(DecodePlayerEnter(body)) && Fits(DecodePlayerLeave(body)) && Fits(DecodePlayerMove(body))
  {
    WideReadsFit(body, 0);
    WideReadsFit(body, 8);
    NarrowReadsFit(body, 8);
    WideReadsFit(body, 12);
    WideReadsFit(body, 36);
    WideReadsFit(body, 60);
    NarrowReadsFit(body, 84);
  }

  lemma ReplyMessagesFit(utf8: Text -> bool, body: seq<Byte>)
    ensures Fits(DecodeResult(body)) && Fits(DecodeFastLaneAttached(body)) && Fits(DecodeHeartbeatReply(body))
    ensures Fits(DecodeFastLaneResult(utf8, body)) && Fits(DecodeEnterSceneResult(body))
  {
    WideReadsFit(body, 0);
    WideReadsFit(body, 9);
    NarrowReadsFit(body, 9);
    NarrowReadsFit(body, 33);
  }

  lemma TimeSyncReplyFits(body: seq<Byte>)
    ensures Fits(DecodeTimeSyncReply(body))
  {
    WideReadsFit(body, 0);
    WideReadsFit(body, 8);
    WideReadsFit(body, 16);
    WideReadsFit(body, 24);
  }

  lemma ActorMessagesFit(utf8: Text -> bool, body: seq<Byte>)
    ensures Fits(DecodeChatMessage(utf8, body)) && Fits(DecodeActorIdentity(utf8, body))
    ensures Fits(DecodeSkillEvent(body)) && Fits(DecodePlayerState(body))
  {
    WideReadsFit(body, 0);
    NarrowReadsFit(body, 8);
    NarrowReadsFit(body, 10);
    WideReadsFit(body, 10);
  }

  lemma CombatHitFits(body: seq<Byte>)
    ensures Fits(DecodeCombatHit(body))
  {
    WideReadsFit(body, 0);
    WideReadsFit(body, 8);
    NarrowReadsFit(body, 16);
    NarrowReadsFit(body, 18);
    NarrowReadsFit(body, 20);
    WideReadsFit(body, 22);
  }

  lemma EffectEventFits(body: seq<Byte>)
    ensures Fits(DecodeEffectEvent(body))
  {
    WideReadsFit(body, 0);
    NarrowReadsFit(body, 8);
    NarrowReadsFit(body, 10);
    WideReadsFit(body, 11);
    WideReadsFit(body, 19);
    WideReadsFit(body, 43);
    WideReadsFit(body, 67);
    NarrowReadsFit(body, 75);
  }

  lemma {:induction false} DecodedFits(utf8: Text -> bool, payload: seq<Byte>)
    ensures Fits(DecodeServer(utf8, payload))
  {
    if payload != [] {
      var body := payload[1..];
      match payload[0]
      case 0x8B => MovementAckFits(body);
      case 0x81 => PlayerMessagesFit(body);
      case 0x82 => PlayerMessagesFit(body);
      case 0x83 => PlayerMessagesFit(body);
      case 0x80 => ReplyMessagesFit(utf8, body);
      case 0x84 => ReplyMessagesFit(utf8, body);
      case 0x86 => ReplyMessagesFit(utf8, body);
      case 0x87 => ReplyMessagesFit(utf8, body);
      case 0x88 => ReplyMessagesFit(utf8, body);
      case 0x85 => TimeSyncReplyFits(body);
      case 0x89 => ActorMessagesFit(utf8, body);
      case 0x8A => ActorMessagesFit(utf8, body);
      case 0x8C => ActorMessagesFit(utf8, body);
      case 0x8E => ActorMessagesFit(utf8, body);
      case 0x8D => CombatHitFits(body);
      case 0x8F => EffectEventFits(body);
      case _ =>
    }
  }

  /** Main result: the messages that some payload decodes to are exactly those with
      fitting values, expressible pairings and short strings. */
  lemma {:induction false} ExpressibleIff(utf8: Text -> bool, m: ServerMessage)
    requires !m.Voxel? && forall s :: s in ServerTexts(m) ==> utf8(s)
    ensures (exists payload :: DecodeServer(utf8, payload) == Ok(m)) <==>
      ServerFits(m) && forall s :: s in ServerTexts(m) ==> |s| < 0x1_0000
  {
    if payload :| DecodeServer(utf8, payload) == Ok(m) {
      DecodedFits(utf8, payload);
      DecodedServerTextsAreShort(utf8, payload);
    }
    if ServerFits(m) && forall s :: s in ServerTexts(m) ==> |s| < 0x1_0000 {
      ShortServerTextsInvert(utf8, m);
    }
  }
}
