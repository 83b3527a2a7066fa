/** The documented wire format, byte by byte: which bytes of a payload stand for which
    field, independently of the decoder and of the packed layouts. */
module WireFormat {
  import opened Common
  import opened Bytes
  import opened Payload
  import opened ServerPayload

  // ----- bytes -----

  /** Most significant byte first. */
  lemma {:induction false} BigEndian(n: nat, v: nat, k: nat)
    requires k < n
    ensures BE(n, v)[k] == v / Pow256(n - 1 - k) % 256
    decreases n
  {
    if k == n - 1 {
      assert v / 1 == v;
    } else {
      BigEndian(n - 1, v / 256, k);
      DivTwice(v, Pow256(n - 2 - k));
    }
  }

  /** Dividing by 256 and then by d is dividing by both. */
  lemma {:induction false} DivTwice(v: nat, d: nat)
    requires d > 0
    ensures v / 256 / d == v / (256 * d)
  {
    var q := v / 256;
    var p, s := q / d, q % d;
    assert q == d * p + s;
    DivUnique(v, 256 * d, p, 256 * s + v % 256);
  }

  lemma {:induction false} DivUnique(v: nat, d: nat, k: nat, m: nat)
    requires m < d && v == d * k + m
    ensures v / d == k
  {
    assert v == d * (v / d) + v % d;
    MulGap(d, v / d, k);
    MulGap(d, k, v / d);
  }

  /** The bytes from `at` on are the number, in `width` bytes, and it fits them. */
  predicate Num(b: seq<Byte>, at: nat, width: nat, v: int) {
    0 <= v < Pow256(width) && at + width <= |b| && b[at..at + width] == BE(width, v)
  }

  /** A signed number in two's complement. */
  predicate Signed(b: seq<Byte>, at: nat, v: int) { IsI64(v) && Num(b, at, 8, if v < 0 then v + U64 else v) }

  predicate Triple(b: seq<Byte>, at: nat, v: Vec3) {
    Num(b, at, 8, v.0) && Num(b, at + 8, 8, v.1) && Num(b, at + 16, 8, v.2)
  }

  /** A flag byte, zero or not. */
  predicate Zero(b: seq<Byte>, at: nat, zero: bool) { at < |b| && (b[at] == 0 <==> zero) }

  /** A two-byte length and that many bytes of valid UTF-8. */
  predicate Str(utf8: Text -> bool, b: seq<Byte>, at: nat, s: Text) {
    Num(b, at, 2, |s|) && at + 2 + |s| <= |b| && b[at + 2..at + 2 + |s|] == s && utf8(s)
  }

  // ----- reading is finding the bytes -----

  lemma ReadsNum(b: seq<Byte>, at: nat, width: nat, v: int)
    ensures Num(b, at, width, v) <==> v >= 0 && ReadUint(b, at, width) == Ok(v)
  {
    if at + width <= |b| {
      BEOfValue(b[at..at + width]);
      if 0 <= v < Pow256(width) {
        RoundTrip(width, v);
      }
    }
  }

  lemma ReadsSigned(b: seq<Byte>, at: nat, v: int)
    ensures Signed(b, at, v) <==> ReadI64(b, at) == Ok(v)
  {
    if at + 8 <= |b| {
      BEOfValue(b[at..at + 8]);
      Powers();
      ReadsNum(b, at, 8, Value(b[at..at + 8]));
    }
    if IsI64(v) {
      ReadsNum(b, at, 8, if v < 0 then v + U64 else v);
    }
  }

  lemma ReadsTriple(b: seq<Byte>, at: nat, v: Vec3)
    ensures Triple(b, at, v) <==> ReadVec3(b, at) == Ok(v)
  {
    ReadsNum(b, at, 8, v.0);
    ReadsNum(b, at + 8, 8, v.1);
    ReadsNum(b, at + 16, 8, v.2);
  }

  lemma ReadsByte(b: seq<Byte>, at: nat)
    ensures at < |b| <==> ReadUint(b, at, 1).Ok?
    ensures at < |b| ==> ReadUint(b, at, 1).value == b[at]
  {
    if at < |b| {
      assert b[at..at + 1] == [b[at]];
      assert [b[at]][..0] == [];
      assert Value([b[at]]) == Value([]) * 256 + b[at];
    }
  }

  lemma ReadsStr(utf8: Text -> bool, b: seq<Byte>, at: nat, s: Text)
    ensures Str(utf8, b, at, s) <==> ReadString(utf8, b, at) == Ok((s, at + 2 + |s|))
    ensures ReadString(utf8, b, at).Ok? ==>
      ReadString(utf8, b, at) == Ok((ReadString(utf8, b, at).value.0, at + 2 + |ReadString(utf8, b, at).value.0|))
  {
    ReadsNum(b, at, 2, |s|);
  }

  // ----- what the server sends -----

  predicate SceneWire(b: seq<Byte>, m: ServerMessage)
    requires m.EnterSceneResult?
  {
    && Num(b, 0, 8, m.packetId) && Zero(b, 8, m.ok)
    && (if m.ok then
          m.place.Some? && m.expectedSeq.Some? && Triple(b, 9, m.place.value) && Num(b, 33, 4, m.expectedSeq.value)
        else m.place == None && m.expectedSeq == None)
  }

  predicate TicketWire(utf8: Text -> bool, b: seq<Byte>, m: ServerMessage)
    requires m.FastLaneResult?
  {
    && Num(b, 0, 8, m.packetId) && Zero(b, 8, m.ok)
    && (if m.ok && |b| >= 13 then
          m.udpPort.Some? && m.ticket.Some? && Num(b, 9, 2, m.udpPort.value) && Str(utf8, b, 11, m.ticket.value)
        else m.udpPort == None && m.ticket == None)
  }

  predicate KindWire(code: int, kind: ActorKind) {
    match kind case Player => code == 0 case Npc => code == 1 case UnknownActor(c) => c == code && code >= 2
  }

  predicate CueWire(code: int, cue: EffectCueKind) {
    match cue
    case MeleeArc => code == 0 case Projectile => code == 1 case AoeRing => code == 2 case ChainArc => code == 3
    case ImpactPulse => code == 4 case UnknownCue(c) => c == code && code >= 5
  }

  /** Any negative target stands for none. */
  ghost predicate TargetWire(b: seq<Byte>, at: nat, target: Option<int>) {
    if target.Some? then target.value >= 0 && Signed(b, at, target.value)
    else exists v :: v < 0 && Signed(b, at, v)
  }

  /** The body of the payload of this opcode stands for the message. */
  ghost predicate BodyWire(utf8: Text -> bool, opcode: Byte, b: seq<Byte>, m: ServerMessage) {
    match m
    case ResultMessage(packetId, ok) => opcode == 0x80 && |b| == 9 && Num(b, 0, 8, packetId) && Zero(b, 8, ok)
    case PlayerEnter(cid, l) => opcode == 0x81 && Signed(b, 0, cid) && Triple(b, 8, l)
    case PlayerLeave(cid) => opcode == 0x82 && Signed(b, 0, cid)
    case PlayerMove(cid, tick, l, v, a, mode) =>
      && opcode == 0x83 && Signed(b, 0, cid) && Num(b, 8, 4, tick) && Triple(b, 12, l) && Triple(b, 36, v)
      && Triple(b, 60, a) && Num(b, 84, 1, mode)
    case EnterSceneResult(_, _, _, _) => opcode == 0x84 && SceneWire(b, m)
    case TimeSyncReply(packetId, sent, received, replied) =>
      opcode == 0x85 && Num(b, 0, 8, packetId) && Num(b, 8, 8, sent) && Num(b, 16, 8, received)
        && Num(b, 24, 8, replied)
    case HeartbeatReply(timestamp) => opcode == 0x86 && Num(b, 0, 8, timestamp)
    case FastLaneResult(_, _, _, _) => opcode == 0x87 && TicketWire(utf8, b, m)
    case FastLaneAttached(packetId, ok) => opcode == 0x88 && Num(b, 0, 8, packetId) && Zero(b, 8, ok)
    case ChatMessage(cid, username, text) =>
      opcode == 0x89 && Signed(b, 0, cid) && Str(utf8, b, 8, username) && Str(utf8, b, 10 + |username|, text)
    case SkillEvent(cid, skillId, l) => opcode == 0x8A && Signed(b, 0, cid) && Num(b, 8, 2, skillId) && Triple(b, 10, l)
    case MovementAck(ackSeq, authTick, cid, l, v, a, mode, flags, fixedDtMs, groundZ) =>
      && opcode == 0x8B && Num(b, 0, 4, ackSeq) && Num(b, 4, 4, authTick) && Signed(b, 8, cid)
      && Triple(b, 16, l) && Triple(b, 40, v) && Triple(b, 64, a)
      && Num(b, 88, 1, mode) && Num(b, 89, 4, flags) && Num(b, 93, 2, fixedDtMs) && Num(b, 95, 8, groundZ)
    case PlayerState(cid, hp, maxHp, alive) =>
      opcode == 0x8C && Signed(b, 0, cid) && Num(b, 8, 2, hp) && Num(b, 10, 2, maxHp) && Zero(b, 12, !alive)
    case CombatHit(cid, targetCid, skillId, damage, hpAfter, l) =>
      && opcode == 0x8D && Signed(b, 0, cid) && Signed(b, 8, targetCid) && Num(b, 16, 2, skillId)
      && Num(b, 18, 2, damage) && Num(b, 20, 2, hpAfter) && Triple(b, 22, l)
    case ActorIdentity(cid, kind, name) =>
      opcode == 0x8E && Signed(b, 0, cid) && 8 < |b| && KindWire(b[8], kind) && Str(utf8, b, 9, name)
    case EffectEvent(cid, skillId, cue, target, l, t, radius, durationMs) =>
      && opcode == 0x8F && Signed(b, 0, cid) && Num(b, 8, 2, skillId) && 10 < |b| && CueWire(b[10], cue)
      && TargetWire(b, 11, target) && Triple(b, 19, l) && Triple(b, 43, t) && Num(b, 67, 8, radius)
      && Num(b, 75, 4, durationMs)
    case Voxel(code, body) => opcode == code && 0x60 <= code <= 0x75 && body == b
  }

  // ----- the decoder reads exactly that -----


  lemma MoveWire(utf8: Text -> bool, b: seq<Byte>, m: ServerMessage)
    requires m.PlayerMove?
    ensures DecodePlayerMove(b) == Ok(m) <==> BodyWire(utf8, 0x83, b, m)
  {
    ReadsSigned(b, 0, m.cid);
    ReadsNum(b, 8, 4, m.serverTick);
    ReadsTriple(b, 12, m.location);
    ReadsTriple(b, 36, m.velocity);
    ReadsTriple(b, 60, m.acceleration);
    ReadsNum(b, 84, 1, m.mode);
  }

  lemma EnteredWire(b: seq<Byte>, m: ServerMessage)
    requires m.EnterSceneResult?
    ensures DecodeEnterSceneResult(b) == Ok(m) <==> SceneWire(b, m)
  {
    ReadsNum(b, 0, 8, m.packetId);
    ReadsByte(b, 8);
    if m.place.Some? && m.expectedSeq.Some? {
      ReadsTriple(b, 9, m.place.value);
      ReadsNum(b, 33, 4, m.expectedSeq.value);
    }
  }

  lemma SyncWire(utf8: Text -> bool, b: seq<Byte>, m: ServerMessage)
    requires m.TimeSyncReply?
    ensures DecodeTimeSyncReply(b) == Ok(m) <==> BodyWire(utf8, 0x85, b, m)
  {
    ReadsNum(b, 0, 8, m.packetId);
    ReadsNum(b, 8, 8, m.clientSendTs);
    ReadsNum(b, 16, 8, m.serverRecvTs);
    ReadsNum(b, 24, 8, m.serverSendTs);
  }


  lemma LaneWire(utf8: Text -> bool, b: seq<Byte>, m: ServerMessage)
    requires m.FastLaneResult?
    ensures DecodeFastLaneResult(utf8, b) == Ok(m) <==> TicketWire(utf8, b, m)
  {
    ReadsNum(b, 0, 8, m.packetId);
    ReadsByte(b, 8);
    if m.udpPort.Some? && m.ticket.Some? {
      ReadsNum(b, 9, 2, m.udpPort.value);
      ReadsStr(utf8, b, 11, m.ticket.value);
    }
  }


  lemma ChatWire(utf8: Text -> bool, b: seq<Byte>, m: ServerMessage)
    requires m.ChatMessage?
    ensures DecodeChatMessage(utf8, b) == Ok(m) <==> BodyWire(utf8, 0x89, b, m)
  {
    ReadsSigned(b, 0, m.cid);
    ReadsStr(utf8, b, 8, m.username);
    ReadsStr(utf8, b, 10 + |m.username|, m.text);
  }

  lemma SkillWire(utf8: Text -> bool, b: seq<Byte>, m: ServerMessage)
    requires m.SkillEvent?
    ensures DecodeSkillEvent(b) == Ok(m) <==> BodyWire(utf8, 0x8A, b, m)
  {
    ReadsSigned(b, 0, m.cid);
    ReadsNum(b, 8, 2, m.skillId);
    ReadsTriple(b, 10, m.location);
  }

  lemma AckWire(utf8: Text -> bool, b: seq<Byte>, m: ServerMessage)
    requires m.MovementAck?
    ensures DecodeMovementAck(b) == Ok(m) <==> BodyWire(utf8, 0x8B, b, m)
  {
    ReadsNum(b, 0, 4, m.ackSeq);
    ReadsNum(b, 4, 4, m.authTick);
    ReadsSigned(b, 8, m.cid);
    ReadsTriple(b, 16, m.location);
    ReadsTriple(b, 40, m.velocity);
    ReadsTriple(b, 64, m.acceleration);
    ReadsNum(b, 88, 1, m.mode);
    ReadsNum(b, 89, 4, m.correctionFlags);
    ReadsNum(b, 93, 2, m.fixedDtMs);
    ReadsNum(b, 95, 8, m.groundZ);
  }

  lemma StateWire(utf8: Text -> bool, b: seq<Byte>, m: ServerMessage)
    requires m.PlayerState?
    ensures DecodePlayerState(b) == Ok(m) <==> BodyWire(utf8, 0x8C, b, m)
  {
    ReadsSigned(b, 0, m.cid);
    ReadsNum(b, 8, 2, m.hp);
    ReadsNum(b, 10, 2, m.maxHp);
    ReadsByte(b, 12);
  }

  lemma HitWire(utf8: Text -> bool, b: seq<Byte>, m: ServerMessage)
    requires m.CombatHit?
    ensures DecodeCombatHit(b) == Ok(m) <==> BodyWire(utf8, 0x8D, b, m)
  {
    ReadsSigned(b, 0, m.cid);
    ReadsSigned(b, 8, m.targetCid);
    ReadsNum(b, 16, 2, m.skillId);
    ReadsNum(b, 18, 2, m.damage);
    ReadsNum(b, 20, 2, m.hpAfter);
    ReadsTriple(b, 22, m.location);
  }

  lemma IdentityWire(utf8: Text -> bool, b: seq<Byte>, m: ServerMessage)
    requires m.ActorIdentity?
    ensures DecodeActorIdentity(utf8, b) == Ok(m) <==> BodyWire(utf8, 0x8E, b, m)
  {
    ReadsSigned(b, 0, m.cid);
    ReadsByte(b, 8);
    ReadsStr(utf8, b, 9, m.name);
  }

  lemma TargetReads(b: seq<Byte>, at: nat, target: Option<int>)
    ensures TargetWire(b, at, target) <==>
      ReadI64(b, at).Ok? && DecodeTargetCid(ReadI64(b, at).value) == target
  {
    if ReadI64(b, at).Ok? {
      ReadsSigned(b, at, ReadI64(b, at).value);
    }
    forall v: int
      ensures Signed(b, at, v) <==> ReadI64(b, at) == Ok(v)
    {
      ReadsSigned(b, at, v);
    }
  }

  lemma EffectWire(utf8: Text -> bool, b: seq<Byte>, m: ServerMessage)
    requires m.EffectEvent?
    ensures DecodeEffectEvent(b) == Ok(m) <==> BodyWire(utf8, 0x8F, b, m)
  {
    ReadsSigned(b, 0, m.cid);
    ReadsNum(b, 8, 2, m.skillId);
    ReadsByte(b, 10);
    TargetReads(b, 11, m.target);
    ReadsTriple(b, 19, m.location);
    ReadsTriple(b, 43, m.targetPosition);
    ReadsNum(b, 67, 8, m.radius);
    ReadsNum(b, 75, 4, m.durationMs);
  }

  predicate OwnKind(opcode: Byte, m: ServerMessage) { opcode == if m.Voxel? then m.opcode else ServerOpcode(m) }

  lemma RoutedMiddle(utf8: Text -> bool, opcode: Byte, b: seq<Byte>)
    requires 0x85 <= opcode <= 0x8A && DecodeBody(utf8, opcode, b).Ok?
    ensures OwnKind(opcode, DecodeBody(utf8, opcode, b).value)
  {
  }

  lemma RoutedVoxel(utf8: Text -> bool, opcode: Byte, b: seq<Byte>)
    requires !(0x80 <= opcode <= 0x8F) && DecodeBody(utf8, opcode, b).Ok?
    ensures OwnKind(opcode, DecodeBody(utf8, opcode, b).value)
  {
  }

  /** An opcode decodes to messages of its own kind. */
  lemma Routed(utf8: Text -> bool, opcode: Byte, b: seq<Byte>)
    requires DecodeBody(utf8, opcode, b).Ok?
    ensures OwnKind(opcode, DecodeBody(utf8, opcode, b).value)
  {
    if 0x85 <= opcode <= 0x8A {
      RoutedMiddle(utf8, opcode, b);
    } else if !(0x80 <= opcode <= 0x8F) {
      RoutedVoxel(utf8, opcode, b);
    }
  }

  predicate Replying(m: ServerMessage) {
    || m.ResultMessage? || m.EnterSceneResult? || m.TimeSyncReply? || m.HeartbeatReply? || m.FastLaneResult?
    || m.FastLaneAttached?
  }

  lemma MovingIff(utf8: Text -> bool, b: seq<Byte>, m: ServerMessage)
    requires m.PlayerEnter? || m.PlayerLeave? || m.PlayerMove?
    ensures DecodeBody(utf8, ServerOpcode(m), b) == Ok(m) <==> BodyWire(utf8, ServerOpcode(m), b, m)
  {
    match m
    case PlayerEnter(_, _) =>
      ReadsSigned(b, 0, m.cid);
      ReadsTriple(b, 8, m.location);
    case PlayerLeave(_) =>
      ReadsSigned(b, 0, m.cid);
    case PlayerMove(_, _, _, _, _, _) => MoveWire(utf8, b, m);
  }

  lemma ActingIff(utf8: Text -> bool, b: seq<Byte>, m: ServerMessage)
    requires m.MovementAck? || m.EffectEvent? || m.CombatHit?
    ensures DecodeBody(utf8, ServerOpcode(m), b) == Ok(m) <==> BodyWire(utf8, ServerOpcode(m), b, m)
  {
    match m
    case MovementAck(_, _, _, _, _, _, _, _, _, _) => AckWire(utf8, b, m);
    case CombatHit(_, _, _, _, _, _) => HitWire(utf8, b, m);
    case EffectEvent(_, _, _, _, _, _, _, _) => EffectWire(utf8, b, m);
  }

  lemma ReplyingIff(utf8: Text -> bool, b: seq<Byte>, m: ServerMessage)
    requires Replying(m)
    ensures DecodeBody(utf8, ServerOpcode(m), b) == Ok(m) <==> BodyWire(utf8, ServerOpcode(m), b, m)
  {
    match m
    case ResultMessage(_, _) =>
      ReadsNum(b, 0, 8, m.packetId);
      ReadsByte(b, 8);
    case EnterSceneResult(_, _, _, _) => EnteredWire(b, m);
    case TimeSyncReply(_, _, _, _) => SyncWire(utf8, b, m);
    case HeartbeatReply(_) =>
      ReadsNum(b, 0, 8, m.timestamp);
    case FastLaneResult(_, _, _, _) => LaneWire(utf8, b, m);
    case FastLaneAttached(_, _) =>
      ReadsNum(b, 0, 8, m.packetId);
      ReadsByte(b, 8);
  }

  lemma TellingIff(utf8: Text -> bool, b: seq<Byte>, m: ServerMessage)
    requires m.ChatMessage? || m.SkillEvent? || m.PlayerState? || m.ActorIdentity?
    ensures DecodeBody(utf8, ServerOpcode(m), b) == Ok(m) <==> BodyWire(utf8, ServerOpcode(m), b, m)
  {
    match m
    case ChatMessage(_, _, _) => ChatWire(utf8, b, m);
    case SkillEvent(_, _, _) => SkillWire(utf8, b, m);
    case PlayerState(_, _, _, _) => StateWire(utf8, b, m);
    case ActorIdentity(_, _, _) => IdentityWire(utf8, b, m);
  }

  /** Main result: a payload decodes to a message exactly when its first byte is that
      message's opcode and its body has, at their documented places, the message's fields. */
  lemma {:induction false} DecodedIff(utf8: Text -> bool, opcode: Byte, b: seq<Byte>, m: ServerMessage)
    ensures DecodeServer(utf8, [opcode] + b) == Ok(m) <==> BodyWire(utf8, opcode, b, m)
  {
    assert ([opcode] + b)[1..] == b;
    if !OwnKind(opcode, m) {
      if DecodeBody(utf8, opcode, b) == Ok(m) {
        Routed(utf8, opcode, b);
        assert false;
      }
      if BodyWire(utf8, opcode, b, m) {
        assert false;
      }
    } else if m.PlayerEnter? || m.PlayerLeave? || m.PlayerMove? {
      MovingIff(utf8, b, m);
    } else if m.MovementAck? || m.EffectEvent? || m.CombatHit? {
      ActingIff(utf8, b, m);
    } else if Replying(m) {
      ReplyingIff(utf8, b, m);
    } else if !m.Voxel? {
      TellingIff(utf8, b, m);
    }
  }

  // ----- what the client sends -----

  /** A two-byte length, which wraps, and the bytes; `end` is where the next thing starts. */
  predicate Written(p: seq<Byte>, at: nat, s: Text, end: nat) {
    end == at + 2 + |s| <= |p| && p[at..at + 2] == [|s| / 256 % 256, |s| % 256] && p[at + 2..end] == s
  }

  predicate CastWire(p: seq<Byte>, m: ClientMessage)
    requires m.SkillCast?
  {
    && |p| == 44 && p[0] == 0x09 && Num(p, 1, 8, m.requestId) && Num(p, 9, 2, m.skillId)
    && p[11] == (match m.targetKind case Auto => 0 case Actor => 1 case Point => 2)
    && Signed(p, 12, m.cid) && Triple(p, 20, m.position)
  }

  /** The payload is the documented one, to its last byte. */
  predicate ClientWire(p: seq<Byte>, m: ClientMessage) {
    match m
    case MovementInput(seqNo, clientTick, dtMs, dirX, dirY, speedScale, flags) =>
      && |p| == 25 && p[0] == 0x01 && Num(p, 1, 4, seqNo) && Num(p, 5, 4, clientTick) && Num(p, 9, 2, dtMs)
      && Num(p, 11, 4, dirX) && Num(p, 15, 4, dirY) && Num(p, 19, 4, speedScale) && Num(p, 23, 2, flags)
    case EnterScene(requestId, cid) => |p| == 17 && p[0] == 0x02 && Num(p, 1, 8, requestId) && Signed(p, 9, cid)
    case TimeSync(requestId, sent) => |p| == 17 && p[0] == 0x03 && Num(p, 1, 8, requestId) && Num(p, 9, 8, sent)
    case Heartbeat(timestamp) => |p| == 9 && p[0] == 0x04 && Num(p, 1, 8, timestamp)
    case AuthRequest(requestId, username, token) =>
      && |p| > 0 && p[0] == 0x05 && Num(p, 1, 8, requestId)
      && Written(p, 9, username, 11 + |username|) && Written(p, 11 + |username|, token, |p|)
    case FastLaneRequest(requestId) => |p| == 9 && p[0] == 0x06 && Num(p, 1, 8, requestId)
    case FastLaneAttach(requestId, ticket) =>
      |p| > 0 && p[0] == 0x07 && Num(p, 1, 8, requestId) && Written(p, 9, ticket, |p|)
    case ChatSay(requestId, text) =>
      |p| > 0 && p[0] == 0x08 && Num(p, 1, 8, requestId) && Written(p, 9, text, |p|)
    case SkillCast(_, _, _, _, _) => CastWire(p, m)
  }

  /** Behind the opcode every place moves by one. */
  lemma NumBehind(opcode: Byte, b: seq<Byte>, at: nat, width: nat, v: int)
    requires Num(b, at, width, v)
    ensures Num([opcode] + b, at + 1, width, v)
  {
    assert ([opcode] + b)[at + 1..at + 1 + width] == b[at..at + width];
  }

  /** Each packed field is where its offset says. */
  lemma FieldThere(m: ClientMessage, p: seq<Byte>, k: nat)
    requires ClientFits(m) && p == EncodeClient(m) && k < |Fields(m)|
    ensures k < |ClientOffsets(m)| && Num(p, ClientOffsets(m)[k] + 1, Fields(m)[k].width, Fields(m)[k].value)
  {
    FieldsLaidOut(m);
    var body := Pack(Fields(m)) + PackTexts(Texts(m));
    ReadPacked(Fields(m), ClientOffsets(m), PackTexts(Texts(m)));
    ReadsNum(body, ClientOffsets(m)[k], Fields(m)[k].width, Fields(m)[k].value);
    NumBehind(Opcode(m), body, ClientOffsets(m)[k], Fields(m)[k].width, Fields(m)[k].value);
  }

  lemma HeadLength(m: ClientMessage)
    requires ClientFits(m)
    ensures |Pack(Fields(m))| == ClientOffsets(m)[|Fields(m)|]
  {
    FieldsLaidOut(m);
    PackLength(Fields(m), ClientOffsets(m));
  }

  lemma MovementWire(m: ClientMessage)
    requires ClientFits(m) && m.MovementInput?
    ensures ClientWire(EncodeClient(m), m)
  {
    var p := EncodeClient(m);
    HeadLength(m);
    FieldThere(m, p, 0);
    FieldThere(m, p, 1);
    FieldThere(m, p, 2);
    FieldThere(m, p, 3);
    FieldThere(m, p, 4);
    FieldThere(m, p, 5);
    FieldThere(m, p, 6);
  }

  lemma SkillCastWire(m: ClientMessage)
    requires ClientFits(m) && m.SkillCast?
    ensures ClientWire(EncodeClient(m), m)
  {
    var p := EncodeClient(m);
    HeadLength(m);
    FieldThere(m, p, 0);
    FieldThere(m, p, 1);
    FieldThere(m, p, 2);
    FieldThere(m, p, 3);
    FieldThere(m, p, 4);
    FieldThere(m, p, 5);
    FieldThere(m, p, 6);
    ReadsNum(p, 11, 1, KindCode(m.targetKind));
    ReadsByte(p, 11);
  }

  lemma WordsWire(m: ClientMessage)
    requires ClientFits(m) && (m.EnterScene? || m.TimeSync? || m.Heartbeat? || m.FastLaneRequest?)
    ensures ClientWire(EncodeClient(m), m)
  {
    var p := EncodeClient(m);
    HeadLength(m);
    FieldThere(m, p, 0);
    if m.EnterScene? || m.TimeSync? {
      FieldThere(m, p, 1);
    }
  }

  lemma StringThere(before: seq<Byte>, s: Text, after: seq<Byte>)
    ensures Written(before + (WriteString(s) + after), |before|, s, |before| + 2 + |s|)
  {
    var p := before + (WriteString(s) + after);
    assert p[|before|..|before| + 2] == BE(2, |s|);
    assert p[|before| + 2..|before| + 2 + |s|] == s;
  }

  /** A payload of one string behind its request id. */
  lemma OneTextWire(m: ClientMessage, s: Text)
    requires ClientFits(m) && Texts(m) == [s] && Fields(m) == [Field(8, m.requestId)]
    requires m.FastLaneAttach? || m.ChatSay?
    ensures var p := EncodeClient(m); Num(p, 1, 8, m.requestId) && Written(p, 9, s, |p|)
  {
    var p := EncodeClient(m);
    var head := [Opcode(m)] + Pack(Fields(m));
    HeadLength(m);
    FieldThere(m, p, 0);
    PackTextsShort([s]);
    StringThere(head, s, []);
    assert head + (WriteString(s) + []) == p;
  }

  lemma TwoTextsWire(m: ClientMessage)
    requires ClientFits(m) && m.AuthRequest?
    ensures var p := EncodeClient(m);
      && Num(p, 1, 8, m.requestId)
      && Written(p, 9, m.username, 11 + |m.username|) && Written(p, 11 + |m.username|, m.token, |p|)
  {
    var p := EncodeClient(m);
    var head, one, two := [Opcode(m)] + Pack(Fields(m)), WriteString(m.username), WriteString(m.token);
    HeadLength(m);
    FieldThere(m, p, 0);
    PackTextsShort(Texts(m));
    assert p == head + (one + two);
    StringThere(head, m.username, two);
    assert head + one + (two + []) == p;
    StringThere(head + one, m.token, []);
  }

  /** Main result: every client message is encoded as documented, field by field and to
      the last byte. */
  lemma EncodedAsDocumented(m: ClientMessage)
    requires ClientFits(m)
    ensures ClientWire(EncodeClient(m), m)
  {
    match m
    case MovementInput(_, _, _, _, _, _, _) => MovementWire(m);
    case SkillCast(_, _, _, _, _) => SkillCastWire(m);
    case AuthRequest(_, _, _) => TwoTextsWire(m);
    case FastLaneAttach(_, ticket) => OneTextWire(m, ticket);
    case ChatSay(_, text) => OneTextWire(m, text);
    case _ => WordsWire(m);
  }
}
