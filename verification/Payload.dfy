/** Binary payload layouts: the read helpers and the client message encoder.
    Wire floats are their bit patterns; a string is its bytes, with UTF-8 validity an
    uninterpreted predicate `utf8`. */
module Payload {
  import opened Common
  import opened Bytes

  type Text = seq<Byte>
  type Vec3 = (nat, nat, nat)

  datatype ProtocolError = EmptyPayload | Missing | TooShort | BadLength | BadUtf8 | BadValue | UnknownType

  type Read<T> = Result<T, ProtocolError>

  datatype SkillTargetKind = Auto | Actor | Point

  datatype ClientMessage =
    | AuthRequest(requestId: nat, username: Text, token: Text)
    | FastLaneRequest(requestId: nat)
    | FastLaneAttach(requestId: nat, ticket: Text)
    | EnterScene(requestId: nat, cid: int)
    | MovementInput(seqNo: nat, clientTick: nat, dtMs: nat, dirX: nat, dirY: nat, speedScale: nat, flags: nat)
    | TimeSync(requestId: nat, clientSendTs: nat)
    | Heartbeat(timestamp: nat)
    | ChatSay(requestId: nat, text: Text)
    | SkillCast(requestId: nat, skillId: nat, targetKind: SkillTargetKind, cid: int, position: Vec3)

  // ----- scalars -----

  const U63: int := 0x8000_0000_0000_0000
  const U64: int := 0x1_0000_0000_0000_0000

  predicate IsI64(n: int) { -U63 <= n < U63 }

  function FromI64(n: int): nat
    requires IsI64(n)
  {
    if n < 0 then n + U64 else n
  }

  function ToI64(n: nat): int { if n < U63 then n else n - U64 }

  function ReadUint(body: seq<Byte>, offset: nat, n: nat): Read<nat> {
    if offset + n <= |body| then Ok(Value(body[offset..offset + n])) else Err(Missing)
  }

  function ReadI64(body: seq<Byte>, offset: nat): Read<int> {
    var n :- ReadUint(body, offset, 8);
    Ok(ToI64(n))
  }

  function ReadVec3(body: seq<Byte>, offset: nat): Read<Vec3> {
    var x :- ReadUint(body, offset, 8);
    var y :- ReadUint(body, offset + 8, 8);
    var z :- ReadUint(body, offset + 16, 8);
    Ok((x, y, z))
  }

  /** The length prefix is a cast to u16, so it wraps for very long strings. */
  function WriteString(s: Text): seq<Byte> { BE(2, |s|) + s }

  function ReadString(utf8: Text -> bool, body: seq<Byte>, offset: nat): Read<(Text, nat)> {
    var length :- ReadUint(body, offset, 2);
    var start := offset + 2;
    if start + length > |body| then Err(Missing)
    else if !utf8(body[start..start + length]) then Err(BadUtf8)
    else Ok((body[start..start + length], start + length))
  }

  function RequireLen(body: seq<Byte>, least: nat): Read<()> {
    if |body| < least then Err(TooShort) else Ok(())
  }

  function KindCode(k: SkillTargetKind): nat {
    match k case Auto => 0 case Actor => 1 case Point => 2
  }

  function DecodeKind(code: nat): Read<SkillTargetKind> {
    if code == 0 then Ok(Auto) else if code == 1 then Ok(Actor) else if code == 2 then Ok(Point) else Err(BadValue)
  }

  // ----- packed fields -----

  /** A fixed-width field: its width in bytes and its value. */
  datatype Field = Field(width: nat, value: nat)

  function Pack(fields: seq<Field>): seq<Byte> {
    if fields == [] then []
    else Pack(fields[..|fields| - 1]) + BE(fields[|fields| - 1].width, fields[|fields| - 1].value)
  }

  predicate Fitting(fields: seq<Field>) {
    forall k :: 0 <= k < |fields| ==> fields[k].value < Pow256(fields[k].width)
  }

  predicate Offsets(fields: seq<Field>, offs: seq<nat>) {
    && |offs| == |fields| + 1 && offs[0] == 0
    && forall k :: 0 <= k < |fields| ==> offs[k + 1] == offs[k] + fields[k].width
  }

  lemma {:induction false} PackLength(fields: seq<Field>, offs: seq<nat>)
    requires Offsets(fields, offs)
    ensures |Pack(fields)| == offs[|fields|]
  {
    if fields != [] {
      PackLength(fields[..|fields| - 1], offs[..|fields|]);
    }
  }

  /** A number written anywhere reads back, modulo what its width can hold. */
  lemma {:induction false} ReadMiddle(before: seq<Byte>, n: nat, v: nat, tail: seq<Byte>)
    ensures ReadUint(before + BE(n, v) + tail, |before|, n) == Ok(v % Pow256(n))
  {
    ValueOfBE(n, v);
  }

  lemma Regroup(a: seq<Byte>, b: seq<Byte>, c: seq<Byte>, d: seq<Byte>)
    ensures a + (b + c) + d == a + b + (c + d) == (a + b) + c + d
  {
  }

  lemma {:induction false} ReadOnePacked(fields: seq<Field>, offs: seq<nat>, tail: seq<Byte>, k: nat)
    requires Offsets(fields, offs) && k < |fields| && fields[k].value < Pow256(fields[k].width)
    ensures ReadUint(Pack(fields) + tail, offs[k], fields[k].width) == Ok(fields[k].value)
    decreases |fields|
  {
    var n := |fields| - 1;
    var init, last := fields[..n], BE(fields[n].width, fields[n].value);
    if k < n {
      ReadOnePacked(init, offs[..n + 1], last + tail, k);
      assert Pack(init) + (last + tail) == Pack(fields) + tail;
    } else {
      PackLength(init, offs[..n + 1]);
      ReadMiddle(Pack(init), fields[n].width, fields[n].value, tail);
      RoundTrip(fields[n].width, fields[n].value);
    }
  }

  /** The body holds these fields at these offsets. */
  predicate Holds(body: seq<Byte>, fields: seq<Field>, offs: seq<nat>) {
    |offs| == |fields| + 1 && offs[|fields|] <= |body| &&
    forall k :: 0 <= k < |fields| ==> ReadUint(body, offs[k], fields[k].width) == Ok(fields[k].value)
  }

  /** Every packed field reads back at its offset, whatever follows. */
  lemma ReadPacked(fields: seq<Field>, offs: seq<nat>, tail: seq<Byte>)
    requires Offsets(fields, offs) && Fitting(fields)
    ensures |Pack(fields)| == offs[|fields|] && Holds(Pack(fields) + tail, fields, offs)
  {
    PackLength(fields, offs);
    forall k | 0 <= k < |fields|
      ensures ReadUint(Pack(fields) + tail, offs[k], fields[k].width) == Ok(fields[k].value)
    {
      ReadOnePacked(fields, offs, tail, k);
    }
  }

  /** A string reads back after any prefix exactly when its length fits the prefix field. */
  lemma ReadWritten(utf8: Text -> bool, before: seq<Byte>, s: Text, tail: seq<Byte>)
    requires utf8(s)
    ensures ReadString(utf8, before + WriteString(s) + tail, |before|) == Ok((s, |before| + 2 + |s|)) <==>
      |s| < 0x1_0000
  {
    Regroup(before, BE(2, |s|), s, tail);
    ReadMiddle(before, 2, |s|, s + tail);
    Powers();
  }

  // ----- client messages -----

  function Opcode(m: ClientMessage): Byte {
    match m
    case MovementInput(_, _, _, _, _, _, _) => 0x01
    case EnterScene(_, _) => 0x02
    case TimeSync(_, _) => 0x03
    case Heartbeat(_) => 0x04
    case AuthRequest(_, _, _) => 0x05
    case FastLaneRequest(_) => 0x06
    case FastLaneAttach(_, _) => 0x07
    case ChatSay(_, _) => 0x08
    case SkillCast(_, _, _, _, _) => 0x09
  }

  /** The fixed-width fields of a message, in wire order. */
  function Fields(m: ClientMessage): seq<Field>
    requires ClientFits(m)
  {
    match m
    case MovementInput(seqNo, clientTick, dtMs, dirX, dirY, speedScale, flags) =>
      [Field(4, seqNo), Field(4, clientTick), Field(2, dtMs), Field(4, dirX), Field(4, dirY), Field(4, speedScale),
       Field(2, flags)]
    case EnterScene(requestId, cid) => [Field(8, requestId), Field(8, FromI64(cid))]
    case TimeSync(requestId, clientSendTs) => [Field(8, requestId), Field(8, clientSendTs)]
    case Heartbeat(timestamp) => [Field(8, timestamp)]
    case AuthRequest(requestId, _, _) => [Field(8, requestId)]
    case FastLaneRequest(requestId) => [Field(8, requestId)]
    case FastLaneAttach(requestId, _) => [Field(8, requestId)]
    case ChatSay(requestId, _) => [Field(8, requestId)]
    case SkillCast(requestId, skillId, targetKind, cid, p) =>
      [Field(8, requestId), Field(2, skillId), Field(1, KindCode(targetKind)), Field(8, FromI64(cid)),
       Field(8, p.0), Field(8, p.1), Field(8, p.2)]
  }

  /** The strings of a message, which follow its fixed-width fields. */
  function Texts(m: ClientMessage): seq<Text> {
    match m
    case AuthRequest(_, username, token) => [username, token]
    case FastLaneAttach(_, ticket) => [ticket]
    case ChatSay(_, text) => [text]
    case _ => []
  }

  function PackTexts(texts: seq<Text>): seq<Byte> {
    if texts == [] then [] else WriteString(texts[0]) + PackTexts(texts[1..])
  }

  function EncodeClient(m: ClientMessage): seq<Byte>
    requires ClientFits(m)
  {
    [Opcode(m)] + (Pack(Fields(m)) + PackTexts(Texts(m)))
  }

  predicate U16(n: nat) { n < 0x1_0000 }
  predicate U32(n: nat) { n < 0x1_0000_0000 }
  predicate U64Fits(n: nat) { n < U64 }
  predicate Vec3Fits(v: Vec3) { U64Fits(v.0) && U64Fits(v.1) && U64Fits(v.2) }

  /** The value ranges of the Rust field types, and nothing else. */
  predicate ClientFits(m: ClientMessage) {
    match m
    case MovementInput(seqNo, clientTick, dtMs, dirX, dirY, speedScale, flags) =>
      U32(seqNo) && U32(clientTick) && U16(dtMs) && U32(dirX) && U32(dirY) && U32(speedScale) && U16(flags)
    case EnterScene(requestId, cid) => U64Fits(requestId) && IsI64(cid)
    case TimeSync(requestId, clientSendTs) => U64Fits(requestId) && U64Fits(clientSendTs)
    case Heartbeat(timestamp) => U64Fits(timestamp)
    case AuthRequest(requestId, _, _) => U64Fits(requestId)
    case FastLaneRequest(requestId) => U64Fits(requestId)
    case FastLaneAttach(requestId, _) => U64Fits(requestId)
    case ChatSay(requestId, _) => U64Fits(requestId)
    case SkillCast(requestId, skillId, _, cid, p) => U64Fits(requestId) && U16(skillId) && IsI64(cid) && Vec3Fits(p)
  }

  // A reader for client payloads built from the read helpers.

  function ReadMovementInput(body: seq<Byte>): Read<ClientMessage> {
    var seqNo :- ReadUint(body, 0, 4);
    var clientTick :- ReadUint(body, 4, 4);
    var dtMs :- ReadUint(body, 8, 2);
    var dirX :- ReadUint(body, 10, 4);
    var dirY :- ReadUint(body, 14, 4);
    var speedScale :- ReadUint(body, 18, 4);
    var flags :- ReadUint(body, 22, 2);
    Ok(MovementInput(seqNo, clientTick, dtMs, dirX, dirY, speedScale, flags))
  }

  function ReadSkillCast(body: seq<Byte>): Read<ClientMessage> {
    var requestId :- ReadUint(body, 0, 8);
    var skillId :- ReadUint(body, 8, 2);
    var code :- ReadUint(body, 10, 1);
    var kind :- DecodeKind(code);
    var cid :- ReadI64(body, 11);
    var position :- ReadVec3(body, 19);
    Ok(SkillCast(requestId, skillId, kind, cid, position))
  }

  /** Messages that start with an 8-byte word. */
  function ReadWordMessage(utf8: Text -> bool, opcode: Byte, body: seq<Byte>): Read<ClientMessage> {
    var word :- ReadUint(body, 0, 8);
    match opcode
    case 0x02 =>
      var cid :- ReadI64(body, 8);
      Ok(EnterScene(word, cid))
    case 0x03 =>
      var ts :- ReadUint(body, 8, 8);
      Ok(TimeSync(word, ts))
    case 0x04 => Ok(Heartbeat(word))
    case 0x05 =>
      var (username, next) :- ReadString(utf8, body, 8);
      var (token, _) :- ReadString(utf8, body, next);
      Ok(AuthRequest(word, username, token))
    case 0x06 => Ok(FastLaneRequest(word))
    case 0x07 =>
      var (ticket, _) :- ReadString(utf8, body, 8);
      Ok(FastLaneAttach(word, ticket))
    case 0x08 =>
      var (text, _) :- ReadString(utf8, body, 8);
      Ok(ChatSay(word, text))
    case _ => Err(UnknownType)
  }

  function DecodeClient(utf8: Text -> bool, payload: seq<Byte>): Read<ClientMessage> {
    if payload == [] then Err(EmptyPayload)
    else if payload[0] == 0x01 then ReadMovementInput(payload[1..])
    else if payload[0] == 0x09 then ReadSkillCast(payload[1..])
    else ReadWordMessage(utf8, payload[0], payload[1..])
  }

  lemma MovementInputReads(m: ClientMessage, body: seq<Byte>)
    requires m.MovementInput? && ClientFits(m) && Holds(body, Fields(m), [0, 4, 8, 10, 14, 18, 22, 24])
    ensures ReadMovementInput(body) == Ok(m)
  {
    var offs := [0, 4, 8, 10, 14, 18, 22, 24];
    assert offs[0] == 0 && offs[1] == 4 && offs[2] == 8 && offs[3] == 10 && offs[4] == 14 && offs[5] == 18
      && offs[6] == 22;
  }

  lemma SkillCastReads(m: ClientMessage, body: seq<Byte>)
    requires m.SkillCast? && ClientFits(m) && Holds(body, Fields(m), [0, 8, 10, 11, 19, 27, 35, 43])
    ensures ReadSkillCast(body) == Ok(m)
  {
    var offs := [0, 8, 10, 11, 19, 27, 35, 43];
    assert offs[0] == 0 && offs[1] == 8 && offs[2] == 10 && offs[3] == 11 && offs[4] == 19 && offs[5] == 27
      && offs[6] == 35;
  }

  lemma WordMessageReads(utf8: Text -> bool, m: ClientMessage, body: seq<Byte>)
    requires ClientFits(m) && (m.EnterScene? || m.TimeSync? || m.Heartbeat? || m.FastLaneRequest?)
    requires Holds(body, Fields(m), [0, 8, 16][..|Fields(m)| + 1])
    ensures ReadWordMessage(utf8, Opcode(m), body) == Ok(m)
  {
    var offs := [0, 8, 16][..|Fields(m)| + 1];
    assert offs[0] == 0 && offs[1] == 8;
    assert ReadUint(body, offs[0], Fields(m)[0].width) == Ok(Fields(m)[0].value);
  }

  /** One or two strings after `head` read back one after the other. */
  lemma TextsRead(utf8: Text -> bool, head: seq<Byte>, first: Text, second: Text)
    requires utf8(first) && |first| < 0x1_0000 && utf8(second) && |second| < 0x1_0000
    ensures ReadString(utf8, head + WriteString(first), |head|) == Ok((first, |head| + 2 + |first|))
    ensures ReadString(utf8, head + (WriteString(first) + WriteString(second)), |head|) ==
      Ok((first, |head| + 2 + |first|))
    ensures ReadString(utf8, head + (WriteString(first) + WriteString(second)), |head| + 2 + |first|)
         == Ok((second, |head| + 4 + |first| + |second|))
  {
    var one, two := WriteString(first), WriteString(second);
    ReadWritten(utf8, head, first, []);
    assert head + one + [] == head + one;
    ReadWritten(utf8, head, first, two);
    assert head + one + two == head + (one + two);
    ReadWritten(utf8, head + one, second, []);
    assert head + one + two + [] == head + one + two;
  }

  function ClientOffsets(m: ClientMessage): seq<nat> {
    match m
    case MovementInput(_, _, _, _, _, _, _) => [0, 4, 8, 10, 14, 18, 22, 24]
    case SkillCast(_, _, _, _, _) => [0, 8, 10, 11, 19, 27, 35, 43]
    case EnterScene(_, _) => [0, 8, 16]
    case TimeSync(_, _) => [0, 8, 16]
    case _ => [0, 8]
  }

  lemma FieldsLaidOut(m: ClientMessage)
    requires ClientFits(m)
    ensures Offsets(Fields(m), ClientOffsets(m)) && Fitting(Fields(m))
  {
    Powers();
  }

  /** What TextMessageReads needs to know of a body. */
  predicate TextsIn(utf8: Text -> bool, body: seq<Byte>, texts: seq<Text>) {
    1 <= |texts| <= 2 &&
    ReadString(utf8, body, 8) == Ok((texts[0], 10 + |texts[0]|)) &&
    (|texts| == 2 ==> ReadString(utf8, body, 10 + |texts[0]|) == Ok((texts[1], 12 + |texts[0]| + |texts[1]|)))
  }

  lemma OneTextIn(utf8: Text -> bool, head: seq<Byte>, s: Text)
    requires |head| == 8 && utf8(s) && |s| < 0x1_0000
    ensures TextsIn(utf8, head + WriteString(s), [s])
  {
    TextsRead(utf8, head, s, s);
  }

  lemma TwoTextsIn(utf8: Text -> bool, head: seq<Byte>, s: Text, t: Text)
    requires |head| == 8 && utf8(s) && |s| < 0x1_0000 && utf8(t) && |t| < 0x1_0000
    ensures TextsIn(utf8, head + (WriteString(s) + WriteString(t)), [s, t])
  {
    TextsRead(utf8, head, s, t);
  }

  lemma MessageTextsIn(utf8: Text -> bool, m: ClientMessage, head: seq<Byte>)
    requires |head| == 8 && Texts(m) != []
    requires forall s :: s in Texts(m) ==> utf8(s) && |s| < 0x1_0000
    ensures TextsIn(utf8, head + PackTexts(Texts(m)), Texts(m))
  {
    PackTextsShort(Texts(m));
    if m.AuthRequest? {
      assert m.username in Texts(m) && m.token in Texts(m);
      TwoTextsIn(utf8, head, m.username, m.token);
    } else {
      var s := if m.ChatSay? then m.text else m.ticket;
      assert s in Texts(m);
      OneTextIn(utf8, head, s);
    }
  }

  lemma TextMessageReads(utf8: Text -> bool, m: ClientMessage, body: seq<Byte>)
    requires ClientFits(m) && (m.FastLaneAttach? || m.ChatSay? || m.AuthRequest?)
    requires ReadUint(body, 0, 8) == Ok(m.requestId) && TextsIn(utf8, body, Texts(m))
    ensures ReadWordMessage(utf8, Opcode(m), body) == Ok(m)
  {
  }

  lemma PackTextsShort(texts: seq<Text>)
    requires 1 <= |texts| <= 2
    ensures PackTexts(texts) ==
      if |texts| == 1 then WriteString(texts[0]) else WriteString(texts[0]) + WriteString(texts[1])
  {
  }

  lemma FixedMessageInverts(utf8: Text -> bool, m: ClientMessage, body: seq<Byte>)
    requires ClientFits(m) && Texts(m) == [] && Holds(body, Fields(m), ClientOffsets(m))
    ensures DecodeClient(utf8, [Opcode(m)] + body) == Ok(m)
  {
    assert ([Opcode(m)] + body)[1..] == body;
    if m.MovementInput? {
      MovementInputReads(m, body);
    } else if m.SkillCast? {
      SkillCastReads(m, body);
    } else {
      assert [0, 8, 16][..|Fields(m)| + 1] == ClientOffsets(m);
      WordMessageReads(utf8, m, body);
    }
  }

  lemma ShortTextsInvert(utf8: Text -> bool, m: ClientMessage)
    requires ClientFits(m) && forall s :: s in Texts(m) ==> utf8(s) && |s| < 0x1_0000
    ensures DecodeClient(utf8, EncodeClient(m)) == Ok(m)
  {
    FieldsLaidOut(m);
    ReadPacked(Fields(m), ClientOffsets(m), PackTexts(Texts(m)));
    var head := Pack(Fields(m));
    if Texts(m) == [] {
      FixedMessageInverts(utf8, m, head + PackTexts(Texts(m)));
    } else {
      assert ReadUint(head + PackTexts(Texts(m)), ClientOffsets(m)[0], Fields(m)[0].width) == Ok(Fields(m)[0].value);
      MessageTextsIn(utf8, m, head);
      TextMessageReads(utf8, m, head + PackTexts(Texts(m)));
      assert EncodeClient(m)[1..] == head + PackTexts(Texts(m));
    }
  }

  lemma ReadStringShort(utf8: Text -> bool, body: seq<Byte>, offset: nat)
    ensures ReadString(utf8, body, offset).Ok? ==> |ReadString(utf8, body, offset).value.0| < 0x1_0000
  {
    if offset + 2 <= |body| {
      BEOfValue(body[offset..offset + 2]);
      Powers();
    }
  }

  lemma DecodedTextsAreShort(utf8: Text -> bool, payload: seq<Byte>)
    requires DecodeClient(utf8, payload).Ok?
    ensures forall s :: s in Texts(DecodeClient(utf8, payload).value) ==> |s| < 0x1_0000
  {
    var body := payload[1..];
    ReadStringShort(utf8, body, 8);
    if payload[0] == 0x05 {
      ReadStringShort(utf8, body, ReadString(utf8, body, 8).value.1);
    }
  }

  /** Main result: every client message reads back from its encoding exactly when each
      of its strings is shorter than 65536 bytes. */
  lemma ClientInvertsIff(utf8: Text -> bool, m: ClientMessage)
    requires ClientFits(m) && forall s :: s in Texts(m) ==> utf8(s)
    ensures DecodeClient(utf8, EncodeClient(m)) == Ok(m) <==> forall s :: s in Texts(m) ==> |s| < 0x1_0000
  {
    if forall s :: s in Texts(m) ==> |s| < 0x1_0000 {
      ShortTextsInvert(utf8, m);
    } else if DecodeClient(utf8, EncodeClient(m)).Ok? {
      DecodedTextsAreShort(utf8, EncodeClient(m));
    }
  }

  /** Different messages with short strings never share an encoding. */
  lemma ClientEncodingInjective(a: ClientMessage, b: ClientMessage)
    requires ClientFits(a) && ClientFits(b) && EncodeClient(a) == EncodeClient(b)
    requires forall s :: s in Texts(a) + Texts(b) ==> |s| < 0x1_0000
    ensures a == b
  {
    ShortTextsInvert(_ => true, a);
    ShortTextsInvert(_ => true, b);
  }
}
