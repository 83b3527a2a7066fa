/** The client encoder as the program writes it, appending field after field, and the
    whole path of a message: payload, frame, byte stream, frames, message. */
module ClientEncoder {
  import opened Common
  import opened Bytes
  import opened Payload
  import opened Framing
  import opened Transport

  lemma {:induction false} PackTextsSnoc(texts: seq<Text>, s: Text)
    ensures PackTexts(texts + [s]) == PackTexts(texts) + WriteString(s)
  {
    if texts == [] {
      assert [s][1..] == [];
    } else {
      assert (texts + [s])[1..] == texts[1..] + [s];
      PackTextsSnoc(texts[1..], s);
    }
  }

  /** A payload under construction: an opcode, fixed-width fields, then strings. */
  class PayloadWriter {
    var payload: seq<Byte>
    ghost const opcode: Byte
    ghost var fields: seq<Field>
    ghost var texts: seq<Text>

    ghost predicate Valid()
      reads this
    {
      payload == [opcode] + (Pack(fields) + PackTexts(texts))
    }

    constructor (opcode: Byte)
      ensures Valid() && this.opcode == opcode && fields == [] && texts == []
    {
      payload, this.opcode, fields, texts := [opcode], opcode, [], [];
    }

    method Extend(width: nat, value: nat)
      requires Valid() && texts == []
      modifies this
      ensures Valid() && fields == old(fields) + [Field(width, value)] && texts == []
    {
      payload := payload + BE(width, value);
      fields := fields + [Field(width, value)];
      assert fields[..|fields| - 1] == old(fields);
    }

    /** A cast of the length to u16, then the bytes. */
    method WriteText(s: Text)
      requires Valid()
      modifies this
      ensures Valid() && fields == old(fields) && texts == old(texts) + [s]
    {
      payload := payload + BE(2, |s|);
      payload := payload + s;
      PackTextsSnoc(texts, s);
      texts := texts + [s];
    }
  }

  method EncodeClientPayload(m: ClientMessage) returns (payload: seq<Byte>)
    requires ClientFits(m)
    ensures payload == EncodeClient(m)
  {
    match m
    case MovementInput(_, _, _, _, _, _, _) => payload := EncodeMovementInput(m);
    case SkillCast(_, _, _, _, _) => payload := EncodeSkillCast(m);
    case _ => payload := EncodeWordMessage(m);
  }

  method EncodeMovementInput(m: ClientMessage) returns (payload: seq<Byte>)
    requires ClientFits(m) && m.MovementInput?
    ensures payload == EncodeClient(m)
  {
    var w := new PayloadWriter(0x01);
    w.Extend(4, m.seqNo);
    w.Extend(4, m.clientTick);
    w.Extend(2, m.dtMs);
    w.Extend(4, m.dirX);
    w.Extend(4, m.dirY);
    w.Extend(4, m.speedScale);
    w.Extend(2, m.flags);
    assert w.fields == Fields(m);
    payload := w.payload;
  }

  method EncodeSkillCast(m: ClientMessage) returns (payload: seq<Byte>)
    requires ClientFits(m) && m.SkillCast?
    ensures payload == EncodeClient(m)
  {
    var w := new PayloadWriter(0x09);
    w.Extend(8, m.requestId);
    w.Extend(2, m.skillId);
    w.Extend(1, KindCode(m.targetKind));
    w.Extend(8, FromI64(m.cid));
    w.Extend(8, m.position.0);
    w.Extend(8, m.position.1);
    w.Extend(8, m.position.2);
    assert w.fields == Fields(m);
    payload := w.payload;
  }

  /** The messages that start with an 8-byte word. */
  method EncodeWordMessage(m: ClientMessage) returns (payload: seq<Byte>)
    requires ClientFits(m) && !m.MovementInput? && !m.SkillCast?
    ensures payload == EncodeClient(m)
  {
    var w := new PayloadWriter(Opcode(m));
    w.Extend(8, if m.Heartbeat? then m.timestamp else m.requestId);
    match m {
      case EnterScene(_, cid) => w.Extend(8, FromI64(cid));
      case TimeSync(_, clientSendTs) => w.Extend(8, clientSendTs);
      case AuthRequest(_, username, token) =>
        w.WriteText(username);
        w.WriteText(token);
      case FastLaneAttach(_, ticket) => w.WriteText(ticket);
      case ChatSay(_, text) => w.WriteText(text);
      case _ =>
    }
    assert w.fields == Fields(m) && w.texts == Texts(m);
    payload := w.payload;
  }

  method EncodeClientFrame(m: ClientMessage) returns (frame: seq<Byte>)
    requires ClientFits(m)
    ensures frame == Frame(EncodeClient(m))
  {
    var payload := EncodeClientPayload(m);
    frame := BE(4, |payload|);
    frame := frame + payload;
  }

  // ----- the whole path -----

  /** A message whose strings the wire format can carry. */
  ghost predicate Sendable(utf8: Text -> bool, m: ClientMessage) {
    ClientFits(m) && forall s :: s in Texts(m) ==> utf8(s) && |s| < 0x1_0000
  }

  /** Such a message always fits the frame's length prefix. */
  lemma SendableFitsFrame(utf8: Text -> bool, m: ClientMessage)
    requires Sendable(utf8, m)
    ensures |EncodeClient(m)| < FRAME_LIMIT
  {
    FieldsLaidOut(m);
    PackLength(Fields(m), ClientOffsets(m));
    assert |Pack(Fields(m))| <= 43;
    if Texts(m) != [] {
      PackTextsShort(Texts(m));
      assert Texts(m)[0] in Texts(m) && Texts(m)[|Texts(m)| - 1] in Texts(m);
    }
  }

  ghost predicate AllSendable(utf8: Text -> bool, messages: seq<ClientMessage>) {
    forall i :: 0 <= i < |messages| ==> Sendable(utf8, messages[i])
  }

  ghost function Encoded(utf8: Text -> bool, messages: seq<ClientMessage>): seq<seq<Byte>>
    requires AllSendable(utf8, messages)
  {
    seq(|messages|, i requires 0 <= i < |messages| => EncodeClient(messages[i]))
  }

  /** The frames decode to the first messages. */
  ghost predicate DecodesTo(utf8: Text -> bool, frames: seq<seq<Byte>>, messages: seq<ClientMessage>) {
    |frames| <= |messages| && forall i :: 0 <= i < |frames| ==> DecodeClient(utf8, frames[i]) == Ok(messages[i])
  }

  lemma {:induction false} EncodedDecodes(utf8: Text -> bool, messages: seq<ClientMessage>)
    requires AllSendable(utf8, messages)
    ensures DecodesTo(utf8, Encoded(utf8, messages), messages)
    ensures forall p :: p in Encoded(utf8, messages) ==> |p| < FRAME_LIMIT
  {
    forall i | 0 <= i < |messages|
      ensures DecodeClient(utf8, Encoded(utf8, messages)[i]) == Ok(messages[i])
        && |Encoded(utf8, messages)[i]| < FRAME_LIMIT
    {
      assert Sendable(utf8, messages[i]);
      SendableFitsFrame(utf8, messages[i]);
      ShortTextsInvert(utf8, messages[i]);
    }
  }

  /** Main result: messages sent over any schedule of writes and received in any reads
      and ticks decode, in order, to a first part of the messages sent whole. Once all
      that is on the wire has been read they are all there exactly when no tick ended
      the receiving session with frames to lose. */
  lemma {:induction false} MessagesEndToEnd(utf8: Text -> bool, messages: seq<ClientMessage>, sent: nat,
                                            wire: seq<Byte>, ticks: seq<Tick>)
    requires AllSendable(utf8, messages) && OnWire(Encoded(utf8, messages), sent, wire) && Received(ticks) <= wire
    ensures var delivered := RunTicks(ticks).delivered;
      && DecodesTo(utf8, delivered, messages) && |delivered| <= sent
      && (Received(ticks) == wire ==> (|delivered| == sent <==> !LosesByThen(ticks)))
  {
    var payloads := Encoded(utf8, messages);
    EncodedDecodes(utf8, messages);
    SentIsDelivered(payloads, sent, wire, ticks);
    assert RunTicks(ticks).delivered == payloads[..|RunTicks(ticks).delivered|];
  }
}
