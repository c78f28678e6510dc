/** What the broker answers to a packet, byte by byte, and whether a peer that follows the same rules can read
    the answer. */
module Replies {
  import opened Common
  import opened Wire
  import opened Properties
  import opened Packets
  import opened PacketRoundTrip
  import opened FlowControl
  import opened Delivery
  import opened Spelling
  import opened Layout
  import opened Refusals

  function Response(t: PacketType, v: byte, id: Id, reason: byte): Packet {
    Packet(t, v, DefaultFlags(t), Some(id), NoProps, Ack(if v == V50 then reason else 0))
  }

  const AdministrativeAction: byte := 0x98

  /** The bytes of an acknowledgement: two for the identifier, and in version 5 one more for a reason that is not
      success. */
  function Reply(first: byte, v: byte, id: Id, reason: byte): bytes {
    if v == 5 && reason != 0 then [first, 3] + TwoBytes(id) + [reason] else [first, 2] + TwoBytes(id)
  }

  predicate Answer(t: PacketType) {
    t == PUBACK || t == PUBREC || t == PUBREL || t == PUBCOMP
  }

  lemma ResponseSpelled(t: PacketType, v: byte, id: Id, reason: byte)
    requires Answer(t)
    ensures var p := Response(t, v, id, reason);
            p.flags < 16 && PacketBytes(p, []) == Reply(FirstByte(t, 0), v, id, reason)
  {
    hide U16, VarBytes, Digits, TwoBytes, MessageBytes, Code, FirstByte;
    var p := Response(t, v, id, reason);
    var m := MessageBytes(p, []);
    ResponseMessage(t, v, id, reason);
    CodeIs(t);
    DigitsSpelled(|m|);
    OneDigit(|m|);
    assert PacketBytes(p, []) == [FirstByte(t, 0)] + [|m|] + m;
  }

  lemma OneDigit(n: nat)
    requires n < 128
    ensures Digits(n) == [n]
  {
  }

  lemma CodeIs(t: PacketType)
    requires Answer(t)
    ensures Code(t) * 16 + DefaultFlags(t) == FirstByte(t, 0)
  {
  }

  lemma ResponseMessage(t: PacketType, v: byte, id: Id, reason: byte)
    ensures MessageBytes(Response(t, v, id, reason), []) == TwoBytes(id) + if v == 5 && reason != 0 then [reason] else []
    ensures |TwoBytes(id)| == 2
  {
    NumbersSpelled(id, 0);
    hide U16, PropBytes;
    assert TwoBytes(id) + [] == TwoBytes(id);
  }

  lemma PubrelSpelled(v: byte, id: Id)
    ensures Pubrel(v, id) == Response(PUBREL, v, id, 0) && Pubrel(v, id).flags < 16
    ensures PacketBytes(Pubrel(v, id), []) == [0x62, 2] + TwoBytes(id)
  {
    ResponseSpelled(PUBREL, v, id, 0);
  }

  lemma ReplyShape(first: byte, v: byte, id: Id, reason: byte)
    requires first >= 16
    ensures var b := Reply(first, v, id, reason);
            && |b| == (if v == 5 && reason != 0 then 5 else 4) && b[0] == first && b[1..] == Digits(|b| - 2) + b[2..]
            && b[2..] == TwoBytes(id) + if v == 5 && reason != 0 then [reason] else []
  {
  }

  /** A peer reads the answer as it was meant exactly if its reason is one for its type. */
  lemma ReplyRead(t: PacketType, v: byte, id: Id, reason: byte)
    requires Answer(t)
    ensures var b := Reply(FirstByte(t, 0), v, id, reason);
            && b[0] >= 16 && TypeOf(b[0] / 16) == t
            && Decode(v, b) == if v == 5 && reason !in Reasons(t) then Err(MalformedPacket) else Ok((Response(t, v, id, reason), |b|))
  {
    hide Reply, Uvarint, FirstByte, TypeOf, Code, DecodeAck, Reasons, TwoBytes, Digits, Response, Decode;
    var b := Reply(FirstByte(t, 0), v, id, reason);
    FirstRead(t, 0);
    ReplyShape(FirstByte(t, 0), v, id, reason);
    OneDigit(|b| - 2);
    DigitsRead(|b| - 2, b[2..]);
    Success(t);
    ResponseIs(t, v, id, reason);
    Through(t, v, b);
    if v == 5 && reason != 0 {
      AckRefused(t, v, DefaultFlags(t), id, reason, []);
      assert TwoBytes(id) + [reason] + [] == TwoBytes(id) + [reason];
    } else {
      PlainAck(t, v, id);
      assert TwoBytes(id) + [] == TwoBytes(id);
    }
  }

  /** Behind its header an acknowledgement is read to the end. */
  lemma Through(t: PacketType, v: byte, b: bytes)
    requires Answer(t) && |b| >= 2 && b[0] == FirstByte(t, 0) && Uvarint(b[1..]) == Varint(|b| - 2, 1)
    ensures b[0] >= 16 && TypeOf(b[0] / 16) == t
    ensures Decode(v, b) == match DecodeAck(t, v, DefaultFlags(t), b[2..]) case Ok((p, n)) => Ok((p, 2 + n)) case Err(e) => Err(e)
  {
    hide Uvarint, FirstByte, TypeOf, Code, DecodeAck;
    FirstRead(t, 0);
    assert b[1..][1..] == b[2..];
  }

  lemma ResponseIs(t: PacketType, v: byte, id: Id, reason: byte)
    ensures Response(t, v, id, reason) == Packet(t, v, DefaultFlags(t), Some(id), NoProps, Ack(if v == 5 then reason else 0))
    ensures v != 5 ==> Response(t, v, id, reason) == Response(t, v, id, 0)
  {
  }

  lemma Success(t: PacketType)
    requires Answer(t)
    ensures 0 in Reasons(t)
  {
  }

  lemma PlainAck(t: PacketType, v: byte, id: Id)
    ensures DecodeAck(t, v, DefaultFlags(t), TwoBytes(id)) == Ok((Response(t, v, id, 0), 2))
  {
    NumbersSpelled(id, 0);
    assert TwoBytes(id) == U16(id) + [];
    IdRoundTrip(id, []);
    hide TakeId, U16;
  }

  /** A message that access control denies is answered with reason 0x98, which is none of PUBACK's and PUBREC's:
      in version 5 the answer is malformed. */
  lemma DenialUnreadable(t: PacketType, id: Id)
    requires t == PUBACK || t == PUBREC
    ensures var b := Reply(FirstByte(t, 0), 5, id, AdministrativeAction);
            b[0] >= 16 && TypeOf(b[0] / 16) == t && Decode(5, b) == Err(MalformedPacket)
  {
    ReplyRead(t, 5, id, AdministrativeAction);
  }
}
