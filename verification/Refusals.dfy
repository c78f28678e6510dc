/** What the decoder refuses and with which error, by the bytes it is given. */
module Refusals {
  import opened Common
  import opened Wire
  import opened Properties
  import opened Packets
  import opened PacketRoundTrip
  import opened Spelling
  import opened Layout
  import opened Framing
  import PacketWriter

  /** The answer to a broken rule: a code of version 5, or the one refusal earlier versions have. */
  function Blame(v: byte, e: Error): Error {
    if v == 5 then e else RefusedServerUnavailable
  }

  lemma TextRead(s: bytes, rest: bytes)
    requires |s| <= 65535
    ensures ReadLP(Text(s) + rest) == Ok((s, 2 + |s|)) && (Text(s) + rest)[2 + |s|..] == rest
  {
    TextSpelled(s);
    LPRoundTrip(s, rest);
    assert (Text(s) + rest)[2 + |s|..] == rest;
  }

  /** Length-prefixed bytes that are cut short. */
  lemma TextCutShort(b: bytes)
    ensures ReadLP(b) == Err(InsufficientData) <==> |b| < 2 || |b| < 2 + (b[0] as int) * 256 + b[1]
    ensures ReadLP(b).Err? ==> ReadLP(b).error == InsufficientData
  {
  }

  // ---------------------------------------------------------------- the fixed header

  lemma HeaderRefused(v: byte, buf: bytes)
    requires buf != [] ==> buf[0] < 16 || Modelled(TypeOf(buf[0] / 16))
    ensures buf == [] ==> Decode(v, buf) == Err(InsufficientBuffer)
    ensures buf != [] && buf[0] < 16 ==> Decode(v, buf) == Err(InvalidMessageType)
    ensures buf != [] && buf[0] >= 16 && !(48 <= buf[0] < 64) && buf[0] % 16 != (if buf[0] / 16 == 6 || buf[0] / 16 == 8 || buf[0] / 16 == 10 then 2 else 0)
            ==> Decode(v, buf) == Err(Blame(v, MalformedPacket))
    ensures buf != [] && 48 <= buf[0] < 64 && (buf[0] % 16 / 2) % 4 == 3 ==> Decode(v, buf) == Err(Blame(v, MalformedPacket))
  {
    hide DecodeMessage, Uvarint;
  }

  /** A packet whose bytes have not all arrived. */
  lemma PacketCutShort(v: byte, t: PacketType, flags: byte, n: nat, part: bytes)
    requires Modelled(t) && flags < 16 && (t == PUBLISH ==> (flags / 2) % 4 != 3) && |part| < n <= 268435455
    ensures var buf := [FirstByte(t, flags)] + Digits(n) + part;
            buf[0] >= 16 && TypeOf(buf[0] / 16) == t && Decode(v, buf) == Err(InsufficientData)
  {
    hide DecodeMessage, Uvarint, Digits, FirstByte, TypeOf, Code;
    var buf := [FirstByte(t, flags)] + Digits(n) + part;
    DigitsRead(n, part);
    FirstRead(t, flags);
    assert buf[0] == FirstByte(t, flags) && buf[1..] == Digits(n) + part;
    assert buf[1..][|Digits(n)|..] == part;
  }

  /** The first byte says the type and the flags. */
  lemma FirstRead(t: PacketType, flags: byte)
    requires Modelled(t) && flags < 16
    ensures var b := FirstByte(t, flags); b >= 16 && TypeOf(b / 16) == t && b % 16 == if t == PUBLISH then flags else DefaultFlags(t)
  {
  }

  // ---------------------------------------------------------------- PUBLISH

  lemma PublishRefused(v: byte, flags: byte, remLen: nat, topic: bytes, rest: bytes)
    requires |topic| <= 65535 && flags < 16
    ensures var r, qos := DecodePublish(v, flags, remLen, Text(topic) + rest), (flags / 2) % 4;
            if qos == 3 || (qos == 0 && flags >= 8) then r == Err(Blame(v, ProtocolError))
            else if topic == [] && v < 5 then r == Err(RefusedServerUnavailable)
            else !ValidUtf8(topic) || 0x23 in topic || 0x2B in topic ==> r == Err(Blame(v, InvalidTopicName))
  {
    hide ReadLP, ValidUtf8, Text, DecodePayload, MaybeProps, TakeId, HasAlias, Packets.ValidTopic, QoS, Dup;
    TextRead(topic, rest);
    TopicBlamed(topic);
    FlagsBlamed(flags);
  }

  lemma FlagsBlamed(flags: byte)
    requires flags < 16
    ensures QoS(flags) == (flags / 2) % 4 && (Dup(flags) <==> flags >= 8)
  {
  }

  lemma TopicBlamed(topic: bytes)
    ensures Packets.ValidTopic(topic) <==> ValidUtf8(topic) && 0x23 !in topic && 0x2B !in topic
  {
    hide ValidUtf8;
  }

  /** In version 5, no topic and no alias for one. */
  lemma NoTopicRefused(flags: byte, remLen: nat)
    requires flags < 16 && (flags / 2) % 4 == 0 && flags < 8
    ensures DecodePublish(5, flags, remLen, Text([]) + [0]) == Err(ProtocolError)
  {
    hide ReadLP, ValidUtf8, Text, DecodePayload, MaybeProps, TakeId;
    TextRead([], [0]);
    EmptyTopic();
    NoBlock(PUBLISH);
    var rest: bytes := [0];
    assert rest[0..] == rest;
  }

  lemma EmptyTopic()
    ensures Packets.ValidTopic([])
  {
  }

  lemma NoBlock(t: PacketType)
    ensures MaybeProps(t, true, [0]) == Ok((NoProps, 1))
  {
    assert Stop([0]) == 0 && [0][..1] == [0];
    assert [0][1..] == [];
    assert Wire.Value([0]) == 0;
    assert Uvarint([0]) == Varint(0, 1);
    hide Uvarint, ReaderFor;
  }

  /** A payload that ends before the packet does, or a packet that ends before its fields do. */
  lemma PayloadRefused(v: byte, flags: byte, remLen: nat, topic: bytes, id: Option<uint16>, props: Props, off: nat, rest: bytes)
    requires remLen < off || |rest| < remLen - off
    ensures DecodePayload(v, flags, remLen, topic, id, props, off, rest) == Err(Blame(v, MalformedPacket))
  {
  }

  /** A block whose length has not ended. */
  lemma BlockCutShort(t: PacketType, b: bytes)
    requires forall i | 0 <= i < |b| :: b[i] >= 128
    ensures DecodeBlock(t, b) == Err(MalformedPacket) && ReadNil(t, b) == Err(MalformedPacket)
  {
    assert Stop(b) == |b| && Uvarint(b) == Varint(0, 0);
    hide Uvarint, Stop, DecodeLoop;
  }

  // ---------------------------------------------------------------- acknowledgements

  lemma AckRefused(t: PacketType, v: byte, flags: byte, id: uint16, reason: byte, rest: bytes)
    requires IsAck(t)
    ensures var r := DecodeAck(t, v, flags, TwoBytes(id) + [reason] + rest);
            if v != 5 then r == Ok((Packet(t, v, flags, Some(id), NoProps, Ack(0)), 2))
            else if reason !in Reasons(t) then r == Err(MalformedPacket)
            else rest == [] ==> r == Ok((Packet(t, v, flags, Some(id), NoProps, Ack(reason)), 3))
  {
    hide TakeId, U16, ReadProps, TwoBytes, Reasons, ValidReason;
    NumbersSpelled(id, 0);
    ReasonsExactly(t, reason);
    assert TwoBytes(id) + [reason] + rest == U16(id) + ([reason] + rest);
    IdRoundTrip(id, [reason] + rest);
    assert ([reason] + rest)[1..] == rest;
  }

  lemma ReasonsExactly(t: PacketType, reason: byte)
    ensures ValidReason(t, reason) <==> reason in Reasons(t)
  {
  }

  /** An identifier of which a byte is missing is read with zeros in its place. */
  lemma IdCutShort(t: PacketType, v: byte, flags: byte, from: bytes)
    requires |from| < 2
    ensures DecodeAck(t, v, flags, from) ==
            Ok((Packet(t, v, flags, Some(if from == [] then 0 else (from[0] as int) * 256), NoProps, Ack(0)), |from|))
  {
  }

  // ---------------------------------------------------------------- SUBSCRIBE

  /** The first filter, when there is still something to read. */
  lemma FilterRefused(v: byte, topic: bytes, more: bytes, off: nat, left: int, fs: seq<Filter>)
    requires |topic| <= 65535 && left > 0
    ensures var r, reject := DecodeFilters(v, Text(topic) + more, off, left, fs), if v <= 5 then RefusedServerUnavailable else ProtocolError;
            if !ValidUtf8(topic) then r == Err(reject)
            else if more == [] then r == Err(Panic)
            else if v == 5 && more[0] >= 64 then r == Err(ProtocolError)
            else more[0] % 4 == 3 ==> r == Err(reject)
  {
    TextRead(topic, more);
    assert more != [] ==> (Text(topic) + more)[2 + |topic|] == more[0];
    hide ReadLP, ValidUtf8, Text;
  }

  lemma NoFilters(v: byte, flags: byte, id: uint16)
    requires v != 5
    ensures DecodeSubscribe(v, flags, 2, TwoBytes(id)) == Err(if v < 5 then RefusedServerUnavailable else ProtocolError)
  {
    NumbersSpelled(id, 0);
    assert TwoBytes(id) == U16(id) + [];
    IdRoundTrip(id, []);
    hide TakeId, U16;
  }

  lemma NoFiltersInFive(flags: byte, id: uint16)
    ensures DecodeSubscribe(5, flags, 3, TwoBytes(id) + [0]) == Err(RefusedServerUnavailable)
  {
    NumbersSpelled(id, 0);
    IdRoundTrip(id, [0]);
    NoBlock(SUBSCRIBE);
    hide TakeId, U16, TwoBytes, MaybeProps;
  }

  // ---------------------------------------------------------------- CONNECT

  /** The protocol name and the level behind it. */
  lemma NameRefused(hasMap: bool, flags: byte, name: bytes, rest: bytes)
    requires |name| <= 65535
    ensures var r := DecodeConnect(hasMap, flags, Text(name) + rest);
            if !ValidUtf8(name) then r == Err(ProtocolInvalidName)
            else if rest == [] then r == Err(Panic)
            else !(3 <= rest[0] <= 5 && name == NameOf(rest[0])) ==> r == Err(InvalidProtocolVersion)
  {
    TextRead(name, rest);
    hide ReadLP, ValidUtf8, Text;
  }

  /** The connect flags of a packet that is otherwise complete. */
  lemma FlagsRefused(hasMap: bool, flags: byte, v: byte, bits: byte, rest: bytes)
    requires 3 <= v <= 5 && !FlagsInOrder(v, bits)
    ensures var r := DecodeConnect(hasMap, flags, Text(NameOf(v)) + ([v, bits] + rest));
            && r.Err?
            && (bits % 2 == 1 || (bits / 8) % 4 == 3 || ((bits / 4) % 2 == 0 && ((bits / 8) % 4 != 0 || (bits / 32) % 2 != 0))
                ==> r == Err(Blame(v, MalformedPacket)))
            && (bits % 2 == 0 && (bits / 8) % 4 != 3 && ((bits / 4) % 2 == 1 || ((bits / 8) % 4 == 0 && (bits / 32) % 2 == 0))
                ==> r == Err(RefusedBadUsernameOrPassword))
  {
    NameValid(v);
    TextRead(NameOf(v), [v, bits] + rest);
    FlagsExactly(v, bits);
    BitsBlamed(v, bits);
    hide ReadLP, ValidUtf8, Text, BitsError, FlagsInOrder;
  }

  lemma BitsBlamed(v: byte, bits: byte)
    requires BitsError(v, bits).Some?
    ensures BitsError(v, bits).value ==
            if bits % 2 == 1 || (bits / 8) % 4 == 3 || ((bits / 4) % 2 == 0 && ((bits / 8) % 4 != 0 || (bits / 32) % 2 != 0))
            then Blame(v, MalformedPacket) else RefusedBadUsernameOrPassword
  {
  }

  lemma NameValid(v: byte)
    ensures ValidUtf8(NameOf(v))
  {
    Ascii(NameOf(v));
  }

  lemma {:induction false} Ascii(b: bytes)
    requires forall i {:trigger b[i]} | 0 <= i < |b| :: b[i] < 0x80
    ensures ValidUtf8(b)
  {
    if b != [] { Ascii(b[1..]); }
  }

  /** The client identifier. */
  lemma ClientRefused(v: byte, keepAlive: uint16, bits: byte, clientId: bytes, rest: bytes)
    requires |clientId| <= 65535
    ensures var r := DecodeConnectPayload(v, keepAlive, bits, Text(clientId) + rest);
            if clientId == [] then (bits / 2) % 2 == 0 ==> r == Err(RefusedIdentifierRejected)
            else !(ValidUtf8(clientId) && forall c <- clientId :: Plain(c)) ==>
                   r == Err(if v == 5 then InvalidClientId else RefusedIdentifierRejected)
  {
    TextRead(clientId, rest);
    PlainExactly();
    hide ReadLP, ValidUtf8, Text, ClientIdChar, Plain, TakeTwo;
  }

  // ---------------------------------------------------------------- encoding

  /** The size of a packet, whose length is cut to 32 bits before it is tested and written: it is refused exactly
      if what is left of the length is more than four bytes of digits hold. */
  lemma SizeExactly(p: Packet, k: nat)
    requires k * 4294967296 <= MessageLen(p) < (k + 1) * 4294967296
    ensures var m := MessageLen(p) - k * 4294967296;
            Size(p) == if m > 268435455 then Err(InvalidLength) else Ok(1 + |Digits(m)| + MessageLen(p))
    ensures p.body.Connect? && (p.version < 3 || p.version > 5) ==> MessageLen(p) == 0
  {
    var n := MessageLen(p);
    var m := n - k * 4294967296;
    assert n % 4294967296 == m;
    if m <= 268435455 { DigitsSpelled(m); }
    hide MessageLen, Digits, VarLen;
  }

  /** Something the connect flags call for is too long for its prefix. */
  predicate TooLong(b: Packets.Body)
    requires b.Connect?
  {
    || |b.clientId| > 65535
    || ((b.bits / 4) % 2 == 1 && (|b.willTopic| > 65535 || |b.willMessage| > 65535))
    || (b.bits >= 128 && |b.username| > 65535)
    || ((b.bits / 64) % 2 == 1 && |b.password| > 65535)
  }

  /** What encoding refuses, the first reason that applies. */
  lemma EncoderRefuses(p: Packet)
    ensures var e, qos := PacketWriter.EncodeError(p), (p.flags / 2) % 4;
            match p.body
            case Publish(topic, _) =>
              e == (if !ValidUtf8(topic) || 0x23 in topic || 0x2B in topic then Some(InvalidTopic)
                    else if qos == 3 then Some(InvalidQoS)
                    else if qos == 0 && (p.flags / 8) % 2 == 1 then Some(DupViolation)
                    else if qos > 0 && p.id.None? then Some(PacketIdZero)
                    else if |topic| > 65535 then Some(InvalidLPStringSize) else None)
            case Ack(_) => e == if p.id.None? then Some(PacketIdZero) else None
            case Subscribe(fs) =>
              e == (if p.id.None? then Some(PacketIdZero)
                    else if exists f <- fs :: |f.topic| > 65535 then Some(InvalidLPStringSize) else None)
            case Connect(_, _, _, _, _, _, _) =>
              e == (if p.version < 3 || p.version > 5 then Some(InvalidProtocolVersion)
                    else if TooLong(p.body) then Some(InvalidLPStringSize) else None)
  {
    hide ValidUtf8;
    if p.body.Connect? { assert HasUsername(p.body.bits) <==> p.body.bits >= 128; }
  }

  // ---------------------------------------------------------------- the size limit

  /** A packet of `n` bytes behind its header, of which some may not have arrived: it is refused exactly if it is
      longer than the limit in all, and then nothing is taken from the stream; within the limit it is cut off
      exactly if it is all there. */
  lemma LimitDecides(first: byte, n: nat, rest: bytes, max: nat)
    requires n <= 268435455
    ensures var s := [first] + Digits(n) + rest;
            var size := 1 + |Digits(n)| + n;
            Frame(0, max, s) ==
            if size > max then Framed(Err(PacketTooLarge), s, size)
            else if |rest| < n then Framed(Err(EndOfStream), [], size)
            else Framed(Ok([first] + Digits(n) + rest[..n]), rest[n..], 0)
  {
    hide Digits, HeaderSize;
    var s, size := [first] + Digits(n) + rest, 1 + |Digits(n)| + n;
    SizeRead(first, n, rest);
    if size <= |s| {
      assert s[..size] == [first] + Digits(n) + rest[..n] && s[size..] == rest[n..];
    }
  }

  lemma SizeRead(first: byte, n: nat, rest: bytes)
    requires n <= 268435455
    ensures HeaderSize([first] + Digits(n) + rest) == Ok(1 + |Digits(n)| + n)
  {
    hide Wire.Value, VarBytes, VarLen, Digits, Stop;
    var s := [first] + Digits(n) + rest;
    DigitsSpelled(n);
    VarBytesShape(n);
    VarLenSteps(n);
    assert s[1..] == VarBytes(n) + rest;
    assert s[1..][..VarLen(n)] == VarBytes(n);
  }

  /** A length of more than four bytes is refused, and a header that has not arrived is waited for; in both cases
      nothing is taken from the stream and no packet has begun. */
  lemma HeaderDecides(s: bytes, max: nat)
    ensures |s| >= 5 && s[1] >= 128 && s[2] >= 128 && s[3] >= 128 && s[4] >= 128 ==> Frame(0, max, s) == Framed(Err(ProtocolError), s, 0)
    ensures |s| < 2 || (|s| < 5 && forall i | 1 <= i < |s| :: s[i] >= 128) ==> Frame(0, max, s) == Framed(Err(EndOfStream), s, 0)
  {
    if |s| >= 2 {
      var b := s[1..];
      var i := Stop(b);
      assert forall j {:trigger b[j]} | 0 <= j < |b| :: b[j] == s[j + 1];
    }
  }

  /** A packet that was begun is read to its size, whatever stands at the front of the stream. */
  lemma PendingDecides(size: nat, s: bytes, max: nat)
    requires size > 0
    ensures Frame(size, max, s) ==
            if size > max then Framed(Err(PacketTooLarge), s, size)
            else if |s| < size then Framed(Err(EndOfStream), [], size)
            else Framed(Ok(s[..size]), s[size..], 0)
  {
  }
}
