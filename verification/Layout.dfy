/** The control packets spelled out: which bytes a packet is, field by field, and which packets are in order,
    by numbers and bits. What the encoder writes, and what the decoder accepts, is proved to be this. */
module Layout {
  import opened Common
  import opened Wire
  import opened Properties
  import opened PropertyBlock
  import opened Packets
  import opened PacketRoundTrip
  import opened PacketSoundness
  import opened Spelling

  // ---------------------------------------------------------------- the bytes of a packet

  /** The first byte: the packet type, and the flags MQTT fixes for all but PUBLISH. */
  function FirstByte(t: PacketType, flags: byte): byte
    requires Modelled(t) && flags < 16
  {
    match t
    case CONNECT => 0x10
    case PUBLISH => 0x30 + flags
    case PUBACK => 0x40
    case PUBREC => 0x50
    case PUBREL => 0x62
    case PUBCOMP => 0x70
    case SUBSCRIBE => 0x82
  }

  /** The property block, in version 5 only. */
  function Block(p: Packet, order: seq<PropertyId>): bytes {
    if p.version == 5 then Prefixed(p.props.vals, p.props.len, order) else []
  }

  function FilterSheet(fs: seq<Filter>): bytes
    requires forall i {:trigger fs[i]} | 0 <= i < |fs| :: |fs[i].topic| <= 65535
  {
    if fs == [] then [] else Text(fs[0].topic) + [fs[0].ops] + FilterSheet(fs[1..])
  }

  /** "MQIsdp" in version 3, "MQTT" since. */
  function NameOf(v: byte): bytes {
    if v == 3 then [0x4D, 0x51, 0x49, 0x73, 0x64, 0x70] else [0x4D, 0x51, 0x54, 0x54]
  }

  function TextIf(present: bool, s: bytes): bytes
    requires |s| <= 65535
  {
    if present then Text(s) else []
  }

  predicate ShortTexts(p: Packet) {
    match p.body
    case Publish(topic, _) => |topic| <= 65535
    case Ack(_) => true
    case Subscribe(fs) => forall i {:trigger fs[i]} | 0 <= i < |fs| :: |fs[i].topic| <= 65535
    case Connect(_, _, clientId, willTopic, willMessage, username, password) =>
      |clientId| <= 65535 && |willTopic| <= 65535 && |willMessage| <= 65535 && |username| <= 65535 && |password| <= 65535
  }

  /** What stands behind the fixed header. */
  function Sheet(p: Packet, order: seq<PropertyId>): bytes
    requires ShortTexts(p)
  {
    match p.body
    case Publish(topic, payload) =>
      Text(topic) + (if (p.flags / 2) % 4 != 0 then TwoBytes(p.id.GetOr(0)) else []) + Block(p, order) + payload
    case Ack(reason) =>
      TwoBytes(p.id.GetOr(0))
      + if p.version != 5 || (p.props.len == 0 && reason == 0) then []
        else if p.props.len == 0 then [reason] else [reason] + Block(p, order)
    case Subscribe(fs) => TwoBytes(p.id.GetOr(0)) + Block(p, order) + FilterSheet(fs)
    case Connect(keepAlive, bits, clientId, willTopic, willMessage, username, password) =>
      (Text(NameOf(p.version)) + [p.version, bits] + TwoBytes(keepAlive) + Block(p, order))
      + (Text(clientId) + (TextIf((bits / 4) % 2 == 1, willTopic) + TextIf((bits / 4) % 2 == 1, willMessage))
         + TextIf(bits >= 128, username) + TextIf((bits / 64) % 2 == 1, password))
  }

  lemma BlockIs(p: Packet, order: seq<PropertyId>)
    requires Encodes(p, order) && (p.t == CONNECT ==> p.version <= 5)
    ensures PropBytes(p, order) == Block(p, order)
  {
    hide Enumerates, WellFormed, EntryBytes, Flatten, VarBytes, BlockLen;
    if p.version == 5 { assert BlockLen(p.props.vals, order) == p.props.len; }
  }

  lemma {:induction false} FiltersSpelled(fs: seq<Filter>)
    requires forall i {:trigger fs[i]} | 0 <= i < |fs| :: |fs[i].topic| <= 65535
    ensures FiltersBytes(fs) == FilterSheet(fs)
  {
    hide Text, LPOrNothing;
    if fs != [] {
      TextSpelled(fs[0].topic);
      FiltersSpelled(fs[1..]);
    }
  }

  lemma ValidIsShort(p: Packet)
    requires Valid(p)
    ensures ShortTexts(p) && Modelled(p.t)
  {
    hide ValidProps, MessageLen, ValidTopic, ValidUtf8, ClientIdChar, BitsError, HasAlias, NormalMap, ProtocolName;
    if p.body.Subscribe? {
      forall i {:trigger p.body.filters[i]} | 0 <= i < |p.body.filters| ensures |p.body.filters[i].topic| <= 65535 {
        assert ValidFilter(p.version, p.body.filters[i]);
      }
    }
  }

  lemma SheetOfPublish(p: Packet, order: seq<PropertyId>)
    requires ValidPublish(p) && Encodes(p, order) && ShortTexts(p)
    ensures MessageBytes(p, order) == Sheet(p, order)
  {
    hide Text, TwoBytes, U16, Block, PropBytes, LPOrNothing, ValidTopic, Encodes;
    BlockIs(p, order);
    TextSpelled(p.body.topic);
    NumbersSpelled(p.id.GetOr(0), 0);
  }

  lemma SheetOfAck(p: Packet, order: seq<PropertyId>)
    requires ValidAck(p) && Encodes(p, order)
    ensures MessageBytes(p, order) == Sheet(p, order)
  {
    hide TwoBytes, U16, Block, PropBytes, Encodes, ValidReason;
    BlockIs(p, order);
    NumbersSpelled(p.id.GetOr(0), 0);
  }

  lemma SheetOfSubscribe(p: Packet, order: seq<PropertyId>)
    requires ValidSubscribe(p) && Encodes(p, order) && ShortTexts(p)
    ensures MessageBytes(p, order) == Sheet(p, order)
  {
    hide TwoBytes, U16, Block, PropBytes, Encodes, FiltersBytes, FilterSheet, ValidFilter;
    BlockIs(p, order);
    FiltersSpelled(p.body.filters);
    NumbersSpelled(p.id.GetOr(0), 0);
  }

  lemma SheetOfConnect(p: Packet, order: seq<PropertyId>)
    requires ValidConnect(p) && Encodes(p, order) && ShortTexts(p)
    ensures MessageBytes(p, order) == Sheet(p, order)
  {
    var b := p.body;
    ConnectVersion(p);
    BlockIs(p, order);
    NumbersSpelled(b.keepAlive, 0);
    TextSpelled(NameOf(p.version));
    hide Text, TwoBytes, U16, Block, PropBytes, Encodes, LPOrNothing, LP, NameOf, ProtocolName, ValidConnectBody, TextIf, OptionalLP, HasWill, HasUsername, HasPassword;
    ClientSpelled(b);
  }

  lemma ClientSpelled(b: Packets.Body)
    requires b.Connect? && |b.clientId| <= 65535 && |b.willTopic| <= 65535 && |b.willMessage| <= 65535
    requires |b.username| <= 65535 && |b.password| <= 65535
    ensures ConnectPayload(b) ==
            Text(b.clientId) + (TextIf((b.bits / 4) % 2 == 1, b.willTopic) + TextIf((b.bits / 4) % 2 == 1, b.willMessage))
            + TextIf(b.bits >= 128, b.username) + TextIf((b.bits / 64) % 2 == 1, b.password)
  {
    TextSpelled(b.clientId);
    TextSpelled(b.willTopic);
    TextSpelled(b.willMessage);
    TextSpelled(b.username);
    TextSpelled(b.password);
    assert HasUsername(b.bits) <==> b.bits >= 128;
    hide Text, LPOrNothing;
  }

  lemma ConnectVersion(p: Packet)
    requires ValidConnect(p)
    ensures 3 <= p.version <= 5 && ProtocolName(p.version) == Some(NameOf(p.version)) && |NameOf(p.version)| <= 65535
  {
    hide ValidConnectBody;
  }

  /** Every valid packet of these kinds, in every version: these are its bytes. */
  lemma PacketSpelled(p: Packet, order: seq<PropertyId>)
    requires Valid(p) && Encodes(p, order)
    ensures ShortTexts(p) && Modelled(p.t) && |Sheet(p, order)| <= 268435455
    ensures PacketBytes(p, order) == [FirstByte(p.t, p.flags)] + Digits(|Sheet(p, order)|) + Sheet(p, order)
  {
    ValidIsShort(p);
    hide ValidPublish, ValidAck, ValidSubscribe, ValidConnect, Sheet, MessageBytes, MessageLen, Encodes, Digits, ShortTexts, VarBytes;
    if ValidPublish(p) { SheetOfPublish(p, order); }
    else if ValidAck(p) { SheetOfAck(p, order); }
    else if ValidSubscribe(p) { SheetOfSubscribe(p, order); }
    else { SheetOfConnect(p, order); }
    FirstIs(p);
    BytesAsCounted(p, order);
    DigitsSpelled(|Sheet(p, order)|);
  }

  lemma FirstIs(p: Packet)
    requires Valid(p) && Modelled(p.t)
    ensures Code(p.t) * 16 + p.flags == FirstByte(p.t, p.flags)
  {
    hide ValidProps, MessageLen, ValidTopic, ValidConnectBody, ValidFilter, ValidReason;
  }

  lemma BytesAsCounted(p: Packet, order: seq<PropertyId>)
    requires Valid(p) && Encodes(p, order)
    ensures |MessageBytes(p, order)| == MessageLen(p) <= 268435455
  {
    hide MessageBytes, MessageLen, Encodes, ValidProps, DecodeMessage, ValidPublish, ValidAck, ValidSubscribe, ValidConnect;
    MessageRoundTrip(p, if p.t == CONNECT then 5 else p.version, order, []);
  }

  // ---------------------------------------------------------------- packets that are in order

  function Reasons(t: PacketType): set<byte> {
    match t
    case PUBACK => {0x00, 0x10, 0x80, 0x83, 0x87, 0x90, 0x97, 0x99}
    case PUBREC => {0x00, 0x10, 0x80, 0x83, 0x87, 0x90, 0x91, 0x97, 0x99}
    case PUBREL => {0x00, 0x92}
    case PUBCOMP => {0x00, 0x92}
    case _ => {}
  }

  /** A number above zero under property 0x23. */
  predicate Aliased(vals: Values) {
    0x23 in vals && vals[0x23].U16V? && vals[0x23].n != 0
  }

  /** The connect flags: bit 0 clear; a will QoS of at most 2, and neither will QoS nor will retain without a
      will; before version 5, no password without a user name. */
  predicate FlagsInOrder(v: byte, bits: byte) {
    && bits % 2 == 0 && (bits / 8) % 4 <= 2
    && ((bits / 4) % 2 == 0 ==> (bits / 8) % 4 == 0 && (bits / 32) % 2 == 0)
    && (v < 5 && (bits / 64) % 2 == 1 ==> bits >= 128)
  }

  /** Letters, digits, blank, and - _ , . | */
  predicate Plain(c: byte) {
    || 48 <= c <= 57 || 65 <= c <= 90 || 97 <= c <= 122 || c == 32 || c == 45 || c == 95 || c == 44 || c == 46 || c == 124
  }

  /** The rules for each packet type, its properties aside. */
  predicate InOrder(p: Packet) {
    match p.body
    case Publish(topic, _) =>
      var qos := (p.flags / 2) % 4;
      && p.t == PUBLISH && |topic| <= 65535 && ValidUtf8(topic) && 0x23 !in topic && 0x2B !in topic
      && qos <= 2 && (qos == 0 ==> (p.flags / 8) % 2 == 0 && p.id.None?) && (qos > 0 ==> p.id.Some?)
      && (topic == [] ==> p.version >= 5 && (p.version == 5 ==> Aliased(NormalMap(p.props.vals))))
    case Ack(reason) =>
      && (p.t == PUBACK || p.t == PUBREC || p.t == PUBREL || p.t == PUBCOMP)
      && p.id.Some? && p.flags == (if p.t == PUBREL then 2 else 0)
      && if p.version == 5 then reason in Reasons(p.t) else reason == 0
    case Subscribe(fs) =>
      && p.t == SUBSCRIBE && p.id.Some? && p.flags == 2 && fs != []
      && forall f <- fs :: |f.topic| <= 65535 && ValidUtf8(f.topic) && f.ops % 4 <= 2 && (p.version == 5 ==> f.ops < 64)
    case Connect(_, bits, clientId, willTopic, willMessage, username, password) =>
      && p.t == CONNECT && p.id.None? && p.flags == 0 && 3 <= p.version <= 5 && FlagsInOrder(p.version, bits)
      && |clientId| <= 65535 && (clientId == [] ==> (bits / 2) % 2 == 1)
      && (clientId != [] ==> ValidUtf8(clientId) && forall c <- clientId :: Plain(c))
      && (if (bits / 4) % 2 == 1 then |willTopic| <= 65535 && |willMessage| <= 65535 else willTopic == [] && willMessage == [])
      && (if bits >= 128 then |username| <= 65535 else username == [])
      && (if (bits / 64) % 2 == 1 then |password| <= 65535 else password == [])
  }

  /** The packets that read back as themselves, and that the decoder accepts, are those in order. */
  lemma InOrderExactly(p: Packet)
    ensures InOrder(p) <==> ValidPublish(p) || ValidAck(p) || ValidSubscribe(p) || ValidConnect(p)
  {
    hide ValidUtf8, NormalMap;
    match p.body
    case Publish(topic, _) => PublishInOrder(p);
    case Ack(_) => AckInOrder(p);
    case Subscribe(_) =>
    case Connect(_, _, _, _, _, _, _) => ConnectInOrder(p);
  }

  lemma PublishInOrder(p: Packet)
    requires p.body.Publish?
    ensures InOrder(p) <==> ValidPublish(p)
  {
    hide ValidUtf8, NormalMap;
  }

  lemma AckInOrder(p: Packet)
    requires p.body.Ack?
    ensures InOrder(p) <==> ValidAck(p)
  {
  }

  lemma ConnectInOrder(p: Packet)
    requires p.body.Connect?
    ensures InOrder(p) <==> ValidConnect(p)
  {
    assert ValidUtf8([]);
    hide ValidUtf8, BitsError, FlagsInOrder, ClientIdChar, Plain;
    FlagsExactly(p.version, p.body.bits);
    assert forall c :: ClientIdChar(c) <==> Plain(c) by { PlainExactly(); }
    assert ProtocolName(p.version).Some? <==> 3 <= p.version <= 5;
  }

  lemma PlainExactly()
    ensures forall c: byte :: ClientIdChar(c) <==> Plain(c)
  {
  }

  lemma FlagsExactly(v: byte, bits: byte)
    ensures FlagsInOrder(v, bits) <==> BitsError(v, bits).None?
  {
  }

  /** On every buffer: what is accepted is a packet in order, read for the version it was decoded for. */
  lemma AcceptedInOrder(v: byte, buf: bytes)
    requires buf != [] ==> buf[0] < 16 || Modelled(TypeOf(buf[0] / 16))
    ensures var r := Decode(v, buf);
            r.Ok? ==> InOrder(r.value.0) && r.value.1 <= |buf| && (r.value.0.t != CONNECT ==> r.value.0.version == v)
  {
    AcceptedIsLawful(v, buf);
    if Decode(v, buf).Ok? { InOrderExactly(Decode(v, buf).value.0); }
    hide Decode, Lawful, InOrder;
  }
}
