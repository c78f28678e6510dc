/** The control packets of a publish or subscribe exchange: their size, their bytes and how they are
    read, as three separate definitions that agree. */
module Packets {
  import opened Common
  import opened Wire
  import opened Properties

  const V31: byte := 3
  const V311: byte := 4
  const V50: byte := 5

  const MaxRemainingLength := 268435455

  /** The properties of a packet with the length their block takes. */
  datatype Props = Props(vals: Values, len: uint32)

  const NoProps := Props(map[], 0)

  datatype Filter = Filter(topic: bytes, ops: byte)

  datatype Body =
    | Publish(topic: bytes, payload: bytes)
    | Ack(reason: byte)
    | Subscribe(filters: seq<Filter>)
    | Connect(keepAlive: uint16, bits: byte, clientId: bytes, willTopic: bytes, willMessage: bytes, username: bytes, password: bytes)

  datatype Packet = Packet(t: PacketType, version: byte, flags: byte, id: Option<uint16>, props: Props, body: Body)

  // ---------------------------------------------------------------- accessors

  function QoS(flags: byte): nat { flags / 2 % 4 }
  predicate Dup(flags: byte) { flags / 8 % 2 == 1 }

  predicate ValidTopic(b: bytes) {
    ValidUtf8(b) && (forall c <- b :: c != 0x23 && c != 0x2B)
  }

  function DefaultFlags(t: PacketType): byte {
    if t == PUBREL || t == SUBSCRIBE || t == UNSUBSCRIBE then 2 else 0
  }

  predicate IsAck(t: PacketType) {
    t == PUBACK || t == PUBREC || t == PUBREL || t == PUBCOMP
  }

  predicate ValidReason(t: PacketType, r: byte) {
    match t
    case PUBACK => r in {0, 0x10, 0x80, 0x83, 0x87, 0x90, 0x97, 0x99}
    case PUBREC => r in {0, 0x10, 0x80, 0x83, 0x87, 0x90, 0x91, 0x97, 0x99}
    case PUBREL | PUBCOMP => r in {0, 0x92}
    case _ => false
  }

  function ProtocolName(v: byte): Option<bytes> {
    if v == V31 then Some([0x4D, 0x51, 0x49, 0x73, 0x64, 0x70])
    else if v == V311 || v == V50 then Some([0x4D, 0x51, 0x54, 0x54])
    else None
  }

  predicate HasUsername(bits: byte) { bits / 0x80 == 1 }
  predicate HasPassword(bits: byte) { bits / 0x40 % 2 == 1 }
  predicate WillRetain(bits: byte) { bits / 0x20 % 2 == 1 }
  function WillQoS(bits: byte): nat { bits / 8 % 4 }
  predicate HasWill(bits: byte) { bits / 4 % 2 == 1 }
  predicate Clean(bits: byte) { bits / 2 % 2 == 1 }
  predicate Reserved(bits: byte) { bits % 2 == 1 }

  predicate ClientIdChar(c: byte) {
    0x30 <= c <= 0x39 || 0x61 <= c <= 0x7A || 0x41 <= c <= 0x5A || c in {0x20, 0x2D, 0x5F, 0x2C, 0x2E, 0x7C}
  }

  predicate ValidClientId(cid: bytes) {
    cid == [] || (ValidUtf8(cid) && forall c <- cid :: ClientIdChar(c))
  }

  /** Which packets carry a property block: version 5, and for CONNECT whatever came after. */
  predicate CarriesProps(p: Packet) {
    if p.t == CONNECT then p.version >= V50 else p.version == V50
  }

  // ---------------------------------------------------------------- size

  function PropsLen(p: Packet): nat {
    if CarriesProps(p) then FullLen(p.props.len) else 0
  }

  function FiltersLen(fs: seq<Filter>): nat {
    if fs == [] then 0 else 2 + |fs[0].topic| + 1 + FiltersLen(fs[1..])
  }

  /** The size functions: what encoding the packet behind its fixed header will take. */
  function MessageLen(p: Packet): nat {
    match p.body
    case Publish(topic, payload) => 2 + |topic| + |payload| + (if QoS(p.flags) != 0 then 2 else 0) + PropsLen(p)
    case Ack(reason) =>
      2 + if p.version == V50 && (PropsLen(p) > 1 || reason != 0) then 1 + (if PropsLen(p) > 1 then PropsLen(p) else 0) else 0
    case Subscribe(filters) => 2 + PropsLen(p) + FiltersLen(filters)
    case Connect(_, bits, clientId, willTopic, willMessage, username, password) =>
      match ProtocolName(p.version)
      case None => 0
      case Some(name) =>
        2 + |name| + 1 + 1 + 2 + PropsLen(p) + 2 + |clientId|
        + (if HasWill(bits) then 2 + |willTopic| + 2 + |willMessage| else 0)
        + (if HasUsername(bits) then 2 + |username| else 0)
        + (if HasPassword(bits) then 2 + |password| else 0)
  }

  /** Conversion to a signed 32-bit number. */
  function Int32(n: nat): int {
    var m := n % 0x1_0000_0000;
    if m < 0x8000_0000 then m else m - 0x1_0000_0000
  }

  function Size(p: Packet): (r: Result<nat>)
    ensures r.Ok? && MessageLen(p) < 0x1_0000_0000 ==> MessageLen(p) <= MaxRemainingLength
  {
    var remLen := Int32(MessageLen(p));
    if remLen > MaxRemainingLength || remLen < 0 then Err(InvalidLength)
    else Ok(1 + VarLen(remLen) + MessageLen(p))
  }

  // ---------------------------------------------------------------- bytes

  function IdBytes(id: Option<uint16>): bytes {
    match id
    case None => []
    case Some(n) => U16(n)
  }

  function PropBytes(p: Packet, order: seq<PropertyId>): bytes {
    if CarriesProps(p) then BlockBytes(p.props.vals, order) else []
  }

  function FilterBytes(f: Filter): bytes {
    LPOrNothing(f.topic) + [f.ops]
  }

  function FiltersBytes(fs: seq<Filter>): bytes {
    if fs == [] then [] else FilterBytes(fs[0]) + FiltersBytes(fs[1..])
  }

  function OptionalLP(present: bool, b: bytes): bytes {
    if present then LPOrNothing(b) else []
  }

  function ConnectHead(p: Packet, order: seq<PropertyId>): bytes
    requires p.body.Connect? && ProtocolName(p.version).Some?
  {
    LP(ProtocolName(p.version).value) + [p.version, p.body.bits] + U16(p.body.keepAlive) + PropBytes(p, order)
  }

  function ConnectPayload(b: Body): bytes
    requires b.Connect?
  {
    LPOrNothing(b.clientId) + (OptionalLP(HasWill(b.bits), b.willTopic) + OptionalLP(HasWill(b.bits), b.willMessage))
    + OptionalLP(HasUsername(b.bits), b.username) + OptionalLP(HasPassword(b.bits), b.password)
  }

  /** A packet behind its fixed header; `order` is the order in which its properties are enumerated. */
  function MessageBytes(p: Packet, order: seq<PropertyId>): bytes {
    match p.body
    case Publish(topic, payload) =>
      LPOrNothing(topic) + (if QoS(p.flags) != 0 then IdBytes(p.id) else []) + PropBytes(p, order) + payload
    case Ack(reason) =>
      IdBytes(p.id) + (if p.version == V50 && (p.props.len > 0 || reason != 0) then [reason] else [])
      + (if p.version == V50 && p.props.len > 0 then PropBytes(p, order) else [])
    case Subscribe(filters) => IdBytes(p.id) + PropBytes(p, order) + FiltersBytes(filters)
    case Connect(_, _, _, _, _, _, _) =>
      if ProtocolName(p.version).None? then [] else ConnectHead(p, order) + ConnectPayload(p.body)
  }

  function Code(t: PacketType): (n: nat)
    ensures n < 16
  {
    match t
    case RESERVED => 0 case CONNECT => 1 case CONNACK => 2 case PUBLISH => 3 case PUBACK => 4 case PUBREC => 5
    case PUBREL => 6 case PUBCOMP => 7 case SUBSCRIBE => 8 case SUBACK => 9 case UNSUBSCRIBE => 10
    case UNSUBACK => 11 case PINGREQ => 12 case PINGRESP => 13 case DISCONNECT => 14 case AUTH => 15
  }

  function TypeOf(n: nat): (t: PacketType)
    requires n < 16
    ensures Code(t) == n
  {
    match n
    case 0 => RESERVED case 1 => CONNECT case 2 => CONNACK case 3 => PUBLISH case 4 => PUBACK case 5 => PUBREC
    case 6 => PUBREL case 7 => PUBCOMP case 8 => SUBSCRIBE case 9 => SUBACK case 10 => UNSUBSCRIBE
    case 11 => UNSUBACK case 12 => PINGREQ case 13 => PINGRESP case 14 => DISCONNECT case _ => AUTH
  }

  function PacketBytes(p: Packet, order: seq<PropertyId>): bytes
    requires p.flags < 16
  {
    [Code(p.t) * 16 + p.flags] + VarBytes(|MessageBytes(p, order)|) + MessageBytes(p, order)
  }

  // ---------------------------------------------------------------- reading

  /** A decoded packet and how many bytes it took. */
  type Read = Result<(Packet, nat)>

  /** Copies up to two bytes over a fresh identifier of zeros. */
  function TakeId(from: bytes): (r: (uint16, nat))
    ensures r.1 <= |from|
  {
    if |from| >= 2 then (ReadU16(from), 2) else if |from| == 1 then ((from[0] as int) * 256, 1) else (0, 0)
  }

  /** Reads a block when there is no map to store into: the first property that would be stored panics. */
  function ReadNil(t: PacketType, from: bytes): (r: Result<Decoded>)
    ensures r.Ok? ==> r.value.n <= |from|
  {
    var l := Uvarint(from);
    if l.n <= 0 then Err(MalformedPacket)
    else if l.x == 0 then Ok(Decoded(map[], l.n))
    else
      var _ :- DecodeOne(t, from[l.n..], map[]);
      Err(Panic)
  }

  function ReadProps(t: PacketType, hasMap: bool, from: bytes): (r: Result<(Props, nat)>)
    ensures r.Ok? ==> r.value.1 <= |from|
  {
    var d :- if hasMap then DecodeBlock(t, from) else ReadNil(t, from);
    Ok((Props(d.vals, (d.n - Uvarint(from).n) % 0x1_0000_0000), d.n))
  }

  predicate HasAlias(vals: Values) {
    TopicAlias in vals && vals[TopicAlias].U16V? && vals[TopicAlias].n > 0
  }

  function MaybeProps(t: PacketType, present: bool, from: bytes): (r: Result<(Props, nat)>)
    ensures r.Ok? ==> r.value.1 <= |from|
  {
    if present then ReadProps(t, true, from) else Ok((NoProps, 0))
  }

  function DecodePublish(v: byte, flags: byte, remLen: nat, from: bytes): Read {
    var reject := if v == V50 then ProtocolError else RefusedServerUnavailable;
    if QoS(flags) == 3 || (QoS(flags) == 0 && Dup(flags)) then Err(reject)
    else
      var (topic, n) :- ReadLP(from);
      if topic == [] && v < V50 then Err(RefusedServerUnavailable)
      else if !ValidTopic(topic) then Err(if v == V50 then InvalidTopicName else RefusedServerUnavailable)
      else
        var rest := from[n..];
        var (id, m) := if QoS(flags) != 0 then TakeId(rest) else (0, 0);
        var (props, k) :- MaybeProps(PUBLISH, v == V50, rest[m..]);
        if v == V50 && topic == [] && !HasAlias(props.vals) then Err(ProtocolError)
        else DecodePayload(v, flags, remLen, topic, if QoS(flags) != 0 then Some(id) else None, props, n + m + k, rest[m..][k..])
  }

  /** What is left of the packet behind `off` is the payload. */
  function DecodePayload(v: byte, flags: byte, remLen: nat, topic: bytes, id: Option<uint16>, props: Props, off: nat, rest: bytes): Read {
    if remLen < off || |rest| < remLen - off then Err(if v == V50 then MalformedPacket else RefusedServerUnavailable)
    else Ok((Packet(PUBLISH, v, flags, id, props, Publish(topic, rest[..remLen - off])), remLen))
  }

  /** Works to the end of the buffer, not to the end of the packet. */
  function DecodeAck(t: PacketType, v: byte, flags: byte, from: bytes): Read {
    var (id, n) := TakeId(from);
    var rest := from[n..];
    if v != V50 || rest == [] then Ok((Packet(t, v, flags, Some(id), NoProps, Ack(0)), n))
    else if !ValidReason(t, rest[0]) then Err(MalformedPacket)
    else
      var (props, k) :- MaybeProps(t, rest[1..] != [], rest[1..]);
      Ok((Packet(t, v, flags, Some(id), props, Ack(rest[0])), n + 1 + k))
  }

  /** The loop over the filters of a SUBSCRIBE, with `left` bytes of the packet to go. */
  function DecodeFilters(v: byte, from: bytes, off: nat, left: int, fs: seq<Filter>): (r: Result<(seq<Filter>, nat)>)
    decreases |from|
  {
    var reject := if v <= V50 then RefusedServerUnavailable else ProtocolError;
    if left <= 0 then Ok((fs, off))
    else
      var (t, n) :- ReadLP(from);
      if !ValidUtf8(t) then Err(reject)
      else if n == |from| then Err(Panic)
      else
        var ops := from[n];
        if v == V50 && ops >= 0x40 then Err(ProtocolError)
        else if ops % 4 == 3 then Err(reject)
        else DecodeFilters(v, from[n + 1..], off + n + 1, left - n - 1, fs + [Filter(t, ops)])
  }

  function DecodeSubscribe(v: byte, flags: byte, remLen: nat, from: bytes): Read {
    var (id, n) := TakeId(from);
    var (props, k) :- MaybeProps(SUBSCRIBE, v == V50, from[n..]);
    var (fs, total) :- DecodeFilters(v, from[n..][k..], n + k, remLen - n - k, []);
    if fs == [] then Err(if v <= V50 then RefusedServerUnavailable else ProtocolError)
    else Ok((Packet(SUBSCRIBE, v, flags, Some(id), props, Subscribe(fs)), total))
  }

  /** What the connect flags are refused for. */
  function BitsError(v: byte, bits: byte): Option<Error> {
    if Reserved(bits) || WillQoS(bits) == 3 || (!HasWill(bits) && (WillRetain(bits) || WillQoS(bits) != 0))
    then Some(if v == V50 then MalformedPacket else RefusedServerUnavailable)
    else if !HasUsername(bits) && HasPassword(bits) && v < V50 then Some(RefusedBadUsernameOrPassword)
    else None
  }

  function TakeLP(present: bool, from: bytes): (r: Result<(bytes, nat)>)
    ensures r.Ok? ==> r.value.1 <= |from|
  {
    if present then ReadLP(from) else Ok(([], 0))
  }

  /** Two fields one behind the other, each there only if its flag says so. */
  function TakeTwo(first: bool, second: bool, from: bytes): (r: Result<(bytes, bytes, nat)>)
    ensures r.Ok? ==> r.value.2 <= |from|
  {
    var (x, n) :- TakeLP(first, from);
    var (y, m) :- TakeLP(second, from[n..]);
    Ok((x, y, n + m))
  }

  /** The payload of a CONNECT from the client identifier on. */
  function DecodeConnectPayload(v: byte, keepAlive: uint16, bits: byte, from: bytes): (r: Result<(Body, nat)>) {
    var (cid, a) :- ReadLP(from);
    if cid == [] && !Clean(bits) then Err(RefusedIdentifierRejected)
    else if !ValidClientId(cid) then Err(if v == V50 then InvalidClientId else RefusedIdentifierRejected)
    else
      var rest := from[a..];
      var (topic, message, b) :- TakeTwo(HasWill(bits), HasWill(bits), rest);
      var (username, password, c) :- TakeTwo(HasUsername(bits), HasPassword(bits), rest[b..]);
      Ok((Connect(keepAlive, bits, cid, topic, message, username, password), a + b + c))
  }

  /** Reads a CONNECT, which says itself which version it is. `hasMap` is whether the version it was
      decoded for brought a map for properties. */
  function DecodeConnect(hasMap: bool, flags: byte, from: bytes): Read {
    var (name, n) :- ReadLP(from);
    if !ValidUtf8(name) then Err(ProtocolInvalidName) else DecodeConnectFields(hasMap, flags, name, n, from[n..])
  }

  /** A CONNECT behind its protocol name, which took `n` bytes. */
  function DecodeConnectFields(hasMap: bool, flags: byte, name: bytes, n: nat, rest: bytes): Read {
    if |rest| < 1 then Err(Panic)
    else
      var v := rest[0];
      if ProtocolName(v) != Some(name) then Err(InvalidProtocolVersion)
      else if |rest| < 2 then Err(Panic)
      else if BitsError(v, rest[1]).Some? then Err(BitsError(v, rest[1]).value)
      else if |rest| < 4 then Err(Panic)
      else
        var after := rest[4..];
        var (props, k) :- if v >= V50 then ReadProps(CONNECT, hasMap, after) else Ok((NoProps, 0));
        var (body, m) :- DecodeConnectPayload(v, ReadU16(rest[2..]), rest[1], after[k..]);
        Ok((Packet(CONNECT, v, flags, None, props, body), n + 4 + k + m))
  }

  predicate Modelled(t: PacketType) {
    t == PUBLISH || t == SUBSCRIBE || t == CONNECT || IsAck(t)
  }

  function DecodeMessage(t: PacketType, v: byte, flags: byte, remLen: nat, from: bytes): Read
    requires Modelled(t)
  {
    if t == PUBLISH then DecodePublish(v, flags, remLen, from)
    else if t == SUBSCRIBE then DecodeSubscribe(v, flags, remLen, from)
    else if t == CONNECT then DecodeConnect(v >= V50, flags, from)
    else DecodeAck(t, v, flags, from)
  }

  /** packet.Decode on the packet types of this model. */
  function Decode(v: byte, buf: bytes): Read
    requires buf != [] ==> buf[0] < 16 || Modelled(TypeOf(buf[0] / 16))
  {
    if buf == [] then Err(InsufficientBuffer)
    else if buf[0] < 16 then Err(InvalidMessageType)
    else
      var t, flags := TypeOf(buf[0] / 16), buf[0] % 16;
      if (t != PUBLISH && flags != DefaultFlags(t)) || QoS(flags) == 3
      then Err(if v == V50 then MalformedPacket else RefusedServerUnavailable)
      else
        var l := Uvarint(buf[1..]);
        if l.n <= 0 then Err(InsufficientData)
        else
          var from := buf[1..][l.n..];
          if l.x > |from| then Err(InsufficientData)
          else
            var (p, n) :- DecodeMessage(t, v, flags, l.x, from);
            Ok((p, 1 + l.n + n))
  }
}
