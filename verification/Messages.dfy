/** The packet objects: decodeMessage fills their fields step by step along the buffer. */
module Messages {
  import opened Common
  import opened Wire
  import opened Properties
  import opened PropertyBlock
  import opened Packets
  import PacketWriter

  /** Reads the block at the front of `from` into `b`; without a map, storing the first property panics. */
  method DecodeProps(b: Block, t: PacketType, hasMap: bool, from: bytes) returns (n: nat, err: Option<Error>)
    requires b.properties == map[] && b.len == 0 && |from| < 0x1_0000_0000
    modifies b
    ensures match ReadProps(t, hasMap, from)
            case Ok((props, k)) => err == None && n == k && Props(b.properties, b.len) == props
            case Err(e) => err == Some(e)
  {
    hide DecodeBlock, DecodeOne, Uvarint;
    if hasMap {
      n, err := b.Decode(t, from);
      return;
    }
    var pLen, count := ReadUvarint(from);
    if count <= 0 {
      return 0, Some(MalformedPacket);
    }
    if pLen == 0 {
      return count, None;
    }
    var one := DecodeOne(t, from[count..], map[]);
    return 0, Some(if one.Err? then one.error else Panic);
  }

  class AckMessage {
    const t: PacketType
    const version: byte
    const flags: byte
    const properties: Block
    var packetId: Option<uint16>
    var reason: byte

    function Value(): Packet
      reads this, properties
    {
      Packet(t, version, flags, packetId, Props(properties.properties, properties.len), Ack(reason))
    }

    constructor (t: PacketType, version: byte, flags: byte)
      ensures fresh(properties) && Value() == Packet(t, version, flags, None, NoProps, Ack(0))
    {
      this.t, this.version, this.flags, packetId, reason := t, version, flags, None, 0;
      properties := new Block();
    }

    method DecodeMessage(from: bytes) returns (offset: nat, err: Option<Error>)
      requires Value() == Packet(t, version, flags, None, NoProps, Ack(0)) && |from| < 0x1_0000_0000
      modifies this, properties
      ensures match DecodeAck(t, version, flags, from)
              case Ok((p, n)) => err == None && offset == n && Value() == p
              case Err(e) => err == Some(e)
    {
      hide TakeId, ReadProps, ValidReason;
      var (id, n) := TakeId(from);
      packetId, offset := Some(id), n;
      if version == V50 {
        if from[offset..] == [] {
          return offset, None;
        }
        reason := from[offset];
        if !ValidReason(t, reason) {
          return offset, Some(MalformedPacket);
        }
        offset := offset + 1;
        assert from[n..][1..] == from[offset..];
        if from[offset..] != [] {
          n, err := DecodeProps(properties, t, true, from[offset..]);
          offset := offset + n;
          return;
        }
      }
      return offset, None;
    }
  }

  class PublishMessage {
    const version: byte
    const flags: byte
    const properties: Block
    var packetId: Option<uint16>
    var topic: bytes
    var payload: bytes

    function Value(): Packet
      reads this, properties
    {
      Packet(PUBLISH, version, flags, packetId, Props(properties.properties, properties.len), Publish(topic, payload))
    }

    constructor (version: byte, flags: byte)
      ensures fresh(properties) && Value() == Packet(PUBLISH, version, flags, None, NoProps, Publish([], []))
    {
      this.version, this.flags, packetId, topic, payload := version, flags, None, [], [];
      properties := new Block();
    }

    method DecodeMessage(remLen: nat, from: bytes) returns (offset: nat, err: Option<Error>)
      requires Value() == Packet(PUBLISH, version, flags, None, NoProps, Publish([], [])) && |from| < 0x1_0000_0000
      modifies this, properties
      ensures match DecodePublish(version, flags, remLen, from)
              case Ok((p, n)) => err == None && offset == n && Value() == p
              case Err(e) => err == Some(e)
    {
      hide TakeId, ReadProps, ReadLP, ValidTopic, QoS, Dup, DecodePayload;
      offset := 0;
      if QoS(flags) == 3 || (QoS(flags) == 0 && Dup(flags)) {
        return offset, Some(if version == V50 then ProtocolError else RefusedServerUnavailable);
      }
      var lp := ReadLP(from);
      if lp.Err? {
        return offset, Some(lp.error);
      }
      topic, offset := lp.value.0, lp.value.1;
      if topic == [] && version < V50 {
        return offset, Some(RefusedServerUnavailable);
      } else if !ValidTopic(topic) {
        return offset, Some(if version == V50 then InvalidTopicName else RefusedServerUnavailable);
      }
      var n := 0;
      if QoS(flags) != 0 {
        var (id, k) := TakeId(from[offset..]);
        packetId, n := Some(id), k;
      }
      assert from[offset..][n..] == from[offset + n..];
      offset := offset + n;
      if version == V50 {
        n, err := DecodeProps(properties, PUBLISH, true, from[offset..]);
        if err.Some? {
          return;
        }
        assert from[offset..][n..] == from[offset + n..];
        offset := offset + n;
        if topic == [] && !HasAlias(properties.properties) {
          return offset, Some(ProtocolError);
        }
      } else {
        assert from[offset..][0..] == from[offset..];
      }
      offset, err := TakePayload(remLen, from, offset);
    }

    /** The rest of the packet is the payload. */
    method TakePayload(remLen: nat, from: bytes, start: nat) returns (offset: nat, err: Option<Error>)
      requires start <= |from|
      modifies this`payload
      ensures match DecodePayload(version, flags, remLen, topic, packetId, Props(properties.properties, properties.len), start, from[start..])
              case Ok((p, n)) => err == None && offset == n && Value() == p
              case Err(e) => err == Some(e)
    {
      offset := start;
      if remLen < offset || |from[offset..]| < remLen - offset {
        return offset, Some(if version == V50 then MalformedPacket else RefusedServerUnavailable);
      }
      var pLen := remLen - offset;
      payload := from[offset..offset + pLen];
      assert from[offset..][..pLen] == payload;
      return offset + pLen, None;
    }
  }

  class SubscribeMessage {
    const version: byte
    const flags: byte
    const properties: Block
    var packetId: Option<uint16>
    var filters: seq<Filter>

    function Value(): Packet
      reads this, properties
    {
      Packet(SUBSCRIBE, version, flags, packetId, Props(properties.properties, properties.len), Subscribe(filters))
    }

    constructor (version: byte, flags: byte)
      ensures fresh(properties) && Value() == Packet(SUBSCRIBE, version, flags, None, NoProps, Subscribe([]))
    {
      this.version, this.flags, packetId, filters := version, flags, None, [];
      properties := new Block();
    }

    method DecodeMessage(remLen: nat, from: bytes) returns (offset: nat, err: Option<Error>)
      requires Value() == Packet(SUBSCRIBE, version, flags, None, NoProps, Subscribe([])) && |from| < 0x1_0000_0000
      modifies this, properties
      ensures match DecodeSubscribe(version, flags, remLen, from)
              case Ok((p, n)) => err == None && offset == n && Value() == p
              case Err(e) => err == Some(e)
    {
      hide TakeId, ReadProps, DecodeFilters;
      var (id, n) := TakeId(from);
      packetId, offset := Some(id), n;
      if version == V50 {
        n, err := DecodeProps(properties, SUBSCRIBE, true, from[offset..]);
        if err.Some? {
          return;
        }
        assert from[offset..][n..] == from[offset + n..];
        offset := offset + n;
      } else {
        assert from[offset..][0..] == from[offset..];
      }
      var r := PacketWriter.ReadFilters(version, from, offset, remLen - offset);
      if r.Err? {
        return offset, Some(r.error);
      }
      filters, offset := r.value.0, r.value.1;
      if filters == [] {
        return 0, Some(if version <= V50 then RefusedServerUnavailable else ProtocolError);
      }
      return offset, None;
    }
  }

  class ConnectMessage {
    /** Whether the version the packet was decoded for brought a map for properties. */
    const hasMap: bool
    const flags: byte
    const properties: Block
    var version: byte
    var keepAlive: uint16
    var connectFlags: byte
    var clientId: bytes
    var willTopic: bytes
    var willMessage: bytes
    var username: bytes
    var password: bytes

    function Content(): Body
      reads this
    {
      Connect(keepAlive, connectFlags, clientId, willTopic, willMessage, username, password)
    }

    function Value(): Packet
      reads this, properties
    {
      Packet(CONNECT, version, flags, None, Props(properties.properties, properties.len), Content())
    }

    constructor (v: byte, flags: byte)
      ensures fresh(properties) && hasMap == (v >= V50) && Value() == Packet(CONNECT, v, flags, None, NoProps, Connect(0, 0, [], [], [], [], []))
    {
      hasMap, this.flags, version, keepAlive, connectFlags := v >= V50, flags, v, 0, 0;
      clientId, willTopic, willMessage, username, password := [], [], [], [], [];
      properties := new Block();
    }

    method DecodeMessage(from: bytes) returns (offset: nat, err: Option<Error>)
      requires properties.properties == map[] && properties.len == 0 && Content() == Connect(0, 0, [], [], [], [], []) && |from| < 0x1_0000_0000
      modifies this, properties
      ensures match DecodeConnect(hasMap, flags, from)
              case Ok((p, n)) => err == None && offset == n && Value() == p
              case Err(e) => err == Some(e)
    {
      hide ReadLP, ValidUtf8, DecodeConnectFields;
      var lp := ReadLP(from);
      if lp.Err? {
        return 0, Some(lp.error);
      }
      offset := lp.value.1;
      if !ValidUtf8(lp.value.0) {
        return offset, Some(ProtocolInvalidName);
      }
      offset, err := DecodeFields(lp.value.0, from, offset);
    }

    /** Behind the protocol name. */
    method DecodeFields(name: bytes, from: bytes, start: nat) returns (offset: nat, err: Option<Error>)
      requires properties.properties == map[] && properties.len == 0 && Content() == Connect(0, 0, [], [], [], [], [])
      requires start <= |from| < 0x1_0000_0000
      modifies this, properties
      ensures match DecodeConnectFields(hasMap, flags, name, start, from[start..])
              case Ok((p, n)) => err == None && offset == n && Value() == p
              case Err(e) => err == Some(e)
    {
      hide ReadProps, DecodeConnectPayload, BitsError, ProtocolName;
      offset := start;
      if offset >= |from| {
        return offset, Some(Panic);
      }
      version := from[offset];
      offset := offset + 1;
      if ProtocolName(version) != Some(name) {
        return offset, Some(InvalidProtocolVersion);
      }
      if offset >= |from| {
        return offset, Some(Panic);
      }
      connectFlags := from[offset];
      offset := offset + 1;
      var refused := BitsError(version, connectFlags);
      if refused.Some? {
        return offset, refused;
      }
      if offset + 2 > |from| {
        return offset, Some(Panic);
      }
      assert from[start..][2..] == from[offset..];
      keepAlive := ReadU16(from[offset..]);
      offset := offset + 2;
      assert from[start..][4..] == from[offset..];
      if version >= V50 {
        var n;
        n, err := DecodeProps(properties, CONNECT, hasMap, from[offset..]);
        if err.Some? {
          return;
        }
        assert from[offset..][n..] == from[offset + n..];
        offset := offset + n;
      } else {
        assert from[offset..][0..] == from[offset..];
      }
      offset, err := DecodeContent(from, offset);
    }

    /** From the client identifier on. */
    method DecodeContent(from: bytes, start: nat) returns (offset: nat, err: Option<Error>)
      requires start <= |from| && Content() == Connect(keepAlive, connectFlags, [], [], [], [], [])
      modifies this`clientId, this`willTopic, this`willMessage, this`username, this`password
      ensures match DecodeConnectPayload(version, keepAlive, connectFlags, from[start..])
              case Ok((b, n)) => err == None && offset == start + n && Content() == b
              case Err(e) => err == Some(e)
    {
      hide ReadLP, TakeTwo, ValidClientId, Clean, HasWill, HasUsername, HasPassword;
      var cid := ReadLP(from[start..]);
      if cid.Err? {
        return start, Some(cid.error);
      }
      clientId, offset := cid.value.0, start + cid.value.1;
      if clientId == [] && !Clean(connectFlags) {
        return offset, Some(RefusedIdentifierRejected);
      }
      if !ValidClientId(clientId) {
        return offset, Some(if version == V50 then InvalidClientId else RefusedIdentifierRejected);
      }
      assert from[start..][cid.value.1..] == from[offset..];
      var n;
      willTopic, willMessage, n, err := TakeBoth(HasWill(connectFlags), HasWill(connectFlags), from, offset);
      if err.Some? {
        return;
      }
      assert from[offset..][n..] == from[offset + n..];
      offset := offset + n;
      username, password, n, err := TakeBoth(HasUsername(connectFlags), HasPassword(connectFlags), from, offset);
      if err.Some? {
        return;
      }
      return offset + n, None;
    }
  }

  method TakeBoth(first: bool, second: bool, from: bytes, start: nat) returns (x: bytes, y: bytes, n: nat, err: Option<Error>)
    requires start <= |from|
    ensures match TakeTwo(first, second, from[start..])
            case Ok((a, b, k)) => err == None && x == a && y == b && n == k
            case Err(e) => err == Some(e)
  {
    hide TakeLP;
    y := [];
    x, n, err := TakeIf(first, from, start);
    if err.Some? {
      return;
    }
    assert from[start..][n..] == from[start + n..];
    var m;
    y, m, err := TakeIf(second, from, start + n);
    n := n + m;
  }

  /** A field that is there only if its flag says so. */
  method TakeIf(present: bool, from: bytes, offset: nat) returns (b: bytes, n: nat, err: Option<Error>)
    requires offset <= |from|
    ensures match TakeLP(present, from[offset..])
            case Ok((x, k)) => err == None && b == x && n == k
            case Err(e) => err == Some(e)
  {
    hide ReadLP;
    if !present {
      return [], 0, None;
    }
    var lp := ReadLP(from[offset..]);
    if lp.Err? {
      return [], 0, Some(lp.error);
    }
    return lp.value.0, lp.value.1, None;
  }

  // ---------------------------------------------------------------- the whole packet

  /** What a packet object answers: the packet and the bytes it took behind the fixed header, or the error. */
  function Answer(p: Packet, n: nat, err: Option<Error>): Read {
    if err.Some? then Err(err.value) else Ok((p, n))
  }

  method DecodeAs(t: PacketType, v: byte, flags: byte, remLen: nat, from: bytes) returns (r: Read)
    requires Modelled(t) && |from| < 0x1_0000_0000
    ensures r == DecodeMessage(t, v, flags, remLen, from)
  {
    hide DecodePublish, DecodeSubscribe, DecodeConnect, DecodeAck;
    var n, err;
    if t == PUBLISH {
      var m := new PublishMessage(v, flags);
      n, err := m.DecodeMessage(remLen, from);
      r := Answer(m.Value(), n, err);
    } else if t == SUBSCRIBE {
      var m := new SubscribeMessage(v, flags);
      n, err := m.DecodeMessage(remLen, from);
      r := Answer(m.Value(), n, err);
    } else if t == CONNECT {
      var m := new ConnectMessage(v, flags);
      n, err := m.DecodeMessage(from);
      r := Answer(m.Value(), n, err);
    } else {
      var m := new AckMessage(t, v, flags);
      n, err := m.DecodeMessage(from);
      r := Answer(m.Value(), n, err);
    }
  }

  /** packet.Decode with header.decode: the fixed header, then the object for the packet type. */
  method DecodePacket(v: byte, buf: bytes) returns (r: Read)
    requires (buf != [] ==> buf[0] < 16 || Modelled(TypeOf(buf[0] / 16))) && |buf| < 0x1_0000_0000
    ensures r == Decode(v, buf)
  {
    hide DecodeMessage, Uvarint;
    if buf == [] {
      return Err(InsufficientBuffer);
    }
    if buf[0] < 16 {
      return Err(InvalidMessageType);
    }
    var t, flags := TypeOf(buf[0] / 16), buf[0] % 16;
    if (t != PUBLISH && flags != DefaultFlags(t)) || QoS(flags) == 3 {
      return Err(if v == V50 then MalformedPacket else RefusedServerUnavailable);
    }
    var remLen, m := ReadUvarint(buf[1..]);
    if m <= 0 {
      return Err(InsufficientData);
    }
    assert buf[1..][m..] == buf[1 + m..];
    if remLen > |buf[1 + m..]| {
      return Err(InsufficientData);
    }
    r := DecodeAs(t, v, flags, remLen, buf[1 + m..]);
    if r.Ok? {
      r := Ok((r.value.0, 1 + m + r.value.1));
    }
  }
}
