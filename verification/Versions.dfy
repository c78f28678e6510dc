/** A packet written in one version of the protocol and read in another. */
module Versions {
  import opened Common
  import opened Wire
  import opened Properties
  import opened Packets
  import opened PacketRoundTrip

  /** The versions the broker speaks. */
  predicate Supported(v: byte) {
    v == V31 || v == V311 || v == V50
  }

  /** Both are version 5, or neither is. */
  predicate Compatible(a: byte, v: byte) {
    a == V50 <==> v == V50
  }

  /** The packet as it is read back in version `v`. */
  function AsReadIn(p: Packet, v: byte): Packet {
    AsRead(p).(version := v)
  }

  lemma PublishHeadReads(p: Packet, order: seq<PropertyId>)
    requires ValidPublish(p) && Encodes(p, order)
    ensures var from, topic, rest := MessageBytes(p, order), p.body.topic, PropBytes(p, order) + p.body.payload;
            && ReadLP(from) == Ok((topic, 2 + |topic|)) && from[2 + |topic|..] == PublishId(p) + rest
            && (if QoS(p.flags) != 0 then TakeId(PublishId(p) + rest) else (0, 0)) == (p.id.GetOr(0), |PublishId(p)|)
            && (PublishId(p) + rest)[|PublishId(p)|..] == rest
            && |from| == MessageLen(p) == 2 + |topic| + |PublishId(p)| + |rest|
  {
    hide ReadLP, TakeId, PropBytes, PropsLen, ValidTopic, HasAlias, Enumerates, ValidProps, LPOrNothing, PublishId, QoS, Dup, MessageLen, NormalMap;
    var rest := PropBytes(p, order) + p.body.payload;
    PublishSplit(p, order, []);
    assert MessageBytes(p, order) + [] == MessageBytes(p, order) && p.body.payload + [] == p.body.payload;
    LPNext(p.body.topic, PublishId(p) + rest);
    PublishIdNext(p, rest);
    PublishLen(p, order);
    PacketProps(p, order, []);
  }

  /** What reading a PUBLISH leaves to its properties and its payload. */
  function ReadRest(p: Packet, v: byte, rest: bytes): Packets.Read
    requires p.body.Publish?
  {
    var (props, k) :- MaybeProps(PUBLISH, v == V50, rest);
    if v == V50 && p.body.topic == [] && !HasAlias(props.vals) then Err(ProtocolError)
    else Ok((Packet(PUBLISH, v, p.flags, p.id, props, Publish(p.body.topic, rest[k..])), MessageLen(p)))
  }

  lemma PublishReads(p: Packet, v: byte, order: seq<PropertyId>)
    requires ValidPublish(p) && Encodes(p, order) && Supported(v)
    ensures DecodePublish(v, p.flags, MessageLen(p), MessageBytes(p, order)) ==
            if p.body.topic == [] && v != V50 then Err(RefusedServerUnavailable)
            else ReadRest(p, v, PropBytes(p, order) + p.body.payload)
  {
    hide ReadLP, TakeId, MaybeProps, PropBytes, PropsLen, ValidTopic, HasAlias, Enumerates, ValidProps, PublishId, QoS, Dup, DecodePayload, MessageLen, MessageBytes, NormalMap;
    PublishHeadReads(p, order);
    var rest := PropBytes(p, order) + p.body.payload;
    var props := MaybeProps(PUBLISH, v == V50, rest);
    if props.Ok? { PayloadIsRest(p, v, props.value.0, props.value.1, rest); }
  }

  lemma PayloadIsRest(p: Packet, v: byte, props: Props, k: nat, rest: bytes)
    requires p.body.Publish? && k <= |rest| && MessageLen(p) == 2 + |p.body.topic| + |PublishId(p)| + |rest|
    ensures DecodePayload(v, p.flags, MessageLen(p), p.body.topic, p.id, props, 2 + |p.body.topic| + |PublishId(p)| + k, rest[k..]) ==
            Ok((Packet(PUBLISH, v, p.flags, p.id, props, Publish(p.body.topic, rest[k..])), MessageLen(p)))
  {
    hide MessageLen, PublishId;
    assert rest[k..][..|rest| - k] == rest[k..];
  }

  /** What the version says about the rest of a PUBLISH. */
  lemma RestRead(p: Packet, v: byte, order: seq<PropertyId>)
    requires ValidPublish(p) && Encodes(p, order) && Supported(v) && Supported(p.version) && (p.body.topic == [] ==> v == V50)
    ensures var rest := PropBytes(p, order) + p.body.payload; var r := ReadRest(p, v, rest);
            if Compatible(p.version, v) then r == Ok((AsReadIn(p, v), MessageLen(p)))
            else r.Ok? ==> r.value.0.body.payload != p.body.payload
  {
    hide ReadProps, ValidTopic, HasAlias, Enumerates, QoS, Dup, MessageLen, BlockBytes, NormalMap, FullLen, ValidProps;
    var payload := p.body.payload;
    var rest := PropBytes(p, order) + payload;
    PacketProps(p, order, payload);
    Peel(PropBytes(p, order), payload);
    if p.version == V50 {
      BlockNotEmpty(p.props.vals, order);
    } else if v == V50 {
      assert rest == payload;
      PropsTakeBytes(PUBLISH, payload);
    } else {
      assert rest == payload && rest[0..] == rest;
      NoPropsNormal(p);
    }
  }

  lemma NoPropsNormal(p: Packet)
    requires ValidProps(p) && !CarriesProps(p)
    ensures p.props == NoProps && Normal(p.props) == NoProps
  {
    assert NormalMap(map[]) == map[];
  }

  lemma BlockNotEmpty(vals: Values, order: seq<PropertyId>)
    ensures |BlockBytes(vals, order)| > 0
  {
  }

  /** For every valid PUBLISH, every order of its properties and every two versions: written in the one and
      read in the other it comes back as the same message, its properties in normal form, exactly if both
      are version 5 or neither is; and whatever comes back has the same topic, flags and identifier. */
  lemma SameMessageExactlyIfCompatible(p: Packet, v: byte, order: seq<PropertyId>)
    requires Valid(p) && p.t == PUBLISH && Encodes(p, order) && Supported(p.version) && Supported(v)
    ensures var buf := PacketBytes(p, order); buf != [] && buf[0] >= 16 && TypeOf(buf[0] / 16) == PUBLISH
    ensures var r := Decode(v, PacketBytes(p, order));
            && ((r.Ok? && r.value.0.body == p.body) <==> Compatible(p.version, v))
            && (Compatible(p.version, v) ==> r == Ok((AsReadIn(p, v), |PacketBytes(p, order)|)))
            && (r.Ok? ==> var q := r.value.0;
                  q.t == PUBLISH && q.version == v && q.flags == p.flags && q.id == p.id && q.body.Publish? && q.body.topic == p.body.topic)
  {
    hide MessageBytes, MessageLen, ValidProps, Enumerates, VarLen, PacketBytes, Decode, DecodePublish, ValidTopic, HasAlias, QoS, Dup, ReadRest, NormalMap;
    ValidIsPublish(p);
    PublishLen(p, order);
    HeaderRoundTrip(p, v, order, []);
    assert PacketBytes(p, order) + [] == PacketBytes(p, order) && MessageBytes(p, order) + [] == MessageBytes(p, order);
    PublishReads(p, v, order);
    if !(p.body.topic == [] && v != V50) {
      RestRead(p, v, order);
      RestKeeps(p, v, PropBytes(p, order) + p.body.payload);
    } else {
      EmptyTopicIsFive(p);
    }
  }

  lemma ValidIsPublish(p: Packet)
    requires Valid(p) && p.t == PUBLISH
    ensures ValidPublish(p)
  {
    hide ValidProps, MessageLen, ValidTopic, HasAlias, QoS, Dup;
  }

  lemma EmptyTopicIsFive(p: Packet)
    requires ValidPublish(p) && Supported(p.version) && p.body.topic == []
    ensures p.version == V50
  {
    hide ValidTopic, HasAlias, QoS, Dup;
  }

  lemma RestKeeps(p: Packet, v: byte, rest: bytes)
    requires p.body.Publish?
    ensures var r := ReadRest(p, v, rest); r.Ok? ==> var q := r.value.0;
            q.t == PUBLISH && q.version == v && q.flags == p.flags && q.id == p.id && q.body.Publish? && q.body.topic == p.body.topic
  {
    hide MaybeProps, HasAlias, MessageLen;
  }

  // ---------------------------------------------------------------- an input that does not survive

  /** A 3.1.1 PUBLISH of QoS 1 to the topic "a" with the payload 0. */
  const Sample := Packet(PUBLISH, V311, 2, Some(0), NoProps, Publish([0x61], [0]))

  lemma SampleValid()
    ensures Valid(Sample) && Encodes(Sample, [])
  {
    var topic: bytes := [0x61];
    assert ValidUtf8(topic) by { AsciiIsUtf8(topic); }
    assert ValidPublish(Sample);
    assert MessageLen(Sample) == 6;
  }

  lemma ZeroIsNoBlock()
    ensures ReadProps(PUBLISH, true, [0]) == Ok((NoProps, 1))
  {
    var b: bytes := [0];
    assert Stop(b) == 0 && b[..1] == b && b[1..] == [];
    assert Wire.Value(b) == 0;
    assert Uvarint(b) == Varint(0, 1);
  }

  /** Saved on a connection and read by one of version 5, it comes back without its payload. */
  lemma SampleDamaged()
    ensures var buf := PacketBytes(Sample, []);
            && Valid(Sample) && Encodes(Sample, []) && buf != [] && buf[0] >= 16 && TypeOf(buf[0] / 16) == PUBLISH
            && Decode(V50, buf) == Ok((Packet(PUBLISH, V50, 2, Some(0), NoProps, Publish([0x61], [])), |buf|))
            && Decode(V31, buf) == Ok((Sample.(version := V31), |buf|))
  {
    SampleValid();
    hide Valid, MessageBytes, PacketBytes, Decode, DecodePublish, Encodes, ReadProps, NormalMap;
    SameMessageExactlyIfCompatible(Sample, V50, []);
    SameMessageExactlyIfCompatible(Sample, V31, []);
    PublishLen(Sample, []);
    HeaderRoundTrip(Sample, V50, [], []);
    assert PacketBytes(Sample, []) + [] == PacketBytes(Sample, []) && MessageBytes(Sample, []) + [] == MessageBytes(Sample, []);
    PublishReads(Sample, V50, []);
    ZeroIsNoBlock();
    var rest: bytes := [0];
    assert PropBytes(Sample, []) + Sample.body.payload == rest && rest[1..] == [];
    SampleNormal();
  }

  lemma SampleNormal()
    ensures AsReadIn(Sample, V31) == Sample.(version := V31)
  {
    assert NormalMap(map[]) == map[];
  }
}
