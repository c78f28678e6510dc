/** Reading a packet's bytes gives the packet back. */
module PacketRoundTrip {
  import opened Common
  import opened Wire
  import opened Properties
  import opened Packets

  // ---------------------------------------------------------------- what a valid packet is

  /** A block that fits its packet type and knows its own length; none at all where none is written. */
  ghost predicate ValidProps(p: Packet) {
    if CarriesProps(p) then WellFormed(p.t, p.props.vals) && Measured(p.props.vals, p.props.len) && p.props.len < 0x2000_0000
    else p.props == NoProps
  }

  /** The properties in the form they are read back in. */
  function Normal(props: Props): Props {
    Props(NormalMap(props.vals), props.len)
  }

  /** The packet as it is read back. */
  function AsRead(p: Packet): Packet {
    p.(props := Normal(p.props))
  }

  predicate Fits(b: bytes) {
    |b| <= MaxLPString
  }

  ghost predicate ValidPublish(p: Packet) {
    && p.t == PUBLISH && p.body.Publish? && Fits(p.body.topic) && ValidTopic(p.body.topic)
    && QoS(p.flags) != 3 && (QoS(p.flags) == 0 ==> !Dup(p.flags)) && (p.id.Some? <==> QoS(p.flags) != 0)
    && (p.body.topic == [] ==> p.version > V50 || (p.version == V50 && HasAlias(NormalMap(p.props.vals))))
  }

  ghost predicate ValidAck(p: Packet) {
    && IsAck(p.t) && p.body.Ack? && p.id.Some? && p.flags == DefaultFlags(p.t)
    && if p.version == V50 then ValidReason(p.t, p.body.reason) else p.body.reason == 0
  }

  predicate ValidFilter(v: byte, f: Filter) {
    Fits(f.topic) && ValidUtf8(f.topic) && f.ops % 4 != 3 && (v == V50 ==> f.ops < 0x40)
  }

  ghost predicate ValidSubscribe(p: Packet) {
    && p.t == SUBSCRIBE && p.body.Subscribe? && p.id.Some? && p.flags == DefaultFlags(p.t)
    && p.body.filters != [] && forall f <- p.body.filters :: ValidFilter(p.version, f)
  }

  predicate ValidOptional(present: bool, b: bytes) {
    if present then Fits(b) else b == []
  }

  predicate ValidConnectBody(v: byte, b: Body) {
    && b.Connect? && BitsError(v, b.bits).None?
    && Fits(b.clientId) && ValidClientId(b.clientId) && (b.clientId == [] ==> Clean(b.bits))
    && ValidOptional(HasWill(b.bits), b.willTopic) && ValidOptional(HasWill(b.bits), b.willMessage)
    && ValidOptional(HasUsername(b.bits), b.username) && ValidOptional(HasPassword(b.bits), b.password)
  }

  ghost predicate ValidConnect(p: Packet) {
    && p.t == CONNECT && p.id == None && p.flags == DefaultFlags(p.t) && ProtocolName(p.version).Some?
    && ValidConnectBody(p.version, p.body)
  }

  ghost predicate Valid(p: Packet) {
    && p.flags < 16 && ValidProps(p) && MessageLen(p) <= MaxRemainingLength
    && (ValidPublish(p) || ValidAck(p) || ValidSubscribe(p) || ValidConnect(p))
  }

  /** A version 5 acknowledgement without properties does not say where it ends. */
  predicate OpenEnded(p: Packet) {
    p.body.Ack? && p.version == V50 && p.props.len == 0
  }

  // ---------------------------------------------------------------- properties

  ghost predicate Sound(t: PacketType, props: Props, order: seq<PropertyId>) {
    WellFormed(t, props.vals) && Measured(props.vals, props.len) && Enumerates(order, props.vals) && props.len < 0x2000_0000
  }

  /** How a block starts, whatever follows it. */
  lemma BlockPrefix(t: PacketType, props: Props, order: seq<PropertyId>, rest: bytes)
    requires Sound(t, props, order)
    ensures var b := BlockBytes(props.vals, order) + rest;
            Uvarint(b) == Varint(props.len, VarLen(props.len)) && 0 < VarLen(props.len) <= |b|
            && b[VarLen(props.len)..] == EntryBytes(Flatten(props.vals, order)) + rest
    ensures |BlockBytes(props.vals, order)| == VarLen(props.len) + props.len == FullLen(props.len)
    ensures BlockLen(props.vals, order) == props.len
  {
    hide Uvarint, VarBytes, EntryBytes, Flatten, BlockLen, WellFormed, VarLen;
    var body := EntryBytes(Flatten(props.vals, order));
    assert BlockLen(props.vals, order) == props.len;
    BlockReads(t, props.vals, order);
    VarintRoundTrip(props.len, body + rest);
    VarBytesShape(props.len);
    VarLenSteps(props.len);
    assert BlockBytes(props.vals, order) + rest == VarBytes(props.len) + (body + rest);
  }

  lemma PropsRoundTrip(t: PacketType, props: Props, order: seq<PropertyId>, hasMap: bool, rest: bytes)
    requires Sound(t, props, order)
    ensures |BlockBytes(props.vals, order)| == FullLen(props.len)
    ensures ReadProps(t, hasMap, BlockBytes(props.vals, order) + rest) ==
            if hasMap || NormalMap(props.vals) == map[] then Ok((Normal(props), FullLen(props.len))) else Err(Panic)
  {
    hide DecodeBlock, ReadNil, BlockBytes, Uvarint, VarLen, FullLen, WellFormed, BlockLen, ReadProps, Enumerates, Measured, NormalMap;
    BlockPrefix(t, props, order, rest);
    if hasMap {
      BlockRoundTrip(t, props.vals, order, rest);
      ReadFrom(t, true, BlockBytes(props.vals, order) + rest, Decoded(NormalMap(props.vals), FullLen(props.len)), props.len);
    } else {
      NilRoundTrip(t, props, order, rest);
      if NormalMap(props.vals) == map[] {
        ReadFrom(t, false, BlockBytes(props.vals, order) + rest, Decoded(NormalMap(props.vals), FullLen(props.len)), props.len);
      } else {
        ReadNone(t, BlockBytes(props.vals, order) + rest);
      }
    }
  }

  lemma ReadFrom(t: PacketType, hasMap: bool, from: bytes, d: Decoded, len: uint32)
    requires d.n == Uvarint(from).n + len && (if hasMap then DecodeBlock(t, from) else ReadNil(t, from)) == Ok(d)
    ensures ReadProps(t, hasMap, from) == Ok((Props(d.vals, len), d.n))
  {
    hide DecodeBlock, ReadNil, Uvarint;
  }

  lemma ReadNone(t: PacketType, from: bytes)
    ensures ReadNil(t, from).Err? ==> ReadProps(t, false, from) == Err(ReadNil(t, from).error)
  {
    hide ReadNil, DecodeBlock, Uvarint;
  }

  lemma NilRoundTrip(t: PacketType, props: Props, order: seq<PropertyId>, rest: bytes)
    requires Sound(t, props, order)
    ensures ReadNil(t, BlockBytes(props.vals, order) + rest) ==
            if NormalMap(props.vals) == map[] then Ok(Decoded(map[], FullLen(props.len))) else Err(Panic)
  {
    hide DecodeOne, BlockBytes, Uvarint, VarLen, FullLen, WellFormed, BlockLen, EntryBytes, Flatten, NormalMap;
    BlockPrefix(t, props, order, rest);
    EmptyExactlyIf(t, props, order);
    if NormalMap(props.vals) != map[] {
      FirstReads(t, props, order, rest);
    }
  }

  lemma {:induction false} KeyStays(vals: Values, es: seq<Entry>, id: PropertyId)
    requires id in vals
    ensures id in StoreAll(vals, es)
    decreases |es|
  {
    if es != [] { KeyStays(Store(vals, es[0].id, es[0].item), es[1..], id); }
  }

  lemma SomethingStored(es: seq<Entry>)
    ensures StoreAll(map[], es) == map[] <==> es == []
  {
    if es != [] {
      var first := Store(map[], es[0].id, es[0].item);
      KeyStays(first, es[1..], es[0].id);
    }
  }

  lemma SomeBytes(es: seq<Entry>)
    ensures |EntryBytes(es)| == 0 <==> es == []
  {
    if es != [] { ItemBytesNotEmpty(es[0]); }
  }

  /** A block is empty exactly if nothing of it is read back. */
  lemma EmptyExactlyIf(t: PacketType, props: Props, order: seq<PropertyId>)
    requires Sound(t, props, order)
    ensures props.len == 0 <==> NormalMap(props.vals) == map[]
  {
    hide WellFormed, Flatten, EntryBytes, StoreAll, Reads, NormalMap, BlockLen;
    BlockReads(t, props.vals, order);
    assert BlockLen(props.vals, order) == props.len;
    SomethingStored(Flatten(props.vals, order));
    SomeBytes(Flatten(props.vals, order));
  }

  /** The first property of a block is one that would be stored. */
  lemma FirstReads(t: PacketType, props: Props, order: seq<PropertyId>, rest: bytes)
    requires Sound(t, props, order) && NormalMap(props.vals) != map[]
    ensures props.len > 0 && DecodeOne(t, EntryBytes(Flatten(props.vals, order)) + rest, map[]).Ok?
  {
    hide DecodeOne, Flatten, WellFormed, EntryBytes, StoreAll, Reads, Enumerates, NormalMap;
    var es := Flatten(props.vals, order);
    BlockReads(t, props.vals, order);
    EmptyExactlyIf(t, props, order);
    assert StoreAll(map[], es) != map[];
    HeadReads(t, es, rest);
  }

  lemma HeadReads(t: PacketType, es: seq<Entry>, rest: bytes)
    requires Reads(ReaderFor(t), map[], es) && StoreAll(map[], es) != map[]
    ensures |EntryBytes(es)| > 0 && DecodeOne(t, EntryBytes(es) + rest, map[]).Ok?
  {
    hide DecodeOne, ItemBytes, Store;
    ItemBytesNotEmpty(es[0]);
    var head, tail := ItemBytes(es[0].id, es[0].item), EntryBytes(es[1..]) + rest;
    assert EntryBytes(es) + rest == head + tail;
    assert ReaderFor(t)(head + tail, map[]).Ok?;
  }

  lemma ItemBytesNotEmpty(e: Entry)
    ensures |ItemBytes(e.id, e.item)| > 0
  {
  }

  ghost predicate Encodes(p: Packet, order: seq<PropertyId>) {
    ValidProps(p) && Enumerates(order, p.props.vals)
  }

  lemma PacketProps(p: Packet, order: seq<PropertyId>, rest: bytes)
    requires Encodes(p, order)
    ensures |PropBytes(p, order)| == PropsLen(p)
    ensures MaybeProps(p.t, CarriesProps(p), PropBytes(p, order) + rest) == Ok((Normal(p.props), PropsLen(p)))
  {
    hide ReadProps, WellFormed, BlockBytes, FullLen, Enumerates, Measured;
    if CarriesProps(p) {
      assert Sound(p.t, p.props, order);
      PropsRoundTrip(p.t, p.props, order, true, rest);
    }
  }

  // ---------------------------------------------------------------- one packet type at a time

  lemma Peel(w: bytes, rest: bytes)
    ensures (w + rest)[|w|..] == rest
  {
  }

  lemma IdRoundTrip(n: uint16, rest: bytes)
    ensures TakeId(U16(n) + rest) == (n, 2) && (U16(n) + rest)[2..] == rest
  {
    BigEndianRoundTrip(n, 0, rest);
  }

  lemma LPNext(b: bytes, rest: bytes)
    requires Fits(b)
    ensures ReadLP(LPOrNothing(b) + rest) == Ok((b, 2 + |b|)) && (LPOrNothing(b) + rest)[2 + |b|..] == rest
  {
    LPRoundTrip(b, rest);
  }

  function PublishId(p: Packet): bytes {
    if QoS(p.flags) != 0 then IdBytes(p.id) else []
  }

  lemma PublishIdNext(p: Packet, rest: bytes)
    requires ValidPublish(p)
    ensures (if QoS(p.flags) != 0 then TakeId(PublishId(p) + rest) else (0, 0)) == (p.id.GetOr(0), |PublishId(p)|)
    ensures (PublishId(p) + rest)[|PublishId(p)|..] == rest && |PublishId(p)| == if QoS(p.flags) != 0 then 2 else 0
  {
    hide TakeId, ValidTopic;
    if p.id.Some? { IdRoundTrip(p.id.value, rest); }
  }

  lemma PublishLen(p: Packet, order: seq<PropertyId>)
    requires ValidPublish(p) && Encodes(p, order)
    ensures |MessageBytes(p, order)| == MessageLen(p) == 2 + |p.body.topic| + |PublishId(p)| + PropsLen(p) + |p.body.payload|
  {
    hide PropBytes, PropsLen, ValidTopic, HasAlias, Enumerates, ValidProps;
    PacketProps(p, order, []);
  }

  lemma PublishRoundTrip(p: Packet, order: seq<PropertyId>, rest: bytes)
    requires ValidPublish(p) && Encodes(p, order)
    ensures |MessageBytes(p, order)| == MessageLen(p)
    ensures DecodePublish(p.version, p.flags, MessageLen(p), MessageBytes(p, order) + rest) == Ok((AsRead(p), MessageLen(p)))
  {
    hide ReadLP, TakeId, MaybeProps, PropBytes, PropsLen, ValidTopic, HasAlias, Enumerates, ValidProps, LPOrNothing, PublishId, QoS, Dup, DecodePayload, MessageLen;
    var topic := p.body.topic;
    var tail := p.body.payload + rest;
    var props := PropBytes(p, order) + tail;
    PublishSplit(p, order, rest);
    LPNext(topic, PublishId(p) + props);
    PublishIdNext(p, props);
    PacketProps(p, order, tail);
    Peel(PropBytes(p, order), tail);
    PublishLen(p, order);
    PayloadRoundTrip(p, tail, rest);
  }

  lemma PublishSplit(p: Packet, order: seq<PropertyId>, rest: bytes)
    requires p.body.Publish?
    ensures MessageBytes(p, order) + rest ==
            LPOrNothing(p.body.topic) + (PublishId(p) + (PropBytes(p, order) + (p.body.payload + rest)))
  {
    hide LPOrNothing, PropBytes, QoS, IdBytes;
    var id := PublishId(p);
    assert MessageBytes(p, order) == LPOrNothing(p.body.topic) + id + PropBytes(p, order) + p.body.payload;
  }

  lemma PayloadRoundTrip(p: Packet, tail: bytes, rest: bytes)
    requires p.t == PUBLISH && p.body.Publish? && tail == p.body.payload + rest
    ensures forall off :: 0 <= off && off + |p.body.payload| == MessageLen(p) ==>
            DecodePayload(p.version, p.flags, MessageLen(p), p.body.topic, p.id, Normal(p.props), off, tail) == Ok((AsRead(p), MessageLen(p)))
  {
    hide MessageLen;
    assert tail[..|p.body.payload|] == p.body.payload;
  }

  lemma PropsTakeBytes(t: PacketType, from: bytes)
    ensures var r := ReadProps(t, true, from); r.Ok? ==> r.value.1 > 0
  {
    hide DecodeOne, Uvarint;
  }

  /** An acknowledgement that ends the buffer, or one that brings properties. */
  lemma ClosedAckRoundTrip(p: Packet, order: seq<PropertyId>, rest: bytes)
    requires ValidAck(p) && Encodes(p, order) && p.version == V50 && p.props.len > 0
    ensures |MessageBytes(p, order)| == MessageLen(p)
    ensures DecodeAck(p.t, p.version, p.flags, MessageBytes(p, order) + rest) == Ok((AsRead(p), MessageLen(p)))
  {
    hide TakeId, MaybeProps, PropBytes, PropsLen, ValidReason, Enumerates, ValidProps, IsAck;
    var props := PropBytes(p, order) + rest;
    var tail := [p.body.reason] + props;
    assert MessageBytes(p, order) + rest == U16(p.id.value) + tail;
    IdRoundTrip(p.id.value, tail);
    assert tail[1..] == props;
    PacketProps(p, order, rest);
    LongBlock(p);
  }

  lemma LongBlock(p: Packet)
    requires CarriesProps(p) && ValidProps(p)
    ensures PropsLen(p) > 1 <==> p.props.len > 0
  {
    VarLenSteps(p.props.len);
  }

  lemma OpenAckRoundTrip(p: Packet, order: seq<PropertyId>, rest: bytes)
    requires ValidAck(p) && Encodes(p, order) && OpenEnded(p)
    ensures |MessageBytes(p, order)| == MessageLen(p)
    ensures DecodeAck(p.t, p.version, p.flags, MessageBytes(p, order) + rest) == Ok((AsRead(p), MessageLen(p))) <==> rest == []
  {
    hide TakeId, ReadProps, PropBytes, PropsLen, ValidReason, Enumerates, WellFormed, Measured, IsAck;
    LongBlock(p);
    NoPropsWhenEmpty(p, order);
    var tail := if p.body.reason != 0 then [p.body.reason] + rest else rest;
    assert MessageBytes(p, order) + rest == U16(p.id.value) + tail;
    IdRoundTrip(p.id.value, tail);
    if tail != [] {
      PropsTakeBytes(p.t, tail[1..]);
      if p.body.reason != 0 { assert tail[1..] == rest; }
    }
  }

  lemma NoPropsWhenEmpty(p: Packet, order: seq<PropertyId>)
    requires CarriesProps(p) && Encodes(p, order) && p.props.len == 0
    ensures Normal(p.props) == NoProps
  {
    hide WellFormed, Measured, Enumerates, NormalMap;
    EmptyExactlyIf(p.t, p.props, order);
  }

  /** An acknowledgement reads back as itself when it ends the buffer; when something follows it, exactly
      if it is not a version 5 one without properties. */
  lemma AckRoundTrip(p: Packet, order: seq<PropertyId>, rest: bytes)
    requires ValidAck(p) && Encodes(p, order)
    ensures |MessageBytes(p, order)| == MessageLen(p)
    ensures DecodeAck(p.t, p.version, p.flags, MessageBytes(p, order) + rest) == Ok((AsRead(p), MessageLen(p))) <==>
            rest == [] || !OpenEnded(p)
  {
    hide TakeId, MaybeProps, PropBytes, PropsLen, ValidReason, Enumerates;
    if OpenEnded(p) {
      OpenAckRoundTrip(p, order, rest);
    } else if p.version == V50 {
      ClosedAckRoundTrip(p, order, rest);
    } else {
      assert MessageBytes(p, order) + rest == U16(p.id.value) + rest;
      IdRoundTrip(p.id.value, rest);
    }
  }

  // ---------------------------------------------------------------- SUBSCRIBE

  lemma {:induction false} FiltersShape(fs: seq<Filter>)
    requires forall i | 0 <= i < |fs| :: Fits(fs[i].topic)
    ensures |FiltersBytes(fs)| == FiltersLen(fs)
  {
    if fs != [] { FiltersShape(fs[1..]); }
  }

  lemma FilterStep(v: byte, f: Filter, tail: bytes, off: nat, left: int, done: seq<Filter>)
    requires ValidFilter(v, f) && left > 0
    ensures DecodeFilters(v, FilterBytes(f) + tail, off, left, done) ==
            DecodeFilters(v, tail, off + 3 + |f.topic|, left - 3 - |f.topic|, done + [f])
  {
    hide ReadLP, ValidUtf8, LPOrNothing;
    var from := FilterBytes(f) + tail;
    assert from == LPOrNothing(f.topic) + ([f.ops] + tail);
    LPNext(f.topic, [f.ops] + tail);
    LPLen(f.topic);
    assert from[2 + |f.topic|] == f.ops;
    assert from[2 + |f.topic| + 1..] == tail;
  }

  lemma FiltersUnfold(fs: seq<Filter>, rest: bytes)
    requires fs != []
    ensures FiltersBytes(fs) + rest == FilterBytes(fs[0]) + (FiltersBytes(fs[1..]) + rest)
    ensures FiltersLen(fs) == 3 + |fs[0].topic| + FiltersLen(fs[1..])
  {
    hide FilterBytes;
    assert FiltersBytes(fs) == FilterBytes(fs[0]) + FiltersBytes(fs[1..]);
  }

  lemma NoFilters(v: byte, done: seq<Filter>, off: nat, rest: bytes)
    ensures DecodeFilters(v, FiltersBytes([]) + rest, off, FiltersLen([]), done) == Ok((done, off + FiltersLen([])))
  {
    hide ReadLP;
  }

  lemma {:induction false} FiltersRoundTrip(v: byte, done: seq<Filter>, fs: seq<Filter>, off: nat, rest: bytes)
    requires forall i {:trigger fs[i]} | 0 <= i < |fs| :: ValidFilter(v, fs[i])
    ensures DecodeFilters(v, FiltersBytes(fs) + rest, off, FiltersLen(fs), done) == Ok((done + fs, off + FiltersLen(fs)))
    decreases |fs|
  {
    hide DecodeFilters, FiltersBytes, FiltersLen, FilterBytes, ValidFilter;
    if fs == [] {
      NoFilters(v, done, off, rest);
      assert done + fs == done;
    } else {
      var f, more := fs[0], fs[1..];
      FiltersUnfold(fs, rest);
      FilterStep(v, f, FiltersBytes(more) + rest, off, FiltersLen(fs), done);
      FiltersRoundTrip(v, done + [f], more, off + 3 + |f.topic|, rest);
      assert done + [f] + more == done + fs;
    }
  }

  lemma SubscribeRoundTrip(p: Packet, order: seq<PropertyId>, rest: bytes)
    requires ValidSubscribe(p) && Encodes(p, order)
    ensures |MessageBytes(p, order)| == MessageLen(p)
    ensures DecodeSubscribe(p.version, p.flags, MessageLen(p), MessageBytes(p, order) + rest) == Ok((AsRead(p), MessageLen(p)))
  {
    hide TakeId, MaybeProps, PropBytes, PropsLen, DecodeFilters, FiltersBytes, FiltersLen, Enumerates, ValidProps;
    var fs := p.body.filters;
    var tail := FiltersBytes(fs) + rest;
    var props := PropBytes(p, order) + tail;
    assert MessageBytes(p, order) + rest == U16(p.id.value) + props;
    IdRoundTrip(p.id.value, props);
    PacketProps(p, order, tail);
    Peel(PropBytes(p, order), tail);
    assert forall i {:trigger fs[i]} | 0 <= i < |fs| :: fs[i] in fs && ValidFilter(p.version, fs[i]);
    FiltersShape(fs);
    FiltersRoundTrip(p.version, [], fs, 2 + PropsLen(p), rest);
    assert [] + fs == fs;
  }

  // ---------------------------------------------------------------- CONNECT

  lemma OptionalNext(present: bool, b: bytes, rest: bytes)
    requires ValidOptional(present, b)
    ensures TakeLP(present, OptionalLP(present, b) + rest) == Ok((b, |OptionalLP(present, b)|))
    ensures (OptionalLP(present, b) + rest)[|OptionalLP(present, b)|..] == rest
  {
    if present { LPNext(b, rest); } else { assert OptionalLP(present, b) + rest == rest; }
  }

  lemma TwoNext(first: bool, second: bool, x: bytes, y: bytes, rest: bytes)
    requires ValidOptional(first, x) && ValidOptional(second, y)
    ensures var w := OptionalLP(first, x) + OptionalLP(second, y);
            TakeTwo(first, second, w + rest) == Ok((x, y, |w|)) && (w + rest)[|w|..] == rest
  {
    hide TakeLP, OptionalLP, ValidOptional;
    var a, b := OptionalLP(first, x), OptionalLP(second, y);
    assert a + b + rest == a + (b + rest);
    OptionalNext(first, x, b + rest);
    OptionalNext(second, y, rest);
  }

  lemma ConnectPayloadRoundTrip(v: byte, b: Body, rest: bytes)
    requires ValidConnectBody(v, b)
    ensures DecodeConnectPayload(v, b.keepAlive, b.bits, ConnectPayload(b) + rest) == Ok((b, |ConnectPayload(b)|))
  {
    hide ReadLP, TakeTwo, OptionalLP, ValidOptional, HasWill, HasUsername, HasPassword, Clean, BitsError, ValidClientId, LPOrNothing;
    var will := OptionalLP(HasWill(b.bits), b.willTopic) + OptionalLP(HasWill(b.bits), b.willMessage);
    var creds := OptionalLP(HasUsername(b.bits), b.username) + OptionalLP(HasPassword(b.bits), b.password);
    assert ConnectPayload(b) + rest == LPOrNothing(b.clientId) + (will + (creds + rest));
    LPNext(b.clientId, will + (creds + rest));
    TwoNext(HasWill(b.bits), HasWill(b.bits), b.willTopic, b.willMessage, creds + rest);
    TwoNext(HasUsername(b.bits), HasPassword(b.bits), b.username, b.password, rest);
    LPLen(b.clientId);
  }

  lemma LPLen(b: bytes)
    requires Fits(b)
    ensures |LPOrNothing(b)| == 2 + |b|
  {
  }

  lemma {:induction false} AsciiIsUtf8(b: bytes)
    requires forall i | 0 <= i < |b| :: b[i] < 0x80
    ensures ValidUtf8(b)
  {
    if b != [] { AsciiIsUtf8(b[1..]); }
  }

  lemma ConnectLen(p: Packet, order: seq<PropertyId>)
    requires ValidConnect(p) && Encodes(p, order)
    ensures |MessageBytes(p, order)| == MessageLen(p) ==
            6 + |ProtocolName(p.version).value| + |PropBytes(p, order)| + |ConnectPayload(p.body)|
  {
    hide Enumerates, ValidProps, HasWill, HasUsername, HasPassword, BitsError, ValidClientId, PropBytes, PropsLen;
    PacketProps(p, order, []);
  }

  /** A CONNECT decoded for a version below 5 has no map to keep its properties in: it reads back as
      itself exactly if it has none. */
  lemma ConnectRoundTrip(p: Packet, hasMap: bool, order: seq<PropertyId>, rest: bytes)
    requires ValidConnect(p) && Encodes(p, order)
    ensures DecodeConnect(hasMap, p.flags, MessageBytes(p, order) + rest) ==
            if hasMap || NormalMap(p.props.vals) == map[] then Ok((AsRead(p), MessageLen(p))) else Err(Panic)
  {
    hide ReadLP, ValidUtf8, LP, DecodeConnectFields, ConnectTail, MessageLen, BitsError, ValidClientId, ValidOptional, ValidProps, Enumerates;
    var name := ProtocolName(p.version).value;
    ConnectSplit(p, order, rest);
    LPNext(name, ConnectTail(p, order, rest));
    AsciiIsUtf8(name);
    ConnectFields(p, hasMap, order, rest);
  }

  /** A CONNECT behind its protocol name. */
  function ConnectTail(p: Packet, order: seq<PropertyId>, rest: bytes): bytes
    requires p.body.Connect?
  {
    [p.version, p.body.bits] + U16(p.body.keepAlive) + (PropBytes(p, order) + (ConnectPayload(p.body) + rest))
  }

  lemma ConnectSplit(p: Packet, order: seq<PropertyId>, rest: bytes)
    requires p.body.Connect? && ProtocolName(p.version).Some?
    ensures MessageBytes(p, order) + rest == LPOrNothing(ProtocolName(p.version).value) + ConnectTail(p, order, rest)
  {
    hide LP, ConnectPayload, PropBytes, U16;
  }

  lemma ConnectFields(p: Packet, hasMap: bool, order: seq<PropertyId>, rest: bytes)
    requires ValidConnect(p) && Encodes(p, order)
    ensures var name := ProtocolName(p.version).value;
            DecodeConnectFields(hasMap, p.flags, name, 2 + |name|, ConnectTail(p, order, rest)) ==
            if hasMap || NormalMap(p.props.vals) == map[] then Ok((AsRead(p), MessageLen(p))) else Err(Panic)
  {
    hide ReadProps, PropBytes, PropsLen, Enumerates, ConnectPayload, DecodeConnectPayload, ReadU16, MessageLen, ValidProps, BitsError, ProtocolName;
    var payload := ConnectPayload(p.body) + rest;
    var props := PropBytes(p, order) + payload;
    var tail := ConnectTail(p, order, rest);
    assert tail[2..] == U16(p.body.keepAlive) + props && tail[4..] == props;
    BigEndianRoundTrip(p.body.keepAlive, 0, props);
    ConnectPayloadRoundTrip(p.version, p.body, rest);
    ConnectLen(p, order);
    Peel(PropBytes(p, order), payload);
    ConnectProps(p, hasMap, order, payload);
  }

  lemma ConnectProps(p: Packet, hasMap: bool, order: seq<PropertyId>, rest: bytes)
    requires p.t == CONNECT && Encodes(p, order)
    ensures |PropBytes(p, order)| == PropsLen(p)
    ensures (if p.version >= V50 then ReadProps(CONNECT, hasMap, PropBytes(p, order) + rest) else Ok((NoProps, 0))) ==
            if hasMap || NormalMap(p.props.vals) == map[] then Ok((Normal(p.props), PropsLen(p))) else Err(Panic)
  {
    hide ReadProps, WellFormed, BlockBytes, FullLen, Enumerates, Measured;
    PacketProps(p, order, rest);
    if CarriesProps(p) {
      assert Sound(p.t, p.props, order);
      PropsRoundTrip(p.t, p.props, order, hasMap, rest);
    }
  }

  // ---------------------------------------------------------------- the whole packet

  /** What decoding gives for the bytes of a valid packet with `rest` behind them. */
  lemma MessageRoundTrip(p: Packet, v: byte, order: seq<PropertyId>, rest: bytes)
    requires Valid(p) && Encodes(p, order) && (p.t == CONNECT || v == p.version)
    requires rest == [] || !OpenEnded(p)
    requires p.t == CONNECT ==> v >= V50 || NormalMap(p.props.vals) == map[]
    ensures |MessageBytes(p, order)| == MessageLen(p) && Modelled(p.t)
    ensures DecodeMessage(p.t, v, p.flags, MessageLen(p), MessageBytes(p, order) + rest) == Ok((AsRead(p), MessageLen(p)))
  {
    hide MessageBytes, MessageLen, ValidProps, Enumerates, DecodePublish, DecodeAck, DecodeSubscribe, DecodeConnect;
    if ValidPublish(p) {
      PublishRoundTrip(p, order, rest);
    } else if ValidAck(p) {
      AckRoundTrip(p, order, rest);
    } else if ValidSubscribe(p) {
      SubscribeRoundTrip(p, order, rest);
    } else {
      ConnectLen(p, order);
      ConnectRoundTrip(p, v >= V50, order, rest);
    }
  }

  /** The fixed header of a valid packet is read as it was written. */
  lemma HeaderRoundTrip(p: Packet, v: byte, order: seq<PropertyId>, rest: bytes)
    requires Valid(p) && Encodes(p, order) && |MessageBytes(p, order)| == MessageLen(p) && Modelled(p.t)
    ensures var buf := PacketBytes(p, order) + rest;
            && |PacketBytes(p, order)| == 1 + VarLen(MessageLen(p)) + MessageLen(p) && buf[0] >= 16 && TypeOf(buf[0] / 16) == p.t
            && Decode(v, buf) == var r := DecodeMessage(p.t, v, p.flags, MessageLen(p), MessageBytes(p, order) + rest);
                                 if r.Err? then Err(r.error) else Ok((r.value.0, 1 + VarLen(MessageLen(p)) + r.value.1))
  {
    hide MessageBytes, MessageLen, ValidProps, Enumerates, DecodeMessage, VarBytes, VarLen, Uvarint, PacketBytes;
    HeaderBytes(p, order, rest);
    HeaderFlags(p);
    TypeCode(p.t);
  }

  lemma TypeCode(t: PacketType)
    ensures TypeOf(Code(t)) == t
  {
  }

  lemma HeaderFlags(p: Packet)
    requires Valid(p)
    ensures p.t != PUBLISH ==> p.flags == DefaultFlags(p.t)
    ensures QoS(p.flags) != 3
  {
  }

  lemma HeaderBytes(p: Packet, order: seq<PropertyId>, rest: bytes)
    requires p.flags < 16 && |MessageBytes(p, order)| == MessageLen(p) <= MaxRemainingLength
    ensures var buf, n := PacketBytes(p, order) + rest, VarLen(MessageLen(p));
            && |PacketBytes(p, order)| == 1 + n + MessageLen(p) && buf[0] == Code(p.t) * 16 + p.flags
            && n > 0 && Uvarint(buf[1..]) == Varint(MessageLen(p), n) && buf[1..][n..] == MessageBytes(p, order) + rest
  {
    hide MessageBytes, MessageLen, VarBytes, VarLen, Uvarint;
    var msg := MessageBytes(p, order);
    var buf := PacketBytes(p, order) + rest;
    assert buf[1..] == VarBytes(|msg|) + (msg + rest);
    VarBytesShape(|msg|);
    VarintRoundTrip(|msg|, msg + rest);
    Peel(VarBytes(|msg|), msg + rest);
  }

  /** For every valid CONNECT, PUBLISH, SUBSCRIBE and acknowledgement, for every order in which its
      properties are written and whatever follows it: the packet takes as many bytes as its size says,
      and reading them returns the same packet and that many bytes. */
  lemma PacketsRoundTrip(p: Packet, v: byte, order: seq<PropertyId>, rest: bytes)
    requires Valid(p) && Encodes(p, order) && (p.t == CONNECT || v == p.version)
    requires rest == [] || !OpenEnded(p)
    requires p.t == CONNECT ==> v >= V50 || NormalMap(p.props.vals) == map[]
    ensures Size(p) == Ok(|PacketBytes(p, order)|) && Modelled(p.t)
    ensures var buf := PacketBytes(p, order) + rest;
            buf[0] >= 16 && TypeOf(buf[0] / 16) == p.t && Decode(v, buf) == Ok((AsRead(p), |PacketBytes(p, order)|))
  {
    hide MessageBytes, MessageLen, ValidProps, Enumerates, DecodeMessage, VarLen, PacketBytes, Decode;
    MessageRoundTrip(p, v, order, rest);
    HeaderRoundTrip(p, v, order, rest);
  }

  /** Both conditions are needed. A version 5 acknowledgement without properties with anything behind it
      does not read back as itself, and a CONNECT with properties decoded for a version below 5 fails. */
  lemma PacketsThatDoNot(p: Packet, v: byte, order: seq<PropertyId>, rest: bytes)
    requires Valid(p) && Encodes(p, order) && (p.t == CONNECT || v == p.version)
    requires (rest != [] && OpenEnded(p)) || (p.t == CONNECT && v < V50 && NormalMap(p.props.vals) != map[])
    ensures var buf := PacketBytes(p, order) + rest;
            && buf[0] >= 16 && Modelled(TypeOf(buf[0] / 16))
            && Decode(v, buf) != Ok((AsRead(p), |PacketBytes(p, order)|))
            && (p.t == CONNECT ==> Decode(v, buf) == Err(Panic))
  {
    hide MessageBytes, MessageLen, ValidProps, Enumerates, VarLen, PacketBytes, Decode, DecodeConnect, DecodeAck;
    if p.t == CONNECT {
      ConnectLen(p, order);
      ConnectRoundTrip(p, false, order, rest);
    } else {
      AckRoundTrip(p, order, rest);
    }
    HeaderRoundTrip(p, v, order, rest);
  }

  /** `decode` is packet.Decode for version `v`, wherever the model covers it. */
  ghost predicate DecodesFor(v: byte, decode: bytes -> Result<Packet>) {
    forall b: bytes {:trigger decode(b)} | b != [] && Modelled(TypeOf(b[0] / 16)) ::
      decode(b) == match Decode(v, b) case Ok((p, _)) => Ok(p) case Err(e) => Err(e)
  }
}
