/** Writing packets into buffers, and the loop that reads the filters of a SUBSCRIBE. */
module PacketWriter {
  import opened Common
  import opened Wire
  import opened Properties
  import opened PropertyBlock
  import opened Packets
  import opened PacketRoundTrip

  /** Nothing has been written from `off` on. */
  predicate Zero(b: bytes, off: nat) {
    forall i | off <= i < |b| :: b[i] == 0
  }

  /** `w` has been written at `off` into a buffer that is still empty behind it. */
  predicate Filled(before: bytes, after: bytes, off: nat, w: bytes) {
    Wrote(before, after, off, w) && Zero(after, off + |w|)
  }

  lemma FilledNext(a: bytes, b: bytes, c: bytes, off: nat, v: bytes, w: bytes)
    requires Filled(a, b, off, v) && Wrote(b, c, off + |v|, w)
    ensures Filled(a, c, off, v + w)
  {
    WroteNext(a, b, c, off, v, w);
  }

  lemma FilledFirst(a: bytes, b: bytes, off: nat, w: bytes)
    requires Zero(a, off) && Wrote(a, b, off, w)
    ensures Filled(a, b, off, w)
  {
  }

  /** What encoding refuses, before or while it writes. */
  function EncodeError(p: Packet): Option<Error> {
    match p.body
    case Publish(topic, _) =>
      if !ValidTopic(topic) then Some(InvalidTopic)
      else if QoS(p.flags) == 3 then Some(InvalidQoS)
      else if QoS(p.flags) == 0 && Dup(p.flags) then Some(DupViolation)
      else if QoS(p.flags) != 0 && p.id.None? then Some(PacketIdZero)
      else if !Fits(topic) then Some(InvalidLPStringSize)
      else None
    case Ack(_) => if p.id.None? then Some(PacketIdZero) else None
    case Subscribe(fs) =>
      if p.id.None? then Some(PacketIdZero)
      else if exists f <- fs :: !Fits(f.topic) then Some(InvalidLPStringSize)
      else None
    case Connect(_, bits, clientId, willTopic, willMessage, username, password) =>
      if ProtocolName(p.version).None? then Some(InvalidProtocolVersion)
      else if !Fits(clientId) || (HasWill(bits) && !(Fits(willTopic) && Fits(willMessage)))
           || (HasUsername(bits) && !Fits(username)) || (HasPassword(bits) && !Fits(password)) then Some(InvalidLPStringSize)
      else None
  }

  /** A property block that knows its length; its values may have any form the encoders take. */
  ghost predicate Settled(p: Packet) {
    CarriesProps(p) ==>
      Measured(p.props.vals, p.props.len) && AllCounted(p.props.vals) && p.props.len + VarLen(p.props.len) < 0x1_0000_0000
  }

  ghost predicate Ordered(p: Packet, order: seq<PropertyId>) {
    Enumerates(order, p.props.vals)
  }

  /** What the properties fall short of their calculated length, because of strings that do not fit. */
  function Missing(p: Packet, order: seq<PropertyId>): int {
    PropsLen(p) - |PropBytes(p, order)|
  }

  /** The message has been written, as long as calculated but for what is missing. */
  ghost predicate Written(p: Packet, order: seq<PropertyId>, before: bytes, after: bytes, off: nat, n: nat) {
    Ordered(p, order) && n == |MessageBytes(p, order)| && n + Missing(p, order) == MessageLen(p)
    && Missing(p, order) >= 0 && Wrote(before, after, off, MessageBytes(p, order))
  }

  /** A packet whose properties can be read back is written in full. */
  lemma NothingMissing(p: Packet, order: seq<PropertyId>)
    requires ValidProps(p) && Ordered(p, order)
    ensures Settled(p) && Missing(p, order) == 0 && Encodes(p, order)
  {
    hide WellFormed, Measured, PropBytes, PropsLen, Enumerates, VarLen;
    assert Encodes(p, order);
    PacketProps(p, order, []);
    if CarriesProps(p) {
      WellFormedCounted(p.t, p.props.vals);
      VarLenSteps(p.props.len);
    }
  }

  /** A buffer that holds the message exactly and nothing behind `off` yet. */
  ghost predicate Ready(p: Packet, to: array<byte>, off: nat)
    reads to
  {
    Settled(p) && off + MessageLen(p) == to.Length && Zero(to[..], off)
  }

  method EncodeProps(p: Packet, to: array<byte>, off: nat) returns (n: nat, ghost order: seq<PropertyId>)
    requires Settled(p) && off + PropsLen(p) <= to.Length && Zero(to[..], off)
    modifies to
    ensures Ordered(p, order) && n == |PropBytes(p, order)| && n + Missing(p, order) == PropsLen(p) && Missing(p, order) >= 0
    ensures Wrote(old(to[..]), to[..], off, PropBytes(p, order))
  {
    hide VarBytes, BlockLen, BlockBytes, AllCounted, Prefixed, EntryBytes, Flatten;
    if !CarriesProps(p) {
      WroteNothing(to[..], off);
      order := AnyOrder(p);
      return 0, order;
    }
    VarBytesShape(p.props.len);
    KnownLengthHasRoom(p.props.vals, p.props.len);
    var err;
    n, err, order := EncodeBlock(p.props.vals, p.props.len, to, off);
    assert |Prefixed(p.props.vals, p.props.len, order)| <= PropsLen(p);
    if p.props.len == 0 {
      assert BlockLen(p.props.vals, order) == 0;
      OneByteBlock(p.props.vals, order);
      assert to[off] == to[..][off] == 0;
      assert Wrote(to[..], to[..], off, [0]);
    }
  }

  lemma OneByteBlock(vals: Values, order: seq<PropertyId>)
    requires BlockLen(vals, order) == 0 && |BlockBytes(vals, order)| <= 1
    ensures BlockBytes(vals, order) == [0]
  {
  }

  method EncodeId(to: array<byte>, off: nat, id: Option<uint16>) returns (n: nat)
    requires off + |IdBytes(id)| <= to.Length
    modifies to
    ensures n == |IdBytes(id)| && Wrote(old(to[..]), to[..], off, IdBytes(id))
  {
    if id.None? {
      WroteNothing(to[..], off);
      return 0;
    }
    PutU16(to, off, id.value);
    n := 2;
  }

  /** The topic and, for the QoS levels that have one, the packet identifier. */
  method EncodeTopic(p: Packet, to: array<byte>, off: nat) returns (n: nat, err: Option<Error>)
    requires p.body.Publish? && Zero(to[..], off) && (QoS(p.flags) != 0 ==> p.id.Some?)
    requires off + 2 + |p.body.topic| + |PublishId(p)| <= to.Length
    modifies to
    ensures err == if Fits(p.body.topic) then None else Some(InvalidLPStringSize)
    ensures err.None? ==> n == |LP(p.body.topic) + PublishId(p)| == 2 + |p.body.topic| + |PublishId(p)|
                          && Filled(old(to[..]), to[..], off, LP(p.body.topic) + PublishId(p))
  {
    hide Wrote, Zero, Filled, QoS, LP;
    ghost var a := to[..];
    n, err := WriteLP(to, off, p.body.topic);
    if err.Some? {
      return 0, Some(InvalidLPStringSize);
    }
    LPSize(p.body.topic);
    ghost var b := to[..];
    FilledFirst(a, b, off, LP(p.body.topic));
    var k := EncodeId(to, off + n, if QoS(p.flags) != 0 then p.id else None);
    FilledNext(a, b, to[..], off, LP(p.body.topic), PublishId(p));
    n := n + k;
  }

  method EncodePublish(p: Packet, to: array<byte>, off: nat) returns (n: nat, err: Option<Error>, ghost order: seq<PropertyId>)
    requires p.body.Publish? && Ready(p, to, off)
    modifies to
    ensures err == EncodeError(p)
    ensures err.None? ==> Written(p, order, old(to[..]), to[..], off, n)
  {
    hide ValidTopic, PropsLen, PropBytes, Settled, Ordered, Wrote, Zero, Filled, QoS, Dup, LP;
    n, err, order := 0, EncodeError(p), [];
    if err.Some? && err.value != InvalidLPStringSize {
      return;
    }
    ghost var a := to[..];
    n, err := EncodeTopic(p, to, off);
    if err.Some? {
      return;
    }
    ghost var w, b := LP(p.body.topic) + PublishId(p), to[..];
    FilledZero(a, b, off, w);
    var k;
    k, order := EncodeProps(p, to, off + n);
    n := n + k;
    ghost var c := to[..];
    WroteNext(a, b, c, off, w, PropBytes(p, order));
    PutBytes(to, off + n, p.body.payload);
    WroteNext(a, c, to[..], off, w + PropBytes(p, order), p.body.payload);
    n := n + |p.body.payload|;
  }

  method EncodeAck(p: Packet, to: array<byte>, off: nat) returns (n: nat, err: Option<Error>, ghost order: seq<PropertyId>)
    requires p.body.Ack? && IsAck(p.t) && Ready(p, to, off)
    modifies to
    ensures err == EncodeError(p)
    ensures err.None? ==> Written(p, order, old(to[..]), to[..], off, n)
  {
    hide Wrote, Zero, Filled, PropBytes, Ordered, Missing, Measured, AllCounted, VarLen, Settled, PropsLen, AckRest;
    n, err, order := 0, None, [];
    if p.id.None? {
      return 0, Some(PacketIdZero), [];
    }
    ghost var a := to[..];
    n := EncodeId(to, off, p.id);
    ghost var w, b := IdBytes(p.id), to[..];
    FilledFirst(a, b, off, w);
    FilledZero(a, b, off, w);
    AckSplit(p);
    if p.version == V50 && (PropsLen(p) > 1 || p.body.reason != 0) {
      var k;
      k, order := EncodeReason(p, to, off + n);
      n := n + k;
      WroteNext(a, b, to[..], off, w, AckRest(p, order));
    } else {
      order := AnyOrder(p);
      assert w + [] == w;
    }
  }

  /** An acknowledgement behind its identifier. */
  function AckRest(p: Packet, order: seq<PropertyId>): bytes
    requires p.body.Ack?
  {
    [p.body.reason] + (if p.props.len > 0 then PropBytes(p, order) else [])
  }

  /** What an acknowledgement is made of, and how long. */
  lemma AckSplit(p: Packet)
    requires p.body.Ack? && IsAck(p.t) && Settled(p) && p.id.Some?
    ensures forall order {:trigger MessageBytes(p, order)} | Ordered(p, order) ::
              if p.version == V50 && (PropsLen(p) > 1 || p.body.reason != 0)
              then MessageBytes(p, order) == IdBytes(p.id) + AckRest(p, order)
              else MessageBytes(p, order) == IdBytes(p.id) && MessageLen(p) == 2 && Missing(p, order) == 0
    ensures p.version == V50 && (PropsLen(p) > 1 || p.body.reason != 0) ==>
              MessageLen(p) == 3 + if p.props.len > 0 then PropsLen(p) else 0
  {
    hide Measured, AllCounted, BlockBytes, Ordered;
    if p.version == V50 { LongSettled(p); }
    forall order | Ordered(p, order)
      ensures if p.version == V50 && (PropsLen(p) > 1 || p.body.reason != 0)
              then MessageBytes(p, order) == IdBytes(p.id) + AckRest(p, order)
              else MessageBytes(p, order) == IdBytes(p.id) && MessageLen(p) == 2 && Missing(p, order) == 0
    {
      if p.version == V50 { assert p.props.len == 0 ==> Missing(p, order) == 0; }
    }
  }

  /** The reason and, if there are any, the properties. */
  method EncodeReason(p: Packet, to: array<byte>, off: nat) returns (n: nat, ghost order: seq<PropertyId>)
    requires p.body.Ack? && IsAck(p.t) && p.version == V50 && Settled(p) && Zero(to[..], off)
    requires off + 1 + (if p.props.len > 0 then PropsLen(p) else 0) <= to.Length
    modifies to
    ensures Ordered(p, order) && n == |AckRest(p, order)| && Wrote(old(to[..]), to[..], off, AckRest(p, order))
    ensures n + Missing(p, order) == 1 + (if p.props.len > 0 then PropsLen(p) else 0) && Missing(p, order) >= 0
  {
    hide Wrote, Zero, Filled, PropBytes, Ordered, Missing, Settled, PropsLen;
    ghost var a := to[..];
    to[off] := p.body.reason;
    ghost var b := to[..];
    OneByte(a, b, off, p.body.reason);
    FilledFirst(a, b, off, [p.body.reason]);
    FilledZero(a, b, off, [p.body.reason]);
    LongSettled(p);
    if PropsLen(p) > 1 {
      var k;
      k, order := EncodeProps(p, to, off + 1);
      WroteNext(a, b, to[..], off, [p.body.reason], PropBytes(p, order));
      n := 1 + k;
    } else {
      order := AnyOrder(p);
      n := 1;
      assert [p.body.reason] + [] == [p.body.reason];
    }
  }

  /** Some order in which the properties may be enumerated. */
  lemma AnyOrder(p: Packet) returns (order: seq<PropertyId>)
    ensures Ordered(p, order)
  {
    order := Extend(p.props.vals, []);
    assert [] + order == order;
  }

  lemma LongSettled(p: Packet)
    requires CarriesProps(p) && Settled(p)
    ensures PropsLen(p) > 1 <==> p.props.len > 0
    ensures p.props.len == 0 ==> forall order | Ordered(p, order) :: Missing(p, order) == 0
  {
    hide Measured, AllCounted, EntryBytes, Flatten, BlockLen;
    VarBytesShape(p.props.len);
    if p.props.len == 0 {
      forall order | Ordered(p, order) ensures Missing(p, order) == 0 {
        ZeroMeasured(p.props.vals, order);
        BlockNoLonger(p.props.vals, order);
      }
    }
  }

  lemma ZeroMeasured(vals: Values, order: seq<PropertyId>)
    requires Measured(vals, 0) && Enumerates(order, vals)
    ensures BlockLen(vals, order) == 0
  {
  }

  lemma OneByte(a: bytes, b: bytes, off: nat, c: byte)
    requires off < |a| && b == a[off := c]
    ensures Wrote(a, b, off, [c])
  {
  }

  // ---------------------------------------------------------------- SUBSCRIBE

  lemma {:induction false} FiltersSnoc(fs: seq<Filter>, f: Filter)
    ensures FiltersBytes(fs + [f]) == FiltersBytes(fs) + FilterBytes(f)
    ensures FiltersLen(fs + [f]) == FiltersLen(fs) + 3 + |f.topic|
  {
    hide FilterBytes;
    if fs == [] {
      assert fs + [f] == [f] && [f][1..] == [];
      assert FiltersBytes([f]) == FilterBytes(f) + [];
    } else {
      var g, more := fs[0], fs[1..];
      assert (fs + [f])[0] == g && (fs + [f])[1..] == more + [f];
      FiltersSnoc(more, f);
      assert FilterBytes(g) + (FiltersBytes(more) + FilterBytes(f)) == FilterBytes(g) + FiltersBytes(more) + FilterBytes(f);
    }
  }

  lemma {:induction false} FiltersLenConcat(a: seq<Filter>, b: seq<Filter>)
    ensures FiltersLen(a + b) == FiltersLen(a) + FiltersLen(b)
  {
    if a == [] {
      assert a + b == b;
    } else {
      assert (a + b)[0] == a[0] && (a + b)[1..] == a[1..] + b;
      FiltersLenConcat(a[1..], b);
    }
  }

  lemma FiltersNext(fs: seq<Filter>, i: nat)
    requires i < |fs|
    ensures FiltersBytes(fs[..i + 1]) == FiltersBytes(fs[..i]) + FilterBytes(fs[i])
    ensures FiltersLen(fs[..i + 1]) == FiltersLen(fs[..i]) + 3 + |fs[i].topic| <= FiltersLen(fs)
  {
    hide FiltersBytes, FiltersLen, FilterBytes;
    var a, b := fs[..i + 1], fs[i + 1..];
    assert a == fs[..i] + [fs[i]];
    assert fs == a + b;
    FiltersSnoc(fs[..i], fs[i]);
    FiltersLenConcat(a, b);
  }

  method EncodeFilter(to: array<byte>, off: nat, f: Filter) returns (n: nat, err: Option<Error>)
    requires off + 3 + |f.topic| <= to.Length
    modifies to
    ensures err == if Fits(f.topic) then None else Some(InvalidLPStringSize)
    ensures err.None? ==> n == 3 + |f.topic| == |FilterBytes(f)| && Wrote(old(to[..]), to[..], off, FilterBytes(f))
  {
    ghost var a := to[..];
    n, err := WriteLP(to, off, f.topic);
    if err.Some? {
      return 0, Some(InvalidLPStringSize);
    }
    ghost var b := to[..];
    to[off + n] := f.ops;
    OneByte(b, to[..], off + n, f.ops);
    WroteNext(a, b, to[..], off, LPOrNothing(f.topic), [f.ops]);
    n := n + 1;
  }

  method EncodeFilters(to: array<byte>, off: nat, fs: seq<Filter>) returns (n: nat, err: Option<Error>)
    requires off + FiltersLen(fs) <= to.Length
    modifies to
    ensures err == if exists f <- fs :: !Fits(f.topic) then Some(InvalidLPStringSize) else None
    ensures err.None? ==> n == FiltersLen(fs) == |FiltersBytes(fs)| && Wrote(old(to[..]), to[..], off, FiltersBytes(fs))
  {
    hide FiltersLen, FiltersBytes, FilterBytes, Wrote;
    ghost var a := to[..];
    NoFilterBytes();
    WroteNothing(a, off);
    n := 0;
    for i := 0 to |fs|
      invariant forall j | 0 <= j < i :: Fits(fs[j].topic)
      invariant n == FiltersLen(fs[..i]) == |FiltersBytes(fs[..i])| && Wrote(a, to[..], off, FiltersBytes(fs[..i]))
    {
      FiltersNext(fs, i);
      ghost var b := to[..];
      var k;
      k, err := EncodeFilter(to, off + n, fs[i]);
      if err.Some? {
        assert fs[i] in fs;
        return;
      }
      WroteNext(a, b, to[..], off, FiltersBytes(fs[..i]), FilterBytes(fs[i]));
      n := n + k;
    }
    assert fs[..|fs|] == fs;
    assert forall f <- fs :: Fits(f.topic);
    err := None;
  }

  lemma NoFilterBytes()
    ensures FiltersBytes([]) == [] && FiltersLen([]) == 0
  {
  }

  method EncodeSubscribe(p: Packet, to: array<byte>, off: nat) returns (n: nat, err: Option<Error>, ghost order: seq<PropertyId>)
    requires p.body.Subscribe? && Ready(p, to, off)
    modifies to
    ensures err == EncodeError(p)
    ensures err.None? ==> Written(p, order, old(to[..]), to[..], off, n)
  {
    hide PropsLen, PropBytes, Settled, Ordered, Wrote, Zero, Filled, FiltersLen, FiltersBytes;
    n, err, order := 0, None, [];
    if p.id.None? {
      return 0, Some(PacketIdZero), [];
    }
    var k;
    ghost var a := to[..];
    n := EncodeId(to, off, p.id);
    ghost var b := to[..];
    FilledFirst(a, b, off, IdBytes(p.id));
    FilledZero(a, b, off, IdBytes(p.id));
    k, order := EncodeProps(p, to, off + n);
    n := n + k;
    ghost var c := to[..];
    FilledNext(a, b, c, off, IdBytes(p.id), PropBytes(p, order));
    k, err := EncodeFilters(to, off + n, p.body.filters);
    if err.Some? {
      return;
    }
    n := n + k;
    FilledNext(a, c, to[..], off, IdBytes(p.id) + PropBytes(p, order), FiltersBytes(p.body.filters));
    FilledZero(a, to[..], off, MessageBytes(p, order));
  }

  /** The loop of Subscribe.decodeMessage over the rest of the buffer. */
  method ReadFilters(v: byte, from: bytes, start: nat, remLen: int) returns (r: Result<(seq<Filter>, nat)>)
    requires start <= |from|
    ensures r == DecodeFilters(v, from[start..], start, remLen, [])
  {
    hide ReadLP, ValidUtf8;
    var offset, left := start, remLen;
    var fs: seq<Filter> := [];
    while left > 0
      invariant offset <= |from|
      invariant DecodeFilters(v, from[offset..], offset, left, fs) == DecodeFilters(v, from[start..], start, remLen, [])
      decreases |from| - offset
    {
      var reject := if v <= V50 then RefusedServerUnavailable else ProtocolError;
      var lp := ReadLP(from[offset..]);
      if lp.Err? {
        return Err(lp.error);
      }
      var (t, n) := lp.value;
      if !ValidUtf8(t) {
        return Err(reject);
      }
      if offset + n == |from| {
        return Err(Panic);
      }
      var ops := from[offset + n];
      if v == V50 && ops >= 0x40 {
        return Err(ProtocolError);
      }
      if ops % 4 == 3 {
        return Err(reject);
      }
      assert from[offset..][n + 1..] == from[offset + n + 1..];
      fs := fs + [Filter(t, ops)];
      offset, left := offset + n + 1, left - n - 1;
    }
    return Ok((fs, offset));
  }

  // ---------------------------------------------------------------- CONNECT

  function OptionalLen(present: bool, b: bytes): nat {
    if present then 2 + |b| else 0
  }

  method EncodeOptional(to: array<byte>, off: nat, present: bool, b: bytes) returns (n: nat, err: Option<Error>)
    requires off + OptionalLen(present, b) <= to.Length
    modifies to
    ensures err == if present && !Fits(b) then Some(InvalidLPStringSize) else None
    ensures err.None? ==> n == OptionalLen(present, b) == |OptionalLP(present, b)| && Wrote(old(to[..]), to[..], off, OptionalLP(present, b))
  {
    if !present {
      WroteNothing(to[..], off);
      return 0, None;
    }
    n, err := WriteLP(to, off, b);
    if err.Some? {
      return 0, Some(InvalidLPStringSize);
    }
  }

  method EncodeConnectHead(p: Packet, to: array<byte>, off: nat) returns (n: nat, ghost order: seq<PropertyId>)
    requires p.body.Connect? && ProtocolName(p.version).Some? && Settled(p) && Zero(to[..], off)
    requires off + 6 + |ProtocolName(p.version).value| + PropsLen(p) <= to.Length
    modifies to
    ensures Ordered(p, order) && n == |ConnectHead(p, order)| && n + Missing(p, order) == 6 + |ProtocolName(p.version).value| + PropsLen(p)
    ensures Missing(p, order) >= 0
    ensures Wrote(old(to[..]), to[..], off, ConnectHead(p, order))
  {
    hide PropsLen, PropBytes, Settled, Ordered, Wrote, Zero, Filled, LP, U16;
    var name := ProtocolName(p.version).value;
    ghost var a := to[..];
    var err;
    n, err := WriteLP(to, off, name);
    ghost var b := to[..];
    FilledFirst(a, b, off, LP(name));
    LPSize(name);
    n := EncodeFixed(to, off, n, p.version, p.body.bits, p.body.keepAlive, a, LP(name));
    ghost var w := LP(name) + [p.version, p.body.bits] + U16(p.body.keepAlive);
    ghost var c := to[..];
    FilledZero(a, c, off, w);
    var k;
    k, order := EncodeProps(p, to, off + n);
    n := n + k;
    FilledNext(a, c, to[..], off, w, PropBytes(p, order));
    FilledZero(a, to[..], off, ConnectHead(p, order));
  }

  lemma LPSize(b: bytes)
    requires Fits(b)
    ensures |LP(b)| == 2 + |b|
  {
  }

  /** The version, the connect flags and the keep-alive. */
  method EncodeFixed(to: array<byte>, off: nat, done: nat, version: byte, bits: byte, keepAlive: uint16, ghost a: bytes, ghost w: bytes)
    returns (n: nat)
    requires done == |w| && off + done + 4 <= to.Length && Filled(a, to[..], off, w)
    modifies to
    ensures n == done + 4 == |w + [version, bits] + U16(keepAlive)| && Filled(a, to[..], off, w + [version, bits] + U16(keepAlive))
  {
    FilledZero(a, to[..], off, w);
    hide Filled, Zero, U16;
    ghost var b := to[..];
    to[off + done] := version;
    to[off + done + 1] := bits;
    ghost var c := to[..];
    assert Wrote(b, c, off + done, [version, bits]);
    hide Wrote;
    PutU16(to, off + done + 2, keepAlive);
    FilledNext(a, b, c, off, w, [version, bits]);
    FilledNext(a, c, to[..], off, w + [version, bits], U16(keepAlive));
    n := done + 4;
  }

  predicate ConnectFits(b: Body)
    requires b.Connect?
  {
    && Fits(b.clientId) && (HasWill(b.bits) ==> Fits(b.willTopic) && Fits(b.willMessage))
    && (HasUsername(b.bits) ==> Fits(b.username)) && (HasPassword(b.bits) ==> Fits(b.password))
  }

  method EncodeConnectPayload(b: Body, to: array<byte>, off: nat) returns (n: nat, err: Option<Error>)
    requires b.Connect?
    requires off + 2 + |b.clientId| + OptionalLen(HasWill(b.bits), b.willTopic) + OptionalLen(HasWill(b.bits), b.willMessage)
             + OptionalLen(HasUsername(b.bits), b.username) + OptionalLen(HasPassword(b.bits), b.password) <= to.Length
    modifies to
    ensures err == if ConnectFits(b) then None else Some(InvalidLPStringSize)
    ensures err.None? ==> n == |ConnectPayload(b)| && Wrote(old(to[..]), to[..], off, ConnectPayload(b))
  {
    hide Wrote, OptionalLP, LPOrNothing, HasWill, HasUsername, HasPassword, Fits;
    ghost var a := to[..];
    n, err := EncodeClient(to, off, b);
    if err.Some? {
      return;
    }
    ghost var x := to[..];
    var k;
    k, err := EncodeCredentials(to, off + n, b);
    if err.Some? {
      return;
    }
    n := n + k;
    ghost var u, p := OptionalLP(HasUsername(b.bits), b.username), OptionalLP(HasPassword(b.bits), b.password);
    WroteNext(a, x, to[..], off, ClientBytes(b), u + p);
    assert ConnectPayload(b) == ClientBytes(b) + (u + p);
  }

  function ClientBytes(b: Body): bytes
    requires b.Connect?
  {
    LPOrNothing(b.clientId) + (OptionalLP(HasWill(b.bits), b.willTopic) + OptionalLP(HasWill(b.bits), b.willMessage))
  }

  method EncodeClient(to: array<byte>, off: nat, b: Body) returns (n: nat, err: Option<Error>)
    requires b.Connect?
    requires off + 2 + |b.clientId| + OptionalLen(HasWill(b.bits), b.willTopic) + OptionalLen(HasWill(b.bits), b.willMessage) <= to.Length
    modifies to
    ensures err == if Fits(b.clientId) && (HasWill(b.bits) ==> Fits(b.willTopic) && Fits(b.willMessage)) then None else Some(InvalidLPStringSize)
    ensures err.None? ==> n == |ClientBytes(b)| == 2 + |b.clientId| + OptionalLen(HasWill(b.bits), b.willTopic) + OptionalLen(HasWill(b.bits), b.willMessage)
    ensures err.None? ==> Wrote(old(to[..]), to[..], off, ClientBytes(b))
  {
    hide Wrote, OptionalLP, LPOrNothing, HasWill, OptionalLen, Fits;
    ghost var a := to[..];
    SameLP(b.clientId);
    n, err := EncodeOptional(to, off, true, b.clientId);
    if err.Some? {
      return;
    }
    ghost var x := to[..];
    var k;
    k, err := EncodeWill(to, off + n, b);
    if err.Some? {
      return;
    }
    ghost var will := OptionalLP(HasWill(b.bits), b.willTopic) + OptionalLP(HasWill(b.bits), b.willMessage);
    WroteNext(a, x, to[..], off, LPOrNothing(b.clientId), will);
    n := n + k;
    ClientLength(b);
  }

  lemma ClientLength(b: Body)
    requires b.Connect? && Fits(b.clientId) && (HasWill(b.bits) ==> Fits(b.willTopic) && Fits(b.willMessage))
    ensures |ClientBytes(b)| == 2 + |b.clientId| + OptionalLen(HasWill(b.bits), b.willTopic) + OptionalLen(HasWill(b.bits), b.willMessage)
  {
    hide HasWill;
  }

  method EncodeCredentials(to: array<byte>, off: nat, b: Body) returns (n: nat, err: Option<Error>)
    requires b.Connect? && off + OptionalLen(HasUsername(b.bits), b.username) + OptionalLen(HasPassword(b.bits), b.password) <= to.Length
    modifies to
    ensures err == if (HasUsername(b.bits) ==> Fits(b.username)) && (HasPassword(b.bits) ==> Fits(b.password)) then None else Some(InvalidLPStringSize)
    ensures err.None? ==> var w := OptionalLP(HasUsername(b.bits), b.username) + OptionalLP(HasPassword(b.bits), b.password);
                          n == |w| && Wrote(old(to[..]), to[..], off, w)
  {
    hide Wrote, OptionalLP, HasUsername, HasPassword;
    ghost var a := to[..];
    n, err := EncodeOptional(to, off, HasUsername(b.bits), b.username);
    if err.Some? {
      return;
    }
    ghost var x := to[..];
    var k;
    k, err := EncodeOptional(to, off + n, HasPassword(b.bits), b.password);
    if err.Some? {
      return;
    }
    WroteNext(a, x, to[..], off, OptionalLP(HasUsername(b.bits), b.username), OptionalLP(HasPassword(b.bits), b.password));
    n := n + k;
  }

  method EncodeWill(to: array<byte>, off: nat, b: Body) returns (n: nat, err: Option<Error>)
    requires b.Connect? && off + OptionalLen(HasWill(b.bits), b.willTopic) + OptionalLen(HasWill(b.bits), b.willMessage) <= to.Length
    modifies to
    ensures err == if HasWill(b.bits) && !(Fits(b.willTopic) && Fits(b.willMessage)) then Some(InvalidLPStringSize) else None
    ensures err.None? ==> n == OptionalLen(HasWill(b.bits), b.willTopic) + OptionalLen(HasWill(b.bits), b.willMessage)
    ensures err.None? ==> var w := OptionalLP(HasWill(b.bits), b.willTopic) + OptionalLP(HasWill(b.bits), b.willMessage);
                          n == |w| && Wrote(old(to[..]), to[..], off, w)
  {
    hide Wrote, OptionalLP, HasWill;
    ghost var a := to[..];
    n, err := EncodeOptional(to, off, HasWill(b.bits), b.willTopic);
    if err.Some? {
      return;
    }
    ghost var x := to[..];
    var k;
    k, err := EncodeOptional(to, off + n, HasWill(b.bits), b.willMessage);
    if err.Some? {
      return;
    }
    WroteNext(a, x, to[..], off, OptionalLP(HasWill(b.bits), b.willTopic), OptionalLP(HasWill(b.bits), b.willMessage));
    n := n + k;
  }

  lemma SameLP(b: bytes)
    ensures OptionalLP(true, b) == LPOrNothing(b) && OptionalLen(true, b) == 2 + |b|
  {
  }

  method EncodeConnect(p: Packet, to: array<byte>, off: nat) returns (n: nat, err: Option<Error>, ghost order: seq<PropertyId>)
    requires p.body.Connect? && Ready(p, to, off)
    modifies to
    ensures err == EncodeError(p)
    ensures err.None? ==> Written(p, order, old(to[..]), to[..], off, n)
  {
    hide PropsLen, PropBytes, Settled, Ordered, Wrote, Zero, ConnectHead, ConnectPayload, HasWill, HasUsername, HasPassword;
    n, err, order := 0, None, [];
    if ProtocolName(p.version).None? {
      return 0, Some(InvalidProtocolVersion), [];
    }
    ghost var a := to[..];
    n, order := EncodeConnectHead(p, to, off);
    ghost var b := to[..];
    var k;
    k, err := EncodeConnectPayload(p.body, to, off + n);
    if err.Some? {
      return;
    }
    WroteNext(a, b, to[..], off, ConnectHead(p, order), ConnectPayload(p.body));
    PayloadLen(p.body);
    n := n + k;
  }

  lemma PayloadLen(b: Body)
    requires b.Connect? && ConnectFits(b)
    ensures |ConnectPayload(b)| == 2 + |b.clientId| + OptionalLen(HasWill(b.bits), b.willTopic) + OptionalLen(HasWill(b.bits), b.willMessage)
             + OptionalLen(HasUsername(b.bits), b.username) + OptionalLen(HasPassword(b.bits), b.password)
  {
    hide HasWill, HasUsername, HasPassword;
  }

  // ---------------------------------------------------------------- the whole packet

  predicate Consistent(p: Packet) {
    match p.body
    case Publish(_, _) => p.t == PUBLISH
    case Ack(_) => IsAck(p.t)
    case Subscribe(_) => p.t == SUBSCRIBE
    case Connect(_, _, _, _, _, _, _) => p.t == CONNECT
  }

  method EncodeMessage(p: Packet, to: array<byte>, off: nat) returns (n: nat, err: Option<Error>, ghost order: seq<PropertyId>)
    requires Consistent(p) && Ready(p, to, off)
    modifies to
    ensures err == EncodeError(p)
    ensures err.None? ==> Written(p, order, old(to[..]), to[..], off, n)
  {
    hide MessageLen, Settled, Written, Zero, EncodeError, MessageBytes;
    match p.body
    case Publish(_, _) => n, err, order := EncodePublish(p, to, off);
    case Ack(_) => n, err, order := EncodeAck(p, to, off);
    case Subscribe(_) => n, err, order := EncodeSubscribe(p, to, off);
    case Connect(_, _, _, _, _, _, _) => n, err, order := EncodeConnect(p, to, off);
  }

  function Zeros(n: nat): bytes {
    seq(n, _ => 0)
  }

  /** Encodes a packet into a buffer of exactly its size: the header, the message for some order of its
      properties, and zeros in place of strings that do not fit. A packet whose properties can be read back
      fills the buffer. */
  method Encode(p: Packet) returns (r: Result<array<byte>>, ghost order: seq<PropertyId>)
    requires Consistent(p) && p.flags < 16 && Settled(p) && MessageLen(p) < 0x1_0000_0000
    ensures r.Err? <==> Size(p).Err? || EncodeError(p).Some?
    ensures r.Err? ==> r.error == if Size(p).Err? then Size(p).error else EncodeError(p).value
    ensures r.Ok? ==> fresh(r.value) && Ordered(p, order) && Missing(p, order) >= 0 && r.value.Length == Size(p).value
    ensures r.Ok? ==> r.value[..] == HeaderBytes(p) + MessageBytes(p, order) + Zeros(Missing(p, order))
    ensures r.Ok? && ValidProps(p) ==> Encodes(p, order) && r.value[..] == PacketBytes(p, order)
  {
    hide MessageLen, Settled, Zero, EncodeError, MessageBytes, Code, VarBytes, VarLen, Wrote, Filled, Missing, Ordered, HeaderBytes, PacketBytes, ValidProps, Encodes;
    order := [];
    var size := Size(p);
    if size.Err? {
      return Err(size.error), [];
    }
    var to := new byte[size.value](_ => 0);
    AllZero(to[..]);
    ghost var a := to[..];
    var n := EncodeHeader(p, to);
    ghost var w := HeaderBytes(p);
    FilledZero(a, to[..], 0, w);
    ghost var b := to[..];
    var err;
    n, err, order := EncodeMessage(p, to, n);
    if err.Some? {
      return Err(err.value), [];
    }
    FilledNext(a, b, to[..], 0, w, MessageBytes(p, order));
    FilledToEnd(a, to[..], w + MessageBytes(p, order), Missing(p, order));
    if ValidProps(p) {
      NothingMissing(p, order);
      PacketIsWhole(p, order);
    }
    return Ok(to), order;
  }

  lemma PacketIsWhole(p: Packet, order: seq<PropertyId>)
    requires p.flags < 16 && |MessageBytes(p, order)| == MessageLen(p)
    ensures HeaderBytes(p) + MessageBytes(p, order) + Zeros(0) == PacketBytes(p, order)
  {
    hide MessageBytes, MessageLen, Code, VarBytes;
  }

  lemma FilledToEnd(a: bytes, b: bytes, w: bytes, k: nat)
    requires Filled(a, b, 0, w) && |a| == |w| + k
    ensures b == w + Zeros(k)
  {
  }

  function HeaderBytes(p: Packet): bytes
    requires p.flags < 16
  {
    [Code(p.t) * 16 + p.flags] + VarBytes(MessageLen(p))
  }

  method EncodeHeader(p: Packet, to: array<byte>) returns (n: nat)
    requires p.flags < 16 && 1 + VarLen(MessageLen(p)) <= to.Length && Zero(to[..], 0)
    modifies to
    ensures n == 1 + VarLen(MessageLen(p)) == |HeaderBytes(p)| && Filled(old(to[..]), to[..], 0, HeaderBytes(p))
  {
    hide MessageLen, Zero, VarBytes, VarLen, Code, Wrote, Filled;
    var first := Code(p.t) * 16 + p.flags;
    ghost var a := to[..];
    to[0] := first;
    ghost var b := to[..];
    OneByte(a, b, 0, first);
    FilledFirst(a, b, 0, [first]);
    n := PutUvarint(to, 1, MessageLen(p));
    VarBytesShape(MessageLen(p));
    FilledNext(a, b, to[..], 0, [first], VarBytes(MessageLen(p)));
    n := n + 1;
  }

  /** A valid packet is always encoded. */
  lemma ValidEncodes(p: Packet)
    requires Valid(p)
    ensures Consistent(p) && EncodeError(p).None? && Size(p).Ok?
  {
    hide ValidProps, ValidTopic, HasWill, HasUsername, HasPassword, MessageLen;
    if ValidSubscribe(p) {
      assert forall f <- p.body.filters :: ValidFilter(p.version, f);
    }
  }

  lemma AllZero(b: bytes)
    requires forall i | 0 <= i < |b| :: b[i] == 0
    ensures Zero(b, 0)
  {
  }

  lemma FilledZero(a: bytes, b: bytes, off: nat, w: bytes)
    requires Filled(a, b, off, w)
    ensures Wrote(a, b, off, w) && Zero(b, off + |w|)
  {
  }
}
