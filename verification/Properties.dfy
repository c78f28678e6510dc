/** The property block of MQTT 5 packets: which properties a packet may carry, how long they are, how
    they are written and how they are read back. */
module Properties {
  import opened Common
  import opened Wire

  datatype PacketType =
    | RESERVED | CONNECT | CONNACK | PUBLISH | PUBACK | PUBREC | PUBREL | PUBCOMP
    | SUBSCRIBE | SUBACK | UNSUBSCRIBE | UNSUBACK | PINGREQ | PINGRESP | DISCONNECT | AUTH

  type PropertyId = nat

  datatype Kind = Byte | Short | Int | VarInt | String | StringPair | Binary

  const TopicAlias: PropertyId := 0x23
  const UserProperty: PropertyId := 0x26
  const SubscriptionIdentifier: PropertyId := 0x0B

  function KindOf(id: PropertyId): Option<Kind> {
    match id
    case 0x01 | 0x17 | 0x19 | 0x24 | 0x25 | 0x28 | 0x29 | 0x2A => Some(Byte)
    case 0x13 | 0x21 | 0x22 | 0x23 => Some(Short)
    case 0x02 | 0x11 | 0x18 | 0x27 => Some(Int)
    case 0x0B => Some(VarInt)
    case 0x03 | 0x08 | 0x12 | 0x15 | 0x1A | 0x1C | 0x1F => Some(String)
    case 0x26 => Some(StringPair)
    case 0x09 | 0x16 => Some(Binary)
    case _ => None
  }

  /** Whether a property may appear in a packet of type `t`. */
  predicate Allowed(id: PropertyId, t: PacketType) {
    match id
    case 0x01 | 0x02 | 0x03 | 0x08 | 0x09 | 0x23 => t == PUBLISH
    case 0x0B => t == PUBLISH || t == SUBSCRIBE
    case 0x11 => t == CONNECT || t == DISCONNECT
    case 0x12 | 0x13 | 0x1A | 0x24 | 0x25 | 0x28 | 0x29 | 0x2A => t == CONNACK
    case 0x15 | 0x16 => t == CONNECT || t == CONNACK || t == AUTH
    case 0x17 | 0x18 | 0x19 => t == CONNECT
    case 0x1C => t == CONNACK || t == DISCONNECT
    case 0x21 | 0x22 | 0x27 => t == CONNECT || t == CONNACK
    case 0x1F => !(t.RESERVED? || t.CONNECT? || t.PUBLISH? || t.SUBSCRIBE? || t.UNSUBSCRIBE? || t.PINGREQ? || t.PINGRESP?)
    case 0x26 => !(t.RESERVED? || t.SUBSCRIBE? || t.UNSUBSCRIBE? || t.PINGREQ? || t.PINGRESP?)
    case _ => false
  }

  predicate DupAllowed(id: PropertyId, t: PacketType) {
    (id == UserProperty && Allowed(id, t)) || (id == SubscriptionIdentifier && t == PUBLISH)
  }

  lemma AllowedHasKind(id: PropertyId, t: PacketType)
    requires Allowed(id, t)
    ensures KindOf(id).Some? && id < 128
  {
  }

  // ---------------------------------------------------------------- values

  datatype Pair = Pair(k: bytes, v: bytes)

  /** A property value as the program holds it. */
  datatype Value =
    | U8V(b: byte) | U16V(n: uint16) | U16ListV(ns: seq<uint16>) | U32V(x: uint32) | U32ListV(xs: seq<uint32>)
    | StringV(s: bytes) | StringListV(ss: seq<bytes>) | BinaryV(d: bytes) | BinaryListV(ds: seq<bytes>)
    | PairV(p: Pair) | PairsV(ps: seq<Pair>)

  /** One value as it stands on the wire behind its identifier. */
  datatype Item =
    | ByteItem(b: byte) | ShortItem(n: uint16) | IntItem(x: uint32) | VarIntItem(y: uint32)
    | StringItem(s: bytes) | PairItem(p: Pair) | BinaryItem(d: bytes)

  function MapItems<T>(xs: seq<T>, f: T -> Item): seq<Item> {
    seq(|xs|, i requires 0 <= i < |xs| => f(xs[i]))
  }

  /** What a value is written as; a value of the wrong type is written as nothing at all. */
  function Items(k: Kind, v: Value): seq<Item> {
    match (k, v)
    case (Byte, U8V(b)) => [ByteItem(b)]
    case (Byte, BinaryV(d)) => MapItems(d, b => ByteItem(b))
    case (Short, U16V(n)) => [ShortItem(n)]
    case (Short, U16ListV(ns)) => MapItems(ns, n => ShortItem(n))
    case (Int, U32V(x)) => [IntItem(x)]
    case (Int, U32ListV(xs)) => MapItems(xs, x => IntItem(x))
    case (VarInt, U32V(x)) => [VarIntItem(x)]
    case (VarInt, U32ListV(xs)) => MapItems(xs, x => VarIntItem(x))
    case (String, StringV(s)) => [StringItem(s)]
    case (String, StringListV(ss)) => MapItems(ss, s => StringItem(s))
    case (StringPair, PairV(p)) => [PairItem(p)]
    case (StringPair, PairsV(ps)) => MapItems(ps, p => PairItem(p))
    case (Binary, BinaryV(d)) => [BinaryItem(d)]
    case (Binary, BinaryListV(ds)) => MapItems(ds, d => BinaryItem(d))
    case _ => []
  }

  lemma ItemsOfKind(k: Kind, v: Value)
    ensures forall j {:trigger Items(k, v)[j]} | 0 <= j < |Items(k, v)| :: OfKind(k, Items(k, v)[j])
  {
  }

  /** What the calcLen functions count: all that is written, but nothing of a list of binary values. */
  function CountedItems(k: Kind, v: Value): seq<Item> {
    if k == Binary && v.BinaryListV? then [] else Items(k, v)
  }

  predicate Counted(id: PropertyId, v: Value) {
    KindOf(id) == Some(Binary) && v.BinaryListV? ==> v.ds == []
  }

  /** The length the calcLen functions add up for one item. */
  function ItemLen(id: PropertyId, i: Item): nat {
    VarLen(id) +
    match i
    case ByteItem(_) => 1
    case ShortItem(_) => 2
    case IntItem(_) => 4
    case VarIntItem(y) => VarLen(y)
    case StringItem(s) => 2 + |s|
    case PairItem(p) => 4 + |p.k| + |p.v|
    case BinaryItem(d) => 2 + |d|
  }

  /** A string that is too long for its prefix is not written. */
  function LPOrNothing(s: bytes): bytes {
    if |s| <= MaxLPString then LP(s) else []
  }

  function ItemBytes(id: PropertyId, i: Item): bytes {
    VarBytes(id) + Body(i)
  }

  /** An item whose strings fit their length prefix. */
  predicate Fitting(i: Item) {
    match i
    case StringItem(s) => |s| <= MaxLPString
    case PairItem(p) => |p.k| <= MaxLPString && |p.v| <= MaxLPString
    case BinaryItem(d) => |d| <= MaxLPString
    case _ => true
  }

  /** An item that reads back as itself. */
  predicate Readable(i: Item) {
    match i
    case VarIntItem(y) => y < 0x2000_0000
    case StringItem(s) => |s| <= MaxLPString && ValidUtf8(s)
    case PairItem(p) => |p.k| <= MaxLPString && |p.v| <= MaxLPString && ValidUtf8(p.k) && ValidUtf8(p.v)
    case BinaryItem(d) => |d| <= MaxLPString
    case _ => true
  }

  predicate OfKind(k: Kind, i: Item) {
    match i
    case ByteItem(_) => k == Byte
    case ShortItem(_) => k == Short
    case IntItem(_) => k == Int
    case VarIntItem(_) => k == VarInt
    case StringItem(_) => k == String
    case PairItem(_) => k == StringPair
    case BinaryItem(_) => k == Binary
  }

  /** What is written for an item is as long as calculated exactly if its strings fit, and never longer. */
  lemma ItemLength(id: PropertyId, i: Item)
    ensures |ItemBytes(id, i)| <= ItemLen(id, i)
    ensures |ItemBytes(id, i)| == ItemLen(id, i) <==> Fitting(i)
    ensures Readable(i) ==> Fitting(i)
  {
    VarBytesShape(id);
    if i.VarIntItem? { VarBytesShape(i.y); }
  }

  // ---------------------------------------------------------------- reading one item

  function Utf8LP(b: bytes): (r: Result<(bytes, nat)>)
    ensures r.Ok? ==> 2 <= r.value.1 <= |b|
  {
    var r := ReadLP(b);
    if r.Err? || !ValidUtf8(r.value.0) then Err(MalformedPacket) else r
  }

  function DecodeItem(k: Kind, b: bytes): (r: Result<(Item, nat)>)
    ensures r.Ok? ==> 0 < r.value.1 <= |b| && OfKind(k, r.value.0)
  {
    match k
    case Byte => if |b| < 1 then Err(MalformedPacket) else Ok((ByteItem(b[0]), 1))
    case Short => if |b| < 2 then Err(MalformedPacket) else Ok((ShortItem(ReadU16(b)), 2))
    case Int => if |b| < 4 then Err(MalformedPacket) else Ok((IntItem(ReadU32(b)), 4))
    case VarInt =>
      var v := Uvarint(b);
      UvarintBound(b);
      if v.n <= 0 then Err(MalformedPacket) else Ok((VarIntItem(v.x), v.n))
    case String =>
      var (s, n) :- Utf8LP(b);
      Ok((StringItem(s), n))
    case StringPair =>
      var (k, n) :- Utf8LP(b);
      var (v, m) :- Utf8LP(b[n..]);
      Ok((PairItem(Pair(k, v)), n + m))
    case Binary =>
      var r := ReadLP(b);
      if r.Err? then Err(MalformedPacket) else Ok((BinaryItem(r.value.0), r.value.1))
  }

  function Body(i: Item): bytes {
    match i
    case ByteItem(b) => [b]
    case ShortItem(n) => U16(n)
    case IntItem(x) => U32(x)
    case VarIntItem(y) => VarBytes(y)
    case StringItem(s) => LPOrNothing(s)
    case PairItem(p) => LPOrNothing(p.k) + LPOrNothing(p.v)
    case BinaryItem(d) => LPOrNothing(d)
  }

  lemma DecodePair(p: Pair, rest: bytes)
    requires Readable(PairItem(p))
    ensures DecodeItem(StringPair, Body(PairItem(p)) + rest) == Ok((PairItem(p), 4 + |p.k| + |p.v|))
  {
    var b := Body(PairItem(p)) + rest;
    assert b == LP(p.k) + (LP(p.v) + rest);
    LPRoundTrip(p.k, LP(p.v) + rest);
    assert b[2 + |p.k|..] == LP(p.v) + rest;
    LPRoundTrip(p.v, rest);
  }

  lemma DecodeNumber(k: Kind, i: Item, rest: bytes)
    requires OfKind(k, i) && Readable(i) && (k == Byte || k == Short || k == Int || k == VarInt)
    ensures DecodeItem(k, Body(i) + rest) == Ok((i, |Body(i)|))
  {
    match i
    case ByteItem(_) =>
    case ShortItem(n) => BigEndianRoundTrip(n, 0, rest);
    case IntItem(x) => BigEndianRoundTrip(0, x, rest);
    case VarIntItem(y) => VarBytesShape(y); VarintRoundTrip(y, rest);
  }

  lemma DecodeBody(k: Kind, i: Item, rest: bytes)
    requires OfKind(k, i) && Readable(i)
    ensures DecodeItem(k, Body(i) + rest) == Ok((i, |Body(i)|))
  {
    hide ValidUtf8, ReadLP, Uvarint, VarBytes, VarLen, ReadU16, ReadU32;
    match i
    case StringItem(s) => LPRoundTrip(s, rest);
    case BinaryItem(d) => LPRoundTrip(d, rest);
    case PairItem(p) => DecodePair(p, rest);
    case _ => DecodeNumber(k, i, rest);
  }

  // ---------------------------------------------------------------- reading a block

  type Values = map<PropertyId, Value>

  /** User properties pile up, anything else replaces what was there. */
  function Store(vals: Values, id: PropertyId, i: Item): Values {
    vals[id := match i
               case ByteItem(b) => U8V(b)
               case ShortItem(n) => U16V(n)
               case IntItem(x) => U32V(x)
               case VarIntItem(y) => U32V(y)
               case StringItem(s) => StringV(s)
               case PairItem(p) => PairsV((if id in vals && vals[id].PairsV? then vals[id].ps else []) + [p])
               case BinaryItem(d) => BinaryV(d)]
  }

  datatype Decoded = Decoded(vals: Values, n: nat)

  /** One property at the front of `b`: its identifier, its item and the bytes both take. */
  function DecodeOne(t: PacketType, b: bytes, vals: Values): (r: Result<(PropertyId, Item, nat)>)
    ensures r.Ok? ==> 0 < r.value.2 <= |b|
  {
    var id := Uvarint(b);
    if id.n <= 0 then Err(MalformedPacket)
    else if !Allowed(id.x, t) then Err(MalformedPacket)
    else if id.x in vals && !DupAllowed(id.x, t) then Err(ProtocolError)
    else if KindOf(id.x).None? then Err(ProtocolError)
    else
      var (i, n) :- DecodeItem(KindOf(id.x).value, b[id.n..]);
      Ok((id.x, i, id.n + n))
  }

  /** Subtraction on 32 bits. */
  function Minus(a: uint32, n: nat): (r: uint32) {
    (a - n) % 0x1_0000_0000
  }

  lemma MinusWraps(a: uint32, n: nat)
    requires n < 0x1_0000_0000
    ensures Minus(a, n) == if n <= a then a - n else a - n + 0x1_0000_0000
  {
  }

  /** A way to read one property at the front of a buffer, given the properties read before. */
  type Reader = (bytes, Values) -> Result<(PropertyId, Item, nat)>

  ghost predicate Progresses(f: Reader) {
    forall b: bytes, vals: Values :: f(b, vals).Ok? ==> 0 < f(b, vals).value.2 <= |b|
  }

  function ReaderFor(t: PacketType): (f: Reader)
    ensures Progresses(f)
  {
    (b: bytes, vals: Values) => DecodeOne(t, b, vals)
  }

  /** The loop of property.decode: `pLen` is what is still to come, cut to 32 bits after each step. It is
      not `pLen` that makes the loop end, but the bytes that are left. */
  function DecodeLoop(f: Reader, from: bytes, off: nat, pLen: uint32, vals: Values): (r: Result<Decoded>)
    requires Progresses(f) && off <= |from|
    ensures r.Ok? ==> off <= r.value.n <= |from|
    decreases |from| - off
  {
    if pLen == 0 then Ok(Decoded(vals, off))
    else
      var (id, i, n) :- f(from[off..], vals);
      DecodeLoop(f, from, off + n, Minus(pLen, n), Store(vals, id, i))
  }

  lemma LoopRefuses(f: Reader, from: bytes, off: nat, n: uint32, vals: Values, err: Error)
    requires Progresses(f) && off <= |from| && n > 0 && f(from[off..], vals) == Err(err)
    ensures DecodeLoop(f, from, off, n, vals) == Err(err)
  {
    hide Progresses;
  }

  lemma LoopTakes(f: Reader, from: bytes, off: nat, n: uint32, vals: Values, e: Entry, k: nat)
    requires Progresses(f) && off + k <= |from| && n > 0 && f(from[off..], vals) == Ok((e.id, e.item, k))
    ensures DecodeLoop(f, from, off, n, vals) == DecodeLoop(f, from, off + k, Minus(n, k), Store(vals, e.id, e.item))
  {
    hide Store, Minus, Progresses;
  }

  lemma LoopEnds(f: Reader, from: bytes, off: nat, vals: Values)
    requires Progresses(f) && off <= |from|
    ensures DecodeLoop(f, from, off, 0, vals) == Ok(Decoded(vals, off))
  {
    hide Progresses;
  }

  lemma ReaderReads(t: PacketType, b: bytes, vals: Values)
    ensures ReaderFor(t)(b, vals) == DecodeOne(t, b, vals)
  {
    hide DecodeOne;
  }

  function ReadBlock(f: Reader, from: bytes): (r: Result<Decoded>)
    requires Progresses(f)
    ensures r.Ok? ==> r.value.n <= |from|
  {
    var l := Uvarint(from);
    UvarintBound(from);
    if l.n <= 0 then Err(MalformedPacket) else DecodeLoop(f, from, l.n, l.x, map[])
  }

  function DecodeBlock(t: PacketType, from: bytes): (r: Result<Decoded>)
    ensures r.Ok? ==> r.value.n <= |from|
  {
    ReadBlock(ReaderFor(t), from)
  }

  lemma {:induction false} LoopConsumes(f: Reader, from: bytes, off: nat, pLen: uint32, vals: Values)
    requires Progresses(f) && off <= |from| < 0x1_0000_0000
    ensures var r := DecodeLoop(f, from, off, pLen, vals);
            r.Ok? ==> r.value.n == off + pLen
    decreases |from| - off
  {
    var one := f(from[off..], vals);
    if pLen != 0 && one.Ok? {
      var (id, i, n) := one.value;
      MinusWraps(pLen, n);
      LoopConsumes(f, from, off + n, Minus(pLen, n), Store(vals, id, i));
    }
  }

  /** A block that is accepted takes exactly the declared length, however the 32-bit counter wraps on the
      way: an item that overruns the declared length makes the block fail. */
  lemma BlockConsumesDeclaredLength(t: PacketType, from: bytes)
    requires |from| < 0x1_0000_0000
    ensures var r := DecodeBlock(t, from);
            r.Ok? ==> Uvarint(from).n > 0 && r.value.n == Uvarint(from).n + Uvarint(from).x <= |from|
  {
    var l := Uvarint(from);
    UvarintBound(from);
    if l.n > 0 { LoopConsumes(ReaderFor(t), from, l.n, l.x, map[]); }
  }

  // ---------------------------------------------------------------- writing a block

  datatype Entry = Entry(id: PropertyId, item: Item)

  function EntriesOf(id: PropertyId, items: seq<Item>): seq<Entry> {
    if items == [] then [] else [Entry(id, items[0])] + EntriesOf(id, items[1..])
  }

  function EntriesFor(vals: Values, id: PropertyId): seq<Entry> {
    if id in vals && KindOf(id).Some? then EntriesOf(id, Items(KindOf(id).value, vals[id])) else []
  }

  /** The items of a property map, property by property in the given order. */
  function Flatten(vals: Values, order: seq<PropertyId>): seq<Entry> {
    if order == [] then [] else EntriesFor(vals, order[0]) + Flatten(vals, order[1..])
  }

  function EntryBytes(es: seq<Entry>): bytes {
    if es == [] then [] else ItemBytes(es[0].id, es[0].item) + EntryBytes(es[1..])
  }

  function EntryLen(es: seq<Entry>): nat {
    if es == [] then 0 else ItemLen(es[0].id, es[0].item) + EntryLen(es[1..])
  }

  function StoreAll(vals: Values, es: seq<Entry>): Values
    decreases |es|
  {
    if es == [] then vals else StoreAll(Store(vals, es[0].id, es[0].item), es[1..])
  }

  /** An item that may stand in a packet of type `t` and reads back as itself. */
  predicate Legal(t: PacketType, id: PropertyId, i: Item) {
    Allowed(id, t) && KindOf(id).Some? && OfKind(KindOf(id).value, i) && Readable(i)
  }

  /** The decoder takes `es` one after the other without complaint. */
  predicate Acceptable(t: PacketType, vals: Values, es: seq<Entry>)
    decreases |es|
  {
    es == [] ||
    (var e := es[0];
     && Legal(t, e.id, e.item) && (e.id in vals ==> DupAllowed(e.id, t))
     && Acceptable(t, Store(vals, e.id, e.item), es[1..]))
  }

  lemma DecodeEntry(t: PacketType, vals: Values, e: Entry, rest: bytes)
    requires Legal(t, e.id, e.item)
    ensures DecodeOne(t, ItemBytes(e.id, e.item) + rest, vals) ==
            if e.id in vals && !DupAllowed(e.id, t) then Err(ProtocolError) else Ok((e.id, e.item, ItemLen(e.id, e.item)))
  {
    hide DupAllowed, DecodeItem, Body, Readable, Uvarint, VarLen, VarBytes;
    var b, body := ItemBytes(e.id, e.item) + rest, Body(e.item);
    AllowedHasKind(e.id, t);
    VarBytesShape(e.id);
    ItemLength(e.id, e.item);
    assert b == VarBytes(e.id) + (body + rest);
    VarintRoundTrip(e.id, body + rest);
    assert b[VarLen(e.id)..] == body + rest;
    DecodeBody(KindOf(e.id).value, e.item, rest);
  }

  /** `f` reads back each of `es`, whatever follows it. */
  ghost predicate Reads(f: Reader, vals: Values, es: seq<Entry>)
    decreases |es|
  {
    es != [] ==>
      && (forall rest :: f(ItemBytes(es[0].id, es[0].item) + rest, vals) == Ok((es[0].id, es[0].item, |ItemBytes(es[0].id, es[0].item)|)))
      && Reads(f, Store(vals, es[0].id, es[0].item), es[1..])
  }

  lemma {:induction false} AcceptableReads(t: PacketType, vals: Values, es: seq<Entry>)
    requires Acceptable(t, vals, es)
    ensures Reads(ReaderFor(t), vals, es) && |EntryBytes(es)| == EntryLen(es)
    decreases |es|
  {
    if es != [] {
      var e := es[0];
      ItemLength(e.id, e.item);
      forall rest ensures DecodeOne(t, ItemBytes(e.id, e.item) + rest, vals) == Ok((e.id, e.item, |ItemBytes(e.id, e.item)|)) {
        DecodeEntry(t, vals, e, rest);
      }
      AcceptableReads(t, Store(vals, e.id, e.item), es[1..]);
    }
  }

  lemma {:induction false} LoopReadsEntries(f: Reader, pre: bytes, es: seq<Entry>, rest: bytes, vals: Values)
    requires Progresses(f) && Reads(f, vals, es) && |EntryBytes(es)| < 0x1_0000_0000
    ensures DecodeLoop(f, pre + EntryBytes(es) + rest, |pre|, |EntryBytes(es)|, vals) ==
            Ok(Decoded(StoreAll(vals, es), |pre| + |EntryBytes(es)|))
    decreases |es|
  {
    hide ItemBytes, Store, Minus;
    if es != [] {
      var e := es[0];
      var from := pre + EntryBytes(es) + rest;
      var b, tail := ItemBytes(e.id, e.item), EntryBytes(es[1..]);
      assert from[|pre|..] == b + (tail + rest);
      assert from == (pre + b) + tail + rest;
      MinusWraps(|b| + |tail|, |b|);
      LoopReadsEntries(f, pre + b, es[1..], rest, Store(vals, e.id, e.item));
      assert f(b + (tail + rest), vals) == Ok((e.id, e.item, |b|));
      assert |b| > 0;
    }
  }

  // ---------------------------------------------------------------- the round trip of a block

  predicate AllReadable(items: seq<Item>) {
    forall j {:trigger items[j]} | 0 <= j < |items| :: Readable(items[j])
  }

  /** The items a property is written as. */
  function ItemsFor(id: PropertyId, v: Value): seq<Item> {
    if KindOf(id).Some? then Items(KindOf(id).value, v) else []
  }

  /** A value, in any of the forms the encoders take, whose items are counted, allowed in the packet and
      readable; it is written as several items only where that is allowed. */
  predicate WellTyped(t: PacketType, id: PropertyId, v: Value) {
    && Allowed(id, t) && KindOf(id).Some? && Counted(id, v) && AllReadable(ItemsFor(id, v))
    && (|ItemsFor(id, v)| > 1 ==> DupAllowed(id, t))
  }

  predicate WellFormed(t: PacketType, vals: Values) {
    forall id {:trigger WellTyped(t, id, vals[id])} | id in vals :: WellTyped(t, id, vals[id])
  }

  /** `order` is an order in which the map may be enumerated. */
  ghost predicate Enumerates(order: seq<PropertyId>, vals: Values) {
    NoDup(order) && forall id :: id in order <==> id in vals
  }

  // ---------------------------------------------------------------- what a value reads back as

  function PairsOf(items: seq<Item>): seq<Pair> {
    if items == [] then [] else (if items[0].PairItem? then [items[0].p] else []) + PairsOf(items[1..])
  }

  /** What the items of one property are read back as: all the pairs of a user property, the last item of
      anything else. */
  function NormalValue(items: seq<Item>): Value
    requires items != []
  {
    match items[|items| - 1]
    case ByteItem(b) => U8V(b)
    case ShortItem(n) => U16V(n)
    case IntItem(x) => U32V(x)
    case VarIntItem(y) => U32V(y)
    case StringItem(s) => StringV(s)
    case PairItem(_) => PairsV(PairsOf(items))
    case BinaryItem(d) => BinaryV(d)
  }

  /** The form a property map takes when it is read back; a property written as nothing is gone. */
  function NormalMap(vals: Values): Values {
    map id | id in vals && ItemsFor(id, vals[id]) != [] :: NormalValue(ItemsFor(id, vals[id]))
  }

  function StoreItems(vals: Values, id: PropertyId, items: seq<Item>): Values
    decreases |items|
  {
    if items == [] then vals else StoreItems(Store(vals, id, items[0]), id, items[1..])
  }

  predicate AllPairs(items: seq<Item>) {
    forall j {:trigger items[j]} | 0 <= j < |items| :: items[j].PairItem?
  }

  predicate NoPairs(items: seq<Item>) {
    forall j {:trigger items[j]} | 0 <= j < |items| :: !items[j].PairItem?
  }

  lemma {:induction false} PairsPile(vals: Values, id: PropertyId, done: seq<Pair>, items: seq<Item>)
    requires AllPairs(items) && id in vals && vals[id] == PairsV(done)
    ensures StoreItems(vals, id, items) == vals[id := PairsV(done + PairsOf(items))]
    decreases |items|
  {
    if items == [] {
      assert done + PairsOf(items) == done;
    } else {
      var p, more := items[0].p, items[1..];
      var next := vals[id := PairsV(done + [p])];
      assert Store(vals, id, items[0]) == next;
      PairsPile(next, id, done + [p], more);
      assert done + [p] + PairsOf(more) == done + PairsOf(items);
      assert next[id := PairsV(done + PairsOf(items))] == vals[id := PairsV(done + PairsOf(items))];
    }
  }

  lemma {:induction false} LastStays(vals: Values, id: PropertyId, items: seq<Item>)
    requires NoPairs(items) && items != []
    ensures StoreItems(vals, id, items) == vals[id := NormalValue(items)]
    decreases |items|
  {
    var next := Store(vals, id, items[0]);
    if |items| > 1 {
      LastStays(next, id, items[1..]);
      assert items[1..][|items| - 2] == items[|items| - 1];
      assert next[id := NormalValue(items)] == vals[id := NormalValue(items)];
    } else {
      assert StoreItems(next, id, items[1..]) == next;
    }
  }

  lemma StoredNormal(vals: Values, id: PropertyId, v: Value)
    requires id !in vals && ItemsFor(id, v) != []
    ensures StoreItems(vals, id, ItemsFor(id, v)) == vals[id := NormalValue(ItemsFor(id, v))]
  {
    var items := ItemsFor(id, v);
    ItemsOfKind(KindOf(id).value, v);
    hide ItemsFor;
    if KindOf(id).value == StringPair {
      assert AllPairs(items) && items[|items| - 1].PairItem?;
      var p, more := items[0].p, items[1..];
      var first := vals[id := PairsV([p])];
      assert [] + [p] == [p];
      assert Store(vals, id, items[0]) == first;
      PairsPile(first, id, [p], more);
      assert [p] + PairsOf(more) == PairsOf(items);
      assert first[id := PairsV(PairsOf(items))] == vals[id := PairsV(PairsOf(items))];
    } else {
      LastStays(vals, id, items);
    }
  }

  /** Taking one more entry at the front. */
  lemma TakeEntry(t: PacketType, vals: Values, e: Entry, es: seq<Entry>)
    requires Legal(t, e.id, e.item)
    requires (e.id in vals ==> DupAllowed(e.id, t)) && Acceptable(t, Store(vals, e.id, e.item), es)
    ensures Acceptable(t, vals, [e] + es) && StoreAll(vals, [e] + es) == StoreAll(Store(vals, e.id, e.item), es)
  {
    hide Legal, DupAllowed, Store;
    assert ([e] + es)[1..] == es;
  }

  predicate AllLegal(t: PacketType, id: PropertyId, items: seq<Item>) {
    forall j {:trigger items[j]} | 0 <= j < |items| :: Legal(t, id, items[j])
  }

  lemma {:induction false} ItemsTaken(t: PacketType, vals: Values, id: PropertyId, items: seq<Item>, es: seq<Entry>)
    requires AllLegal(t, id, items) && Acceptable(t, StoreItems(vals, id, items), es)
    requires DupAllowed(id, t) || (|items| <= 1 && id !in vals)
    ensures Acceptable(t, vals, EntriesOf(id, items) + es)
    ensures StoreAll(vals, EntriesOf(id, items) + es) == StoreAll(StoreItems(vals, id, items), es)
    decreases |items|
  {
    hide Legal, DupAllowed, Store, Acceptable, StoreAll;
    if items == [] {
      assert EntriesOf(id, items) + es == es;
    } else {
      var e, more := Entry(id, items[0]), items[1..];
      if |items| > 1 { ItemsTaken(t, Store(vals, id, items[0]), id, more, es); } else { assert EntriesOf(id, more) + es == es; }
      assert EntriesOf(id, items) + es == [e] + (EntriesOf(id, more) + es);
      TakeEntry(t, vals, e, EntriesOf(id, more) + es);
    }
  }

  /** The properties read so far with one more. */
  function WithRead(vals: Values, id: PropertyId, v: Value): Values {
    if ItemsFor(id, v) == [] then vals else vals[id := NormalValue(ItemsFor(id, v))]
  }

  /** Writing a fresh property and reading it back stores its normal form. */
  lemma ValueStored(t: PacketType, vals: Values, all: Values, id: PropertyId, es: seq<Entry>)
    requires id in all && WellTyped(t, id, all[id]) && id !in vals && Acceptable(t, WithRead(vals, id, all[id]), es)
    ensures Acceptable(t, vals, EntriesFor(all, id) + es)
    ensures StoreAll(vals, EntriesFor(all, id) + es) == StoreAll(WithRead(vals, id, all[id]), es)
  {
    var items := ItemsFor(id, all[id]);
    ItemsOfKind(KindOf(id).value, all[id]);
    assert AllLegal(t, id, items);
    hide Acceptable, StoreAll, Legal, Items, NormalValue;
    if items != [] { StoredNormal(vals, id, all[id]); }
    ItemsTaken(t, vals, id, items, es);
  }

  function Restrict(vals: Values, order: seq<PropertyId>): Values {
    map id | id in order && id in vals :: vals[id]
  }

  lemma {:induction false} FlattenStored(t: PacketType, vals: Values, order: seq<PropertyId>, done: Values)
    requires WellFormed(t, vals) && NoDup(order) && (forall id <- order :: id in vals && id !in done)
    ensures Acceptable(t, done, Flatten(vals, order))
    ensures StoreAll(done, Flatten(vals, order)) == done + Restrict(NormalMap(vals), order)
    decreases |order|
  {
    hide EntriesFor, WellTyped;
    if order == [] {
      assert done + Restrict(NormalMap(vals), order) == done;
    } else {
      var id, rest := order[0], order[1..];
      assert order == [id] + rest && WellTyped(t, id, vals[id]) && id !in rest;
      var next := WithRead(done, id, vals[id]);
      assert forall k <- rest :: k in vals && k !in next;
      hide Acceptable, StoreAll, WellFormed;
      FlattenStored(t, vals, rest, next);
      ValueStored(t, done, vals, id, Flatten(vals, rest));
      RestrictStep(vals, order, done);
    }
  }

  lemma RestrictStep(vals: Values, order: seq<PropertyId>, done: Values)
    requires order != [] && order[0] in vals && order[0] !in done
    ensures WithRead(done, order[0], vals[order[0]]) + Restrict(NormalMap(vals), order[1..]) == done + Restrict(NormalMap(vals), order)
  {
    hide ItemsFor, NormalValue;
    assert order == [order[0]] + order[1..];
  }

  lemma ReadsBlock(f: Reader, es: seq<Entry>, rest: bytes)
    requires Progresses(f) && Reads(f, map[], es) && |EntryBytes(es)| < 0x2000_0000
    ensures ReadBlock(f, VarBytes(|EntryBytes(es)|) + EntryBytes(es) + rest) ==
            Ok(Decoded(StoreAll(map[], es), VarLen(|EntryBytes(es)|) + |EntryBytes(es)|))
  {
    hide EntryBytes, StoreAll, Reads, DecodeLoop, Uvarint, VarBytes, VarLen;
    var body := EntryBytes(es);
    var pre := VarBytes(|body|);
    VarBytesShape(|body|);
    assert pre + body + rest == pre + (body + rest);
    VarintRoundTrip(|body|, body + rest);
    LoopReadsEntries(f, pre, es, rest, map[]);
  }

  function CountedEntries(vals: Values, id: PropertyId): seq<Entry> {
    if id in vals && KindOf(id).Some? then EntriesOf(id, CountedItems(KindOf(id).value, vals[id])) else []
  }

  /** What calcLen says about one property. */
  function PropLen(vals: Values, id: PropertyId): nat {
    EntryLen(CountedEntries(vals, id))
  }

  function BlockLen(vals: Values, order: seq<PropertyId>): nat {
    if order == [] then 0 else PropLen(vals, order[0]) + BlockLen(vals, order[1..])
  }

  lemma {:induction false} EntryLenConcat(a: seq<Entry>, b: seq<Entry>)
    ensures EntryLen(a + b) == EntryLen(a) + EntryLen(b)
  {
    if a == [] {
      assert a + b == b;
    } else {
      assert (a + b)[0] == a[0] && (a + b)[1..] == a[1..] + b;
      EntryLenConcat(a[1..], b);
    }
  }

  predicate AllCounted(vals: Values) {
    forall id {:trigger Counted(id, vals[id])} | id in vals :: Counted(id, vals[id])
  }

  lemma CountedIsWritten(vals: Values, id: PropertyId)
    requires AllCounted(vals)
    ensures CountedEntries(vals, id) == EntriesFor(vals, id)
  {
    assert id in vals ==> Counted(id, vals[id]);
  }

  lemma {:induction false} FlattenLen(vals: Values, order: seq<PropertyId>)
    requires AllCounted(vals)
    ensures EntryLen(Flatten(vals, order)) == BlockLen(vals, order)
  {
    hide EntriesFor, CountedEntries;
    if order != [] {
      FlattenLen(vals, order[1..]);
      CountedIsWritten(vals, order[0]);
      EntryLenConcat(EntriesFor(vals, order[0]), Flatten(vals, order[1..]));
    }
  }

  /** What is calculated for a block that keeps `len` as its length, on 32 bits. */
  function FullLen(len: uint32): uint32 {
    (len + VarLen(len)) % 0x1_0000_0000
  }

  function BlockBytes(vals: Values, order: seq<PropertyId>): bytes {
    VarBytes(BlockLen(vals, order)) + EntryBytes(Flatten(vals, order))
  }

  /** For every order in which the map is enumerated: the bytes written are the length prefix and the
      sum of the calculated lengths, and reading them, whatever follows, gives the map back in its normal
      form. */
  lemma BlockRoundTrip(t: PacketType, vals: Values, order: seq<PropertyId>, rest: bytes)
    requires WellFormed(t, vals) && Enumerates(order, vals) && BlockLen(vals, order) < 0x2000_0000
    ensures |BlockBytes(vals, order)| == VarLen(BlockLen(vals, order)) + BlockLen(vals, order)
    ensures DecodeBlock(t, BlockBytes(vals, order) + rest) == Ok(Decoded(NormalMap(vals), |BlockBytes(vals, order)|))
  {
    hide ReadBlock, ReaderFor, Flatten, EntryBytes, EntryLen, StoreAll, VarBytes, VarLen, WellFormed, Enumerates, Reads, BlockLen, Progresses, NormalMap;
    BlockReads(t, vals, order);
    VarBytesShape(BlockLen(vals, order));
    ReadsBlock(ReaderFor(t), Flatten(vals, order), rest);
  }

  lemma BlockReads(t: PacketType, vals: Values, order: seq<PropertyId>)
    requires WellFormed(t, vals) && Enumerates(order, vals)
    ensures Reads(ReaderFor(t), map[], Flatten(vals, order))
    ensures |EntryBytes(Flatten(vals, order))| == BlockLen(vals, order)
    ensures StoreAll(map[], Flatten(vals, order)) == NormalMap(vals)
  {
    hide Acceptable, StoreAll, Flatten, EntryBytes, EntryLen, BlockLen, Reads;
    FlattenStored(t, vals, order, map[]);
    AllRestricted(vals, order);
    AcceptableReads(t, map[], Flatten(vals, order));
    WellFormedCounted(t, vals);
    FlattenLen(vals, order);
  }

  lemma AllRestricted(vals: Values, order: seq<PropertyId>)
    requires Enumerates(order, vals)
    ensures map[] + Restrict(NormalMap(vals), order) == NormalMap(vals)
  {
    hide NormalValue, ItemsFor;
    var none: Values := map[];
    assert Restrict(NormalMap(vals), order) == NormalMap(vals);
    assert none + NormalMap(vals) == NormalMap(vals);
  }

  lemma WellFormedCounted(t: PacketType, vals: Values)
    requires WellFormed(t, vals)
    ensures AllCounted(vals)
  {
    hide Counted;
    assert forall id | id in vals :: WellTyped(t, id, vals[id]);
  }

  // ---------------------------------------------------------------- the length a block keeps

  /** `len` is the length of the block, in whatever order it is written. */
  ghost predicate Measured(vals: Values, len: nat) {
    forall order {:trigger BlockLen(vals, order)} | Enumerates(order, vals) :: BlockLen(vals, order) == len
  }

  lemma {:induction false} BlockLenConcat(vals: Values, a: seq<PropertyId>, b: seq<PropertyId>)
    ensures BlockLen(vals, a + b) == BlockLen(vals, a) + BlockLen(vals, b)
  {
    if a == [] {
      assert a + b == b;
    } else {
      assert (a + b)[0] == a[0] && (a + b)[1..] == a[1..] + b;
      BlockLenConcat(vals, a[1..], b);
    }
  }

  lemma {:induction false} BlockLenFrame(vals: Values, id: PropertyId, v: Value, order: seq<PropertyId>)
    requires id !in order
    ensures BlockLen(vals[id := v], order) == BlockLen(vals, order)
  {
    if order != [] {
      BlockLenFrame(vals, id, v, order[1..]);
    }
  }

  lemma SetOnceAt(vals: Values, len: nat, id: PropertyId, v: Value, order: seq<PropertyId>)
    requires Measured(vals, len) && id !in vals && Enumerates(order, vals[id := v])
    ensures BlockLen(vals[id := v], order) == len + PropLen(vals[id := v], id)
  {
    hide PropLen, BlockLen;
    var all := vals[id := v];
    assert id in order;
    var j :| 0 <= j < |order| && order[j] == id;
    var others := order[..j] + order[j + 1..];
    WithoutOne(order, j, vals, v);
    hide Enumerates;
    BlockLenPick(all, order, j);
    BlockLenFrame(vals, id, v, others);
    assert BlockLen(vals, others) == len;
  }

  /** Setting a property that was not set keeps the length right. */
  lemma SetOnceMeasured(vals: Values, len: nat, id: PropertyId, v: Value)
    requires Measured(vals, len) && id !in vals
    ensures Measured(vals[id := v], len + PropLen(vals[id := v], id))
  {
    hide PropLen, BlockLen, Enumerates;
    var all := vals[id := v];
    forall order | Enumerates(order, all) ensures BlockLen(all, order) == len + PropLen(all, id) {
      SetOnceAt(vals, len, id, v, order);
    }
  }

  /** Also on 32 bits, as long as the sum fits. */
  lemma SetOnceFits(vals: Values, len: uint32, id: PropertyId, v: Value)
    requires Measured(vals, len) && id !in vals && len + PropLen(vals[id := v], id) < 0x1_0000_0000
    ensures Measured(vals[id := v], (len + PropLen(vals[id := v], id)) % 0x1_0000_0000)
  {
    hide Measured, PropLen;
    SetOnceMeasured(vals, len, id, v);
  }

  lemma BlockLenPick(vals: Values, order: seq<PropertyId>, j: nat)
    requires j < |order|
    ensures BlockLen(vals, order) == PropLen(vals, order[j]) + BlockLen(vals, order[..j] + order[j + 1..])
  {
    var a, b := order[..j], order[j + 1..];
    assert order == a + ([order[j]] + b) && ([order[j]] + b)[1..] == b;
    BlockLenConcat(vals, a, [order[j]] + b);
    BlockLenConcat(vals, a, b);
  }

  lemma WithoutOne(order: seq<PropertyId>, j: nat, vals: Values, v: Value)
    requires j < |order| && order[j] !in vals && Enumerates(order, vals[order[j] := v])
    ensures Enumerates(order[..j] + order[j + 1..], vals) && order[j] !in order[..j] + order[j + 1..]
  {
    var a, b := order[..j], order[j + 1..];
    forall id ensures id in a + b <==> id in vals {
      assert order == a + [order[j]] + b;
      assert id in order <==> id in a || id == order[j] || id in b;
    }
  }

  /** Some order in which the rest of the map may follow `order`. */
  lemma {:induction false} Extend(vals: Values, order: seq<PropertyId>) returns (rest: seq<PropertyId>)
    requires NoDup(order) && forall id <- order :: id in vals
    ensures Enumerates(order + rest, vals)
    decreases vals.Keys - (set id <- order)
  {
    if id :| id in vals && id !in order {
      var more := order + [id];
      assert (set i <- more) == (set i <- order) + {id};
      assert id in vals.Keys - (set i <- order);
      assert vals.Keys - (set i <- more) < vals.Keys - (set i <- order);
      var r := Extend(vals, more);
      rest := [id] + r;
      assert order + rest == more + r;
    } else {
      rest := [];
      assert order + rest == order;
    }
  }

  lemma SomethingEnumerated(vals: Values, order: seq<PropertyId>)
    requires Enumerates(order, vals)
    ensures BlockLen(vals, order) != 0 ==> vals != map[]
  {
    if order != [] { assert order[0] in vals; }
  }

  lemma NothingMeasured()
    ensures Measured(map[], 0)
  {
    hide BlockLen;
    forall order | Enumerates(order, map[]) ensures BlockLen(map[], order) == 0 { SomethingEnumerated(map[], order); }
  }
}
