/** The wire forms of MQTT spelled out byte by byte: numbers, strings and every property by its number, with
    the packets that carry it. What the codec writes and reads is proved to be this. */
module Spelling {
  import opened Common
  import opened Wire
  import opened Properties
  import opened PropertyForms
  import opened PropertyBlock

  // ---------------------------------------------------------------- numbers and strings

  /** Most significant byte first. */
  function TwoBytes(n: uint16): bytes {
    [n / 256, n - n / 256 * 256]
  }

  function FourBytes(n: uint32): bytes {
    TwoBytes(n / 0x1_0000) + TwoBytes(n - n / 0x1_0000 * 0x1_0000)
  }

  /** Section 1.5.5 of MQTT 5.0: seven bits a byte, the least significant first, and the high bit on all bytes
      but the last. */
  function Digits(x: nat): bytes
    requires x <= 268435455
  {
    if x <= 127 then [x]
    else if x <= 16383 then [128 + x % 128, x / 128]
    else if x <= 2097151 then [128 + x % 128, 128 + x / 128 % 128, x / 16384]
    else [128 + x % 128, 128 + x / 128 % 128, 128 + x / 16384 % 128, x / 2097152]
  }

  /** Two bytes of length, then the bytes. */
  function Text(s: bytes): bytes
    requires |s| <= 65535
  {
    TwoBytes(|s|) + s
  }

  lemma NumbersSpelled(n: uint16, x: uint32)
    ensures U16(n) == TwoBytes(n) && U32(x) == FourBytes(x)
  {
    FourSpelled(x);
  }

  lemma FourSpelled(x: uint32)
    ensures U32(x) == FourBytes(x)
  {
    FourDigits(x);
    Halves(x / 0x1_0000, x - x / 0x1_0000 * 0x1_0000, x);
  }

  lemma Halves(high: uint16, low: uint16, x: uint32)
    requires x == high * 0x1_0000 + low
    ensures high - high / 256 * 256 == high % 256 && low / 256 == x / 256 % 256 && low - low / 256 * 256 == x % 256
  {
    assert low == low / 256 * 256 + low % 256;
    assert x == (high * 256 + low / 256) * 256 + low % 256;
    assert x / 256 == high * 256 + low / 256;
  }

  lemma NumbersRead(n: uint16, x: uint32, rest: bytes)
    ensures ReadU16(TwoBytes(n) + rest) == n && ReadU32(FourBytes(x) + rest) == x
  {
    NumbersSpelled(n, x);
    BigEndianRoundTrip(n, x, rest);
  }

  lemma {:induction false} DigitsSpelled(x: nat)
    requires x <= 268435455
    ensures VarBytes(x) == Digits(x) && VarLen(x) == |Digits(x)|
  {
    if x >= 128 {
      DigitsSpelled(x / 128);
      NextDigit(x);
    }
  }

  lemma NextDigit(x: nat)
    requires 128 <= x <= 268435455
    ensures [x % 128 + 128] + Digits(x / 128) == Digits(x)
  {
    var a := x / 128;
    assert a / 128 == x / 16384 && a / 16384 == x / 2097152;
  }

  /** Reading the digits of a number MQTT allows, whatever follows. */
  lemma DigitsRead(x: nat, rest: bytes)
    requires x <= 268435455
    ensures Uvarint(Digits(x) + rest) == Varint(x, |Digits(x)|)
  {
    DigitsSpelled(x);
    VarintRoundTrip(x, rest);
  }

  lemma TextSpelled(s: bytes)
    requires |s| <= 65535
    ensures LP(s) == Text(s) && LPOrNothing(s) == Text(s)
  {
  }

  // ---------------------------------------------------------------- one property

  const OneByte: set<PropertyId> := {0x01, 0x17, 0x19, 0x24, 0x25, 0x28, 0x29, 0x2A}
  const TwoByte: set<PropertyId> := {0x13, 0x21, 0x22, 0x23}
  const FourByte: set<PropertyId> := {0x02, 0x11, 0x18, 0x27}
  const Textual: set<PropertyId> := {0x03, 0x08, 0x12, 0x15, 0x1A, 0x1C, 0x1F}
  const Raw: set<PropertyId> := {0x09, 0x16}

  /** A value of the type that table 2-4 of MQTT 5.0 gives the property, within the limits of its form. */
  predicate Proper(id: PropertyId, v: Value) {
    || (id in OneByte && v.U8V?)
    || (id in TwoByte && v.U16V?)
    || (id in FourByte && v.U32V?)
    || (id == 0x0B && v.U32V? && v.x <= 268435455)
    || (id in Textual && v.StringV? && |v.s| <= 65535)
    || (id in Raw && v.BinaryV? && |v.d| <= 65535)
    || (id == 0x26 && v.PairV? && |v.p.k| <= 65535 && |v.p.v| <= 65535)
  }

  /** The identifier and the value behind it. */
  function Spelled(id: PropertyId, v: Value): bytes
    requires Proper(id, v)
  {
    [id] + match v
           case U8V(b) => [b]
           case U16V(n) => TwoBytes(n)
           case U32V(x) => if id == 0x0B then Digits(x) else FourBytes(x)
           case StringV(s) => Text(s)
           case BinaryV(d) => Text(d)
           case PairV(p) => Text(p.k) + Text(p.v)
  }

  function ItemIn(id: PropertyId, v: Value): Item
    requires Proper(id, v)
  {
    match v
    case U8V(b) => ByteItem(b)
    case U16V(n) => ShortItem(n)
    case U32V(x) => if id == 0x0B then VarIntItem(x) else IntItem(x)
    case StringV(s) => StringItem(s)
    case BinaryV(d) => BinaryItem(d)
    case PairV(p) => PairItem(p)
  }

  /** The property stands on the wire as one item of its kind. */
  lemma OneItem(id: PropertyId, v: Value)
    requires Proper(id, v)
    ensures KindOf(id).Some? && Items(KindOf(id).value, v) == [ItemIn(id, v)] && OfKind(KindOf(id).value, ItemIn(id, v))
    ensures id < 128
  {
  }

  lemma ItemSpelled(id: PropertyId, v: Value)
    requires Proper(id, v)
    ensures ItemBytes(id, ItemIn(id, v)) == Spelled(id, v)
  {
    DigitsSpelled(id);
    match v
    case U8V(_) =>
    case U16V(n) => NumbersSpelled(n, 0);
    case U32V(x) => if id == 0x0B { DigitsSpelled(x); } else { NumbersSpelled(0, x); }
    case StringV(s) => TextSpelled(s);
    case BinaryV(d) => TextSpelled(d);
    case PairV(p) => TextSpelled(p.k); TextSpelled(p.v);
  }

  // ---------------------------------------------------------------- writing

  predicate AllProper(vals: Values, order: seq<PropertyId>) {
    forall i {:trigger order[i]} | 0 <= i < |order| :: order[i] in vals && Proper(order[i], vals[order[i]])
  }

  function SpelledAll(vals: Values, order: seq<PropertyId>): bytes
    requires AllProper(vals, order)
  {
    if order == [] then [] else Spelled(order[0], vals[order[0]]) + SpelledAll(vals, order[1..])
  }

  lemma PropertySpelled(vals: Values, id: PropertyId)
    requires id in vals && Proper(id, vals[id])
    ensures EntriesFor(vals, id) == [Entry(id, ItemIn(id, vals[id]))] && EntryBytes(EntriesFor(vals, id)) == Spelled(id, vals[id])
  {
    OneItem(id, vals[id]);
    ItemSpelled(id, vals[id]);
    hide Proper, Spelled, ItemIn, ItemBytes, KindOf, Items;
    var i := ItemIn(id, vals[id]);
    assert [i][1..] == [] && EntriesOf(id, [i]) == [Entry(id, i)] + [];
    OneEntry(Entry(id, i));
  }

  /** What is written for a map of properties, in the order in which they are enumerated: the length that is
      kept, then identifier and value of each. */
  lemma {:induction false} BlockSpelled(vals: Values, len: nat, order: seq<PropertyId>)
    requires AllProper(vals, order) && len <= 268435455
    ensures Prefixed(vals, len, order) == Digits(len) + SpelledAll(vals, order)
  {
    DigitsSpelled(len);
    EntriesSpelled(vals, order);
  }

  lemma {:induction false} EntriesSpelled(vals: Values, order: seq<PropertyId>)
    requires AllProper(vals, order)
    ensures EntryBytes(Flatten(vals, order)) == SpelledAll(vals, order)
  {
    hide Proper, Spelled, EntriesFor, EntryBytes;
    if order == [] {
      NoEntries();
    } else {
      PropertySpelled(vals, order[0]);
      EntriesSpelled(vals, order[1..]);
      EntryBytesConcat(EntriesFor(vals, order[0]), Flatten(vals, order[1..]));
    }
  }

  // ---------------------------------------------------------------- where a property may stand

  /** Table 2-4 of MQTT 5.0, by packet. */
  function InStandard(t: PacketType): set<PropertyId> {
    match t
    case CONNECT => {0x11, 0x15, 0x16, 0x17, 0x19, 0x21, 0x22, 0x26, 0x27}
    case CONNACK => {0x11, 0x12, 0x13, 0x15, 0x16, 0x1A, 0x1C, 0x1F, 0x21, 0x22, 0x24, 0x25, 0x26, 0x27, 0x28, 0x29, 0x2A}
    case PUBLISH => {0x01, 0x02, 0x03, 0x08, 0x09, 0x0B, 0x23, 0x26}
    case PUBACK => {0x1F, 0x26}
    case PUBREC => {0x1F, 0x26}
    case PUBREL => {0x1F, 0x26}
    case PUBCOMP => {0x1F, 0x26}
    case SUBSCRIBE => {0x0B, 0x26}
    case SUBACK => {0x1F, 0x26}
    case UNSUBSCRIBE => {0x26}
    case UNSUBACK => {0x1F, 0x26}
    case DISCONNECT => {0x11, 0x1C, 0x1F, 0x26}
    case AUTH => {0x15, 0x16, 0x1F, 0x26}
    case RESERVED => {}
    case PINGREQ => {}
    case PINGRESP => {}
  }

  /** Where the broker differs: it takes the will delay among the properties of CONNECT, where the standard has
      it among those of the will, and knows neither a session expiry in CONNACK nor user properties in
      SUBSCRIBE and UNSUBSCRIBE. */
  predicate Carried(t: PacketType, id: PropertyId) {
    || (t == CONNECT && id == 0x18)
    || (id in InStandard(t) && !(t == CONNACK && id == 0x11) && !((t == SUBSCRIBE || t == UNSUBSCRIBE) && id == 0x26))
  }

  lemma CarriedIsAllowed(t: PacketType, id: PropertyId)
    ensures Carried(t, id) <==> Allowed(id, t)
  {
  }

  // ---------------------------------------------------------------- reading

  /** Text must be valid UTF-8 to be read. */
  predicate Clear(v: Value) {
    match v
    case StringV(s) => ValidUtf8(s)
    case PairV(p) => ValidUtf8(p.k) && ValidUtf8(p.v)
    case _ => true
  }

  /** A single pair is kept as a list of one. */
  function Taken(v: Value): Value {
    if v.PairV? then PairsV([v.p]) else v
  }

  lemma ProperWritten(id: PropertyId, v: Value, order: seq<PropertyId>)
    requires Proper(id, v) && order == [id]
    ensures var vals: Values := map[id := v];
            && Flatten(vals, order) == [Entry(id, ItemIn(id, v))]
            && EntryBytes(Flatten(vals, order)) == Spelled(id, v)
  {
    var vals: Values := map[id := v];
    PropertySpelled(vals, id);
    hide Proper, Spelled, EntriesFor, EntryBytes;
    assert order[1..] == [] && Flatten(vals, order[1..]) == [];
    assert Flatten(vals, order) == EntriesFor(vals, id) + [];
  }

  lemma ProperLegal(t: PacketType, id: PropertyId, v: Value)
    requires Proper(id, v) && Clear(v) && Carried(t, id)
    ensures Legal(t, id, ItemIn(id, v))
  {
    CarriedIsAllowed(t, id);
    OneItem(id, v);
    hide Allowed, ValidUtf8, Carried, KindOf, OfKind;
  }

  lemma ItemTaken(id: PropertyId, v: Value)
    requires Proper(id, v)
    ensures Store(map[], id, ItemIn(id, v)) == map[id := Taken(v)]
  {
    if v.PairV? {
      assert [] + [v.p] == [v.p];
    }
  }

  /** A property of any kind in a packet of any type: the block that holds it is read to its value exactly if
      the packet may carry it. */
  lemma PropertyRead(t: PacketType, id: PropertyId, v: Value, rest: bytes)
    requires Proper(id, v) && Clear(v)
    ensures var b := Spelled(id, v);
            DecodeBlock(t, Digits(|b|) + b + rest) ==
            if Carried(t, id) then Ok(Decoded(map[id := Taken(v)], |Digits(|b|)| + |b|)) else Err(MalformedPacket)
  {
    var b := Spelled(id, v);
    ShortEnough(id, v);
    if Carried(t, id) {
      ReadCarried(t, id, v, rest);
    } else {
      OneItem(id, v);
      RefusedIdentifier(t, id, b[1..], rest);
      assert b == [id] + b[1..];
    }
  }

  lemma ShortEnough(id: PropertyId, v: Value)
    requires Proper(id, v)
    ensures 0 < |Spelled(id, v)| <= 131075 && Spelled(id, v)[0] == id
  {
  }

  lemma ReadCarried(t: PacketType, id: PropertyId, v: Value, rest: bytes)
    requires Proper(id, v) && Clear(v) && Carried(t, id)
    ensures |Spelled(id, v)| <= 268435455
    ensures var b := Spelled(id, v); DecodeBlock(t, Digits(|b|) + b + rest) == Ok(Decoded(map[id := Taken(v)], |Digits(|b|)| + |b|))
  {
    hide Proper, Spelled, ItemIn, Carried, Store, ItemBytes, Digits, VarBytes, Taken, DecodeBlock, Legal, Clear;
    ShortEnough(id, v);
    ItemSpelled(id, v);
    ProperLegal(t, id, v);
    ItemTaken(id, v);
    var b := Spelled(id, v);
    DigitsSpelled(|b|);
    EntryReads(t, Entry(id, ItemIn(id, v)), rest);
  }

  /** One entry in a block of its own. */
  lemma EntryReads(t: PacketType, e: Entry, rest: bytes)
    requires Legal(t, e.id, e.item) && |ItemBytes(e.id, e.item)| <= 268435455
    ensures var b := ItemBytes(e.id, e.item);
            DecodeBlock(t, VarBytes(|b|) + b + rest) == Ok(Decoded(Store(map[], e.id, e.item), |VarBytes(|b|)| + |b|))
  {
    hide Legal, ReadBlock, Store, ItemBytes, EntryBytes, Reads, Acceptable, StoreAll, VarBytes, VarLen, Progresses, ReaderFor, EntryLen;
    var b := ItemBytes(e.id, e.item);
    OneEntry(e);
    AcceptableOne(t, e);
    AcceptableReads(t, map[], [e]);
    ReadsBlock(ReaderFor(t), [e], rest);
    VarBytesShape(|b|);
  }

  lemma AcceptableOne(t: PacketType, e: Entry)
    requires Legal(t, e.id, e.item)
    ensures Acceptable(t, map[], [e]) && StoreAll(map[], [e]) == Store(map[], e.id, e.item)
  {
    hide Legal, Store;
    assert [e][1..] == [];
  }

  /** A block that starts with a property its packet may not carry is refused, known or not. */
  lemma RefusedIdentifier(t: PacketType, id: byte, more: bytes, rest: bytes)
    requires id < 128 && !Carried(t, id) && |more| < 268435455
    ensures DecodeBlock(t, Digits(1 + |more|) + ([id] + more) + rest) == Err(MalformedPacket)
  {
    hide Allowed, Uvarint, Digits, Carried, DecodeLoop, Progresses, ReaderFor, DecodeOne;
    var n := 1 + |more|;
    var d := Digits(n);
    var from := d + ([id] + more) + rest;
    assert from == d + (([id] + more) + rest);
    DigitsRead(n, ([id] + more) + rest);
    assert from[|d|..] == [id] + (more + rest);
    FirstRefused(t, id, more + rest);
    ReaderReads(t, from[|d|..], map[]);
    LoopRefuses(ReaderFor(t), from, |d|, n, map[], MalformedPacket);
  }

  lemma FirstRefused(t: PacketType, id: byte, rest: bytes)
    requires id < 128 && !Carried(t, id)
    ensures DecodeOne(t, [id] + rest, map[]) == Err(MalformedPacket)
  {
    hide Allowed, Uvarint, Carried;
    CarriedIsAllowed(t, id);
    assert Digits(id) == [id];
    DigitsRead(id, rest);
  }

  /** The same property twice is refused, except user properties and the identifiers of a PUBLISH. */
  lemma TwiceRead(t: PacketType, id: PropertyId, v: Value, u: Value, rest: bytes)
    requires Proper(id, v) && Clear(v) && Proper(id, u) && Clear(u) && Carried(t, id)
    ensures |Spelled(id, v) + Spelled(id, u)| <= 268435455
    ensures var b := Spelled(id, v) + Spelled(id, u);
            DecodeBlock(t, Digits(|b|) + b + rest) == Err(ProtocolError) <==> !(id == 0x26 || (id == 0x0B && t == PUBLISH))
  {
    hide Proper, Spelled, ItemIn, Carried, Legal, ReadBlock, Store, ItemBytes, EntryBytes, Reads, Digits, DupAllowed, Acceptable, VarBytes, StoreAll, Clashes;
    ShortEnough(id, v);
    ShortEnough(id, u);
    ItemSpelled(id, v);
    ItemSpelled(id, u);
    ProperLegal(t, id, v);
    ProperLegal(t, id, u);
    DupIs(t, id);
    var b, es := Spelled(id, v) + Spelled(id, u), [Entry(id, ItemIn(id, v)), Entry(id, ItemIn(id, u))];
    DigitsSpelled(|b|);
    TwoEntries(es[0], es[1]);
    if DupAllowed(id, t) {
      AcceptableTwo(t, es[0], es[1]);
      AcceptableReads(t, map[], es);
      ReadsBlock(ReaderFor(t), es, rest);
    } else {
      TwiceClashes(t, map[], es);
      ClashBlock(t, es, rest);
    }
  }

  lemma DupIs(t: PacketType, id: PropertyId)
    requires Carried(t, id)
    ensures DupAllowed(id, t) <==> id == 0x26 || (id == 0x0B && t == PUBLISH)
  {
    CarriedIsAllowed(t, id);
  }

  lemma TwoEntries(e: Entry, f: Entry)
    ensures EntryBytes([e, f]) == ItemBytes(e.id, e.item) + ItemBytes(f.id, f.item)
  {
    hide ItemBytes;
    assert [e, f] == [e] + [f];
    EntryBytesConcat([e], [f]);
    OneEntry(e);
    OneEntry(f);
  }

  lemma AcceptableTwo(t: PacketType, e: Entry, f: Entry)
    requires Legal(t, e.id, e.item) && Legal(t, f.id, f.item) && DupAllowed(f.id, t)
    ensures Acceptable(t, map[], [e, f])
  {
    hide Legal, Store, DupAllowed;
    var es := [e, f];
    assert es[1..] == [f] && [f][1..] == [];
    assert Acceptable(t, Store(map[], e.id, e.item), [f]);
  }
}
