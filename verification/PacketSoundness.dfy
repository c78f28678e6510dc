/** Whatever the decoder accepts obeys the rules of its packet type, on every byte buffer. */
module PacketSoundness {
  import opened Common
  import opened Wire
  import opened Properties
  import opened Packets
  import opened PacketRoundTrip
  import opened PropertyForms

  // ---------------------------------------------------------------- properties

  lemma ItemReadable(k: Kind, b: bytes)
    ensures var r := DecodeItem(k, b); r.Ok? ==> Readable(r.value.0)
  {
    hide ValidUtf8, Uvarint;
    UvarintBound(b);
  }

  lemma OneLegal(t: PacketType, b: bytes, vals: Values)
    ensures var r := DecodeOne(t, b, vals); r.Ok? ==> Legal(t, r.value.0, r.value.1)
  {
    hide DecodeItem, Readable, Allowed, KindOf, Uvarint;
    var id := Uvarint(b);
    if 0 < id.n && KindOf(id.x).Some? { ItemReadable(KindOf(id.x).value, b[id.n..]); }
  }

  lemma PairsMapped(ps: seq<Pair>, p: Pair)
    ensures Items(StringPair, PairsV(ps + [p])) == Items(StringPair, PairsV(ps)) + [PairItem(p)]
  {
  }

  lemma {:induction false} PairsOfMapped(ps: seq<Pair>)
    ensures PairsOf(Items(StringPair, PairsV(ps))) == ps
  {
    if ps != [] {
      var items := Items(StringPair, PairsV(ps));
      assert items[1..] == Items(StringPair, PairsV(ps[1..]));
      PairsOfMapped(ps[1..]);
    }
  }

  /** A map that reads back as itself. */
  predicate IsNormal(vals: Values) {
    NormalMap(vals) == vals
  }

  /** What may be stored next to `vals`. */
  predicate Storable(t: PacketType, vals: Values, id: PropertyId, i: Item) {
    Legal(t, id, i) && (id in vals ==> DupAllowed(id, t))
  }

  lemma NormalPairs(vals: Values, id: PropertyId)
    requires IsNormal(vals) && id in vals && KindOf(id) == Some(StringPair)
    ensures vals[id].PairsV?
  {
    assert id in NormalMap(vals);
    ItemsOfKind(StringPair, vals[id]);
  }

  /** The property just stored has the right type and is in normal form. */
  lemma StoredOne(t: PacketType, vals: Values, id: PropertyId, i: Item)
    requires WellFormed(t, vals) && IsNormal(vals) && Storable(t, vals, id, i)
    ensures var v := Store(vals, id, i)[id];
            && WellTyped(t, id, v) && ItemsFor(id, v) != [] && NormalValue(ItemsFor(id, v)) == v
            && ItemsFor(id, v) == (if i.PairItem? && id in vals then ItemsFor(id, vals[id]) else []) + [i]
  {
    if i.PairItem? {
      StoredPair(t, vals, id, i);
    } else {
      StoredSingle(t, vals, id, i);
    }
    hide Store, Legal, WellTyped, ItemsFor, NormalValue, WellFormed, IsNormal;
  }

  lemma StoredSingle(t: PacketType, vals: Values, id: PropertyId, i: Item)
    requires Legal(t, id, i) && !i.PairItem?
    ensures var v := Store(vals, id, i)[id]; WellTyped(t, id, v) && ItemsFor(id, v) == [i] && NormalValue([i]) == v
  {
    hide Allowed, ValidUtf8;
    var v := Store(vals, id, i)[id];
    assert ItemsFor(id, v) == [i];
  }

  lemma StoredPair(t: PacketType, vals: Values, id: PropertyId, i: Item)
    requires WellFormed(t, vals) && IsNormal(vals) && Storable(t, vals, id, i) && i.PairItem?
    ensures var v := Store(vals, id, i)[id];
            && WellTyped(t, id, v) && ItemsFor(id, v) != [] && NormalValue(ItemsFor(id, v)) == v
            && ItemsFor(id, v) == (if id in vals then ItemsFor(id, vals[id]) else []) + [i]
  {
    hide Allowed, ValidUtf8;
    var v := Store(vals, id, i)[id];
    var had: seq<Pair> := [];
    if id in vals {
      assert WellTyped(t, id, vals[id]);
      NormalPairs(vals, id);
      had := vals[id].ps;
    }
    PairsMapped(had, i.p);
    PairsOfMapped(had + [i.p]);
    assert v == PairsV(had + [i.p]);
  }

  lemma StoreElsewhere(vals: Values, id: PropertyId, i: Item)
    ensures var after := Store(vals, id, i); id in after && after == vals[id := after[id]]
  {
  }

  lemma StoreWellTyped(t: PacketType, vals: Values, id: PropertyId, i: Item)
    requires WellFormed(t, vals) && IsNormal(vals) && Storable(t, vals, id, i)
    ensures WellFormed(t, Store(vals, id, i)) && IsNormal(Store(vals, id, i))
  {
    var after := Store(vals, id, i);
    StoredOne(t, vals, id, i);
    StoreElsewhere(vals, id, i);
    hide Store, WellTyped, NormalValue, ItemsFor, Storable;
    forall k | k in after ensures WellTyped(t, k, after[k]) && ItemsFor(k, after[k]) != [] && NormalValue(ItemsFor(k, after[k])) == after[k] {
      if k != id { assert WellTyped(t, k, vals[k]) && k in NormalMap(vals); }
    }
  }

  // ---------------------------------------------------------------- what the loop took

  /** One turn of the loop: the entry it read and the bytes that took. */
  datatype Taken = Taken(e: Entry, n: nat)

  function Trace(t: PacketType, from: bytes, off: nat, pLen: uint32, vals: Values): seq<Taken>
    requires off <= |from|
    decreases |from| - off
  {
    if pLen == 0 then []
    else
      match DecodeOne(t, from[off..], vals)
      case Err(_) => []
      case Ok((id, i, n)) => [Taken(Entry(id, i), n)] + Trace(t, from, off + n, Minus(pLen, n), Store(vals, id, i))
  }

  function Entries(ts: seq<Taken>): seq<Entry> {
    if ts == [] then [] else [ts[0].e] + Entries(ts[1..])
  }

  function Bytes(ts: seq<Taken>): nat {
    if ts == [] then 0 else ts[0].n + Bytes(ts[1..])
  }

  /** No number was longer than it need be. */
  predicate Minimal(ts: seq<Taken>) {
    forall j {:trigger ts[j]} | 0 <= j < |ts| :: ts[j].n == ItemLen(ts[j].e.id, ts[j].e.item)
  }

  lemma {:induction false} DigitsEnough(b: bytes)
    requires b != []
    ensures VarLen(Wire.Value(b)) <= |b|
  {
    if |b| > 1 {
      DigitsEnough(b[1..]);
      assert Wire.Value(b) / 128 == Wire.Value(b[1..]);
    } else {
      assert b[1..] == [] && Wire.Value(b) < 128;
    }
  }

  lemma UvarintEnough(b: bytes)
    ensures Uvarint(b).n > 0 ==> VarLen(Uvarint(b).x) <= Uvarint(b).n
  {
    var i := Stop(b);
    if i < |b| { DigitsEnough(b[..i + 1]); }
  }

  lemma ItemAtLeast(k: Kind, b: bytes)
    ensures var r := DecodeItem(k, b); r.Ok? ==> forall id :: ItemLen(id, r.value.0) <= VarLen(id) + r.value.1
  {
    hide ValidUtf8, Uvarint, VarLen;
    UvarintEnough(b);
  }

  lemma OneAtLeast(t: PacketType, b: bytes, vals: Values)
    ensures var r := DecodeOne(t, b, vals); r.Ok? ==> ItemLen(r.value.0, r.value.1) <= r.value.2
  {
    hide DecodeItem, Allowed, KindOf, Uvarint, ItemLen, VarLen;
    UvarintEnough(b);
    var id := Uvarint(b);
    if 0 < id.n && KindOf(id.x).Some? { ItemAtLeast(KindOf(id.x).value, b[id.n..]); }
  }

  lemma DecodeOneDup(t: PacketType, b: bytes, vals: Values)
    ensures var r := DecodeOne(t, b, vals); r.Ok? ==> Storable(t, vals, r.value.0, r.value.1)
  {
    OneLegal(t, b, vals);
    hide Legal, DecodeItem, Allowed, KindOf, Uvarint;
  }

  lemma LoopTurn(t: PacketType, from: bytes, off: nat, pLen: uint32, vals: Values)
    requires off <= |from| && pLen != 0
    ensures var one := DecodeOne(t, from[off..], vals);
            if one.Err? then DecodeLoop(ReaderFor(t), from, off, pLen, vals) == Err(one.error)
            else
              var (id, i, n) := one.value;
              && DecodeLoop(ReaderFor(t), from, off, pLen, vals) == DecodeLoop(ReaderFor(t), from, off + n, Minus(pLen, n), Store(vals, id, i))
              && Trace(t, from, off, pLen, vals) == [Taken(Entry(id, i), n)] + Trace(t, from, off + n, Minus(pLen, n), Store(vals, id, i))
  {
    hide DecodeOne, Minus, Store;
  }

  lemma LoopDone(t: PacketType, from: bytes, off: nat, vals: Values)
    requires off <= |from|
    ensures DecodeLoop(ReaderFor(t), from, off, 0, vals) == Ok(Decoded(vals, off)) && Trace(t, from, off, 0, vals) == []
  {
  }

  /** What an accepted block holds is what the loop took, one after the other. */
  lemma {:induction false} TraceExplains(t: PacketType, from: bytes, off: nat, pLen: uint32, vals: Values)
    requires off <= |from|
    ensures var r, ts := DecodeLoop(ReaderFor(t), from, off, pLen, vals), Trace(t, from, off, pLen, vals);
            r.Ok? ==> && Acceptable(t, vals, Entries(ts)) && r.value.vals == StoreAll(vals, Entries(ts))
                      && r.value.n == off + Bytes(ts) && EntryLen(Entries(ts)) <= Bytes(ts)
                      && (EntryLen(Entries(ts)) == Bytes(ts) <==> Minimal(ts))
    decreases |from| - off
  {
    hide DecodeOne, Minus, Store, DecodeLoop, Trace, Acceptable, StoreAll, EntryLen, Entries, Bytes, Minimal, Storable, ItemLen, ReaderFor;
    if pLen == 0 {
      LoopDone(t, from, off, vals);
      TraceNothing(t, vals);
    } else {
      LoopTurn(t, from, off, pLen, vals);
      var one := DecodeOne(t, from[off..], vals);
      if one.Ok? {
        var (id, i, n) := one.value;
        var next := Store(vals, id, i);
        TraceExplains(t, from, off + n, Minus(pLen, n), next);
        DecodeOneDup(t, from[off..], vals);
        OneAtLeast(t, from[off..], vals);
        if DecodeLoop(ReaderFor(t), from, off + n, Minus(pLen, n), next).Ok? {
          TraceStep(t, vals, Taken(Entry(id, i), n), Trace(t, from, off + n, Minus(pLen, n), next));
        }
      }
    }
  }

  lemma TraceNothing(t: PacketType, vals: Values)
    ensures Acceptable(t, vals, Entries([])) && StoreAll(vals, Entries([])) == vals && Bytes([]) == 0
    ensures EntryLen(Entries([])) == 0 && Minimal([])
  {
  }

  lemma TraceStep(t: PacketType, vals: Values, x: Taken, more: seq<Taken>)
    requires Storable(t, vals, x.e.id, x.e.item) && Acceptable(t, Store(vals, x.e.id, x.e.item), Entries(more))
    requires ItemLen(x.e.id, x.e.item) <= x.n && EntryLen(Entries(more)) <= Bytes(more)
    requires EntryLen(Entries(more)) == Bytes(more) <==> Minimal(more)
    ensures var ts := [x] + more;
            && Entries(ts) == [x.e] + Entries(more) && Bytes(ts) == x.n + Bytes(more)
            && Acceptable(t, vals, Entries(ts)) && StoreAll(vals, Entries(ts)) == StoreAll(Store(vals, x.e.id, x.e.item), Entries(more))
            && EntryLen(Entries(ts)) <= Bytes(ts) && (EntryLen(Entries(ts)) == Bytes(ts) <==> Minimal(ts))
  {
    hide Legal, ItemLen, DupAllowed, Store, Acceptable, StoreAll;
    var ts := [x] + more;
    assert ts[1..] == more;
    TakeEntry(t, vals, x.e, Entries(more));
    assert ([x.e] + Entries(more))[1..] == Entries(more);
    assert forall j {:trigger ts[j]} | 0 < j < |ts| :: ts[j] == more[j - 1];
    assert forall j {:trigger more[j]} | 0 <= j < |more| :: more[j] == ts[j + 1];
  }

  // ---------------------------------------------------------------- lawful blocks

  lemma {:induction false} StoredLawful(t: PacketType, vals: Values, es: seq<Entry>)
    requires WellFormed(t, vals) && IsNormal(vals) && Acceptable(t, vals, es)
    ensures WellFormed(t, StoreAll(vals, es)) && IsNormal(StoreAll(vals, es))
    decreases |es|
  {
    hide WellFormed, IsNormal, Store, Legal, DupAllowed;
    if es != [] {
      StoreWellTyped(t, vals, es[0].id, es[0].item);
      StoredLawful(t, Store(vals, es[0].id, es[0].item), es[1..]);
    }
  }

  /** Every block that is accepted holds only properties its packet type may carry, each with a value of
      its type, and reads back as itself. */
  lemma AcceptedBlock(t: PacketType, from: bytes)
    ensures var r := DecodeBlock(t, from); r.Ok? ==> WellFormed(t, r.value.vals) && IsNormal(r.value.vals)
  {
    hide DecodeOne, Uvarint, Legal, DecodeLoop, Trace, ReaderFor, Acceptable, StoreAll;
    UvarintBound(from);
    var l := Uvarint(from);
    if l.n > 0 {
      TraceExplains(t, from, l.n, l.x, map[]);
      NoneLawful(t);
      if DecodeBlock(t, from).Ok? { StoredLawful(t, map[], Entries(Trace(t, from, l.n, l.x, map[]))); }
    }
  }

  lemma NoneLawful(t: PacketType)
    ensures WellFormed(t, map[]) && IsNormal(map[])
  {
  }

  lemma AcceptedProps(t: PacketType, hasMap: bool, from: bytes)
    ensures var r := ReadProps(t, hasMap, from); r.Ok? ==> WellFormed(t, r.value.0.vals) && IsNormal(r.value.0.vals)
  {
    hide DecodeBlock, DecodeOne, Uvarint, WellFormed, IsNormal;
    NoneLawful(t);
    if hasMap { AcceptedBlock(t, from); }
  }

  // ---------------------------------------------------------------- packets

  /** The rules a packet of each type obeys; its length and that of its properties aside. */
  ghost predicate Lawful(p: Packet) {
    && (ValidPublish(p) || ValidAck(p) || ValidSubscribe(p) || ValidConnect(p))
    && IsNormal(p.props.vals)
    && if CarriesProps(p) then WellFormed(p.t, p.props.vals) else p.props == NoProps
  }

  lemma LPFits(b: bytes)
    ensures var r := ReadLP(b); r.Ok? ==> Fits(r.value.0)
  {
  }

  lemma MaybeWellFormed(t: PacketType, present: bool, from: bytes)
    ensures var r := MaybeProps(t, present, from); r.Ok? ==> LawfulProps(t, present, r.value.0)
  {
    hide ReadProps, WellFormed, IsNormal;
    NoneLawful(t);
    AcceptedProps(t, true, from);
  }

  /** Properties as a packet of type `t` may have them. */
  ghost predicate LawfulProps(t: PacketType, carries: bool, props: Props) {
    IsNormal(props.vals) && if carries then WellFormed(t, props.vals) else props == NoProps
  }

  lemma LawfulPublish(v: byte, flags: byte, topic: bytes, id: Option<uint16>, props: Props, payload: bytes)
    requires Fits(topic) && ValidTopic(topic) && QoS(flags) != 3 && (QoS(flags) == 0 ==> !Dup(flags)) && (id.Some? <==> QoS(flags) != 0)
    requires topic == [] ==> v > V50 || (v == V50 && HasAlias(props.vals))
    requires LawfulProps(PUBLISH, v == V50, props)
    ensures Lawful(Packet(PUBLISH, v, flags, id, props, Publish(topic, payload)))
  {
    hide ValidTopic, WellFormed, NormalMap, HasAlias, QoS, Dup;
  }

  lemma AcceptedPublish(v: byte, flags: byte, remLen: nat, from: bytes)
    ensures var r := DecodePublish(v, flags, remLen, from); r.Ok? ==> Lawful(r.value.0) && r.value.0.version == v && r.value.1 <= |from|
  {
    hide ReadLP, MaybeProps, ValidTopic, HasAlias, WellFormed, QoS, Dup, Lawful, IsNormal, LawfulProps, Fits;
    LPFits(from);
    var r := DecodePublish(v, flags, remLen, from);
    if r.Ok? {
      var (topic, n) := ReadLP(from).value;
      var rest := from[n..];
      var (id, m) := if QoS(flags) != 0 then TakeId(rest) else (0, 0);
      MaybeWellFormed(PUBLISH, v == V50, rest[m..]);
      var (props, k) := MaybeProps(PUBLISH, v == V50, rest[m..]).value;
      var p := r.value.0;
      assert p == Packet(PUBLISH, v, flags, if QoS(flags) != 0 then Some(id) else None, props, Publish(topic, p.body.payload));
      LawfulPublish(v, flags, topic, p.id, props, p.body.payload);
    }
  }

  lemma LawfulAck(t: PacketType, v: byte, flags: byte, id: uint16, props: Props, reason: byte)
    requires IsAck(t) && flags == DefaultFlags(t) && (if v == V50 then ValidReason(t, reason) else reason == 0)
    requires LawfulProps(t, v == V50, props)
    ensures Lawful(Packet(t, v, flags, Some(id), props, Ack(reason)))
  {
    hide WellFormed, IsNormal;
  }

  lemma SuccessIsValid(t: PacketType)
    requires IsAck(t)
    ensures ValidReason(t, 0)
  {
  }

  lemma AcceptedAck(t: PacketType, v: byte, flags: byte, from: bytes)
    requires IsAck(t) && flags == DefaultFlags(t)
    ensures var r := DecodeAck(t, v, flags, from); r.Ok? ==> Lawful(r.value.0) && r.value.0.version == v && r.value.1 <= |from|
  {
    hide MaybeProps, WellFormed, IsNormal, Lawful, ValidReason, TakeId;
    var (id, n) := TakeId(from);
    var rest := from[n..];
    NoneLawful(t);
    SuccessIsValid(t);
    if v != V50 || rest == [] {
      LawfulAck(t, v, flags, id, NoProps, 0);
    } else if ValidReason(t, rest[0]) {
      MaybeWellFormed(t, rest[1..] != [], rest[1..]);
      var props := MaybeProps(t, rest[1..] != [], rest[1..]);
      if props.Ok? { LawfulAck(t, v, flags, id, props.value.0, rest[0]); }
    }
  }

  predicate AllValid(v: byte, fs: seq<Filter>) {
    forall i {:trigger fs[i]} | 0 <= i < |fs| :: ValidFilter(v, fs[i])
  }

  lemma {:induction false} AcceptedFilters(v: byte, from: bytes, off: nat, left: int, fs: seq<Filter>)
    requires AllValid(v, fs)
    ensures var r := DecodeFilters(v, from, off, left, fs); r.Ok? ==> AllValid(v, r.value.0) && r.value.1 <= off + |from|
    decreases |from|
  {
    hide ReadLP, ValidUtf8;
    LPFits(from);
    var lp := ReadLP(from);
    if left > 0 && lp.Ok? {
      var (t, n) := lp.value;
      if ValidUtf8(t) && n < |from| && from[n] % 4 != 3 && !(v == V50 && from[n] >= 0x40) {
        assert ValidFilter(v, Filter(t, from[n]));
        AcceptedFilters(v, from[n + 1..], off + n + 1, left - n - 1, fs + [Filter(t, from[n])]);
      }
    }
  }

  lemma LawfulSubscribe(v: byte, flags: byte, id: uint16, props: Props, fs: seq<Filter>)
    requires flags == DefaultFlags(SUBSCRIBE) && AllValid(v, fs) && fs != [] && LawfulProps(SUBSCRIBE, v == V50, props)
    ensures Lawful(Packet(SUBSCRIBE, v, flags, Some(id), props, Subscribe(fs)))
  {
    hide WellFormed, IsNormal, ValidFilter;
    assert forall f <- fs :: ValidFilter(v, f);
  }

  lemma AcceptedSubscribe(v: byte, flags: byte, remLen: nat, from: bytes)
    requires flags == DefaultFlags(SUBSCRIBE)
    ensures var r := DecodeSubscribe(v, flags, remLen, from); r.Ok? ==> Lawful(r.value.0) && r.value.0.version == v && r.value.1 <= |from|
  {
    hide MaybeProps, WellFormed, DecodeFilters, AllValid, IsNormal, Lawful, TakeId;
    var (id, n) := TakeId(from);
    MaybeWellFormed(SUBSCRIBE, v == V50, from[n..]);
    var props := MaybeProps(SUBSCRIBE, v == V50, from[n..]);
    if props.Ok? {
      var k := props.value.1;
      NoFiltersYet(v);
      AcceptedFilters(v, from[n..][k..], n + k, remLen - n - k, []);
      var fs := DecodeFilters(v, from[n..][k..], n + k, remLen - n - k, []);
      if fs.Ok? && fs.value.0 != [] { LawfulSubscribe(v, flags, id, props.value.0, fs.value.0); }
    }
  }

  lemma NoFiltersYet(v: byte)
    ensures AllValid(v, [])
  {
  }

  lemma OptionalFits(present: bool, b: bytes)
    ensures var r := TakeLP(present, b); r.Ok? ==> ValidOptional(present, r.value.0)
  {
    hide ReadLP;
    LPFits(b);
  }

  lemma TwoFit(first: bool, second: bool, from: bytes)
    ensures var r := TakeTwo(first, second, from);
            r.Ok? ==> ValidOptional(first, r.value.0) && ValidOptional(second, r.value.1)
  {
    hide TakeLP, ValidOptional;
    OptionalFits(first, from);
    var a := TakeLP(first, from);
    if a.Ok? { OptionalFits(second, from[a.value.1..]); }
  }

  lemma AcceptedConnectPayload(v: byte, keepAlive: uint16, bits: byte, from: bytes)
    requires BitsError(v, bits).None?
    ensures var r := DecodeConnectPayload(v, keepAlive, bits, from); r.Ok? ==> ValidConnectBody(v, r.value.0) && r.value.1 <= |from|
  {
    hide ReadLP, TakeTwo, ValidOptional, BitsError, ValidClientId, HasWill, HasUsername, HasPassword, Clean;
    LPFits(from);
    var cid := ReadLP(from);
    if cid.Ok? {
      var rest := from[cid.value.1..];
      TwoFit(HasWill(bits), HasWill(bits), rest);
      var will := TakeTwo(HasWill(bits), HasWill(bits), rest);
      if will.Ok? { TwoFit(HasUsername(bits), HasPassword(bits), rest[will.value.2..]); }
    }
  }

  lemma AcceptedConnectFields(hasMap: bool, flags: byte, name: bytes, n: nat, rest: bytes)
    requires flags == DefaultFlags(CONNECT)
    ensures var r := DecodeConnectFields(hasMap, flags, name, n, rest); r.Ok? ==> Lawful(r.value.0) && r.value.0.t == CONNECT && r.value.1 <= n + |rest|
  {
    hide ReadProps, DecodeConnectPayload, BitsError, WellFormed, ReadU16, ValidConnectBody, ProtocolName, IsNormal;
    NoneLawful(CONNECT);
    if |rest| >= 4 && BitsError(rest[0], rest[1]).None? {
      var after := rest[4..];
      AcceptedProps(CONNECT, hasMap, after);
      var props := if rest[0] >= V50 then ReadProps(CONNECT, hasMap, after) else Ok((NoProps, 0));
      if props.Ok? { AcceptedConnectPayload(rest[0], ReadU16(rest[2..]), rest[1], after[props.value.1..]); }
    }
  }

  lemma AcceptedConnect(hasMap: bool, flags: byte, from: bytes)
    requires flags == DefaultFlags(CONNECT)
    ensures var r := DecodeConnect(hasMap, flags, from); r.Ok? ==> Lawful(r.value.0) && r.value.0.t == CONNECT && r.value.1 <= |from|
  {
    hide ReadLP, ValidUtf8, DecodeConnectFields, Lawful;
    var lp := ReadLP(from);
    if lp.Ok? { AcceptedConnectFields(hasMap, flags, lp.value.0, lp.value.1, from[lp.value.1..]); }
  }

  /** On every byte buffer: a packet that is accepted obeys all the rules of its type and version, carries
      only properties it may carry, each with a value of its type, and lies within the buffer. */
  lemma AcceptedIsLawful(v: byte, buf: bytes)
    requires buf != [] ==> buf[0] < 16 || Modelled(TypeOf(buf[0] / 16))
    ensures var r := Decode(v, buf);
            r.Ok? ==> Lawful(r.value.0) && r.value.1 <= |buf| && (r.value.0.t != CONNECT ==> r.value.0.version == v)
  {
    hide Lawful, DecodePublish, DecodeAck, DecodeSubscribe, DecodeConnect, Uvarint;
    if |buf| > 0 && buf[0] >= 16 {
      var t, flags, l := TypeOf(buf[0] / 16), buf[0] % 16, Uvarint(buf[1..]);
      if l.n > 0 {
        var from := buf[1..][l.n..];
        if t == PUBLISH {
          AcceptedPublish(v, flags, l.x, from);
        } else if flags == DefaultFlags(t) {
          if t == SUBSCRIBE {
            AcceptedSubscribe(v, flags, l.x, from);
          } else if t == CONNECT {
            AcceptedConnect(v >= V50, flags, from);
          } else {
            AcceptedAck(t, v, flags, from);
          }
        }
      }
    }
  }

  // ---------------------------------------------------------------- the length of what was read

  /** A subscription identifier is read when there is one already. */
  predicate Overwrites(vals: Values, es: seq<Entry>)
    decreases |es|
  {
    es != [] && ((es[0].id == SubscriptionIdentifier && es[0].id in vals) || Overwrites(Store(vals, es[0].id, es[0].item), es[1..]))
  }

  lemma SetAgainAt(vals: Values, len: nat, id: PropertyId, v: Value, order: seq<PropertyId>)
    requires Measured(vals, len) && id in vals && Enumerates(order, vals[id := v])
    ensures BlockLen(vals[id := v], order) == len - PropLen(vals, id) + PropLen(vals[id := v], id)
  {
    hide PropLen, BlockLen;
    var all := vals[id := v];
    assert id in order && Enumerates(order, vals);
    var j :| 0 <= j < |order| && order[j] == id;
    var others := order[..j] + order[j + 1..];
    BlockLenPick(all, order, j);
    BlockLenPick(vals, order, j);
    assert id !in others by { OnlyThere(order, j); }
    BlockLenFrame(vals, id, v, others);
  }

  lemma OnlyThere(order: seq<PropertyId>, j: nat)
    requires NoDup(order) && j < |order|
    ensures order[j] !in order[..j] + order[j + 1..]
  {
  }

  /** Setting a property again changes the length by the difference. */
  lemma SetAgainMeasured(vals: Values, len: nat, id: PropertyId, v: Value)
    requires Measured(vals, len) && id in vals
    ensures len - PropLen(vals, id) + PropLen(vals[id := v], id) >= 0
    ensures Measured(vals[id := v], len - PropLen(vals, id) + PropLen(vals[id := v], id))
  {
    hide PropLen, BlockLen, Enumerates;
    var all := vals[id := v];
    forall order | Enumerates(order, all) ensures BlockLen(all, order) == len - PropLen(vals, id) + PropLen(all, id) {
      SetAgainAt(vals, len, id, v, order);
    }
    var order := Extend(all, []);
    NothingFirst(all, order);
  }

  lemma NothingFirst(vals: Values, order: seq<PropertyId>)
    requires Enumerates([] + order, vals)
    ensures Enumerates(order, vals)
  {
    assert [] + order == order;
  }

  lemma OneItemLen(vals: Values, id: PropertyId, i: Item)
    requires id in vals && Counted(id, vals[id]) && ItemsFor(id, vals[id]) == [i]
    ensures PropLen(vals, id) == ItemLen(id, i)
  {
    hide ItemLen;
    assert CountedEntries(vals, id) == EntriesOf(id, [i]);
    OneLen(id, i);
  }

  lemma MoreItemsLen(vals: Values, after: Values, id: PropertyId, i: Item)
    requires id in vals && Counted(id, vals[id]) && id in after && Counted(id, after[id]) && KindOf(id).Some?
    requires ItemsFor(id, after[id]) == ItemsFor(id, vals[id]) + [i]
    ensures PropLen(after, id) == PropLen(vals, id) + ItemLen(id, i)
  {
    hide ItemLen, EntryLen, EntriesOf;
    var items := ItemsFor(id, vals[id]);
    assert CountedEntries(vals, id) == EntriesOf(id, items) && CountedEntries(after, id) == EntriesOf(id, items + [i]);
    EntriesSnoc(id, items, i);
    EntryLenConcat(EntriesOf(id, items), [Entry(id, i)]);
    LenOfOne(Entry(id, i));
  }

  /** What storing one more item does to the length. */
  lemma StoreMeasured(t: PacketType, vals: Values, len: nat, id: PropertyId, i: Item) returns (more: nat)
    requires WellFormed(t, vals) && IsNormal(vals) && Measured(vals, len) && Storable(t, vals, id, i)
    ensures Measured(Store(vals, id, i), more) && more <= len + ItemLen(id, i)
    ensures more == len + ItemLen(id, i) <==> !(id == SubscriptionIdentifier && id in vals)
  {
    var after := Store(vals, id, i);
    var v := after[id];
    StoredOne(t, vals, id, i);
    StoreElsewhere(vals, id, i);
    hide Store, Allowed, AllReadable, PropLen, Items, NormalValue, Readable, Measured, ItemLen;
    if id !in vals {
      OneItemLen(after, id, i);
      SetOnceMeasured(vals, len, id, v);
      more := len + ItemLen(id, i);
    } else {
      assert WellTyped(t, id, vals[id]) && id in NormalMap(vals);
      SetAgainMeasured(vals, len, id, v);
      StoredLonger(t, vals, id, i);
      more := len - PropLen(vals, id) + PropLen(after, id);
    }
  }

  /** What storing an item does to the length of a property that was there. */
  lemma StoredLonger(t: PacketType, vals: Values, id: PropertyId, i: Item)
    requires WellFormed(t, vals) && IsNormal(vals) && Storable(t, vals, id, i) && id in vals && id in Store(vals, id, i)
    ensures var d := PropLen(Store(vals, id, i), id) - PropLen(vals, id);
            d <= ItemLen(id, i) && (d == ItemLen(id, i) <==> id != SubscriptionIdentifier)
  {
    var after := Store(vals, id, i);
    StoredOne(t, vals, id, i);
    hide Store, Allowed, AllReadable, PropLen, Items, NormalValue, Readable, ItemLen;
    assert WellTyped(t, id, vals[id]) && id in NormalMap(vals);
    if id == SubscriptionIdentifier {
      OneItemLen(after, id, i);
      WrittenSome(vals, id);
    } else {
      AgainIsPair(t, id, i);
      MoreItemsLen(vals, after, id, i);
    }
  }

  lemma AgainIsPair(t: PacketType, id: PropertyId, i: Item)
    requires Legal(t, id, i) && DupAllowed(id, t) && id != SubscriptionIdentifier
    ensures i.PairItem? && KindOf(id).Some?
  {
  }

  lemma WrittenSome(vals: Values, id: PropertyId)
    requires id in vals && KindOf(id).Some? && Counted(id, vals[id]) && ItemsFor(id, vals[id]) != []
    ensures PropLen(vals, id) > 0
  {
    LenPositive(id, ItemsFor(id, vals[id]));
  }

  lemma {:induction false} StoredMeasure(t: PacketType, vals: Values, len: nat, es: seq<Entry>) returns (m: nat)
    requires WellFormed(t, vals) && IsNormal(vals) && Measured(vals, len) && Acceptable(t, vals, es)
    ensures Measured(StoreAll(vals, es), m) && m <= len + EntryLen(es)
    ensures m == len + EntryLen(es) <==> !Overwrites(vals, es)
    decreases |es|
  {
    hide WellFormed, IsNormal, Store, Legal, DupAllowed, Measured, ItemLen;
    m := len;
    if es != [] {
      var e := es[0];
      var next := Store(vals, e.id, e.item);
      var more := StoreMeasured(t, vals, len, e.id, e.item);
      StoreWellTyped(t, vals, e.id, e.item);
      m := StoredMeasure(t, next, more, es[1..]);
    }
  }

  lemma OneMeasure(vals: Values, a: nat, b: nat)
    requires Measured(vals, a) && Measured(vals, b)
    ensures a == b
  {
    hide BlockLen;
    var order := Extend(vals, []);
    assert [] + order == order;
    assert BlockLen(vals, order) == a;
  }

  /** The block is written as the encoder would write it: no number longer than it need be, and no
      subscription identifier after another. */
  predicate Tidy(t: PacketType, from: bytes) {
    Uvarint(from).n > 0 &&
    (UvarintBound(from);
     var ts := Trace(t, from, Uvarint(from).n, Uvarint(from).x, map[]); Minimal(ts) && !Overwrites(map[], Entries(ts)))
  }

  /** On every buffer of legal size: the length kept for an accepted block is right for the properties it
      gave, so that the packet can be encoded again, exactly if the block is tidy; otherwise it is too
      long. */
  lemma LengthKeptRightExactlyIfTidy(t: PacketType, from: bytes)
    requires |from| < 0x1_0000_0000 && DecodeBlock(t, from).Ok?
    ensures var d := DecodeBlock(t, from).value;
            && d.n - Uvarint(from).n >= 0
            && (Measured(d.vals, d.n - Uvarint(from).n) <==> Tidy(t, from))
            && forall order | Enumerates(order, d.vals) :: BlockLen(d.vals, order) <= d.n - Uvarint(from).n
  {
    UvarintBound(from);
    var l := Uvarint(from);
    hide DecodeLoop, Trace, Uvarint, ReaderFor, Minimal, Overwrites, Acceptable, StoreAll, BlockLen;
    var d := DecodeBlock(t, from).value;
    TraceExplains(t, from, l.n, l.x, map[]);
    var ts := Trace(t, from, l.n, l.x, map[]);
    NoneLawful(t);
    NothingMeasured();
    var m := StoredMeasure(t, map[], 0, Entries(ts));
    if Measured(d.vals, d.n - l.n) { OneMeasure(d.vals, m, d.n - l.n); }
  }

  /** A lawful packet with a right length, within the limit, is a valid one that reads back as itself. */
  lemma LawfulEncodesAgain(p: Packet)
    requires Lawful(p) && p.flags < 16 && MessageLen(p) <= MaxRemainingLength
    requires CarriesProps(p) ==> Measured(p.props.vals, p.props.len) && p.props.len < 0x2000_0000
    ensures Valid(p) && AsRead(p) == p
  {
    hide WellFormed, Measured, NormalMap, ValidPublish, ValidAck, ValidSubscribe, ValidConnect, MessageLen;
  }
}
