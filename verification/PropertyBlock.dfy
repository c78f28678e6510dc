/** The property block as the packets hold it: a map and the length it will take, changed in place. */
module PropertyBlock {
  import opened Common
  import opened Wire
  import opened Properties

  /** packet.encodeByte and its kin: the identifier, then the value; a string too long for its prefix is
      left out. */
  method EncodeItem(to: array<byte>, off: nat, id: PropertyId, i: Item) returns (n: nat)
    requires off + |ItemBytes(id, i)| <= to.Length
    modifies to
    ensures n == |ItemBytes(id, i)| && Wrote(old(to[..]), to[..], off, ItemBytes(id, i))
  {
    hide Wrote, Body;
    VarBytesShape(id);
    var k := PutUvarint(to, off, id);
    ghost var mid := to[..];
    n := EncodeBody(to, off + k, i);
    WroteNext(old(to[..]), mid, to[..], off, VarBytes(id), Body(i));
    n := k + n;
  }

  method EncodeBody(to: array<byte>, off: nat, i: Item) returns (n: nat)
    requires off + |Body(i)| <= to.Length
    modifies to
    ensures n == |Body(i)| && Wrote(old(to[..]), to[..], off, Body(i))
  {
    match i {
      case ByteItem(b) =>
        to[off] := b;
        n := 1;
      case ShortItem(x) =>
        PutU16(to, off, x);
        n := 2;
      case IntItem(x) =>
        PutU32(to, off, x);
        n := 4;
      case VarIntItem(y) =>
        VarBytesShape(y);
        n := PutUvarint(to, off, y);
      case StringItem(s) =>
        n := EncodeLP(to, off, s);
      case BinaryItem(d) =>
        n := EncodeLP(to, off, d);
      case PairItem(p) =>
        n := EncodePair(to, off, p);
    }
  }

  /** WriteLPBytes with its error dropped. */
  method EncodeLP(to: array<byte>, off: nat, s: bytes) returns (n: nat)
    requires off + |LPOrNothing(s)| <= to.Length
    modifies to
    ensures n == |LPOrNothing(s)| && Wrote(old(to[..]), to[..], off, LPOrNothing(s))
  {
    var err;
    n, err := WriteLP(to, off, s);
    if err.Some? {
      WroteNothing(to[..], off);
      n := 0;
    }
  }

  method EncodePair(to: array<byte>, off: nat, p: Pair) returns (n: nat)
    requires off + |LPOrNothing(p.k)| + |LPOrNothing(p.v)| <= to.Length
    modifies to
    ensures n == |LPOrNothing(p.k) + LPOrNothing(p.v)| && Wrote(old(to[..]), to[..], off, LPOrNothing(p.k) + LPOrNothing(p.v))
  {
    hide LPOrNothing, Wrote;
    var a := EncodeLP(to, off, p.k);
    ghost var mid := to[..];
    var b := EncodeLP(to, off + a, p.v);
    WroteNext(old(to[..]), mid, to[..], off, LPOrNothing(p.k), LPOrNothing(p.v));
    n := a + b;
  }

  lemma {:induction false} EntryBytesConcat(a: seq<Entry>, b: seq<Entry>)
    ensures EntryBytes(a + b) == EntryBytes(a) + EntryBytes(b)
  {
    if a == [] {
      assert a + b == b;
    } else {
      assert (a + b)[0] == a[0] && (a + b)[1..] == a[1..] + b;
      EntryBytesConcat(a[1..], b);
    }
  }

  /** What is written is never longer than what was calculated. */
  lemma {:induction false} NoLonger(es: seq<Entry>)
    ensures |EntryBytes(es)| <= EntryLen(es)
  {
    hide ItemBytes, ItemLen;
    if es != [] {
      ItemLength(es[0].id, es[0].item);
      NoLonger(es[1..]);
    }
  }

  lemma NoEntries()
    ensures EntryBytes([]) == [] && EntryLen([]) == 0
  {
  }

  /** The items of one property, one after the other. */
  method EncodeEntries(to: array<byte>, off: nat, es: seq<Entry>) returns (n: nat)
    requires off + |EntryBytes(es)| <= to.Length
    modifies to
    ensures n == |EntryBytes(es)| && Wrote(old(to[..]), to[..], off, EntryBytes(es))
  {
    hide ItemBytes, EntryBytes, Wrote;
    n := 0;
    NoEntries();
    WroteNothing(to[..], off);
    for i := 0 to |es|
      invariant n == |EntryBytes(es[..i])| && Wrote(old(to[..]), to[..], off, EntryBytes(es[..i]))
    {
      EntriesSplit(es, i);
      ghost var mid := to[..];
      var k := EncodeItem(to, off + n, es[i].id, es[i].item);
      WroteNext(old(to[..]), mid, to[..], off, EntryBytes(es[..i]), ItemBytes(es[i].id, es[i].item));
      n := n + k;
    }
    assert es[..|es|] == es;
  }

  lemma OneEntry(e: Entry)
    ensures EntryBytes([e]) == ItemBytes(e.id, e.item) && EntryLen([e]) == ItemLen(e.id, e.item)
  {
    hide ItemBytes, ItemLen;
    assert [e][1..] == [];
    assert EntryBytes([e]) == ItemBytes(e.id, e.item) + [];
  }

  lemma EntriesSplit(es: seq<Entry>, i: nat)
    requires i < |es|
    ensures EntryBytes(es[..i + 1]) == EntryBytes(es[..i]) + ItemBytes(es[i].id, es[i].item)
    ensures |EntryBytes(es[..i + 1])| <= |EntryBytes(es)|
  {
    hide ItemBytes, ItemLen, EntryBytes, EntryLen;
    var a, one, b := es[..i], [es[i]], es[i + 1..];
    var upTo := a + one;
    assert es[..i + 1] == upTo;
    assert es == upTo + b;
    OneEntry(es[i]);
    EntryBytesConcat(a, one);
    EntryBytesConcat(upTo, b);
  }

  // ---------------------------------------------------------------- enumerating the map

  lemma {:induction false} FlattenConcat(vals: Values, a: seq<PropertyId>, b: seq<PropertyId>)
    ensures Flatten(vals, a + b) == Flatten(vals, a) + Flatten(vals, b)
  {
    hide EntriesFor;
    if a == [] {
      assert a + b == b;
      assert Flatten(vals, a) == [];
    } else {
      var x, y, z := EntriesFor(vals, a[0]), Flatten(vals, a[1..]), Flatten(vals, b);
      assert (a + b)[1..] == a[1..] + b;
      FlattenConcat(vals, a[1..], b);
      assert Flatten(vals, a + b) == x + (y + z);
      assert x + (y + z) == (x + y) + z;
    }
  }

  lemma FlattenNext(vals: Values, order: seq<PropertyId>, id: PropertyId)
    ensures EntryBytes(Flatten(vals, order + [id])) == EntryBytes(Flatten(vals, order)) + EntryBytes(EntriesFor(vals, id))
  {
    hide EntriesFor, EntryBytes;
    assert [id][1..] == [] && Flatten(vals, []) == [];
    assert Flatten(vals, [id]) == EntriesFor(vals, id) + [] == EntriesFor(vals, id);
    FlattenConcat(vals, order, [id]);
    EntryBytesConcat(Flatten(vals, order), EntriesFor(vals, id));
  }

  lemma BlockNoLonger(vals: Values, order: seq<PropertyId>)
    requires AllCounted(vals)
    ensures |EntryBytes(Flatten(vals, order))| <= BlockLen(vals, order)
  {
    hide EntryBytes, EntryLen, Flatten, BlockLen;
    FlattenLen(vals, order);
    NoLonger(Flatten(vals, order));
  }

  lemma StepWritten(vals: Values, a: bytes, b: bytes, c: bytes, off: nat, head: bytes, order: seq<PropertyId>, id: PropertyId)
    requires Wrote(a, b, off, head + EntryBytes(Flatten(vals, order)))
    requires Wrote(b, c, off + |head + EntryBytes(Flatten(vals, order))|, EntryBytes(EntriesFor(vals, id)))
    ensures Wrote(a, c, off, head + EntryBytes(Flatten(vals, order + [id])))
  {
    hide Wrote, Flatten, EntryBytes, EntriesFor;
    FlattenNext(vals, order, id);
    WroteNext(a, b, c, off, head + EntryBytes(Flatten(vals, order)), EntryBytes(EntriesFor(vals, id)));
    assert head + EntryBytes(Flatten(vals, order + [id])) == head + EntryBytes(Flatten(vals, order)) + EntryBytes(EntriesFor(vals, id));
  }

  lemma NoneYet(vals: Values, head: bytes)
    ensures head + EntryBytes(Flatten(vals, [])) == head
  {
  }

  // ---------------------------------------------------------------- writing the block

  /** What is written for a block that keeps `len` as its length, be it right or not. */
  function Prefixed(vals: Values, len: nat, order: seq<PropertyId>): bytes {
    VarBytes(len) + EntryBytes(Flatten(vals, order))
  }

  /** There is room for all that will be written. */
  ghost predicate HasRoom(vals: Values, len: nat, room: int) {
    forall order {:trigger Prefixed(vals, len, order)} | Enumerates(order, vals) :: |Prefixed(vals, len, order)| <= room
  }

  /** A block that knows its length is written as the block of its map, and in the room calculated for it. */
  lemma KnownLengthHasRoom(vals: Values, len: nat)
    requires Measured(vals, len) && AllCounted(vals)
    ensures HasRoom(vals, len, VarLen(len) + len)
    ensures forall order | Enumerates(order, vals) :: Prefixed(vals, len, order) == BlockBytes(vals, order)
  {
    hide Enumerates, VarBytes, EntryBytes, Flatten, BlockLen, AllCounted;
    VarBytesShape(len);
    forall order | Enumerates(order, vals)
      ensures |Prefixed(vals, len, order)| <= VarLen(len) + len && Prefixed(vals, len, order) == BlockBytes(vals, order)
    {
      BlockNoLonger(vals, order);
      assert BlockLen(vals, order) == len;
    }
  }

  /** So is there for a part of it. */
  lemma PartHasRoom(vals: Values, len: nat, room: int, order: seq<PropertyId>)
    requires HasRoom(vals, len, room) && NoDup(order) && forall id <- order :: id in vals
    ensures |Prefixed(vals, len, order)| <= room
  {
    hide EntryBytes, VarBytes, Flatten;
    var rest := Extend(vals, order);
    FlattenConcat(vals, order, rest);
    EntryBytesConcat(Flatten(vals, order), Flatten(vals, rest));
    assert |Prefixed(vals, len, order + rest)| <= room;
  }

  /** Writes the block in whatever order the map yields its properties, behind the length it keeps; an empty
      block is one byte of the buffer left as it is. */
  method EncodeBlock(vals: Values, len: uint32, to: array<byte>, off: nat) returns (n: nat, err: Option<Error>, ghost order: seq<PropertyId>)
    requires off <= to.Length
    requires 1 != FullLen(len) <= to.Length - off ==> HasRoom(vals, len, to.Length - off)
    modifies to
    ensures err == if FullLen(len) > to.Length - off then Some(InsufficientBuffer) else None
    ensures err.Some? ==> n == 0 && to[..] == old(to[..])
    ensures err.None? ==> Enumerates(order, vals)
    ensures err.None? && FullLen(len) == 1 ==> n == 1 && to[..] == old(to[..])
    ensures err.None? && FullLen(len) != 1 ==> n == |Prefixed(vals, len, order)| && Wrote(old(to[..]), to[..], off, Prefixed(vals, len, order))
  {
    n, order := 0, [];
    if FullLen(len) > to.Length - off {
      return 0, Some(InsufficientBuffer), [];
    }
    if FullLen(len) == 1 {
      order := Extend(vals, []);
      assert [] + order == order;
      return 1, None, order;
    }
    n, order := EncodeAll(vals, len, to, off);
    err := None;
  }

  /** The length, then the properties in the order the map happens to yield them. */
  method EncodeAll(vals: Values, len: uint32, to: array<byte>, off: nat) returns (n: nat, ghost order: seq<PropertyId>)
    requires off <= to.Length && HasRoom(vals, len, to.Length - off)
    modifies to
    ensures Enumerates(order, vals) && n == |Prefixed(vals, len, order)|
    ensures Wrote(old(to[..]), to[..], off, Prefixed(vals, len, order))
  {
    hide VarLen, VarBytes, EntriesFor, EntryBytes, Flatten, Wrote, HasRoom;
    VarBytesShape(len);
    order := [];
    NoneYet(vals, VarBytes(len));
    PartHasRoom(vals, len, to.Length - off, []);
    n := PutUvarint(to, off, len);
    var left := vals.Keys;
    while left != {}
      invariant NoDup(order) && (forall id :: id in vals <==> id in left || id in order) && (forall id <- order :: id !in left)
      invariant n == |Prefixed(vals, len, order)| && Wrote(old(to[..]), to[..], off, Prefixed(vals, len, order))
    {
      var id :| id in left;
      n := EncodeNext(vals, len, to, off, n, id, old(to[..]), order);
      order := order + [id];
      left := left - {id};
    }
  }

  /** One turn of the loop over the map. */
  method EncodeNext(vals: Values, len: uint32, to: array<byte>, off: nat, total: nat, id: PropertyId, ghost start: bytes, ghost order: seq<PropertyId>)
    returns (n: nat)
    requires off <= to.Length && HasRoom(vals, len, to.Length - off)
    requires NoDup(order) && (forall i <- order :: i in vals) && id in vals && id !in order
    requires total == |Prefixed(vals, len, order)| && Wrote(start, to[..], off, Prefixed(vals, len, order))
    modifies to
    ensures n == |Prefixed(vals, len, order + [id])| && Wrote(start, to[..], off, Prefixed(vals, len, order + [id]))
  {
    hide VarLen, VarBytes, EntriesFor, EntryBytes, Flatten, Wrote, HasRoom;
    PartHasRoom(vals, len, to.Length - off, order + [id]);
    FlattenNext(vals, order, id);
    ghost var mid := to[..];
    n := EncodeEntries(to, off + total, EntriesFor(vals, id));
    StepWritten(vals, start, mid, to[..], off, VarBytes(len), order, id);
    n := total + n;
  }

  class Block {
    var properties: Values
    var len: uint32

    constructor ()
      ensures properties == map[] && len == 0
    {
      properties, len := map[], 0;
    }

    /** `len` is the length of what the map holds. */
    ghost predicate Valid()
      reads this
    {
      Measured(properties, len)
    }

    method Set(t: PacketType, id: PropertyId, v: Value) returns (err: Option<Error>)
      modifies this
      ensures err == if KindOf(id).None? then Some(PropertyInvalidId)
                     else if !Allowed(id, t) then Some(PropertyPacketTypeMismatch) else None
      ensures err.Some? ==> properties == old(properties) && len == old(len)
      ensures err.None? ==> properties == old(properties)[id := v]
      ensures err.None? ==> len == (old(len) + PropLen(properties, id)) % 0x1_0000_0000
      ensures err.None? && old(Valid()) && id !in old(properties) && old(len) + PropLen(properties, id) < 0x1_0000_0000 ==> Valid()
    {
      if KindOf(id).None? {
        return Some(PropertyInvalidId);
      } else if !Allowed(id, t) {
        return Some(PropertyPacketTypeMismatch);
      }
      hide Allowed, KindOf, PropLen, Measured;
      if Valid() && id !in properties && len + PropLen(properties[id := v], id) < 0x1_0000_0000 {
        SetOnceFits(properties, len, id, v);
      }
      var l := PropLen(properties[id := v], id);
      len := (len + l) % 0x1_0000_0000;
      properties := properties[id := v];
      return None;
    }

    /** Encoding writes what the map holds behind the length the object keeps; if that is right it is the
        block of the map, and there is room for it whenever the buffer is not refused. */
    method Encode(to: array<byte>, off: nat) returns (n: nat, err: Option<Error>, ghost order: seq<PropertyId>)
      requires off <= to.Length
      requires 1 != FullLen(len) <= to.Length - off ==> HasRoom(properties, len, to.Length - off)
      modifies to
      ensures err == if FullLen(len) > to.Length - off then Some(InsufficientBuffer) else None
      ensures err.Some? ==> n == 0 && to[..] == old(to[..])
      ensures err.None? ==> Enumerates(order, properties)
      ensures err.None? && FullLen(len) == 1 ==> n == 1 && to[..] == old(to[..])
      ensures err.None? && FullLen(len) != 1 ==> n == |Prefixed(properties, len, order)| && Wrote(old(to[..]), to[..], off, Prefixed(properties, len, order))
      ensures err.None? && Valid() && AllCounted(properties) ==> Prefixed(properties, len, order) == BlockBytes(properties, order)
    {
      n, err, order := EncodeBlock(properties, len, to, off);
      if Valid() && AllCounted(properties) { KnownLengthHasRoom(properties, len); }
    }

    /** Reads a block into fresh properties. The counter of what is still to come wraps below zero when an
        item overruns the declared length; the loop still ends, because every turn takes a byte. */
    method Decode(t: PacketType, from: bytes) returns (n: nat, err: Option<Error>)
      requires properties == map[] && len == 0
      modifies this
      ensures err == match DecodeBlock(t, from) case Ok(_) => None case Err(e) => Some(e)
      ensures err.None? ==> DecodeBlock(t, from) == Ok(Decoded(properties, n))
      ensures err.None? && |from| < 0x1_0000_0000 ==> n == Uvarint(from).n + len && len == Uvarint(from).x
    {
      hide Uvarint, Store, DecodeOne, Minus;
      var pLen, count := ReadUvarint(from);
      if count <= 0 {
        return -count, Some(MalformedPacket);
      }
      n := count;
      ghost var f := ReaderFor(t);
      assert DecodeLoop(f, from, n, pLen, properties) == DecodeBlock(t, from);
      hide DecodeLoop, ReaderFor, Progresses, DecodeBlock;
      while pLen != 0
        invariant n <= |from|
        invariant DecodeLoop(f, from, n, pLen, properties) == DecodeBlock(t, from)
        invariant |from| < 0x1_0000_0000 ==> len == n - count
        decreases |from| - n
      {
        var one := DecodeOne(t, from[n..], properties);
        ReaderReads(t, from[n..], properties);
        if one.Err? {
          LoopRefuses(f, from, n, pLen, properties, one.error);
          return n, Some(one.error);
        }
        var (id, i, k) := one.value;
        LoopTakes(f, from, n, pLen, properties, Entry(id, i), k);
        properties := Store(properties, id, i);
        n := n + k;
        len := (len + k) % 0x1_0000_0000;
        pLen := Minus(pLen, k);
      }
      LoopEnds(f, from, n, properties);
      if |from| < 0x1_0000_0000 {
        BlockConsumesDeclaredLength(t, from);
      }
      return n, None;
    }
  }
}
