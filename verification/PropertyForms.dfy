/** The forms a property value may take: how each is counted, written and read back, and which of them do
    not survive. */
module PropertyForms {
  import opened Common
  import opened Wire
  import opened Properties

  // ---------------------------------------------------------------- calculated and written

  lemma {:induction false} WrittenLength(id: PropertyId, items: seq<Item>)
    ensures var n := |EntryBytes(EntriesOf(id, items))|;
            && n <= EntryLen(EntriesOf(id, items))
            && (n == EntryLen(EntriesOf(id, items)) <==> forall j {:trigger items[j]} | 0 <= j < |items| :: Fitting(items[j]))
            && (n == 0 <==> items == [])
  {
    hide ItemBytes, ItemLen, Fitting;
    if items != [] {
      ItemLength(id, items[0]);
      ItemTakesBytes(id, items[0]);
      WrittenLength(id, items[1..]);
      assert forall j {:trigger items[j]} | 0 < j < |items| :: items[j] == items[1..][j - 1];
      assert forall j {:trigger items[1..][j]} | 0 <= j < |items| - 1 :: items[1..][j] == items[j + 1];
    }
  }

  lemma ItemTakesBytes(id: PropertyId, i: Item)
    ensures |ItemBytes(id, i)| > 0 && ItemLen(id, i) > 0
  {
  }

  /** For a value of any form: what is written is as long as what was calculated exactly if it is not a list
      of binary values and its strings fit their prefix. */
  lemma LengthRightExactlyIf(vals: Values, id: PropertyId)
    requires id in vals && KindOf(id).Some?
    ensures var items := ItemsFor(id, vals[id]);
            |EntryBytes(EntriesFor(vals, id))| == PropLen(vals, id) <==>
            Counted(id, vals[id]) && forall j {:trigger items[j]} | 0 <= j < |items| :: Fitting(items[j])
  {
    hide ItemBytes, ItemLen, Fitting, EntryBytes;
    var items := ItemsFor(id, vals[id]);
    WrittenLength(id, items);
    if !Counted(id, vals[id]) {
      assert items != [] && CountedEntries(vals, id) == [];
    } else {
      assert CountedEntries(vals, id) == EntriesFor(vals, id);
    }
  }

  // ---------------------------------------------------------------- the normal form

  predicate IsPairs(id: PropertyId) {
    KindOf(id) == Some(StringPair)
  }

  lemma {:induction false} PairsBack(items: seq<Item>)
    requires AllPairs(items)
    ensures Items(StringPair, PairsV(PairsOf(items))) == items
  {
    if items != [] {
      PairsBack(items[1..]);
      var ps, more := PairsOf(items), PairsOf(items[1..]);
      assert ps == [items[0].p] + more;
      assert items == [items[0]] + items[1..];
    }
  }

  /** What the normal form of a value is written as. */
  lemma NormalItems(id: PropertyId, v: Value)
    requires ItemsFor(id, v) != []
    ensures var items := ItemsFor(id, v);
            ItemsFor(id, NormalValue(items)) == if IsPairs(id) then items else [items[|items| - 1]]
  {
    var items := ItemsFor(id, v);
    var k := KindOf(id).value;
    ItemsOfKind(k, v);
    var last := items[|items| - 1];
    assert OfKind(k, last);
    if IsPairs(id) {
      assert AllPairs(items);
      PairsBack(items);
    }
  }

  lemma NormalAgain(id: PropertyId, v: Value)
    requires ItemsFor(id, v) != []
    ensures var n := NormalValue(ItemsFor(id, v)); ItemsFor(id, n) != [] && NormalValue(ItemsFor(id, n)) == n
  {
    NormalItems(id, v);
    ItemsOfKind(KindOf(id).value, v);
    hide ItemsFor;
  }

  /** Being read back once is enough: the normal form reads back as itself. */
  lemma NormalTwice(vals: Values)
    ensures NormalMap(NormalMap(vals)) == NormalMap(vals)
  {
    hide NormalValue, ItemsFor;
    var n := NormalMap(vals);
    forall id | id in n ensures ItemsFor(id, n[id]) != [] && NormalValue(ItemsFor(id, n[id])) == n[id] {
      NormalAgain(id, vals[id]);
    }
  }

  lemma NormalWellTyped(t: PacketType, id: PropertyId, v: Value)
    requires WellTyped(t, id, v) && ItemsFor(id, v) != []
    ensures WellTyped(t, id, NormalValue(ItemsFor(id, v)))
  {
    hide Allowed, DupAllowed, Readable;
    var items := ItemsFor(id, v);
    NormalItems(id, v);
    assert Readable(items[|items| - 1]);
    ItemsOfKind(KindOf(id).value, v);
    assert OfKind(KindOf(id).value, items[|items| - 1]);
  }

  lemma NormalWellFormed(t: PacketType, vals: Values)
    requires WellFormed(t, vals)
    ensures WellFormed(t, NormalMap(vals))
  {
    hide WellTyped, NormalValue, ItemsFor;
    var n := NormalMap(vals);
    forall id | id in n ensures WellTyped(t, id, n[id]) {
      NormalWellTyped(t, id, vals[id]);
    }
  }

  // ---------------------------------------------------------------- lists of subscription identifiers

  /** More than one subscription identifier. */
  predicate Several(vals: Values) {
    SubscriptionIdentifier in vals && |ItemsFor(SubscriptionIdentifier, vals[SubscriptionIdentifier])| > 1
  }

  /** Of a list of subscription identifiers, exactly the last one is read back. */
  lemma LastIdentifierSurvives(vals: Values, xs: seq<uint32>)
    requires SubscriptionIdentifier in vals && vals[SubscriptionIdentifier] == U32ListV(xs)
    ensures Several(vals) <==> |xs| > 1
    ensures if xs == [] then SubscriptionIdentifier !in NormalMap(vals)
            else SubscriptionIdentifier in NormalMap(vals) && NormalMap(vals)[SubscriptionIdentifier] == U32V(xs[|xs| - 1])
  {
  }

  lemma {:induction false} EntriesSnoc(id: PropertyId, items: seq<Item>, i: Item)
    ensures EntriesOf(id, items + [i]) == EntriesOf(id, items) + [Entry(id, i)]
  {
    if items == [] {
      assert items + [i] == [i] && [i][1..] == [];
      assert EntriesOf(id, [i]) == [Entry(id, i)] + [];
    } else {
      assert (items + [i])[0] == items[0] && (items + [i])[1..] == items[1..] + [i];
      EntriesSnoc(id, items[1..], i);
    }
  }

  lemma OneLen(id: PropertyId, i: Item)
    ensures EntryLen(EntriesOf(id, [i])) == ItemLen(id, i)
  {
    hide ItemLen;
    assert [i][1..] == [] && EntriesOf(id, []) == [];
    assert EntriesOf(id, [i]) == [Entry(id, i)] && [Entry(id, i)][1..] == [];
  }

  lemma LastIsShorter(id: PropertyId, items: seq<Item>)
    requires items != []
    ensures EntryLen(EntriesOf(id, [items[|items| - 1]])) <= EntryLen(EntriesOf(id, items))
    ensures |items| > 1 ==> EntryLen(EntriesOf(id, [items[|items| - 1]])) < EntryLen(EntriesOf(id, items))
  {
    hide ItemLen, EntryLen, EntriesOf;
    var last, init := items[|items| - 1], items[..|items| - 1];
    assert items == init + [last];
    EntriesSnoc(id, init, last);
    OneLen(id, last);
    EntryLenConcat(EntriesOf(id, init), [Entry(id, last)]);
    LenOfOne(Entry(id, last));
    LenPositive(id, init);
  }

  lemma LenOfOne(e: Entry)
    ensures EntryLen([e]) == ItemLen(e.id, e.item)
  {
    hide ItemLen;
    assert [e][1..] == [];
  }

  lemma LenPositive(id: PropertyId, items: seq<Item>)
    ensures items != [] ==> EntryLen(EntriesOf(id, items)) > 0
  {
    if items != [] { ItemTakesBytes(id, items[0]); }
  }

  /** How much shorter a property is in its normal form. */
  lemma NormalPropLen(t: PacketType, vals: Values, id: PropertyId)
    requires WellFormed(t, vals) && id in vals
    ensures id !in NormalMap(vals) ==> PropLen(vals, id) == 0
    ensures id in NormalMap(vals) ==> PropLen(NormalMap(vals), id) <= PropLen(vals, id)
    ensures id in NormalMap(vals) ==> (PropLen(NormalMap(vals), id) < PropLen(vals, id) <==> id == SubscriptionIdentifier && Several(vals))
  {
    assert WellTyped(t, id, vals[id]);
    var items := ItemsFor(id, vals[id]);
    CountedAsWritten(vals, id);
    SeveralIf(t, id, vals);
    hide EntryLen, EntriesOf, ItemsFor, NormalMap, PropLen, WellTyped, IsPairs, Several, WellFormed;
    if items == [] {
      NothingLeft(vals, id);
    } else {
      NormalLenIs(t, vals, id);
      LastIsShorter(id, items);
    }
  }

  lemma NothingLeft(vals: Values, id: PropertyId)
    requires id in vals && ItemsFor(id, vals[id]) == []
    ensures id !in NormalMap(vals) && EntryLen(EntriesOf(id, [])) == 0
  {
    hide ItemsFor;
  }

  /** Only a property of pairs or a list of identifiers is written as several items. */
  lemma SeveralIf(t: PacketType, id: PropertyId, vals: Values)
    requires id in vals && WellTyped(t, id, vals[id])
    ensures id == SubscriptionIdentifier ==> !IsPairs(id) && (Several(vals) <==> |ItemsFor(id, vals[id])| > 1)
    ensures id != SubscriptionIdentifier && !IsPairs(id) ==> |ItemsFor(id, vals[id])| <= 1
  {
    hide ItemsFor, AllReadable, Allowed;
  }

  lemma NormalLenIs(t: PacketType, vals: Values, id: PropertyId)
    requires id in vals && WellTyped(t, id, vals[id]) && ItemsFor(id, vals[id]) != []
    ensures var items := ItemsFor(id, vals[id]);
            id in NormalMap(vals) &&
            PropLen(NormalMap(vals), id) == EntryLen(EntriesOf(id, if IsPairs(id) then items else [items[|items| - 1]]))
  {
    NormalItems(id, vals[id]);
    NormalWellTyped(t, id, vals[id]);
    hide EntryLen, EntriesOf, ItemsFor, NormalValue, Allowed, AllReadable, IsPairs;
    CountedAsWritten(NormalMap(vals), id);
  }

  lemma CountedAsWritten(vals: Values, id: PropertyId)
    requires id in vals && KindOf(id).Some? && Counted(id, vals[id])
    ensures PropLen(vals, id) == EntryLen(EntriesOf(id, ItemsFor(id, vals[id])))
  {
    hide EntryLen;
  }

  /** By how much reading back shortens the properties in `order`. */
  ghost function Lost(vals: Values, order: seq<PropertyId>): int {
    if SubscriptionIdentifier in order
    then PropLen(vals, SubscriptionIdentifier) - PropLen(NormalMap(vals), SubscriptionIdentifier) else 0
  }

  lemma {:induction false} NormalBlockLen(t: PacketType, vals: Values, order: seq<PropertyId>)
    requires WellFormed(t, vals) && NoDup(order) && forall id <- order :: id in NormalMap(vals)
    ensures BlockLen(NormalMap(vals), order) + Lost(vals, order) == BlockLen(vals, order)
  {
    hide PropLen, WellFormed, NormalMap, Several;
    if order != [] {
      var id, rest := order[0], order[1..];
      assert order == [id] + rest && NoDup(rest) && id !in rest;
      NormalKeys(vals, id);
      NormalPropLen(t, vals, id);
      NormalBlockLen(t, vals, rest);
    }
  }

  lemma NormalKeys(vals: Values, id: PropertyId)
    ensures id in NormalMap(vals) ==> id in vals
  {
  }

  lemma {:induction false} NothingCounted(t: PacketType, vals: Values, rest: seq<PropertyId>)
    requires WellFormed(t, vals) && forall id <- rest :: id in vals && id !in NormalMap(vals)
    ensures BlockLen(vals, rest) == 0
  {
    hide PropLen, WellFormed, NormalMap, Several;
    if rest != [] {
      NormalPropLen(t, vals, rest[0]);
      NothingCounted(t, vals, rest[1..]);
    }
  }

  /** For an order of the normal form: what is left of the length. */
  lemma NormalLength(t: PacketType, vals: Values, len: nat, order: seq<PropertyId>)
    requires WellFormed(t, vals) && Measured(vals, len) && Enumerates(order, NormalMap(vals))
    ensures BlockLen(NormalMap(vals), order) + Lost(vals, order) == len
  {
    hide PropLen, WellFormed, NormalMap, BlockLen, Lost;
    forall id ensures id in NormalMap(vals) ==> id in vals { NormalKeys(vals, id); }
    var rest := Extend(vals, order);
    NormalBlockLen(t, vals, order);
    BlockLenConcat(vals, order, rest);
    forall id <- rest ensures id in vals && id !in NormalMap(vals) { RestApart(order, rest, id); }
    NothingCounted(t, vals, rest);
    assert BlockLen(vals, order + rest) == len;
  }

  lemma RestApart(order: seq<PropertyId>, rest: seq<PropertyId>, id: PropertyId)
    requires NoDup(order + rest) && id in rest
    ensures id !in order && id in order + rest
  {
    var j :| 0 <= j < |rest| && rest[j] == id;
    assert (order + rest)[|order| + j] == id;
    assert forall i | 0 <= i < |order| :: (order + rest)[i] == order[i];
  }

  /** The length a block had is right for what is read back exactly if there was at most one subscription
      identifier; with more, it is too long. */
  lemma NormalMeasuredExactlyIf(t: PacketType, vals: Values, len: nat)
    requires WellFormed(t, vals) && Measured(vals, len)
    ensures Measured(NormalMap(vals), len) <==> !Several(vals)
    ensures forall order | Enumerates(order, NormalMap(vals)) :: BlockLen(NormalMap(vals), order) <= len
  {
    var n := NormalMap(vals);
    SeveralWritten(vals);
    forall order | Enumerates(order, n)
      ensures BlockLen(n, order) <= len && (BlockLen(n, order) == len <==> !Several(vals)) {
      NormalLength(t, vals, len, order);
      if SubscriptionIdentifier in n { NormalPropLen(t, vals, SubscriptionIdentifier); }
      hide NormalMap, WellFormed, BlockLen, PropLen, Several;
    }
    hide NormalMap, WellFormed, BlockLen, Several;
    var order := Extend(n, []);
    assert [] + order == order;
  }

  lemma SeveralWritten(vals: Values)
    ensures Several(vals) ==> SubscriptionIdentifier in NormalMap(vals)
    ensures SubscriptionIdentifier in NormalMap(vals) ==> SubscriptionIdentifier in vals
  {
  }

  // ---------------------------------------------------------------- repeated properties

  /** As WellTyped, but written as any number of items. */
  predicate Typed(t: PacketType, id: PropertyId, v: Value) {
    Allowed(id, t) && KindOf(id).Some? && Counted(id, v) && AllReadable(ItemsFor(id, v))
  }

  predicate AllTyped(t: PacketType, vals: Values) {
    forall id {:trigger Typed(t, id, vals[id])} | id in vals :: Typed(t, id, vals[id])
  }

  predicate Repeated(t: PacketType, vals: Values, id: PropertyId) {
    id in vals && |ItemsFor(id, vals[id])| > 1 && !DupAllowed(id, t)
  }

  predicate EntriesLegal(t: PacketType, es: seq<Entry>) {
    forall j {:trigger es[j]} | 0 <= j < |es| :: Legal(t, es[j].id, es[j].item)
  }

  /** Reading meets a property again that may not be repeated. */
  predicate Clashes(t: PacketType, vals: Values, es: seq<Entry>)
    decreases |es|
  {
    es != [] && ((es[0].id in vals && !DupAllowed(es[0].id, t)) || Clashes(t, Store(vals, es[0].id, es[0].item), es[1..]))
  }

  lemma {:induction false} ClashLater(t: PacketType, vals: Values, es: seq<Entry>, j: nat)
    requires j < |es| && es[j].id in vals && !DupAllowed(es[j].id, t)
    ensures Clashes(t, vals, es)
    decreases |es|
  {
    hide DupAllowed;
    if j > 0 { ClashLater(t, Store(vals, es[0].id, es[0].item), es[1..], j - 1); }
  }

  lemma {:induction false} ClashBehind(t: PacketType, vals: Values, a: seq<Entry>, b: seq<Entry>)
    requires Clashes(t, StoreAll(vals, a), b)
    ensures Clashes(t, vals, a + b)
    decreases |a|
  {
    hide DupAllowed, Store;
    if a == [] {
      assert a + b == b;
    } else {
      assert (a + b)[0] == a[0] && (a + b)[1..] == a[1..] + b;
      ClashBehind(t, Store(vals, a[0].id, a[0].item), a[1..], b);
    }
  }

  lemma {:induction false} EntriesAt(id: PropertyId, items: seq<Item>)
    ensures |EntriesOf(id, items)| == |items|
    ensures forall j {:trigger EntriesOf(id, items)[j]} | 0 <= j < |items| :: EntriesOf(id, items)[j] == Entry(id, items[j])
  {
    if items != [] { EntriesAt(id, items[1..]); }
  }

  lemma {:induction false} FlattenClashes(t: PacketType, vals: Values, order: seq<PropertyId>, done: Values, id: PropertyId)
    requires id in order && Repeated(t, vals, id)
    ensures Clashes(t, done, Flatten(vals, order))
    decreases |order|
  {
    hide DupAllowed, Store, Clashes;
    var a, b := EntriesFor(vals, order[0]), Flatten(vals, order[1..]);
    if order[0] == id {
      EntriesAt(id, ItemsFor(id, vals[id]));
      assert (a + b)[0] == a[0] && (a + b)[1] == a[1];
      TwiceClashes(t, done, a + b);
    } else {
      assert order == [order[0]] + order[1..];
      FlattenClashes(t, vals, order[1..], StoreAll(done, a), id);
      ClashBehind(t, done, a, b);
    }
  }

  lemma TwiceClashes(t: PacketType, vals: Values, es: seq<Entry>)
    requires |es| > 1 && es[0].id == es[1].id && !DupAllowed(es[1].id, t)
    ensures Clashes(t, vals, es)
  {
    hide DupAllowed, Store;
    StoresKey(vals, es[0]);
    ClashLater(t, Store(vals, es[0].id, es[0].item), es[1..], 0);
  }

  lemma StoresKey(vals: Values, e: Entry)
    ensures e.id in Store(vals, e.id, e.item)
  {
  }

  lemma EntriesLegalOf(t: PacketType, vals: Values, id: PropertyId)
    requires id in vals && Typed(t, id, vals[id])
    ensures EntriesLegal(t, EntriesFor(vals, id))
  {
    hide Allowed, Readable, OfKind;
    var items := ItemsFor(id, vals[id]);
    EntriesAt(id, items);
    ItemsOfKind(KindOf(id).value, vals[id]);
    assert forall j {:trigger items[j]} | 0 <= j < |items| :: Legal(t, id, items[j]);
  }

  lemma {:induction false} FlattenLegal(t: PacketType, vals: Values, order: seq<PropertyId>)
    requires AllTyped(t, vals)
    ensures EntriesLegal(t, Flatten(vals, order))
  {
    hide Allowed, Readable;
    if order != [] {
      var id := order[0];
      FlattenLegal(t, vals, order[1..]);
      hide Legal, Typed;
      if id in vals {
        EntriesLegalOf(t, vals, id);
      }
    }
  }

  lemma {:induction false} LoopClash(t: PacketType, pre: bytes, es: seq<Entry>, rest: bytes, vals: Values)
    requires EntriesLegal(t, es) && Clashes(t, vals, es) && |EntryBytes(es)| < 0x1_0000_0000
    ensures DecodeLoop(ReaderFor(t), pre + EntryBytes(es) + rest, |pre|, |EntryBytes(es)|, vals) == Err(ProtocolError)
    decreases |es|
  {
    hide ItemBytes, Store, Minus, DecodeOne, Legal, DupAllowed, DecodeLoop, ReaderFor, Progresses;
    var e, f := es[0], ReaderFor(t);
    var b, tail := ItemBytes(e.id, e.item), EntryBytes(es[1..]);
    var from := pre + EntryBytes(es) + rest;
    assert from == (pre + b) + tail + rest && from[|pre|..] == b + (tail + rest);
    FirstRead(t, vals, e, tail + rest);
    if e.id in vals && !DupAllowed(e.id, t) {
      LoopRefuses(f, from, |pre|, |b| + |tail|, vals, ProtocolError);
    } else {
      LoopTakes(f, from, |pre|, |b| + |tail|, vals, e, |b|);
      MinusWraps(|b| + |tail|, |b|);
      LoopClash(t, pre + b, es[1..], rest, Store(vals, e.id, e.item));
    }
  }

  lemma FirstRead(t: PacketType, vals: Values, e: Entry, rest: bytes)
    requires Legal(t, e.id, e.item)
    ensures var b := ItemBytes(e.id, e.item);
            |b| > 0 && ReaderFor(t)(b + rest, vals) == if e.id in vals && !DupAllowed(e.id, t) then Err(ProtocolError) else Ok((e.id, e.item, |b|))
  {
    hide ItemBytes, ItemLen, DecodeOne, Legal, DupAllowed;
    ItemTakesBytes(e.id, e.item);
    DecodeEntry(t, vals, e, rest);
    LegalLength(t, e);
  }

  lemma LegalLength(t: PacketType, e: Entry)
    requires Legal(t, e.id, e.item)
    ensures |ItemBytes(e.id, e.item)| == ItemLen(e.id, e.item)
  {
    ItemLength(e.id, e.item);
  }

  lemma {:induction false} LegalBytes(t: PacketType, es: seq<Entry>)
    requires EntriesLegal(t, es)
    ensures |EntryBytes(es)| == EntryLen(es)
  {
    hide Legal, ItemBytes, ItemLen;
    if es != [] {
      LegalLength(t, es[0]);
      LegalBytes(t, es[1..]);
    }
  }

  /** Whatever forms the values have and in whatever order they are written: the block is refused exactly if
      a property that may not be repeated is written more than once, and otherwise reads back in its
      normal form. */
  lemma BlockReadsOrIsRefused(t: PacketType, vals: Values, order: seq<PropertyId>, rest: bytes)
    requires AllTyped(t, vals) && Enumerates(order, vals) && BlockLen(vals, order) < 0x2000_0000
    ensures DecodeBlock(t, BlockBytes(vals, order) + rest) ==
            if exists id :: Repeated(t, vals, id) then Err(ProtocolError)
            else Ok(Decoded(NormalMap(vals), |BlockBytes(vals, order)|))
  {
    if id :| Repeated(t, vals, id) {
      assert id in order;
      FlattenClashes(t, vals, order, map[], id);
      FlattenLegal(t, vals, order);
      TypedCounted(t, vals);
      FlattenLen(vals, order);
      LegalBytes(t, Flatten(vals, order));
      ClashBlock(t, Flatten(vals, order), rest);
    } else {
      TypedWell(t, vals);
      BlockRoundTrip(t, vals, order, rest);
    }
  }

  lemma TypedCounted(t: PacketType, vals: Values)
    requires AllTyped(t, vals)
    ensures AllCounted(vals)
  {
    hide Counted;
    assert forall id | id in vals :: Typed(t, id, vals[id]);
  }

  lemma TypedWell(t: PacketType, vals: Values)
    requires AllTyped(t, vals) && forall id :: !Repeated(t, vals, id)
    ensures WellFormed(t, vals)
  {
    hide Allowed, DupAllowed, AllReadable, Counted;
    forall id | id in vals ensures WellTyped(t, id, vals[id]) {
      assert Typed(t, id, vals[id]) && !Repeated(t, vals, id);
    }
  }

  lemma ClashBlock(t: PacketType, es: seq<Entry>, rest: bytes)
    requires EntriesLegal(t, es) && Clashes(t, map[], es) && |EntryBytes(es)| < 0x2000_0000
    ensures DecodeBlock(t, VarBytes(|EntryBytes(es)|) + EntryBytes(es) + rest) == Err(ProtocolError)
  {
    hide EntryBytes, Clashes, DecodeLoop, Uvarint, VarBytes, VarLen, ReaderFor;
    var body := EntryBytes(es);
    var pre := VarBytes(|body|);
    VarBytesShape(|body|);
    assert pre + body + rest == pre + (body + rest);
    VarintRoundTrip(|body|, body + rest);
    LoopClash(t, pre, es, rest, map[]);
  }
}
