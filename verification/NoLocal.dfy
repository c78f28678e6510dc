/** No Local where overlapping subscriptions are merged: what it should leave out and what it does. */
module NoLocal {
  import opened Common
  import opened TopicMatch
  import opened TopicModel

  predicate Subscribed(s: Flat, fs: seq<Path>, id: SubscriberId) {
    forall i {:trigger fs[i]} | 0 <= i < |fs| :: id in SubsAt(s, fs[i])
  }

  lemma InSubscribed(s: Flat, fs: seq<Path>, id: SubscriberId)
    requires Subscribed(s, fs, id)
    ensures forall f <- fs :: id in SubsAt(s, f)
  {
  }

  /** The subscription of `id` at `f` is one that No Local excludes. */
  predicate Out(s: Flat, f: Path, id: SubscriberId, pub: SubscriberId) {
    id in SubsAt(s, f) && Excluded(id, SubsAt(s, f)[id], pub)
  }

  /** Where the first subscription stands that is not excluded: the one that opens the entry. */
  function Opening(s: Flat, fs: seq<Path>, id: SubscriberId, pub: SubscriberId): (k: nat)
    ensures k <= |fs|
    ensures forall i | 0 <= i < k :: Out(s, fs[i], id, pub)
    ensures k < |fs| ==> !Out(s, fs[k], id, pub)
  {
    if fs == [] || !Out(s, fs[0], id, pub) then 0 else 1 + Opening(s, fs[1..], id, pub)
  }

  /** The subscriptions that No Local does not exclude, in their order. */
  function Kept(s: Flat, fs: seq<Path>, id: SubscriberId, pub: SubscriberId): seq<Path> {
    if fs == [] then [] else (if Out(s, fs[0], id, pub) then [] else [fs[0]]) + Kept(s, fs[1..], id, pub)
  }

  lemma {:induction false} KeptExact(s: Flat, fs: seq<Path>, id: SubscriberId, pub: SubscriberId)
    ensures forall f :: f in Kept(s, fs, id, pub) <==> f in fs && !Out(s, f, id, pub)
    ensures Subscribed(s, fs, id) ==> Subscribed(s, Kept(s, fs, id, pub), id)
  {
    hide Out, SubsAt;
    if fs != [] {
      KeptExact(s, fs[1..], id, pub);
      assert fs == [fs[0]] + fs[1..];
    }
  }

  /** What the client should get: its subscriptions merged without those that No Local excludes. */
  function Prescribed(s: Flat, fs: seq<Path>, id: SubscriberId, pub: SubscriberId): seq<Entry> {
    Gather(true, s, [], Kept(s, fs, id, pub), id, pub)
  }

  /** The entry behind its opening. */
  lemma MergedFrom(s: Flat, fs: seq<Path>, id: SubscriberId, pub: SubscriberId)
    requires Subscribed(s, fs, id)
    ensures var k := Opening(s, fs, id, pub); var w := fs[k..];
            && (forall f <- w :: id in SubsAt(s, f)) && (k < |fs| ==> id in SubsAt(s, fs[k]))
            && Gather(true, s, [], fs, id, pub) ==
               if k == |fs| then [] else [Entry(id, SubsAt(s, fs[k])[id].ops, MaxGranted(s, w, id), AllIds(s, w, id))]
  {
    hide SubsAt, Gather, Excluded, MaxGranted, AllIds;
    InSubscribed(s, fs, id);
    var k := Opening(s, fs, id, pub);
    assert forall f <- fs[k..] :: f in fs;
    MergedEntry(s, fs, id, pub, k);
  }

  lemma {:induction false} KeptFromOpening(s: Flat, fs: seq<Path>, id: SubscriberId, pub: SubscriberId)
    ensures var k := Opening(s, fs, id, pub);
            Kept(s, fs, id, pub) == Kept(s, fs[k..], id, pub) && (k < |fs| ==> Kept(s, fs, id, pub) != [] && Kept(s, fs, id, pub)[0] == fs[k])
  {
    hide Out;
    var k := Opening(s, fs, id, pub);
    if k > 0 {
      KeptFromOpening(s, fs[1..], id, pub);
      assert fs[1..][k - 1..] == fs[k..];
    } else {
      assert fs[0..] == fs;
    }
  }

  // ---------------------------------------------------------------- identifiers

  predicate NoIdsOut(s: Flat, w: seq<Path>, id: SubscriberId, pub: SubscriberId) {
    forall i {:trigger w[i]} | 0 <= i < |w| && Out(s, w[i], id, pub) :: SubsAt(s, w[i])[id].id == 0
  }

  lemma {:induction false} IdsOfKept(s: Flat, w: seq<Path>, id: SubscriberId, pub: SubscriberId)
    requires Subscribed(s, w, id)
    ensures (forall f <- w :: id in SubsAt(s, f)) && forall f <- Kept(s, w, id, pub) :: id in SubsAt(s, f)
    ensures |AllIds(s, Kept(s, w, id, pub), id)| <= |AllIds(s, w, id)|
    ensures AllIds(s, w, id) == AllIds(s, Kept(s, w, id, pub), id) <==> NoIdsOut(s, w, id, pub)
    ensures |AllIds(s, w, id)| == |AllIds(s, Kept(s, w, id, pub), id)| <==> NoIdsOut(s, w, id, pub)
  {
    hide SubsAt, Excluded;
    InSubscribed(s, w, id);
    KeptExact(s, w, id, pub);
    if w != [] {
      var f, more := w[0], w[1..];
      IdsOfKept(s, more, id, pub);
      assert forall i {:trigger w[i]} | 0 < i < |w| :: w[i] == more[i - 1];
      assert forall i {:trigger more[i]} | 0 <= i < |more| :: more[i] == w[i + 1];
      var k, k' := Kept(s, w, id, pub), Kept(s, more, id, pub);
      if Out(s, f, id, pub) {
        assert k == k';
      } else {
        assert k[0] == f && k[1..] == k';
      }
    }
  }

  // ---------------------------------------------------------------- QoS

  predicate NoQosOut(s: Flat, w: seq<Path>, id: SubscriberId, pub: SubscriberId, most: nat) {
    forall i {:trigger w[i]} | 0 <= i < |w| && Out(s, w[i], id, pub) :: SubsAt(s, w[i])[id].granted <= most
  }

  lemma QosOfKept(s: Flat, w: seq<Path>, id: SubscriberId, pub: SubscriberId)
    requires Subscribed(s, w, id) && Kept(s, w, id, pub) != []
    ensures (forall f <- w :: id in SubsAt(s, f)) && w != [] && forall f <- Kept(s, w, id, pub) :: id in SubsAt(s, f)
    ensures var most := MaxGranted(s, Kept(s, w, id, pub), id);
            MaxGranted(s, w, id) == most <==> NoQosOut(s, w, id, pub, most)
  {
    hide SubsAt, Out;
    InSubscribed(s, w, id);
    KeptExact(s, w, id, pub);
    var k := Kept(s, w, id, pub);
    assert k[0] in w;
    var all, most := MaxGranted(s, w, id), MaxGranted(s, k, id);
    var top :| top in w && SubsAt(s, top)[id].granted == all;
    var kept :| kept in k && SubsAt(s, kept)[id].granted == most;
    assert most <= all;
    assert forall i | 0 <= i < |w| :: w[i] in w;
    if !Out(s, top, id, pub) { assert top in k; }
    var i :| 0 <= i < |w| && w[i] == top;
  }

  // ---------------------------------------------------------------- the entry that is widened

  /** An excluded subscription that comes after the entry was opened and would add to it: it has an identifier,
      or a QoS above all those that are not excluded. */
  predicate Widens(s: Flat, fs: seq<Path>, id: SubscriberId, pub: SubscriberId, i: nat)
    requires Subscribed(s, fs, id) && i < |fs|
  {
    Opening(s, fs, id, pub) < i && Out(s, fs[i], id, pub) &&
    (KeptNotEmpty(s, fs, id, pub, i);
     SubsAt(s, fs[i])[id].id > 0 || SubsAt(s, fs[i])[id].granted > MaxGranted(s, Kept(s, fs, id, pub), id))
  }

  lemma KeptNotEmpty(s: Flat, fs: seq<Path>, id: SubscriberId, pub: SubscriberId, i: nat)
    requires Subscribed(s, fs, id) && Opening(s, fs, id, pub) < i < |fs|
    ensures Kept(s, fs, id, pub) != [] && forall f <- Kept(s, fs, id, pub) :: id in SubsAt(s, f)
  {
    hide SubsAt, Out;
    KeptFromOpening(s, fs, id, pub);
    KeptExact(s, fs, id, pub);
    InSubscribed(s, fs, id);
  }

  /** All subscriptions are excluded: no entry, as prescribed. */
  lemma AllOut(s: Flat, fs: seq<Path>, id: SubscriberId, pub: SubscriberId)
    requires Subscribed(s, fs, id) && Opening(s, fs, id, pub) == |fs|
    ensures Gather(true, s, [], fs, id, pub) == Prescribed(s, fs, id, pub) == []
  {
    MergedFrom(s, fs, id, pub);
    KeptFromOpening(s, fs, id, pub);
    assert fs[|fs|..] == [];
  }

  /** One is not: the entry it opens, and the one it should open. */
  lemma EntryOpened(s: Flat, fs: seq<Path>, id: SubscriberId, pub: SubscriberId, k: nat)
    requires Subscribed(s, fs, id) && k == Opening(s, fs, id, pub) < |fs|
    ensures var w, kept := fs[k..], Kept(s, fs, id, pub);
            && id in SubsAt(s, fs[k]) && (forall f <- w :: id in SubsAt(s, f)) && kept != [] && (forall f <- kept :: id in SubsAt(s, f))
            && Gather(true, s, [], fs, id, pub) == [Entry(id, SubsAt(s, fs[k])[id].ops, MaxGranted(s, w, id), AllIds(s, w, id))]
            && Prescribed(s, fs, id, pub) == [Entry(id, SubsAt(s, fs[k])[id].ops, MaxGranted(s, kept, id), AllIds(s, kept, id))]
  {
    hide SubsAt, Gather, MaxGranted, AllIds, Out;
    var kept := Kept(s, fs, id, pub);
    MergedFrom(s, fs, id, pub);
    KeptFromOpening(s, fs, id, pub);
    KeptExact(s, fs, id, pub);
    MergedFrom(s, kept, id, pub);
    OpeningOfKept(s, kept, id, pub);
    assert kept[0..] == kept;
  }

  /** The merged entry is what No Local prescribes exactly if no excluded subscription comes after the one that
      opens the entry and adds an identifier or a higher QoS to it. */
  lemma PrescribedExactlyIfNotWidened(s: Flat, fs: seq<Path>, id: SubscriberId, pub: SubscriberId)
    requires Subscribed(s, fs, id)
    ensures Gather(true, s, [], fs, id, pub) == Prescribed(s, fs, id, pub) <==>
            forall i {:trigger Widens(s, fs, id, pub, i)} | 0 <= i < |fs| :: !Widens(s, fs, id, pub, i)
  {
    hide SubsAt, Gather, Prescribed, MaxGranted, AllIds, Out, Kept, NoIdsOut, NoQosOut;
    var k := Opening(s, fs, id, pub);
    if k == |fs| {
      AllOut(s, fs, id, pub);
    } else {
      var w := fs[k..];
      assert Subscribed(s, w, id);
      EntryOpened(s, fs, id, pub, k);
      var got, due := Gather(true, s, [], fs, id, pub), Prescribed(s, fs, id, pub);
      assert got == due <==> got[0] == due[0];
      KeptFromOpening(s, fs, id, pub);
      IdsOfKept(s, w, id, pub);
      QosOfKept(s, w, id, pub);
      WidenedBehind(s, fs, id, pub, k);
      hide Widens;
    }
  }

  lemma OpeningOfKept(s: Flat, kept: seq<Path>, id: SubscriberId, pub: SubscriberId)
    requires forall f <- kept :: !Out(s, f, id, pub)
    ensures Opening(s, kept, id, pub) == 0
  {
    hide Out;
    if kept != [] { assert kept[0] in kept; }
  }

  lemma WidenedBehind(s: Flat, fs: seq<Path>, id: SubscriberId, pub: SubscriberId, k: nat)
    requires Subscribed(s, fs, id) && k == Opening(s, fs, id, pub) < |fs|
    requires Kept(s, fs, id, pub) != [] && forall f <- Kept(s, fs, id, pub) :: id in SubsAt(s, f)
    ensures var w, most := fs[k..], MaxGranted(s, Kept(s, fs, id, pub), id);
            NoIdsOut(s, w, id, pub) && NoQosOut(s, w, id, pub, most) <==> forall i {:trigger Widens(s, fs, id, pub, i)} | 0 <= i < |fs| :: !Widens(s, fs, id, pub, i)
  {
    hide Excluded, MaxGranted, Kept;
    var w := fs[k..];
    assert forall i {:trigger w[i]} | 0 <= i < |w| :: w[i] == fs[k + i];
    assert forall i {:trigger fs[i]} | k <= i < |fs| :: fs[i] == w[i - k];
    if exists i | 0 <= i < |fs| :: Widens(s, fs, id, pub, i) {
      var i :| 0 <= i < |fs| && Widens(s, fs, id, pub, i);
      assert w[i - k] == fs[i];
    } else {
      forall i | 0 <= i < |w| && Out(s, w[i], id, pub)
        ensures SubsAt(s, w[i])[id].id == 0 && SubsAt(s, w[i])[id].granted <= MaxGranted(s, Kept(s, fs, id, pub), id) {
        assert !Widens(s, fs, id, pub, k + i) && i > 0;
      }
    }
  }

  /** What is published in overlapping mode is what No Local prescribes exactly if, in the order in which live
      search comes to the filters, no excluded subscription widens the entry. */
  lemma PublishedAsPrescribedExactlyIf(s: Flat, t: Path, id: SubscriberId, pub: SubscriberId)
    requires t != []
    ensures Subscribed(s, Order(s, t, id), id)
    ensures Gather(true, s, [], Order(s, t, id), id, pub) == Prescribed(s, Order(s, t, id), id, pub) <==>
            forall i {:trigger Widens(s, Order(s, t, id), id, pub, i)} | 0 <= i < |Order(s, t, id)| :: !Widens(s, Order(s, t, id), id, pub, i)
  {
    var fs := Order(s, t, id);
    HoldingExact(s, WalkFor(t), id);
    hide Holding, SubsAt, Gather, Widens, Prescribed;
    assert forall i {:trigger fs[i]} | 0 <= i < |fs| :: fs[i] in fs;
    assert Subscribed(s, fs, id);
    hide Order;
    PrescribedExactlyIfNotWidened(s, fs, id, pub);
  }

  // ---------------------------------------------------------------- an entry that is

  /** Client 7 subscribes to "a" with QoS 0 and to "+" with No Local and QoS 2, and publishes to "a" itself. */
  const Table := Flat(map[["a"] := map[7 := Params(0, Options(0), 0)], ["+"] := map[7 := Params(0, Options(6), 2)]], map[])

  lemma TableOrder()
    ensures Order(Table, ["a"], 7) == [["a"], ["+"]]
  {
    var a, plus: Path := ["a"], ["+"];
    var t: Path := ["a"];
    assert t[1..] == [] && [] + [t[0]] == a && [] + [SWC] == plus && [] + [MWC] == [MWC];
    assert Walk(a, []) == [a, a + [MWC]] && Walk(plus, []) == [plus, plus + [MWC]];
    var w := [[MWC]] + [a, a + [MWC]] + [plus, plus + [MWC]];
    assert WalkFor(t) == w;
    assert w == [[MWC], a, a + [MWC], plus, plus + [MWC]];
    assert w[1..] == [a, a + [MWC], plus, plus + [MWC]] && w[1..][1..] == [a + [MWC], plus, plus + [MWC]];
    assert w[1..][1..][1..] == [plus, plus + [MWC]] && w[1..][1..][1..][1..] == [plus + [MWC]] && w[1..][1..][1..][1..][1..] == [];
    assert |a + [MWC]| == 2 && |plus + [MWC]| == 2 && [MWC][0] == "#" && a[0] == "a" && plus[0] == "+";
    var p, q := a + [MWC], plus + [MWC];
    assert p != a && p != plus && q != a && q != plus && [MWC] != a && [MWC] != plus;
    assert Holding(Table, [q], 7) == [];
    assert Holding(Table, [plus, q], 7) == [plus] + [];
    assert Holding(Table, [p, plus, q], 7) == [] + [plus];
    assert Holding(Table, [a, p, plus, q], 7) == [a] + [plus];
  }

  const Opened := Acquired(7, Params(0, Options(0), 0))

  lemma TablesApart()
    ensures SubsAt(Table, ["a"]) == map[7 := Params(0, Options(0), 0)] && SubsAt(Table, ["+"]) == map[7 := Params(0, Options(6), 2)]
  {
    var a, plus: Path := ["a"], ["+"];
    assert a[0] == "a" && plus[0] == "+" && a != plus;
  }

  lemma OpensAt(f: Path, rest: seq<Path>)
    requires f == ["a"]
    ensures Gather(true, Table, [], [f] + rest, 7, 7) == Gather(true, Table, [Opened], rest, 7, 7)
  {
    TablesApart();
    hide SubsAt;
    assert ([f] + rest)[0] == f && ([f] + rest)[1..] == rest;
    assert [] + [Opened] == [Opened];
  }

  lemma WidensAt(f: Path)
    requires f == ["+"]
    ensures Gather(true, Table, [Opened], [f], 7, 7) == [Entry(7, Options(0), 2, [])]
  {
    TablesApart();
    hide SubsAt;
    var none: seq<nat> := [];
    assert [f][1..] == [] && [Opened][1..] == [] && none + none == none;
    assert Merged(Opened, Params(0, Options(6), 2)) == Entry(7, Options(0), 2, []);
  }

  lemma KeptOfTable(a: Path, plus: Path)
    requires a == ["a"] && plus == ["+"]
    ensures Kept(Table, [a, plus], 7, 7) == [a]
  {
    TablesApart();
    hide SubsAt;
    assert [a, plus][1..] == [plus] && [plus][1..] == [];
    assert Kept(Table, [plus], 7, 7) == [] + [];
  }

  /** No Local should leave the client its QoS 0 subscription alone; it gets the message at QoS 2. */
  lemma EntryWidened()
    ensures var got, due := Gather(true, Table, [], Order(Table, ["a"], 7), 7, 7), Prescribed(Table, Order(Table, ["a"], 7), 7, 7);
            |got| == |due| == 1 && got[0].qos == 2 && due[0].qos == 0
  {
    var a, plus: Path := ["a"], ["+"];
    TableOrder();
    KeptOfTable(a, plus);
    OpensAt(a, [plus]);
    OpensAt(a, []);
    WidensAt(plus);
    GatherNone();
    hide SubsAt, Gather, Order, Kept;
    assert [a] + [plus] == [a, plus] && [a] + [] == [a];
  }

  lemma GatherNone()
    ensures Gather(true, Table, [Opened], [], 7, 7) == [Opened]
  {
  }
}
