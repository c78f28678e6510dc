/** What the topic tree stands for: a flat table of subscriptions, a flat map of retained messages, and
    the answers a publish and a subscribe get from them. */
module TopicModel {
  import opened Common
  import opened TopicMatch

  type SubscriberId = nat

  /** packet.SubscriptionOptions: one byte. */
  datatype Options = Options(b: nat) {
    function QoS(): nat { b % 4 }
    predicate NL() { (b / 4) % 2 != 0 }
    function RetainHandling(): nat { (b / 16) % 4 }
  }

  datatype Params = Params(id: nat, ops: Options, granted: nat)

  /** A retained or published message. `expireAt` is a time in nanoseconds, 0 when there is none. */
  datatype Message = Message(topic: string, payload: string, qos: nat, expireAt: nat)

  const SECOND := 1_000_000_000

  /** Publish.Expired: the whole seconds left, cut to 32 bits, must be positive. */
  predicate Expired(m: Message, now: nat) {
    && m.expireAt != 0
    && !(m.expireAt > now && ((m.expireAt - now) / SECOND) % 0x1_0000_0000 > 0)
  }

  // ---------------------------------------------------------------- the flat reference

  type Subs = map<SubscriberId, Params>

  /** What the tree stands for: who subscribed to which filter, and the message each topic retains. */
  datatype Flat = Flat(subs: map<Path, Subs>, retained: map<Path, Message>)

  function SubsAt(s: Flat, f: Path): Subs {
    if f in s.subs then s.subs[f] else map[]
  }

  function WithSubs(s: Flat, f: Path, m: Subs): Flat {
    s.(subs := if m == map[] then s.subs - {f} else s.subs[f := m])
  }

  function FlatSubscribe(s: Flat, f: Path, id: SubscriberId, p: Params): Flat {
    WithSubs(s, f, SubsAt(s, f)[id := p])
  }

  function FlatUnsubscribe(s: Flat, f: Path, who: Option<SubscriberId>): Flat {
    WithSubs(s, f, if who.Some? then SubsAt(s, f) - {who.value} else map[])
  }

  function FlatRetain(s: Flat, m: Message): Flat {
    var t := Split(m.topic);
    s.(retained := if m.payload == "" then s.retained - {t} else s.retained[t := m])
  }

  lemma SameSubs(s: Flat, f: Path)
    requires f in s.subs ==> s.subs[f] != map[]
    ensures WithSubs(s, f, SubsAt(s, f)) == s
  {
    if f in s.subs {
      assert s.subs[f := s.subs[f]] == s.subs;
    } else {
      assert s.subs - {f} == s.subs;
    }
  }

  lemma WriteTwice<K, V>(m: map<K, V>, k: K, v: V)
    ensures (m - {k})[k := v] == m[k := v]
  {
  }

  // ---------------------------------------------------------------- what a publish collects

  datatype Entry = Entry(sub: SubscriberId, ops: Options, qos: nat, ids: seq<nat>)

  type Entries = map<SubscriberId, seq<Entry>>

  /** One call of Subscriber.Publish. */
  datatype Delivery = Delivery(to: Entry, msg: Message)

  function Lookup(e: Entries, id: SubscriberId): seq<Entry> {
    if id in e then e[id] else []
  }

  function Ids(p: Params): seq<nat> {
    if p.id > 0 then [p.id] else []
  }

  function Acquired(id: SubscriberId, p: Params): Entry {
    Entry(id, p.ops, p.granted, Ids(p))
  }

  /** No Local: the publisher's own subscription must not get the message back. */
  predicate Excluded(id: SubscriberId, p: Params, pub: SubscriberId) {
    p.ops.NL() && id == pub
  }

  function Merged(e: Entry, p: Params): Entry {
    e.(ids := e.ids + Ids(p), qos := if e.qos < p.granted then p.granted else e.qos)
  }

  /** What one visited subscription of `id` adds to the entries already collected for `id`. */
  function Absorb(overlap: bool, es: seq<Entry>, id: SubscriberId, p: Params, pub: SubscriberId): seq<Entry> {
    if overlap && es != [] then [Merged(es[0], p)] + es[1..]
    else if Excluded(id, p, pub) then es
    else es + [Acquired(id, p)]
  }

  function AbsorbFrom(overlap: bool, m: Subs, es: seq<Entry>, id: SubscriberId, pub: SubscriberId): seq<Entry> {
    if id in m then Absorb(overlap, es, id, m[id], pub) else es
  }

  /** The entries of `id` after the filters `fs` have been visited in this order. */
  function Gather(overlap: bool, s: Flat, es: seq<Entry>, fs: seq<Path>, id: SubscriberId, pub: SubscriberId): seq<Entry>
    decreases |fs|
  {
    if fs == [] then es
    else Gather(overlap, s, AbsorbFrom(overlap, SubsAt(s, fs[0]), es, id, pub), fs[1..], id, pub)
  }

  lemma {:induction false} GatherConcat(overlap: bool, s: Flat, es: seq<Entry>, a: seq<Path>, b: seq<Path>, id: SubscriberId, pub: SubscriberId)
    ensures Gather(overlap, s, es, a + b, id, pub) == Gather(overlap, s, Gather(overlap, s, es, a, id, pub), b, id, pub)
    decreases |a|
  {
    if a == [] {
      assert a + b == b;
    } else {
      assert (a + b)[0] == a[0] && (a + b)[1..] == a[1..] + b;
      GatherConcat(overlap, s, AbsorbFrom(overlap, SubsAt(s, a[0]), es, id, pub), a[1..], b, id, pub);
    }
  }

  lemma GatherOne(overlap: bool, s: Flat, es: seq<Entry>, f: Path, id: SubscriberId, pub: SubscriberId)
    ensures Gather(overlap, s, es, [f], id, pub) == AbsorbFrom(overlap, SubsAt(s, f), es, id, pub)
  {
    assert [f][1..] == [];
  }

  /** Those of `fs` that `id` subscribed to. */
  function Holding(s: Flat, fs: seq<Path>, id: SubscriberId): seq<Path> {
    if fs == [] then []
    else (if id in SubsAt(s, fs[0]) then [fs[0]] else []) + Holding(s, fs[1..], id)
  }

  lemma {:induction false} HoldingExact(s: Flat, fs: seq<Path>, id: SubscriberId)
    ensures forall f :: f in Holding(s, fs, id) <==> f in fs && id in SubsAt(s, f)
    ensures NoDup(fs) ==> NoDup(Holding(s, fs, id))
  {
    if fs != [] {
      HoldingExact(s, fs[1..], id);
      assert fs == [fs[0]] + fs[1..];
      if NoDup(fs) {
        assert NoDup(fs[1..]);
        assert fs[0] !in fs[1..];
      }
    }
  }

  lemma {:induction false} GatherHolding(overlap: bool, s: Flat, es: seq<Entry>, fs: seq<Path>, id: SubscriberId, pub: SubscriberId)
    ensures Gather(overlap, s, es, fs, id, pub) == Gather(overlap, s, es, Holding(s, fs, id), id, pub)
    decreases |fs|
  {
    if fs != [] {
      var es' := AbsorbFrom(overlap, SubsAt(s, fs[0]), es, id, pub);
      GatherHolding(overlap, s, es', fs[1..], id, pub);
      var h := Holding(s, fs, id);
      if id in SubsAt(s, fs[0]) {
        assert h[0] == fs[0] && h[1..] == Holding(s, fs[1..], id);
      } else {
        assert h == Holding(s, fs[1..], id);
      }
    }
  }

  /** `fs` lists, once each, the filters of `id` that match the topic. */
  ghost predicate Enumerates(fs: seq<Path>, s: Flat, t: Path, id: SubscriberId) {
    NoDup(fs) && forall f :: f in fs <==> id in SubsAt(s, f) && LiveMatch(f, t)
  }

  /** The filters of `id` that match the topic, in the order live search comes to them. */
  function Order(s: Flat, t: Path, id: SubscriberId): seq<Path>
    requires t != []
  {
    Holding(s, WalkFor(t), id)
  }

  lemma {:induction false} HoldingAscends(s: Flat, fs: seq<Path>, id: SubscriberId)
    requires Ascending(fs)
    ensures Ascending(Holding(s, fs, id))
  {
    hide Before, SubsAt;
    if fs != [] {
      var h := Holding(s, fs[1..], id);
      HoldingAscends(s, fs[1..], id);
      HoldingExact(s, fs[1..], id);
      forall j | 0 <= j < |h| ensures Before(fs[0], h[j]) {
        assert h[j] in fs[1..];
        var k :| 0 <= k < |fs[1..]| && fs[1..][k] == h[j];
        assert Before(fs[0], fs[k + 1]);
      }
      AscendingConcat([fs[0]], h);
      assert [] + h == h;
    }
  }

  /** A client's matching filters come in ascending order. */
  lemma OrderAscends(s: Flat, t: Path, id: SubscriberId)
    requires t != [] && WildcardFree(t)
    ensures Ascending(Order(s, t, id))
  {
    hide Holding, Ascending, Walk;
    if Dollar(t[0]) {
      assert forall i | 0 <= i < |t[1..]| :: t[1..][i] == t[i + 1];
      WalkAscends([t[0]], t[1..]);
    } else {
      WalkAscends([], t);
    }
    HoldingAscends(s, WalkFor(t), id);
  }

  lemma {:induction false} HoldingConcat(s: Flat, a: seq<Path>, b: seq<Path>, id: SubscriberId)
    ensures Holding(s, a + b, id) == Holding(s, a, id) + Holding(s, b, id)
  {
    hide SubsAt;
    if a == [] {
      assert a + b == b;
    } else {
      assert (a + b)[0] == a[0] && (a + b)[1..] == a[1..] + b;
      HoldingConcat(s, a[1..], b, id);
    }
  }

  lemma {:induction false} HoldingNone(s: Flat, fs: seq<Path>, id: SubscriberId)
    requires forall i {:trigger fs[i]} | 0 <= i < |fs| :: fs[i] !in s.subs
    ensures Holding(s, fs, id) == []
  {
    if fs != [] { HoldingNone(s, fs[1..], id); }
  }

  /** Where the tree has no node, the table has nothing. */
  lemma NothingBelow(s: Flat, dom: set<Path>, p: Path, t: Path, id: SubscriberId)
    requires PrefixClosed(dom) && s.subs.Keys <= dom && p !in dom
    ensures Holding(s, Walk(p, t), id) == []
  {
    var w := Walk(p, t);
    WalkBelow(p, t);
    forall i | 0 <= i < |w| ensures w[i] !in s.subs {
      if w[i] in dom { PrefixOf(dom, p, w[i]); }
    }
    HoldingNone(s, w, id);
  }

  lemma HoldingHere(s: Flat, dom: set<Path>, q: Path, id: SubscriberId)
    requires s.subs.Keys <= dom
    ensures Holding(s, Here(dom, q), id) == Holding(s, [q], id)
  {
    if q !in dom { HoldingNone(s, [q], id); }
  }

  /** What the walk through a tree meets of the table is the same in every tree that holds it. */
  lemma {:induction false} HoldingVisits(s: Flat, dom: set<Path>, p: Path, t: Path, id: SubscriberId)
    requires PrefixClosed(dom) && s.subs.Keys <= dom && p in dom
    ensures Holding(s, Visits(dom, p, t), id) == Holding(s, Walk(p, t), id)
    decreases |t|
  {
    hide Holding, PrefixClosed;
    HoldingHere(s, dom, p + [MWC], id);
    if t == [] {
      HoldingConcat(s, [p], Here(dom, p + [MWC]), id);
      HoldingConcat(s, [p], [p + [MWC]], id);
      assert [p] + [p + [MWC]] == [p, p + [MWC]];
    } else {
      var l, rest := t[0], t[1..];
      var a, a' := if l != "" then Here(dom, p + [MWC]) else [], if l != "" then [p + [MWC]] else [];
      var b := if p + [l] in dom then Visits(dom, p + [l], rest) else [];
      var c := if p + [SWC] in dom then Visits(dom, p + [SWC], rest) else [];
      HoldingBranch(s, dom, p + [l], rest, id);
      HoldingBranch(s, dom, p + [SWC], rest, id);
      if p + [l] in dom { HoldingVisits(s, dom, p + [l], rest, id); }
      if p + [SWC] in dom { HoldingVisits(s, dom, p + [SWC], rest, id); }
      HoldingConcat(s, a, b, id);
      HoldingConcat(s, a + b, c, id);
      HoldingConcat(s, a', Walk(p + [l], rest), id);
      HoldingConcat(s, a' + Walk(p + [l], rest), Walk(p + [SWC], rest), id);
    }
  }

  lemma HoldingBranch(s: Flat, dom: set<Path>, p: Path, t: Path, id: SubscriberId)
    requires PrefixClosed(dom) && s.subs.Keys <= dom
    ensures p !in dom ==> Holding(s, Walk(p, t), id) == Holding(s, [], id)
  {
    if p !in dom { NothingBelow(s, dom, p, t, id); }
  }

  /** The walk through the tree answers as the flat table does: it comes to the matching filters of `id` once
      each, whatever other nodes the tree has, and always in the same order. */
  lemma SearchAnswers(overlap: bool, s: Flat, dom: set<Path>, t: Path, id: SubscriberId, pub: SubscriberId)
    requires PrefixClosed(dom) && [] in dom && s.subs.Keys <= dom
    requires t != [] && WildcardFree(t)
    ensures Holding(s, Search(dom, t), id) == Order(s, t, id) && Enumerates(Order(s, t, id), s, t, id)
    ensures Gather(overlap, s, [], Search(dom, t), id, pub) == Gather(overlap, s, [], Order(s, t, id), id, pub)
  {
    var v := Search(dom, t);
    SearchExact(dom, t);
    HoldingExact(s, v, id);
    GatherHolding(overlap, s, [], v, id, pub);
    hide Holding, Visits, Walk, Gather, LiveMatch, SubsAt, WildcardFree;
    if !Dollar(t[0]) {
      HoldingVisits(s, dom, [], t, id);
    } else if [t[0]] in dom {
      HoldingVisits(s, dom, [t[0]], t[1..], id);
    } else {
      HoldingBranch(s, dom, [t[0]], t[1..], id);
    }
  }

  // ---------------------------------------------------------------- separate entries

  function NotExcluded(s: Flat, fs: seq<Path>, id: SubscriberId, pub: SubscriberId): seq<Path>
    requires forall f <- fs :: id in SubsAt(s, f)
  {
    if fs == [] then []
    else (if Excluded(id, SubsAt(s, fs[0])[id], pub) then [] else [fs[0]]) + NotExcluded(s, fs[1..], id, pub)
  }

  lemma {:induction false} NotExcludedExact(s: Flat, fs: seq<Path>, id: SubscriberId, pub: SubscriberId)
    requires forall f <- fs :: id in SubsAt(s, f)
    ensures forall f :: f in NotExcluded(s, fs, id, pub) <==>
                        f in fs && id in SubsAt(s, f) && !Excluded(id, SubsAt(s, f)[id], pub)
    ensures NoDup(fs) ==> NoDup(NotExcluded(s, fs, id, pub))
  {
    if fs != [] {
      NotExcludedExact(s, fs[1..], id, pub);
      assert fs == [fs[0]] + fs[1..];
      if NoDup(fs) {
        assert NoDup(fs[1..]) && fs[0] !in fs[1..];
      }
    }
  }

  function Separate(s: Flat, w: seq<Path>, id: SubscriberId): seq<Entry>
    requires forall f <- w :: id in SubsAt(s, f)
  {
    if w == [] then [] else [Acquired(id, SubsAt(s, w[0])[id])] + Separate(s, w[1..], id)
  }

  /** What one filter adds when entries are kept apart. */
  lemma AbsorbSeparate(s: Flat, es: seq<Entry>, f: Path, id: SubscriberId, pub: SubscriberId)
    requires id in SubsAt(s, f)
    ensures AbsorbFrom(false, SubsAt(s, f), es, id, pub) ==
            if Excluded(id, SubsAt(s, f)[id], pub) then es else es + [Acquired(id, SubsAt(s, f)[id])]
  {
    hide SubsAt, Excluded;
  }

  /** The entries of the subscriptions that are not excluded, the first one aside. */
  lemma SeparateStep(s: Flat, fs: seq<Path>, id: SubscriberId, pub: SubscriberId)
    requires fs != [] && forall f <- fs :: id in SubsAt(s, f)
    ensures (forall f <- NotExcluded(s, fs, id, pub) :: id in SubsAt(s, f)) && (forall f <- NotExcluded(s, fs[1..], id, pub) :: id in SubsAt(s, f))
    ensures Separate(s, NotExcluded(s, fs, id, pub), id) ==
            (if Excluded(id, SubsAt(s, fs[0])[id], pub) then [] else [Acquired(id, SubsAt(s, fs[0])[id])])
            + Separate(s, NotExcluded(s, fs[1..], id, pub), id)
  {
    hide SubsAt, Excluded;
    NotExcludedExact(s, fs, id, pub);
    NotExcludedExact(s, fs[1..], id, pub);
    var w, w' := NotExcluded(s, fs, id, pub), NotExcluded(s, fs[1..], id, pub);
    if Excluded(id, SubsAt(s, fs[0])[id], pub) {
      assert w == w';
    } else {
      assert w[0] == fs[0] && w[1..] == w';
    }
  }

  lemma ConcatAssoc<T>(a: seq<T>, b: seq<T>, c: seq<T>)
    ensures a + (b + c) == a + b + c
  {
  }

  lemma GatherSeparateStep(s: Flat, es: seq<Entry>, fs: seq<Path>, id: SubscriberId, pub: SubscriberId, more: seq<Entry>)
    requires fs != [] && forall f <- fs :: id in SubsAt(s, f)
    ensures var x := if Excluded(id, SubsAt(s, fs[0])[id], pub) then [] else [Acquired(id, SubsAt(s, fs[0])[id])];
            AbsorbFrom(false, SubsAt(s, fs[0]), es, id, pub) + more == es + (x + more)
  {
    AbsorbSeparate(s, es, fs[0], id, pub);
    hide SubsAt, AbsorbFrom, Excluded;
    if !Excluded(id, SubsAt(s, fs[0])[id], pub) {
      ConcatAssoc(es, [Acquired(id, SubsAt(s, fs[0])[id])], more);
    } else {
      assert [] + more == more;
    }
  }

  lemma {:induction false} GatherSeparate(s: Flat, es: seq<Entry>, fs: seq<Path>, id: SubscriberId, pub: SubscriberId)
    requires forall f <- fs :: id in SubsAt(s, f)
    ensures forall f <- NotExcluded(s, fs, id, pub) :: id in SubsAt(s, f)
    ensures Gather(false, s, es, fs, id, pub) == es + Separate(s, NotExcluded(s, fs, id, pub), id)
    decreases |fs|
  {
    if fs != [] {
      var f, rest := fs[0], fs[1..];
      SeparateStep(s, fs, id, pub);
      hide SubsAt, AbsorbFrom, Excluded, Separate, NotExcluded, Acquired;
      GatherSeparate(s, AbsorbFrom(false, SubsAt(s, f), es, id, pub), rest, id, pub);
      GatherSeparateStep(s, es, fs, id, pub, Separate(s, NotExcluded(s, rest, id, pub), id));
    }
  }

  lemma {:induction false} SeparateAt(s: Flat, w: seq<Path>, id: SubscriberId, i: nat)
    requires (forall f <- w :: id in SubsAt(s, f)) && i < |w|
    ensures |Separate(s, w, id)| == |w| && w[i] in w
    ensures Separate(s, w, id)[i] == Acquired(id, SubsAt(s, w[i])[id])
  {
    if |w| > 1 { SeparateAt(s, w[1..], id, if i == 0 then 0 else i - 1); }
  }

  /** Without overlapping, the entries are in one-to-one correspondence with the matching subscriptions
      that No Local does not exclude; each carries the options, QoS and identifier of its own. */
  lemma OneEntryPerSubscription(s: Flat, t: Path, fs: seq<Path>, id: SubscriberId, pub: SubscriberId) returns (w: seq<Path>)
    requires Enumerates(fs, s, t, id)
    ensures NoDup(w)
    ensures forall f :: f in w <==> id in SubsAt(s, f) && LiveMatch(f, t) && !Excluded(id, SubsAt(s, f)[id], pub)
    ensures |Gather(false, s, [], fs, id, pub)| == |w|
    ensures forall i | 0 <= i < |w| ::
              id in SubsAt(s, w[i]) && Gather(false, s, [], fs, id, pub)[i] == Acquired(id, SubsAt(s, w[i])[id])
  {
    w := NotExcluded(s, fs, id, pub);
    NotExcludedExact(s, fs, id, pub);
    GatherSeparate(s, [], fs, id, pub);
    forall i | 0 <= i < |w|
      ensures id in SubsAt(s, w[i]) && |Separate(s, w, id)| == |w|
      ensures Separate(s, w, id)[i] == Acquired(id, SubsAt(s, w[i])[id])
    {
      SeparateAt(s, w, id, i);
    }
  }

  // ---------------------------------------------------------------- one merged entry

  function MaxGranted(s: Flat, fs: seq<Path>, id: SubscriberId): (q: nat)
    requires fs != [] && forall f <- fs :: id in SubsAt(s, f)
    ensures forall f <- fs :: SubsAt(s, f)[id].granted <= q
    ensures exists f <- fs :: SubsAt(s, f)[id].granted == q
  {
    var g := SubsAt(s, fs[0])[id].granted;
    assert fs == [fs[0]] + fs[1..];
    if |fs| == 1 then assert fs[0] in fs; g
    else
      var q := MaxGranted(s, fs[1..], id);
      if q < g then assert fs[0] in fs; g else q
  }

  function AllIds(s: Flat, fs: seq<Path>, id: SubscriberId): seq<nat>
    requires forall f <- fs :: id in SubsAt(s, f)
  {
    if fs == [] then [] else Ids(SubsAt(s, fs[0])[id]) + AllIds(s, fs[1..], id)
  }

  function Upgraded(e: Entry, s: Flat, fs: seq<Path>, id: SubscriberId): Entry
    requires forall f <- fs :: id in SubsAt(s, f)
  {
    if fs == [] then e
    else e.(ids := e.ids + AllIds(s, fs, id), qos := if e.qos < MaxGranted(s, fs, id) then MaxGranted(s, fs, id) else e.qos)
  }

  lemma {:induction false} GatherMerged(s: Flat, e: Entry, fs: seq<Path>, id: SubscriberId, pub: SubscriberId)
    requires forall f <- fs :: id in SubsAt(s, f)
    ensures Gather(true, s, [e], fs, id, pub) == [Upgraded(e, s, fs, id)]
    decreases |fs|
  {
    if fs != [] {
      assert fs == [fs[0]] + fs[1..];
      var p := SubsAt(s, fs[0])[id];
      assert [Merged(e, p)] + [e][1..] == [Merged(e, p)];
      GatherMerged(s, Merged(e, p), fs[1..], id, pub);
      if |fs| == 1 {
        assert AllIds(s, fs, id) == Ids(p) + [] == Ids(p);
      } else {
        assert e.ids + Ids(p) + AllIds(s, fs[1..], id) == e.ids + (Ids(p) + AllIds(s, fs[1..], id));
      }
    }
  }

  /** With overlapping, `id` gets no entry when No Local excludes all its matching subscriptions, and
      otherwise one: opened by the first subscription that is not excluded, with the highest QoS and
      all the nonzero identifiers from that subscription on. */
  lemma {:induction false} MergedEntry(s: Flat, fs: seq<Path>, id: SubscriberId, pub: SubscriberId, k: nat)
    requires (forall f <- fs :: id in SubsAt(s, f)) && k <= |fs|
    requires forall i | 0 <= i < k :: Excluded(id, SubsAt(s, fs[i])[id], pub)
    requires k < |fs| ==> !Excluded(id, SubsAt(s, fs[k])[id], pub)
    ensures Gather(true, s, [], fs, id, pub) ==
            if k == |fs| then []
            else [Entry(id, SubsAt(s, fs[k])[id].ops, MaxGranted(s, fs[k..], id), AllIds(s, fs[k..], id))]
    decreases |fs|
  {
    if k == 0 && fs != [] {
      MergedFirst(s, fs, id, pub);
    } else if fs != [] {
      assert fs[1..][k - 1..] == fs[k..];
      MergedEntry(s, fs[1..], id, pub, k - 1);
    }
  }

  lemma MergedFirst(s: Flat, fs: seq<Path>, id: SubscriberId, pub: SubscriberId)
    requires fs != [] && (forall f <- fs :: id in SubsAt(s, f))
    requires !Excluded(id, SubsAt(s, fs[0])[id], pub)
    ensures Gather(true, s, [], fs, id, pub) ==
            [Entry(id, SubsAt(s, fs[0])[id].ops, MaxGranted(s, fs[0..], id), AllIds(s, fs[0..], id))]
  {
    var e, rest := Acquired(id, SubsAt(s, fs[0])[id]), fs[1..];
    assert fs == [fs[0]] + rest && fs[0..] == fs && [] + [e] == [e];
    assert Gather(true, s, [], fs, id, pub) == Gather(true, s, [e], rest, id, pub);
    assert AllIds(s, fs, id) == e.ids + AllIds(s, rest, id);
    assert rest == [] ==> e.ids + AllIds(s, rest, id) == e.ids;
    assert MaxGranted(s, fs, id) == if rest != [] && MaxGranted(s, rest, id) >= e.qos then MaxGranted(s, rest, id) else e.qos;
    hide SubsAt, Gather, AllIds, MaxGranted;
    GatherMerged(s, e, rest, id, pub);
  }

  lemma {:induction false} AllIdsConcat(s: Flat, a: seq<Path>, b: seq<Path>, id: SubscriberId)
    requires (forall f <- a :: id in SubsAt(s, f)) && (forall f <- b :: id in SubsAt(s, f))
    ensures AllIds(s, a + b, id) == AllIds(s, a, id) + AllIds(s, b, id)
  {
    if a == [] {
      assert a + b == b;
    } else {
      assert (a + b)[0] == a[0] && (a + b)[1..] == a[1..] + b;
      AllIdsConcat(s, a[1..], b, id);
    }
  }

  lemma AllIdsPick(s: Flat, gs: seq<Path>, j: nat, id: SubscriberId)
    requires (forall f <- gs :: id in SubsAt(s, f)) && j < |gs|
    ensures forall f <- gs[..j] + gs[j + 1..] :: id in SubsAt(s, f)
    ensures multiset(AllIds(s, gs, id)) ==
            multiset(Ids(SubsAt(s, gs[j])[id])) + multiset(AllIds(s, gs[..j] + gs[j + 1..], id))
  {
    hide SubsAt, Ids;
    var a, b := gs[..j], gs[j + 1..];
    assert gs == a + ([gs[j]] + b);
    AllIdsConcat(s, a, b, id);
    AllIdsConcat(s, a, [gs[j]] + b, id);
    AllIdsFirst(s, gs[j], b, id);
    hide AllIds;
    var x, y, z := AllIds(s, a, id), Ids(SubsAt(s, gs[j])[id]), AllIds(s, b, id);
    assert multiset(x + (y + z)) == multiset(y) + multiset(x + z);
  }

  lemma AllIdsFirst(s: Flat, f: Path, b: seq<Path>, id: SubscriberId)
    requires id in SubsAt(s, f) && forall g <- b :: id in SubsAt(s, g)
    ensures (forall g <- [f] + b :: id in SubsAt(s, g)) && AllIds(s, [f] + b, id) == Ids(SubsAt(s, f)[id]) + AllIds(s, b, id)
  {
    hide SubsAt, Ids;
    assert ([f] + b)[1..] == b;
  }

  lemma {:induction false} AllIdsOrder(s: Flat, fs: seq<Path>, gs: seq<Path>, id: SubscriberId)
    requires (forall f <- fs :: id in SubsAt(s, f)) && (forall f <- gs :: id in SubsAt(s, f))
    requires NoDup(fs) && NoDup(gs) && forall f :: f in fs <==> f in gs
    ensures multiset(AllIds(s, fs, id)) == multiset(AllIds(s, gs, id))
  {
    BothEmpty(fs, gs);
    if fs != [] {
      assert fs[0] in fs;
      var j :| 0 <= j < |gs| && gs[j] == fs[0];
      Without(fs, gs, j);
      AllIdsPick(s, gs, j, id);
      AllIdsOrder(s, fs[1..], gs[..j] + gs[j + 1..], id);
    }
  }

  lemma BothEmpty<T>(fs: seq<T>, gs: seq<T>)
    requires forall f :: f in fs <==> f in gs
    ensures fs == [] ==> gs == []
  {
    if gs != [] { assert gs[0] in fs; }
  }

  lemma Without<T>(fs: seq<T>, gs: seq<T>, j: nat)
    requires NoDup(fs) && NoDup(gs) && fs != [] && j < |gs| && gs[j] == fs[0]
    requires forall f :: f in fs <==> f in gs
    ensures NoDup(gs[..j] + gs[j + 1..])
    ensures forall f :: f in fs[1..] <==> f in gs[..j] + gs[j + 1..]
  {
    var a, b := gs[..j], gs[j + 1..];
    forall f ensures f in fs[1..] <==> f in a + b {
      assert fs == [fs[0]] + fs[1..] && gs == a + [gs[j]] + b;
      assert f in fs <==> f == fs[0] || f in fs[1..];
      assert f in gs <==> f in a || f == gs[j] || f in b;
    }
  }

  /** Where No Local does not come in, the merged entry does not depend on the order of the visits:
      the QoS is the highest granted, the identifiers are all the nonzero ones. */
  lemma MergedOrderIrrelevant(s: Flat, t: Path, fs: seq<Path>, gs: seq<Path>, id: SubscriberId, pub: SubscriberId)
    requires Enumerates(fs, s, t, id) && Enumerates(gs, s, t, id) && fs != []
    requires forall f <- fs :: !Excluded(id, SubsAt(s, f)[id], pub)
    ensures var a, b := Gather(true, s, [], fs, id, pub), Gather(true, s, [], gs, id, pub);
            && |a| == |b| == 1
            && a[0].qos == b[0].qos && multiset(a[0].ids) == multiset(b[0].ids)
            && (forall f | id in SubsAt(s, f) && LiveMatch(f, t) :: SubsAt(s, f)[id].granted <= a[0].qos)
            && (exists f | id in SubsAt(s, f) && LiveMatch(f, t) :: SubsAt(s, f)[id].granted == a[0].qos)
  {
    assert fs[0] in fs && fs[0] in gs && gs[0] in fs;
    MergedFirst(s, fs, id, pub);
    MergedFirst(s, gs, id, pub);
    assert fs[0..] == fs && gs[0..] == gs;
    AllIdsOrder(s, fs, gs, id);
    hide SubsAt, Gather, AllIds, Excluded, LiveMatch, NoDup;
  }

  // ---------------------------------------------------------------- deliveries

  function Deliveries(es: seq<Entry>, m: Message): seq<Delivery> {
    seq(|es|, i requires 0 <= i < |es| => Delivery(es[i], m))
  }

  /** The entries of `id` among deliveries, in order. */
  function To(d: seq<Delivery>, id: SubscriberId): seq<Entry> {
    if d == [] then [] else (if d[0].to.sub == id then [d[0].to] else []) + To(d[1..], id)
  }

  lemma {:induction false} ToConcat(a: seq<Delivery>, b: seq<Delivery>, id: SubscriberId)
    ensures To(a + b, id) == To(a, id) + To(b, id)
  {
    if a == [] {
      assert a + b == b;
    } else {
      assert (a + b)[0] == a[0] && (a + b)[1..] == a[1..] + b;
      ToConcat(a[1..], b, id);
      var x := if a[0].to.sub == id then [a[0].to] else [];
      assert x + (To(a[1..], id) + To(b, id)) == x + To(a[1..], id) + To(b, id);
    }
  }

  lemma {:induction false} ToDeliveries(es: seq<Entry>, m: Message, owner: SubscriberId, id: SubscriberId)
    requires forall e <- es :: e.sub == owner
    ensures To(Deliveries(es, m), id) == if id == owner then es else []
  {
    if es != [] {
      assert Deliveries(es, m)[1..] == Deliveries(es[1..], m);
      assert es == [es[0]] + es[1..];
      ToDeliveries(es[1..], m, owner, id);
    }
  }

  lemma {:induction false} GatherOwner(overlap: bool, s: Flat, es: seq<Entry>, fs: seq<Path>, id: SubscriberId, pub: SubscriberId)
    requires forall e <- es :: e.sub == id
    ensures forall e <- Gather(overlap, s, es, fs, id, pub) :: e.sub == id
    decreases |fs|
  {
    if fs != [] { GatherOwner(overlap, s, AbsorbFrom(overlap, SubsAt(s, fs[0]), es, id, pub), fs[1..], id, pub); }
  }

  // ---------------------------------------------------------------- what a search for retained messages finds

  /** The retained messages of `seen`, in order, that have not expired. */
  function Alive(r: map<Path, Message>, seen: seq<Path>, now: nat): seq<Message> {
    if seen == [] then []
    else (if seen[0] in r && !Expired(r[seen[0]], now) then [r[seen[0]]] else []) + Alive(r, seen[1..], now)
  }

  /** What stays retained: an expired message is dropped when a search comes across it. */
  function Sweep(r: map<Path, Message>, seen: seq<Path>, now: nat): map<Path, Message> {
    map q | q in r && !(q in seen && Expired(r[q], now)) :: r[q]
  }

  lemma {:induction false} AliveConcat(r: map<Path, Message>, a: seq<Path>, b: seq<Path>, now: nat)
    ensures Alive(r, a + b, now) == Alive(r, a, now) + Alive(r, b, now)
  {
    if a == [] {
      assert a + b == b;
    } else {
      assert (a + b)[0] == a[0] && (a + b)[1..] == a[1..] + b;
      AliveConcat(r, a[1..], b, now);
    }
  }

  lemma {:induction false} AliveSweep(r: map<Path, Message>, a: seq<Path>, b: seq<Path>, now: nat)
    ensures Alive(Sweep(r, a, now), b, now) == Alive(r, b, now)
  {
    if b != [] { AliveSweep(r, a, b[1..], now); }
  }

  ghost predicate Swept(s0: Flat, s1: Flat, acc0: seq<Message>, acc1: seq<Message>, seen: seq<Path>, now: nat) {
    && s1 == s0.(retained := Sweep(s0.retained, seen, now))
    && acc1 == acc0 + Alive(s0.retained, seen, now)
  }

  lemma SweptOne(s0: Flat, s1: Flat, acc0: seq<Message>, acc1: seq<Message>, p: Path, now: nat)
    requires s1 == if p in s0.retained && Expired(s0.retained[p], now) then s0.(retained := s0.retained - {p}) else s0
    requires acc1 == if p in s0.retained && !Expired(s0.retained[p], now) then acc0 + [s0.retained[p]] else acc0
    ensures Swept(s0, s1, acc0, acc1, [p], now)
  {
    hide Expired;
    assert [p][1..] == [] && Alive(s0.retained, [], now) == [];
    assert Sweep(s0.retained, [p], now) == s1.retained;
    assert acc0 + [] == acc0;
  }

  lemma SweptConcat(s0: Flat, s1: Flat, s2: Flat, acc0: seq<Message>, acc1: seq<Message>, acc2: seq<Message>,
                    a: seq<Path>, b: seq<Path>, now: nat)
    requires Swept(s0, s1, acc0, acc1, a, now) && Swept(s1, s2, acc1, acc2, b, now)
    ensures Swept(s0, s2, acc0, acc2, a + b, now)
  {
    AliveConcat(s0.retained, a, b, now);
    AliveSweep(s0.retained, a, b, now);
    assert Sweep(Sweep(s0.retained, a, now), b, now) == Sweep(s0.retained, a + b, now);
  }

  /** The messages found are those of the unexpired topics among `seen`, one each. */
  /** The topics seen whose retained message has not expired, in order. */
  function AliveAmong(r: map<Path, Message>, seen: seq<Path>, now: nat): seq<Path> {
    if seen == [] then []
    else (if seen[0] in r && !Expired(r[seen[0]], now) then [seen[0]] else []) + AliveAmong(r, seen[1..], now)
  }

  lemma {:induction false} AliveAmongExact(r: map<Path, Message>, seen: seq<Path>, now: nat)
    ensures forall t :: t in AliveAmong(r, seen, now) <==> t in seen && t in r && !Expired(r[t], now)
    ensures NoDup(seen) ==> NoDup(AliveAmong(r, seen, now))
  {
    hide Expired;
    if seen != [] {
      AliveAmongExact(r, seen[1..], now);
      assert seen == [seen[0]] + seen[1..];
      assert NoDup(seen) ==> NoDup(seen[1..]) && seen[0] !in seen[1..];
    }
  }

  lemma {:induction false} AliveMessages(r: map<Path, Message>, seen: seq<Path>, now: nat)
    ensures var ts := AliveAmong(r, seen, now);
            |Alive(r, seen, now)| == |ts| && forall i {:trigger ts[i]} | 0 <= i < |ts| :: ts[i] in r && Alive(r, seen, now)[i] == r[ts[i]]
  {
    hide Expired;
    if seen != [] { AliveMessages(r, seen[1..], now); }
  }

  lemma AliveTopics(r: map<Path, Message>, seen: seq<Path>, now: nat) returns (ts: seq<Path>)
    ensures NoDup(seen) ==> NoDup(ts)
    ensures forall t :: t in ts <==> t in seen && t in r && !Expired(r[t], now)
    ensures |Alive(r, seen, now)| == |ts|
    ensures forall i | 0 <= i < |ts| :: ts[i] in r && Alive(r, seen, now)[i] == r[ts[i]]
  {
    hide Expired, Alive, AliveAmong;
    ts := AliveAmong(r, seen, now);
    AliveAmongExact(r, seen, now);
    AliveMessages(r, seen, now);
  }

  /** Retained messages after a search for `f`: the matching ones that have expired are gone. */
  function SweepMatching(r: map<Path, Message>, f: Path, now: nat): map<Path, Message> {
    map t | t in r && !(RetainedMatch(f, t) && Expired(r[t], now)) :: r[t]
  }

  /** `ms` are the messages a search for `f` must return: each unexpired match exactly once. */
  ghost predicate RetainedAnswer(r: map<Path, Message>, f: Path, now: nat, ms: seq<Message>, ts: seq<Path>) {
    && NoDup(ts) && |ms| == |ts|
    && (forall t :: t in ts <==> t in r && RetainedMatch(f, t) && !Expired(r[t], now))
    && (forall i | 0 <= i < |ts| :: ts[i] in r && ms[i] == r[ts[i]])
  }

  lemma RetainedAnswerOf(r: map<Path, Message>, f: Path, now: nat, seen: seq<Path>) returns (ts: seq<Path>)
    requires NoDup(seen) && forall t <- r :: t in seen <==> RetainedMatch(f, t)
    ensures RetainedAnswer(r, f, now, Alive(r, seen, now), ts)
    ensures Sweep(r, seen, now) == SweepMatching(r, f, now)
  {
    ts := AliveTopics(r, seen, now);
  }

  // ---------------------------------------------------------------- runs

  datatype Op =
    | Subscribe(filter: string, id: SubscriberId, params: Params, now: nat)
    | Unsubscribe(filter: string, who: Option<SubscriberId>)
    | Retain(msg: Message)

  /** Whether subscribing sends the retained messages, by the Retain Handling option. */
  predicate SendsRetained(p: Params, existed: bool) {
    p.ops.RetainHandling() == 0 || (p.ops.RetainHandling() == 1 && !existed)
  }

  function FlatApply(s: Flat, op: Op): Flat {
    match op
    case Subscribe(filter, id, p, now) =>
      var f := Split(filter);
      var s' := FlatSubscribe(s, f, id, p.(granted := p.ops.QoS()));
      if SendsRetained(p, id in SubsAt(s, f)) then s'.(retained := SweepMatching(s'.retained, f, now)) else s'
    case Unsubscribe(filter, who) => FlatUnsubscribe(s, Split(filter), who)
    case Retain(m) => FlatRetain(s, m)
  }

  function FlatRun(s: Flat, ops: seq<Op>): Flat {
    if ops == [] then s else FlatApply(FlatRun(s, ops[..|ops| - 1]), ops[|ops| - 1])
  }

  predicate NoExpiry(r: map<Path, Message>) {
    forall t <- r :: r[t].expireAt == 0
  }

  lemma NoExpiryKept(s: Flat, op: Op)
    requires NoExpiry(s.retained) && (op.Retain? ==> op.msg.expireAt == 0)
    ensures NoExpiry(FlatApply(s, op).retained)
  {
  }
}
