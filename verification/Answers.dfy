/** What a publish owes a client and what a search owes a subscriber, said of the table, the bits of the
    options byte and the clock. */
module Answers {
  import opened Common
  import opened TopicMatch
  import opened TopicModel
  import opened NoLocal

  // ---------------------------------------------------------------- live messages

  /** `id` has subscribed to `f`, and `f` matches the topic. */
  predicate Wants(s: Flat, t: Path, id: SubscriberId, f: Path) {
    f in s.subs && id in s.subs[f] && LiveMatch(f, t)
  }

  /** The publisher's own subscription, with bit 2 of its options byte set. */
  predicate Barred(s: Flat, f: Path, id: SubscriberId, pub: SubscriberId)
    requires f in s.subs && id in s.subs[f]
  {
    id == pub && (s.subs[f][id].ops.b / 4) % 2 == 1
  }

  /** The entry of one subscription. */
  predicate EntryOf(e: Entry, id: SubscriberId, p: Params) {
    e.sub == id && e.ops == p.ops && e.qos == p.granted && e.ids == if p.id == 0 then [] else [p.id]
  }

  /** Subscriptions kept apart: one entry for each matching subscription that is not barred. */
  ghost predicate OwedApart(s: Flat, t: Path, id: SubscriberId, pub: SubscriberId, es: seq<Entry>, w: seq<Path>) {
    && NoDup(w) && |es| == |w|
    && (forall f :: f in w <==> Wants(s, t, id, f) && !Barred(s, f, id, pub))
    && (forall i | 0 <= i < |w| :: w[i] in s.subs && id in s.subs[w[i]] && EntryOf(es[i], id, s.subs[w[i]][id]))
  }

  /** The nonzero identifiers of subscriptions, in order. */
  function Numbers(s: Flat, w: seq<Path>, id: SubscriberId): seq<nat>
    requires forall i {:trigger w[i]} | 0 <= i < |w| :: w[i] in s.subs && id in s.subs[w[i]]
  {
    if w == [] then []
    else
      var n := s.subs[w[0]][id].id;
      (if n == 0 then [] else [n]) + Numbers(s, w[1..], id)
  }

  /** The entry that the subscriptions `w` make together: the options of the first, the highest QoS, all the
      identifiers. */
  predicate EntryOfAll(s: Flat, w: seq<Path>, id: SubscriberId, e: Entry)
    requires w != [] && forall i {:trigger w[i]} | 0 <= i < |w| :: w[i] in s.subs && id in s.subs[w[i]]
  {
    && e.sub == id && e.ops == s.subs[w[0]][id].ops && e.ids == Numbers(s, w, id)
    && (forall i | 0 <= i < |w| :: s.subs[w[i]][id].granted <= e.qos)
    && (exists i | 0 <= i < |w| :: s.subs[w[i]][id].granted == e.qos)
  }

  /** Subscriptions merged: all of them in ascending order, from the first that is not barred. */
  ghost predicate OwedMerged(s: Flat, t: Path, id: SubscriberId, pub: SubscriberId, es: seq<Entry>, w: seq<Path>, k: nat) {
    && NoDup(w) && Ascending(w) && (forall f :: f in w <==> Wants(s, t, id, f))
    && (forall i {:trigger w[i]} | 0 <= i < |w| :: w[i] in s.subs && id in s.subs[w[i]])
    && k <= |w| && (forall i | 0 <= i < k :: Barred(s, w[i], id, pub))
    && if k == |w| then es == [] else !Barred(s, w[k], id, pub) && |es| == 1 && EntryOfAll(s, w[k..], id, es[0])
  }

  ghost predicate Owed(overlap: bool, s: Flat, t: Path, id: SubscriberId, pub: SubscriberId, es: seq<Entry>) {
    if overlap then exists w, k :: OwedMerged(s, t, id, pub, es, w, k) else exists w :: OwedApart(s, t, id, pub, es, w)
  }

  lemma WantsIs(s: Flat, t: Path, id: SubscriberId)
    ensures forall f :: Wants(s, t, id, f) <==> id in SubsAt(s, f) && LiveMatch(f, t)
  {
  }

  lemma BarredIsOut(s: Flat, f: Path, id: SubscriberId, pub: SubscriberId)
    requires id in SubsAt(s, f)
    ensures f in s.subs && id in s.subs[f] && SubsAt(s, f) == s.subs[f]
    ensures Barred(s, f, id, pub) <==> Out(s, f, id, pub)
    ensures Barred(s, f, id, pub) <==> Excluded(id, SubsAt(s, f)[id], pub)
  {
  }

  /** Kept apart, a client gets an entry for each of its matching subscriptions, whatever their options, when
      another client publishes, and for those without bit 2 when it publishes itself. */
  lemma GatheredApart(s: Flat, t: Path, fs: seq<Path>, id: SubscriberId, pub: SubscriberId)
    requires TopicModel.Enumerates(fs, s, t, id)
    ensures Owed(false, s, t, id, pub, Gather(false, s, [], fs, id, pub))
  {
    var es := Gather(false, s, [], fs, id, pub);
    var w := OneEntryPerSubscription(s, t, fs, id, pub);
    WantsIs(s, t, id);
    hide Excluded, LiveMatch, Gather, SubsAt, Barred, Wants;
    forall f ensures f in w <==> Wants(s, t, id, f) && !Barred(s, f, id, pub) {
      if id in SubsAt(s, f) { BarredIsOut(s, f, id, pub); }
    }
    forall i | 0 <= i < |w| ensures w[i] in s.subs && id in s.subs[w[i]] && EntryOf(es[i], id, s.subs[w[i]][id]) {
      BarredIsOut(s, w[i], id, pub);
    }
    assert OwedApart(s, t, id, pub, es, w);
  }

  lemma {:induction false} NumbersAre(s: Flat, w: seq<Path>, id: SubscriberId)
    requires forall i {:trigger w[i]} | 0 <= i < |w| :: w[i] in s.subs && id in s.subs[w[i]]
    ensures (forall f <- w :: id in SubsAt(s, f)) && AllIds(s, w, id) == Numbers(s, w, id)
  {
    if w != [] { NumbersAre(s, w[1..], id); }
  }

  lemma MergedIsOfAll(s: Flat, w: seq<Path>, id: SubscriberId, e: Entry)
    requires w != [] && forall i {:trigger w[i]} | 0 <= i < |w| :: w[i] in s.subs && id in s.subs[w[i]]
    requires (forall f <- w :: id in SubsAt(s, f)) && e == Entry(id, SubsAt(s, w[0])[id].ops, MaxGranted(s, w, id), AllIds(s, w, id))
    ensures EntryOfAll(s, w, id, e)
  {
    NumbersAre(s, w, id);
    hide Numbers, AllIds;
    assert forall i {:trigger w[i]} | 0 <= i < |w| :: w[i] in w && SubsAt(s, w[i]) == s.subs[w[i]];
    var f :| f in w && SubsAt(s, f)[id].granted == MaxGranted(s, w, id);
    var i :| 0 <= i < |w| && w[i] == f;
    assert s.subs[w[i]][id].granted == e.qos;
  }

  /** Merged, a client gets one entry of all its matching subscriptions when another client publishes; when it
      publishes itself, one of those from the first without bit 2 on, and none if all have it. */
  lemma GatheredMerged(s: Flat, t: Path, fs: seq<Path>, id: SubscriberId, pub: SubscriberId)
    requires TopicModel.Enumerates(fs, s, t, id) && Ascending(fs)
    ensures Owed(true, s, t, id, pub, Gather(true, s, [], fs, id, pub))
  {
    var es := Gather(true, s, [], fs, id, pub);
    var k := Opening(s, fs, id, pub);
    WantsIs(s, t, id);
    hide Excluded, Gather, Barred, Wants, Out, EntryOfAll, LiveMatch, SubsAt, NoDup, Opening, Ascending;
    assert forall i {:trigger fs[i]} | 0 <= i < |fs| :: fs[i] in fs;
    MergedFrom(s, fs, id, pub);
    forall i {:trigger fs[i]} | 0 <= i < |fs| ensures fs[i] in s.subs && id in s.subs[fs[i]] && (Barred(s, fs[i], id, pub) <==> Out(s, fs[i], id, pub)) {
      BarredIsOut(s, fs[i], id, pub);
    }
    if k < |fs| {
      MergedIsOfAll(s, fs[k..], id, es[0]);
    }
    assert OwedMerged(s, t, id, pub, es, fs, k);
  }

  /** What is gathered in the order of the walk is what is owed. */
  lemma GatheredIsOwed(overlap: bool, s: Flat, t: Path, fs: seq<Path>, id: SubscriberId, pub: SubscriberId)
    requires TopicModel.Enumerates(fs, s, t, id) && Ascending(fs)
    ensures Owed(overlap, s, t, id, pub, Gather(overlap, s, [], fs, id, pub))
  {
    if overlap { GatheredMerged(s, t, fs, id, pub); } else { GatheredApart(s, t, fs, id, pub); }
  }

  // ---------------------------------------------------------------- retained messages

  /** The time from `now` to `at` has `k` times 2^32 seconds and between `low` and `high` more, in nanoseconds. */
  predicate Within(k: nat, low: int, high: int, now: nat, at: nat) {
    k * 4_294_967_296_000_000_000 + low <= at - now < k * 4_294_967_296_000_000_000 + high
  }

  /** A message is kept if it has no expiry or a whole second is left; one with less is dropped. The count of
      seconds is cut to 32 bits, so that every 2^32 seconds there is a second in which it is dropped too early. */
  ghost predicate KeptByClock(at: nat, now: nat, kept: bool) {
    && (at == 0 ==> kept)
    && (at > 0 && at < now + 1_000_000_000 ==> !kept)
    && (at > 0 ==> forall k {:trigger Within(k, 0, 1_000_000_000, now, at)} :: Within(k, 0, 1_000_000_000, now, at) ==> !kept)
    && (forall k {:trigger Within(k, 1_000_000_000, 4_294_967_296_000_000_000, now, at)} ::
          Within(k, 1_000_000_000, 4_294_967_296_000_000_000, now, at) ==> kept)
  }

  /** Whatever the clock says, one of the two applies. */
  lemma ClockDecides(at: nat, now: nat) returns (k: nat)
    ensures at > now ==> Within(k, 0, 1_000_000_000, now, at) || Within(k, 1_000_000_000, 4_294_967_296_000_000_000, now, at)
  {
    k := if at > now then (at - now) / 4_294_967_296_000_000_000 else 0;
  }

  lemma SecondsLeft(d: nat, k: nat)
    requires k * 4_294_967_296_000_000_000 <= d < (k + 1) * 4_294_967_296_000_000_000
    ensures (d / SECOND) % 0x1_0000_0000 == (d - k * 4_294_967_296_000_000_000) / SECOND
  {
    var r := d - k * 4_294_967_296_000_000_000;
    assert d == k * 0x1_0000_0000 * SECOND + r;
    assert d / SECOND == k * 0x1_0000_0000 + r / SECOND;
    assert r / SECOND < 0x1_0000_0000;
  }

  lemma ExpiredByClock(m: Message, now: nat)
    ensures KeptByClock(m.expireAt, now, !Expired(m, now))
  {
    forall k | Within(k, 0, 1_000_000_000, now, m.expireAt) && m.expireAt > 0 ensures Expired(m, now) {
      if m.expireAt > now { SecondsLeft(m.expireAt - now, k); }
    }
    forall k | Within(k, 1_000_000_000, 4_294_967_296_000_000_000, now, m.expireAt) ensures !Expired(m, now) {
      SecondsLeft(m.expireAt - now, k);
    }
  }

  /** What a search for `f` makes of the retained messages `r`: it returns those of the topics `ts` and leaves
      `after`. */
  ghost predicate Searched(r: map<Path, Message>, f: Path, now: nat, ts: seq<Path>, after: map<Path, Message>) {
    && (forall t <- ts :: t in r && RetainedMatch(f, t))
    && (forall t :: t in after ==> t in r && after[t] == r[t])
    && (forall t | t in r && !RetainedMatch(f, t) :: t in after)
    && (forall t | t in r && RetainedMatch(f, t) :: (t in after <==> t in ts) && KeptByClock(r[t].expireAt, now, t in ts))
  }

  lemma SweptByClock(r: map<Path, Message>, f: Path, now: nat, ms: seq<Message>, ts: seq<Path>)
    requires RetainedAnswer(r, f, now, ms, ts)
    ensures Searched(r, f, now, ts, SweepMatching(r, f, now))
  {
    hide Expired, RetainedMatch, KeptByClock;
    forall t | t in r ensures KeptByClock(r[t].expireAt, now, !Expired(r[t], now)) {
      ExpiredByClock(r[t], now);
    }
  }

  // ---------------------------------------------------------------- subscribing

  /** Bits 4 and 5 of the options byte: the retained messages are sent always (0), to new subscriptions (1) or
      not at all. */
  predicate Greeted(b: nat, existed: bool) {
    (b / 16) % 4 == 0 || ((b / 16) % 4 == 1 && !existed)
  }

  function At(s: Flat, f: Path, id: SubscriberId): Option<Params> {
    if f in s.subs && id in s.subs[f] then Some(s.subs[f][id]) else None
  }

  /** Subscription by subscription: `id` now has `p` at `f`, and nothing else has changed. */
  ghost predicate Enrolled(s: Flat, t: Flat, f: Path, id: SubscriberId, p: Params) {
    At(t, f, id) == Some(p) && forall g: Path, k: SubscriberId {:trigger At(t, g, k)} | g != f || k != id :: At(t, g, k) == At(s, g, k)
  }

  lemma SubscribedIsEnrolled(s: Flat, f: Path, id: SubscriberId, p: Params, retained: map<Path, Message>)
    ensures Enrolled(s, FlatSubscribe(s, f, id, p).(retained := retained), f, id, p)
  {
    var m := SubsAt(s, f)[id := p];
    assert id in m && m != map[];
  }

  /** Only the subscriptions at `f`, of one client or of all, have gone. */
  ghost predicate Dropped(s: Flat, t: Flat, f: Path, who: Option<SubscriberId>) {
    && t.retained == s.retained
    && forall g: Path, k: SubscriberId {:trigger At(t, g, k)} :: At(t, g, k) == if g == f && (who.None? || who.value == k) then None else At(s, g, k)
  }

  lemma UnsubscribedIsDropped(s: Flat, f: Path, who: Option<SubscriberId>)
    ensures Dropped(s, FlatUnsubscribe(s, f, who), f, who)
  {
    var m := if who.Some? then SubsAt(s, f) - {who.value} else map[];
    assert forall k :: k in m <==> k in SubsAt(s, f) && who.Some? && k != who.value;
  }

  /** Only the topic of `m` has changed: it retains `m`, or nothing if `m` has no payload. */
  ghost predicate RetainsNow(s: Flat, t: Flat, m: Message) {
    && t.subs == s.subs
    && forall g :: (g in t.retained <==> if g == Split(m.topic) then m.payload != "" else g in s.retained)
                   && (g in t.retained ==> t.retained[g] == if g == Split(m.topic) then m else s.retained[g])
  }

  lemma RetainedNow(s: Flat, m: Message)
    ensures RetainsNow(s, FlatRetain(s, m), m)
  {
    hide Split;
  }
}
