/** Messages across connections, through the bytes they are saved as: when everything a connection holds
    survives, over whole runs. */
module Survival {
  import opened Common
  import opened Wire
  import opened Properties
  import opened PropertyForms
  import opened Packets
  import opened PacketRoundTrip
  import opened Versions
  import opened FlowControl
  import opened Delivery
  import opened Conservation
  import opened Persistence

  /** A packet that can be saved, read back and saved again. More than one subscription identifier does not
      last: its length is wrong once it has been read back. */
  ghost predicate Lasting(p: Packet) {
    Storable(p) && !Several(p.props.vals)
  }

  /** Everything that would be saved can be encoded, read back and encoded again. */
  ghost predicate Savable(s: Out) {
    && (forall i {:trigger s.txQ[i]} | 0 <= i < |s.txQ| :: Lasting(Saved(s.txQ[i]).p))
    && (forall i {:trigger s.txG[i]} | 0 <= i < |s.txG| :: s.txG[i].t == PUBLISH ==> Lasting(s.txG[i]))
    && (forall id {:trigger s.pubOut[id]} | id in s.pubOut :: Lasting(Saved(Unack(s.pubOut[id])).p))
    && Supported(s.version)
  }

  /** Some encoding of `p` is read in version `v` as `q`. */
  ghost predicate ReadsAs(v: byte, p: Packet, q: Packet) {
    exists order {:trigger PacketBytes(p, order)} | Encodes(p, order) && p.flags < 16 ::
      var buf := PacketBytes(p, order);
      buf != [] && Modelled(TypeOf(buf[0] / 16)) && Decode(v, buf).Ok? && Decode(v, buf).value.0 == q
  }

  ghost predicate ReturnsReal(v: byte, qs: seq<Queued>, back: seq<Packet>)
    requires |back| == |qs|
  {
    forall i {:trigger back[i]} {:trigger qs[i]} | 0 <= i < |qs| :: ReadsAs(v, qs[i].p, back[i]) && Legible(v, qs[i].p)
  }

  ghost predicate OthersReal(v: byte, ps: seq<Packet>, back: seq<Packet>)
    requires |back| == |ps|
  {
    forall i {:trigger back[i]} {:trigger ps[i]} | 0 <= i < |ps| :: ReadsAs(v, ps[i], back[i]) && Legible(v, ps[i])
  }

  /** What may happen: messages that come in can be encoded, in whatever version; a new connection reads back
      the bytes that were saved, and its version can read all of them. */
  ghost predicate Real(s: Out, e: Event)
    requires Enabled(s, e)
  {
    match e
    case Push(p) => Lasting(WithId(p, 0))
    case PushG(p) => p.t == PUBLISH ==> Lasting(p)
    case Reconnect(r) =>
      Supported(r.v) && ReturnsReal(r.v, SavedList(s, r.order), r.back) && OthersReal(r.v, Kept(s.txG), r.others)
    case _ => true
  }

  // ---------------------------------------------------------------- one packet

  lemma ReadsAsItself(v: byte, p: Packet, q: Packet)
    requires Storable(p) && Supported(v) && Legible(v, p) && ReadsAs(v, p, q)
    ensures q == AsReadIn(p, v)
  {
    hide Valid, Encodes, MessageBytes, Decode, PacketBytes, NormalMap;
    var order :| Encodes(p, order) && p.flags < 16 &&
      var buf := PacketBytes(p, order);
      buf != [] && Modelled(TypeOf(buf[0] / 16)) && Decode(v, buf).Ok? && Decode(v, buf).value.0 == q;
    if p.t == PUBLISH {
      SameMessageExactlyIfCompatible(p, v, order);
    } else {
      PubrelReads(p.version, v, PacketId(p), order);
      PubrelPlain(p.version, v, PacketId(p));
    }
  }

  lemma ValidWithAnyId(p: Packet, a: Id, b: Id)
    requires Valid(WithId(p, a)) && p.t == PUBLISH
    ensures Valid(WithId(p, b))
  {
    hide ValidTopic, HasAlias, Measured, WellFormed, NormalMap;
  }

  lemma ValidWithDup(p: Packet)
    requires Valid(p) && p.t == PUBLISH && QoS(p.flags) == 1
    ensures Valid(p.(flags := WithDup(p.flags)))
  {
    DupKeepsQoS(p.flags);
    hide ValidTopic, HasAlias, Measured, WellFormed, QoS, Dup, WithDup, BitsError, NormalMap;
  }

  lemma SentLasting(p: Packet, id: Id)
    requires Lasting(WithId(p, 0)) && p.t == PUBLISH
    ensures Lasting(Saved(Unack(WithId(p, id))).p)
  {
    ValidWithAnyId(p, 0, id);
    if QoS(p.flags) == 1 { ValidWithDup(WithId(p, id)); }
    hide Valid, QoS, WithDup, Several;
  }

  lemma PubrelLasting(v: byte, id: Id)
    requires Supported(v)
    ensures Lasting(Pubrel(v, id)) && Saved(Unack(Pubrel(v, id))) == Unack(Pubrel(v, id))
  {
  }

  /** A message that has been read back can be saved again. */
  lemma ReadLasting(p: Packet, v: byte)
    requires Lasting(p) && Supported(v) && Legible(v, p)
    ensures Lasting(AsReadIn(p, v))
  {
    if p.t == PUBLISH {
      ValidIsPublish(p);
      if v == V50 { ReadValidFive(p); } else { ReadValidOther(p, v); }
      NormalNotSeveral(p.props.vals);
    } else {
      PubrelPlain(p.version, v, PacketId(p));
      PubrelLasting(v, PacketId(p));
    }
  }

  lemma NormalNotSeveral(vals: Values)
    ensures !Several(NormalMap(vals))
  {
    if SubscriptionIdentifier in NormalMap(vals) { NormalItems(SubscriptionIdentifier, vals[SubscriptionIdentifier]); }
  }

  lemma ReadValidFive(p: Packet)
    requires Valid(p) && ValidPublish(p) && p.version == V50 && !Several(p.props.vals)
    ensures Valid(AsRead(p)) && AsReadIn(p, V50) == AsRead(p)
  {
    NormalWellFormed(PUBLISH, p.props.vals);
    NormalMeasuredExactlyIf(PUBLISH, p.props.vals, p.props.len);
    NormalTwice(p.props.vals);
    hide ValidTopic, HasAlias, Measured, WellFormed, QoS, Dup, NormalMap, Several;
    var q := AsRead(p);
    assert ValidProps(q) && MessageLen(q) == MessageLen(p);
    assert ValidPublish(q);
  }

  lemma ReadValidOther(p: Packet, v: byte)
    requires Valid(p) && ValidPublish(p) && p.version != V50 && v != V50 && Supported(v) && Supported(p.version)
    ensures Valid(AsReadIn(p, v))
  {
    NoPropsNormal(p);
    hide ValidTopic, HasAlias, Measured, WellFormed, QoS, Dup, NormalMap;
    var q := AsReadIn(p, v);
    assert q == p.(version := v);
    assert ValidProps(q) && MessageLen(q) == MessageLen(p);
    assert ValidPublish(q);
  }

  // ---------------------------------------------------------------- steps

  lemma PopSavable(s: Out)
    requires Savable(s) && Delivery.Inv(s)
    ensures Savable(Pop(s).0)
  {
    hide Lasting, Probe, FirstFree;
    if !s.exceeded && s.txQ != [] {
      HeadRight(s.txQ);
      var q := s.txQ[0];
      if q.Fresh? { SentLasting(q.p, Probe(s.counter, FirstFree(s.counter, s.inUse, 1))); }
    }
  }

  lemma {:induction false} KeptLasting(txG: seq<Packet>)
    requires forall i {:trigger txG[i]} | 0 <= i < |txG| :: txG[i].t == PUBLISH ==> Lasting(txG[i])
    ensures forall i {:trigger Kept(txG)[i]} | 0 <= i < |Kept(txG)| :: Lasting(Kept(txG)[i]) && Kept(txG)[i].t == PUBLISH
  {
    hide Lasting;
    if txG != [] { KeptLasting(txG[1..]); }
  }

  /** Everything saved in the message queue lasts. */
  lemma SavedLasting(s: Out, order: seq<Id>)
    requires Savable(s) && forall id <- order :: id in s.pubOut
    ensures var qs := SavedList(s, order); forall i {:trigger qs[i]} | 0 <= i < |qs| :: Lasting(qs[i].p) && Saved(qs[i]) == qs[i]
  {
    hide Lasting, Saved, SavedList;
    var qs := SavedList(s, order);
    SavedLength(s, order);
    forall i | 0 <= i < |qs| ensures Lasting(qs[i].p) && Saved(qs[i]) == qs[i] {
      SavedAt(s, order, i);
      SavedOnce(Origin(s, order, i));
    }
  }

  lemma SavedLength(s: Out, order: seq<Id>)
    requires forall id <- order :: id in s.pubOut
    ensures |SavedList(s, order)| == |s.txQ| + |order|
  {
  }

  /** A real new connection reads back every message as it was saved. */
  lemma RealIsIntact(s: Out, r: Return)
    requires Savable(s) && Comes(s, r) && Real(s, Reconnect(r))
    ensures AllIntact(SavedList(s, r.order), r.back)
    ensures forall i {:trigger r.back[i]} | 0 <= i < |r.back| :: r.back[i] == AsReadIn(SavedList(s, r.order)[i].p, r.v)
    ensures forall i {:trigger r.others[i]} | 0 <= i < |r.others| :: r.others[i] == AsReadIn(Kept(s.txG)[i], r.v)
  {
    SavedLasting(s, r.order);
    KeptLasting(s.txG);
    var qs, ps := SavedList(s, r.order), Kept(s.txG);
    hide Storable, ReadsAs, Legible, ReadBack, NormalMap, SavedList, Kept, Several;
    forall i | 0 <= i < |qs| ensures r.back[i] == AsReadIn(qs[i].p, r.v) && Intact(qs[i].p, r.back[i]) {
      ReadsAsItself(r.v, qs[i].p, r.back[i]);
    }
    forall i | 0 <= i < |ps| ensures r.others[i] == AsReadIn(ps[i], r.v) {
      ReadsAsItself(r.v, ps[i], r.others[i]);
    }
  }

  lemma SavedReadAgain(q: Queued, v: byte)
    requires Saved(q) == q
    ensures Saved(With(q, AsReadIn(q.p, v))) == With(q, AsReadIn(q.p, v))
  {
    hide NormalMap;
  }

  lemma ReopenSavable(s: Out, r: Return)
    requires Savable(s) && Comes(s, r) && Real(s, Reconnect(r))
    ensures Savable(Reopen(s, r))
  {
    RealIsIntact(s, r);
    SavedLasting(s, r.order);
    KeptLasting(s.txG);
    var qs, t := SavedList(s, r.order), Reopen(s, r);
    forall i | 0 <= i < |qs| ensures t.txQ[i] == With(qs[i], AsReadIn(qs[i].p, r.v)) && Lasting(Saved(t.txQ[i]).p) {
      assert t.txQ[i] == With(qs[i], r.back[i]);
      assert Legible(r.v, qs[i].p);
      hide Lasting, Saved, AsReadIn, Legible, ReadsAs, SavedList;
      SavedReadAgain(qs[i], r.v);
      ReadLasting(qs[i].p, r.v);
    }
    forall i | 0 <= i < |t.txG| ensures Lasting(t.txG[i]) {
      assert Legible(r.v, Kept(s.txG)[i]);
      hide Lasting, AsReadIn, Legible, ReadsAs, Kept;
      ReadLasting(Kept(s.txG)[i], r.v);
    }
  }

  /** As long as the messages that come in can be encoded and new connections can read what was saved,
      whatever the connection holds can be saved and read back, step after step. */
  lemma StaysSavable(s: Out, e: Event)
    requires Delivery.Inv(s) && Savable(s) && Enabled(s, e) && Real(s, e)
    ensures Savable(Apply(s, e)) && IntactStep(s, e)
  {
    hide Lasting, Delivery.Inv, Pop, Reopen, Intact, ReadsAs, Legible, Comes;
    match e
    case Push(p) =>
    case PushG(p) =>
    case SendQ => PopSavable(s); PopVersion(s);
    case SendG =>
    case Acked(t, id, reason) => PubrelLasting(s.version, id);
    case Reconnect(r) =>
      RealIsIntact(s, r);
      ReopenSavable(s, r);
  }

  lemma PopVersion(s: Out)
    ensures Pop(s).0.version == s.version
  {
  }

  // ---------------------------------------------------------------- runs

  ghost predicate RealRun(s: Out, es: seq<Event>)
    requires AllEnabled(s, es)
    decreases |es|
  {
    es != [] ==> Real(s, es[0]) && RealRun(Apply(s, es[0]), es[1..])
  }

  /** Over every real run everything held stays savable, and every new connection reads back what the old one
      saved. */
  lemma {:induction false} RunStaysSavable(s: Out, es: seq<Event>)
    requires Delivery.Inv(s) && Savable(s) && AllEnabled(s, es) && RealRun(s, es)
    ensures Savable(Run(s, es)) && IntactRun(s, es)
    decreases |es|
  {
    hide Delivery.Inv, Savable, Apply, Enabled, Real, IntactStep;
    if es != [] {
      StaysSavable(s, es[0]);
      ApplyKeeps(s, es[0]);
      RunStaysSavable(Apply(s, es[0]), es[1..]);
    }
  }

  /** In every real run, through any number of connections and the bytes saved between them: each message is,
      as often as it was pushed, still held or settled by the peer, and messages are first sent in the order
      they were pushed. */
  lemma MessagesSurvive(s: Out, es: seq<Event>, c: Content)
    requires Delivery.Inv(s) && Savable(s) && AllEnabled(s, es) && RealRun(s, es)
    ensures Held(Run(s, es), c) + Settled(s, es, c) == Held(s, c) + Pushed(es, c)
    ensures SentFirst(s, es) + Unsent(Run(s, es).txQ) == Unsent(s.txQ) + PushedAll(es)
  {
    hide Delivery.Inv, Savable, RealRun, IntactRun, Held, Settled, Pushed, SentFirst, Unsent, PushedAll, Run;
    RunStaysSavable(s, es);
    EveryMessageAccountedFor(s, es, c);
    SentInOrder(s, es);
  }

  // ---------------------------------------------------------------- a run in which a message does not survive

  const Damaged := Packet(PUBLISH, V50, 2, Some(0), NoProps, Publish([0x61], []))

  function DamagingRun(n: nat): seq<Event> {
    [Push(Sample), Reconnect(Return([], n, V50, [Damaged], []))]
  }

  lemma DamagedEnabled(n: nat)
    requires 1 <= n <= 65535
    ensures var s := Opened(V50, n); var es := DamagingRun(n); var one := s.(txQ := [Fresh(Sample)]);
            && Enabled(s, es[0]) && Apply(s, es[0]) == one
            && Enabled(one, es[1]) && Apply(one, es[1]) == s.(txQ := [Fresh(Damaged)])
  {
    var s := Opened(V50, n);
    var one := s.(txQ := [Fresh(Sample)]);
    var r := Return([], n, V50, [Damaged], []);
    assert s.txQ + [Fresh(Sample)] == one.txQ;
    assert Saved(Fresh(Sample)) == Fresh(Sample);
    assert SavedList(one, []) == [Fresh(Sample)];
    assert Kept(one.txG) == [];
    assert Comes(one, r);
    assert Relabelled([Fresh(Sample)], [Damaged]) == [Fresh(Damaged)];
  }

  lemma TwoSteps(s: Out, es: seq<Event>, one: Out, two: Out, c: Content)
    requires |es| == 2 && Enabled(s, es[0]) && Apply(s, es[0]) == one && Enabled(one, es[1]) && Apply(one, es[1]) == two
    ensures AllEnabled(s, es) && Run(s, es) == two
    ensures Pushed(es, c) == One(Pushes(es[0], c)) + One(Pushes(es[1], c))
    ensures Settled(s, es, c) == One(Settles(s, es[0], c)) + One(Settles(one, es[1], c))
  {
    hide Enabled, Apply, Pushes, Settles, One;
    var last := es[1..];
    assert last[0] == es[1] && last[1..] == [];
    assert AllEnabled(two, []) && Run(two, []) == two && Settled(two, [], c) == 0 && Pushed([], c) == 0;
    assert AllEnabled(one, last) && Run(one, last) == two;
    assert Settled(one, last, c) == One(Settles(one, es[1], c)) + 0;
    assert Pushed(last, c) == One(Pushes(es[1], c)) + 0;
  }

  /** A 3.1.1 message pushed on a version 5 connection, which saves it as it is and reads it again: it comes
      back without its payload, neither held nor settled any more. */
  lemma MessageDamaged(n: nat)
    requires 1 <= n <= 65535
    ensures var s := Opened(V50, n); var es := DamagingRun(n); var c := ContentOf(Sample);
            && AllEnabled(s, es) && Lasting(Sample) && ReadsAs(V50, Sample, Damaged) && !Legible(V50, Sample)
            && Pushed(es, c) == 1 && Settled(s, es, c) == 0 && Held(s, c) == 0 && Held(Run(s, es), c) == 0
            && Run(s, es).txQ == [Fresh(Damaged)]
  {
    var s, es, c := Opened(V50, n), DamagingRun(n), ContentOf(Sample);
    var one, two := s.(txQ := [Fresh(Sample)]), s.(txQ := [Fresh(Damaged)]);
    SampleLasts();
    SampleReads();
    DamagedEnabled(n);
    DamagedCounts(n);
    hide ReadsAs, Enabled, Apply, NormalMap, Lasting, Held, Run, AllEnabled, Pushed, Settled, QoS;
    TwoSteps(s, es, one, two, c);
  }

  lemma SampleReads()
    ensures ReadsAs(V50, Sample, Damaged)
  {
    SampleDamaged();
    hide Valid, Encodes, Decode, PacketBytes;
    var buf := PacketBytes(Sample, []);
    assert Encodes(Sample, []);
  }

  lemma SampleLasts()
    ensures Lasting(Sample)
  {
    SampleValid();
  }

  lemma DamagedCounts(n: nat)
    ensures var s := Opened(V50, n); var c := ContentOf(Sample);
            Held(s, c) == 0 && Held(s.(txQ := [Fresh(Damaged)]), c) == 0
  {
    var s, c := Opened(V50, n), ContentOf(Sample);
    assert Flying(map[], c) == {};
    OneQueued(Fresh(Damaged), c);
    assert Damaged.body.payload == [] && Sample.body.payload == [0];
    assert !Carries(Damaged, c);
  }
}
