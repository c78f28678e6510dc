/** No message is lost or repeated on its way out: what was pushed is queued, in flight or settled. */
module Conservation {
  import opened Common
  import opened Wire
  import opened Properties
  import opened PropertyForms
  import opened Packets
  import opened FlowControl
  import opened Delivery

  /** What makes a message the same message under any identifier, sent once or again: its topic and payload,
      its properties in normal form and its QoS. */
  datatype Content = Content(body: Body, vals: Values, qos: nat)

  function ContentOf(p: Packet): Content {
    Content(p.body, NormalMap(p.props.vals), QoS(p.flags))
  }

  /** A message to the peer, and not a PUBREL that has taken its place. */
  predicate Carries(p: Packet, c: Content) {
    p.t == PUBLISH && c == ContentOf(p)
  }

  /** The message is read back as it was saved. */
  predicate Intact(p: Packet, q: Packet) {
    p.t == PUBLISH ==> q.body == p.body && q.props.vals == NormalMap(p.props.vals)
  }

  predicate AllIntact(qs: seq<Queued>, back: seq<Packet>)
    requires |back| == |qs|
  {
    forall i {:trigger back[i]} {:trigger qs[i]} | 0 <= i < |qs| :: Intact(qs[i].p, back[i])
  }

  /** A new connection reads back what the old one saved. */
  predicate IntactStep(s: Out, e: Event)
    requires Enabled(s, e)
  {
    e.Reconnect? ==> AllIntact(SavedList(s, e.r.order), e.r.back)
  }

  function One(b: bool): nat {
    if b then 1 else 0
  }

  /** How often the queue holds `c`. */
  function InQueue(q: seq<Queued>, c: Content): nat {
    if q == [] then 0 else One(Carries(q[0].p, c)) + InQueue(q[1..], c)
  }

  /** Under which identifiers `c` is in flight. */
  function Flying(pubOut: map<Id, Packet>, c: Content): set<Id> {
    set id | id in pubOut && Carries(pubOut[id], c)
  }

  function Held(s: Out, c: Content): nat {
    InQueue(s.txQ, c) + |Flying(s.pubOut, c)|
  }

  /** The peer has settled a message with this event: taken it over with PUBREC or acknowledged it. */
  predicate Settles(s: Out, e: Event, c: Content) {
    e.Acked? && e.id in s.pubOut && Carries(s.pubOut[e.id], c)
  }

  predicate Pushes(e: Event, c: Content) {
    e.Push? && Carries(e.p, c)
  }

  lemma {:induction false} InQueueConcat(a: seq<Queued>, b: seq<Queued>, c: Content)
    ensures InQueue(a + b, c) == InQueue(a, c) + InQueue(b, c)
  {
    if a == [] {
      assert a + b == b;
    } else {
      assert (a + b)[0] == a[0] && (a + b)[1..] == a[1..] + b;
      InQueueConcat(a[1..], b, c);
    }
  }

  lemma OneQueued(x: Queued, c: Content)
    ensures InQueue([x], c) == One(Carries(x.p, c))
  {
    assert [x][1..] == [];
  }

  lemma FlyingPlus(pubOut: map<Id, Packet>, id: Id, p: Packet, c: Content)
    requires id !in pubOut
    ensures |Flying(pubOut[id := p], c)| == |Flying(pubOut, c)| + One(Carries(p, c))
  {
    hide Carries;
    var before, after := Flying(pubOut, c), Flying(pubOut[id := p], c);
    assert after == if Carries(p, c) then before + {id} else before;
  }

  lemma FlyingMinus(pubOut: map<Id, Packet>, id: Id, c: Content)
    requires id in pubOut
    ensures |Flying(pubOut, c)| == |Flying(pubOut - {id}, c)| + One(Carries(pubOut[id], c))
  {
    assert (pubOut - {id})[id := pubOut[id]] == pubOut;
    FlyingPlus(pubOut - {id}, id, pubOut[id], c);
  }

  lemma SendConserves(s: Out, c: Content)
    requires Inv(s)
    ensures Held(Pop(s).0, c) == Held(s, c)
  {
    if !s.exceeded && s.txQ != [] {
      hide Carries, Probe;
      var q := s.txQ[0];
      if q.Fresh? {
        PopFreshKeeps(s);
        var sent := Pop(s).1.value;
        SameContent(q.p, PacketId(sent), c);
        FlyingPlus(s.pubOut, PacketId(sent), sent, c);
      } else {
        assert Waits(s.txQ, 0, PacketId(q.p)) && Waiting(s.txQ, PacketId(q.p));
        FlyingPlus(s.pubOut, PacketId(q.p), q.p, c);
      }
    }
  }

  lemma SameContent(p: Packet, id: Id, c: Content)
    ensures Carries(WithId(p, id), c) <==> Carries(p, c)
  {
  }

  lemma SavedSameContent(q: Queued, c: Content)
    ensures Carries(Saved(q).p, c) <==> Carries(q.p, c)
  {
    if q.Unack? { DupKeepsQoS(q.p.flags); }
  }

  lemma {:induction false} SavedQueue(q: seq<Queued>, c: Content)
    ensures InQueue(SavedAll(q), c) == InQueue(q, c)
  {
    hide Saved, Carries;
    if q != [] {
      assert SavedAll(q)[1..] == SavedAll(q[1..]);
      SavedSameContent(q[0], c);
      SavedQueue(q[1..], c);
    }
  }

  /** The first of the unacknowledged packets, and the others without it. */
  lemma UnackedFirst(pubOut: map<Id, Packet>, order: seq<Id>)
    requires order != [] && (forall i {:trigger order[i]} | 0 <= i < |order| :: order[i] in pubOut)
    requires forall i, j | 0 <= i < j < |order| :: order[i] != order[j]
    ensures forall i {:trigger order[1..][i]} | 0 <= i < |order[1..]| :: order[1..][i] in pubOut - {order[0]}
    ensures Unacked(pubOut, order) == [Saved(Unack(pubOut[order[0]]))] + Unacked(pubOut - {order[0]}, order[1..])
  {
    hide Saved;
  }

  lemma {:induction false} UnackedQueue(pubOut: map<Id, Packet>, order: seq<Id>, c: Content)
    requires forall i {:trigger order[i]} | 0 <= i < |order| :: order[i] in pubOut
    requires forall i, j | 0 <= i < j < |order| :: order[i] != order[j]
    requires forall id :: id in pubOut ==> id in order
    ensures InQueue(Unacked(pubOut, order), c) == |Flying(pubOut, c)|
    decreases |order|
  {
    hide Saved, Carries, Unacked;
    if order == [] {
      NoneFlying(pubOut, c);
    } else {
      hide Flying;
      var id, rest := order[0], order[1..];
      assert order == [id] + rest;
      FlyingMinus(pubOut, id, c);
      UnackedFirst(pubOut, order);
      UnackedQueue(pubOut - {id}, rest, c);
      SavedSameContent(Unack(pubOut[id]), c);
    }
  }

  lemma NoneFlying(pubOut: map<Id, Packet>, c: Content)
    requires forall id :: id !in pubOut
    ensures Flying(pubOut, c) == {} && InQueue(Unacked(pubOut, []), c) == 0
  {
  }

  lemma IntactContent(v: byte, p: Packet, q: Packet, c: Content)
    requires ReadBack(v, p, q) && Intact(p, q)
    ensures Carries(q, c) <==> Carries(p, c)
    ensures p.t == PUBLISH ==> ContentOf(q) == ContentOf(p)
  {
    NormalTwice(p.props.vals);
    hide NormalMap;
  }

  lemma {:induction false} RelabelledQueue(v: byte, qs: seq<Queued>, back: seq<Packet>, c: Content)
    requires AllReadBack(v, qs, back) && AllIntact(qs, back)
    ensures InQueue(Relabelled(qs, back), c) == InQueue(qs, c)
    decreases |qs|
  {
    hide ReadBack, Intact, Carries;
    if qs != [] {
      assert Relabelled(qs, back)[1..] == Relabelled(qs[1..], back[1..]);
      IntactContent(v, qs[0].p, back[0], c);
      RelabelledQueue(v, qs[1..], back[1..], c);
    }
  }

  lemma ReopenConserves(s: Out, r: Return, c: Content)
    requires Comes(s, r) && AllIntact(SavedList(s, r.order), r.back)
    ensures Held(Reopen(s, r), c) == Held(s, c)
  {
    hide Saved, SavedAll, Unacked, Carries, ReadBack, Intact, Relabelled, AllReadBack, OthersReadBack;
    var order := r.order;
    assert forall i {:trigger order[i]} | 0 <= i < |order| :: order[i] in order;
    RelabelledQueue(r.v, SavedList(s, order), r.back, c);
    SavedQueue(s.txQ, c);
    UnackedQueue(s.pubOut, order, c);
    InQueueConcat(SavedAll(s.txQ), Unacked(s.pubOut, order), c);
    assert Flying(map[], c) == {};
  }

  lemma AckConserves(s: Out, t: PacketType, id: Id, reason: byte, c: Content)
    requires Enabled(s, Acked(t, id, reason))
    ensures Held(Apply(s, Acked(t, id, reason)), c) + One(Settles(s, Acked(t, id, reason), c)) == Held(s, c)
  {
    hide InQueue;
    if id in s.pubOut {
      FlyingMinus(s.pubOut, id, c);
      if t == PUBREC && !Refusal(s.version, reason) {
        var p := Pubrel(s.version, id);
        FlyingPlus(s.pubOut - {id}, id, p, c);
        assert (s.pubOut - {id})[id := p] == s.pubOut[id := p];
      }
    }
  }

  /** Each step keeps every message, adds the one that is pushed and lets go only of one that is settled, as
      long as a new connection reads back what the old one saved. */
  lemma StepConserves(s: Out, e: Event, c: Content)
    requires Inv(s) && Enabled(s, e) && IntactStep(s, e)
    ensures Held(Apply(s, e), c) + One(Settles(s, e, c)) == Held(s, c) + One(Pushes(e, c))
  {
    hide Inv, Pop, Reopen, Carries, Flying;
    match e
    case Push(p) =>
      InQueueConcat(s.txQ, [Fresh(p)], c);
      OneQueued(Fresh(p), c);
    case PushG(_) =>
    case SendQ => SendConserves(s, c);
    case SendG =>
    case Acked(t, id, reason) => AckConserves(s, t, id, reason, c);
    case Reconnect(r) => ReopenConserves(s, r, c);
  }

  function Pushed(es: seq<Event>, c: Content): nat {
    if es == [] then 0 else One(Pushes(es[0], c)) + Pushed(es[1..], c)
  }

  ghost function Settled(s: Out, es: seq<Event>, c: Content): nat
    requires AllEnabled(s, es)
    decreases |es|
  {
    if es == [] then 0 else One(Settles(s, es[0], c)) + Settled(Apply(s, es[0]), es[1..], c)
  }

  ghost predicate IntactRun(s: Out, es: seq<Event>)
    requires AllEnabled(s, es)
    decreases |es|
  {
    es != [] ==> IntactStep(s, es[0]) && IntactRun(Apply(s, es[0]), es[1..])
  }

  /** In every run, through any number of connections that read back what was saved, of every message: as
      often as it was pushed, it is still queued or in flight, or the peer has settled it. */
  lemma {:induction false} EveryMessageAccountedFor(s: Out, es: seq<Event>, c: Content)
    requires Inv(s) && AllEnabled(s, es) && IntactRun(s, es)
    ensures Held(Run(s, es), c) + Settled(s, es, c) == Held(s, c) + Pushed(es, c)
    decreases |es|
  {
    hide Inv, Apply, Enabled, Held, Settles, Pushes, One, IntactStep;
    if es != [] {
      ApplyKeeps(s, es[0]);
      StepConserves(s, es[0], c);
      EveryMessageAccountedFor(Apply(s, es[0]), es[1..], c);
    }
  }

  // ---------------------------------------------------------------- order

  /** The messages that have not been sent yet, in order. */
  function Unsent(q: seq<Queued>): seq<Content> {
    if q == [] then [] else (if q[0].Fresh? then [ContentOf(q[0].p)] else []) + Unsent(q[1..])
  }

  /** The message this event sends for the first time. */
  function FirstSent(s: Out, e: Event): seq<Content> {
    if e.SendQ? && s.txQ != [] && s.txQ[0].Fresh? && Pop(s).1.Some? then [ContentOf(Pop(s).1.value)] else []
  }

  function PushedNow(e: Event): seq<Content> {
    if e.Push? then [ContentOf(e.p)] else []
  }

  lemma {:induction false} UnsentConcat(a: seq<Queued>, b: seq<Queued>)
    ensures Unsent(a + b) == Unsent(a) + Unsent(b)
  {
    hide ContentOf;
    if a == [] {
      assert a + b == b;
    } else {
      assert (a + b)[0] == a[0] && (a + b)[1..] == a[1..] + b;
      UnsentConcat(a[1..], b);
    }
  }

  lemma {:induction false} SavedUnsent(q: seq<Queued>)
    ensures Unsent(SavedAll(q)) == Unsent(q)
  {
    if q != [] {
      assert SavedAll(q)[1..] == SavedAll(q[1..]);
      SavedUnsent(q[1..]);
    }
  }

  lemma {:induction false} NoneUnsent(q: seq<Queued>)
    requires forall i {:trigger q[i]} | 0 <= i < |q| :: q[i].Unack?
    ensures Unsent(q) == []
  {
    if q != [] { NoneUnsent(q[1..]); }
  }

  lemma {:induction false} RelabelledUnsent(v: byte, qs: seq<Queued>, back: seq<Packet>)
    requires AllReadBack(v, qs, back) && AllIntact(qs, back) && (forall i {:trigger qs[i]} | 0 <= i < |qs| :: qs[i].Fresh? ==> qs[i].p.t == PUBLISH)
    ensures Unsent(Relabelled(qs, back)) == Unsent(qs)
    decreases |qs|
  {
    hide ReadBack, Intact, ContentOf;
    if qs != [] {
      assert Relabelled(qs, back)[1..] == Relabelled(qs[1..], back[1..]);
      IntactContent(v, qs[0].p, back[0], ContentOf(qs[0].p));
      RelabelledUnsent(v, qs[1..], back[1..]);
    }
  }

  lemma ReopenInOrder(s: Out, r: Return)
    requires Comes(s, r) && AllIntact(SavedList(s, r.order), r.back) && QueueRight(s.txQ)
    ensures Unsent(Reopen(s, r).txQ) == Unsent(s.txQ)
  {
    hide SavedAll, Unacked, Kept, Saved, ReadBack, Intact, ContentOf, AllReadBack, OthersReadBack;
    var a, b := SavedAll(s.txQ), Unacked(s.pubOut, r.order);
    FreshArePublish(s, r.order);
    RelabelledUnsent(r.v, SavedList(s, r.order), r.back);
    UnackedAgain(s.pubOut, r.order);
    SavedUnsent(s.txQ);
    NoneUnsent(b);
    UnsentConcat(a, b);
    assert Unsent(a) + [] == Unsent(a);
  }

  lemma FreshArePublish(s: Out, order: seq<Id>)
    requires (forall id <- order :: id in s.pubOut) && QueueRight(s.txQ)
    ensures var qs := SavedList(s, order); forall i {:trigger qs[i]} | 0 <= i < |qs| :: qs[i].Fresh? ==> qs[i].p.t == PUBLISH
  {
  }

  lemma StepInOrder(s: Out, e: Event)
    requires Enabled(s, e) && IntactStep(s, e) && QueueRight(s.txQ)
    ensures FirstSent(s, e) + Unsent(Apply(s, e).txQ) == Unsent(s.txQ) + PushedNow(e)
  {
    hide FirstFree, Probe, SavedAll, Unacked, Kept, Reopen, NormalMap, QueueRight;
    match e
    case Push(p) =>
      UnsentConcat(s.txQ, [Fresh(p)]);
      assert [Fresh(p)][1..] == [];
    case Reconnect(r) =>
      ReopenInOrder(s, r);
      assert [] + Unsent(s.txQ) == Unsent(s.txQ) && Unsent(s.txQ) + [] == Unsent(s.txQ);
    case _ =>
  }

  lemma UnackedAgain(pubOut: map<Id, Packet>, order: seq<Id>)
    requires forall id <- order :: id in pubOut
    ensures forall i {:trigger Unacked(pubOut, order)[i]} | 0 <= i < |Unacked(pubOut, order)| :: Unacked(pubOut, order)[i].Unack?
  {
  }

  function PushedAll(es: seq<Event>): seq<Content> {
    if es == [] then [] else PushedNow(es[0]) + PushedAll(es[1..])
  }

  ghost function SentFirst(s: Out, es: seq<Event>): seq<Content>
    requires AllEnabled(s, es)
    decreases |es|
  {
    if es == [] then [] else FirstSent(s, es[0]) + SentFirst(Apply(s, es[0]), es[1..])
  }

  /** In every run, through any number of connections that read back what was saved, messages are sent for
      the first time in the order in which they were pushed: those sent and those still unsent make up those
      pushed. */
  lemma {:induction false} SentInOrder(s: Out, es: seq<Event>)
    requires Inv(s) && AllEnabled(s, es) && IntactRun(s, es)
    ensures SentFirst(s, es) + Unsent(Run(s, es).txQ) == Unsent(s.txQ) + PushedAll(es)
    decreases |es|
  {
    hide Apply, Enabled, FirstSent, Unsent, PushedNow, IntactStep, QuotaRight, OutRight, OthersRight, IdsRight, QueueRight;
    if es != [] {
      var t, rest := Apply(s, es[0]), es[1..];
      ApplyKeeps(s, es[0]);
      var a, b, c := FirstSent(s, es[0]), SentFirst(t, rest), Unsent(Run(t, rest).txQ);
      StepInOrder(s, es[0]);
      SentInOrder(t, rest);
      assert (a + b) + c == a + (b + c);
      assert a + (Unsent(t.txQ) + PushedAll(rest)) == (a + Unsent(t.txQ)) + PushedAll(rest);
      assert (Unsent(s.txQ) + PushedNow(es[0])) + PushedAll(rest) == Unsent(s.txQ) + (PushedNow(es[0]) + PushedAll(rest));
    }
  }
}
