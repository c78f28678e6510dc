/** Outbound delivery at QoS 1 and 2: a state machine whose steps are the connection's callbacks. */
module Delivery {
  import opened Common
  import opened Wire
  import opened Properties
  import opened Packets
  import opened FlowControl

  /** A message waiting for its turn, or a packet of an earlier connection that must be sent again. */
  datatype Queued = Fresh(p: Packet) | Unack(p: Packet)

  datatype Out = Out(
    version: byte,
    max: nat,                      // the quota negotiated for this connection
    quota: int, counter: nat, inUse: set<Id>, exceeded: bool,
    txQ: seq<Queued>,              // messages of QoS 1 and 2
    txG: seq<Packet>,              // everything else
    pubOut: map<Id, Packet>)       // sent and not acknowledged

  function PacketId(p: Packet): Id {
    p.id.GetOr(0)
  }

  function WithId(p: Packet, id: Id): Packet {
    p.(id := Some(id))
  }

  /** The flags with the duplicate bit set. */
  function WithDup(flags: byte): byte {
    if Dup(flags) then flags else flags + 8
  }

  function Pubrel(v: byte, id: Id): Packet {
    Packet(PUBREL, v, DefaultFlags(PUBREL), Some(id), NoProps, Ack(0))
  }

  predicate IsPublish(p: Packet) {
    p.t == PUBLISH && (QoS(p.flags) == 1 || QoS(p.flags) == 2)
  }

  predicate IsPubrel(p: Packet) {
    p.t == PUBREL
  }

  // ---------------------------------------------------------------- the steps

  /** qPopPacket: the packet to send, if any. */
  function Pop(s: Out): (Out, Option<Packet>) {
    if s.exceeded || s.txQ == [] then (s, None)
    else
      match s.txQ[0]
      case Fresh(p) =>
        var k := FirstFree(s.counter, s.inUse, 1);
        var id := Probe(s.counter, k);
        var sent := WithId(p, id);
        (s.(quota := s.quota - 1, counter := (s.counter + k) % CounterRange, inUse := s.inUse + {id},
            exceeded := s.quota - 1 == 0, txQ := s.txQ[1..], pubOut := s.pubOut[id := sent]), Some(sent))
      case Unack(p) => (s.(txQ := s.txQ[1..], pubOut := s.pubOut[PacketId(p) := p]), Some(p))
  }

  /** flowRelease, and signalQuota when quota is back from zero. */
  function Release(s: Out, id: Id): Out {
    s.(inUse := s.inUse - {id}, quota := s.quota + 1, exceeded := if s.quota + 1 == 1 then false else s.exceeded)
  }

  /** A PUBREC that version 5 lets the peer refuse the message with. */
  predicate Refusal(v: byte, reason: byte) {
    v == V50 && reason >= 0x80
  }

  /** PUBACK and PUBCOMP. */
  function OnFinished(s: Out, id: Id): Out {
    if id in s.pubOut then Release(s.(pubOut := s.pubOut - {id}), id) else s
  }

  /** PUBREC; it does not look whether the identifier is known. */
  function OnPubrec(s: Out, id: Id, reason: byte): Out {
    if Refusal(s.version, reason) then Release(s.(pubOut := s.pubOut - {id}), id)
    else s.(pubOut := s.pubOut[id := Pubrel(s.version, id)], txG := s.txG + [Pubrel(s.version, id)])
  }

  /** What a queued item is after the connection was closed and opened again. */
  function Saved(q: Queued): Queued {
    match q
    case Fresh(p) => Fresh(WithId(p, 0))
    case Unack(p) => if p.t == PUBLISH && QoS(p.flags) == 1 then Unack(p.(flags := WithDup(p.flags))) else q
  }

  function SavedAll(qs: seq<Queued>): seq<Queued> {
    seq(|qs|, i requires 0 <= i < |qs| => Saved(qs[i]))
  }

  function Unacked(pubOut: map<Id, Packet>, order: seq<Id>): seq<Queued>
    requires forall id <- order :: id in pubOut
  {
    seq(|order|, i requires 0 <= i < |order| => Saved(Unack(pubOut[order[i]])))
  }

  /** The messages of QoS 0 that wait among the control packets. */
  function Kept(txG: seq<Packet>): seq<Packet> {
    if txG == [] then [] else (if txG[0].t == PUBLISH then [txG[0]] else []) + Kept(txG[1..])
  }

  predicate Enumeration(order: seq<Id>, pubOut: map<Id, Packet>) {
    (forall id <- order :: id in pubOut) && (forall id <- pubOut.Keys :: id in order)
    && forall i, j | 0 <= i < j < |order| :: order[i] != order[j]
  }

  /** All that is saved for the message queue. */
  function SavedList(s: Out, order: seq<Id>): seq<Queued>
    requires forall id <- order :: id in s.pubOut
  {
    SavedAll(s.txQ) + Unacked(s.pubOut, order)
  }

  function With(q: Queued, p: Packet): Queued {
    if q.Fresh? then Fresh(p) else Unack(p)
  }

  function Relabelled(qs: seq<Queued>, back: seq<Packet>): seq<Queued>
    requires |back| == |qs|
  {
    seq(|qs|, i requires 0 <= i < |qs| => With(qs[i], back[i]))
  }

  /** What a packet that is saved and read in version `v` keeps in any case. */
  predicate ReadBack(v: byte, p: Packet, q: Packet) {
    && q.t == p.t && q.flags == p.flags && q.id == p.id && q.version == v
    && (q.t == PUBLISH ==> q.body.Publish?) && (q.t == PUBREL ==> q.body.Ack?)
  }

  predicate AllReadBack(v: byte, ps: seq<Queued>, back: seq<Packet>) {
    |back| == |ps| && forall i {:trigger back[i]} {:trigger ps[i]} | 0 <= i < |ps| :: ReadBack(v, ps[i].p, back[i])
  }

  predicate OthersReadBack(v: byte, ps: seq<Packet>, back: seq<Packet>) {
    |back| == |ps| && forall i {:trigger back[i]} {:trigger ps[i]} | 0 <= i < |ps| :: ReadBack(v, ps[i], back[i])
  }

  /** A new connection in version `v` with quota `n`: the order in which the unacknowledged packets happened
      to be saved, what the saved items of the message queue are read back as, and what the others are. */
  datatype Return = Return(order: seq<Id>, n: nat, v: byte, back: seq<Packet>, others: seq<Packet>)

  predicate Comes(s: Out, r: Return) {
    && Enumeration(r.order, s.pubOut) && |s.inUse| < r.n <= 65535 && |r.back| == |s.txQ| + |r.order|
    && AllReadBack(r.v, SavedList(s, r.order), r.back) && OthersReadBack(r.v, Kept(s.txG), r.others)
  }

  /** Closing the connection and opening a new one. */
  function Reopen(s: Out, r: Return): Out
    requires (forall id <- r.order :: id in s.pubOut) && |r.back| == |s.txQ| + |r.order|
  {
    Out(r.v, r.n, r.n - |s.inUse|, 0, s.inUse, false, Relabelled(SavedList(s, r.order), r.back), r.others, map[])
  }

  datatype Event =
    | Push(p: Packet)                                       // a message for the peer
    | PushG(p: Packet)                                      // a message of QoS 0 or a control packet for the peer
    | SendQ | SendG                                         // the transmitter takes a packet
    | Acked(t: PacketType, id: Id, reason: byte)            // the receiver gets an acknowledgement
    | Reconnect(r: Return)

  /** What can happen: the peer acknowledges with PUBREC only what was sent to it, and a new connection
      allows more than what is left unacknowledged. */
  predicate Enabled(s: Out, e: Event) {
    match e
    case Push(p) => IsPublish(p)
    case PushG(p) => p.t == PUBLISH ==> QoS(p.flags) == 0
    case SendQ => true
    case SendG => true
    case Acked(t, id, _) => t == PUBACK || t == PUBCOMP || (t == PUBREC && id in s.pubOut)
    case Reconnect(r) => Comes(s, r)
  }

  function Apply(s: Out, e: Event): Out
    requires Enabled(s, e)
  {
    match e
    case Push(p) => s.(txQ := s.txQ + [Fresh(p)])
    case PushG(p) => s.(txG := s.txG + [p])
    case SendQ => Pop(s).0
    case SendG => if s.txG == [] then s else s.(txG := s.txG[1..])
    case Acked(t, id, reason) => if t == PUBREC then OnPubrec(s, id, reason) else OnFinished(s, id)
    case Reconnect(r) => Reopen(s, r)
  }

  /** What goes out to the peer in a step. */
  function Emitted(s: Out, e: Event): Option<Packet> {
    match e
    case SendQ => Pop(s).1
    case SendG => if s.txG == [] then None else Some(s.txG[0])
    case _ => None
  }

  // ---------------------------------------------------------------- what every step keeps

  predicate Waits(q: seq<Queued>, i: int, id: Id) {
    0 <= i < |q| && q[i].Unack? && PacketId(q[i].p) == id
  }

  ghost predicate Waiting(q: seq<Queued>, id: Id) {
    exists i :: Waits(q, i, id)
  }

  predicate Numbered(p: Packet) {
    p.id.Some? && (IsPublish(p) || IsPubrel(p))
  }

  predicate QueueRight(q: seq<Queued>) {
    && (forall i {:trigger q[i]} | 0 <= i < |q| :: if q[i].Fresh? then IsPublish(q[i].p) else Numbered(q[i].p))
    && (forall i, j | 0 <= i < j < |q| && q[i].Unack? && q[j].Unack? :: PacketId(q[i].p) != PacketId(q[j].p))
  }

  predicate OutRight(pubOut: map<Id, Packet>) {
    forall id <- pubOut.Keys :: Numbered(pubOut[id]) && pubOut[id].id == Some(id)
  }

  /** The identifiers in use are those of the packets sent and not acknowledged and those of the packets
      waiting to be sent again, each of one packet only. */
  ghost predicate IdsRight(inUse: set<Id>, q: seq<Queued>, pubOut: map<Id, Packet>) {
    forall id: Id {:trigger Waiting(q, id)} {:trigger id in inUse} {:trigger id in pubOut} ::
      (id in inUse <==> id in pubOut || Waiting(q, id)) && !(id in pubOut && Waiting(q, id))
  }

  predicate QuotaRight(s: Out) {
    1 <= s.max <= 65535 && s.quota >= 0 && s.quota + |s.inUse| == s.max && (s.exceeded <==> s.quota == 0)
  }

  predicate OthersRight(txG: seq<Packet>) {
    forall i {:trigger txG[i]} | 0 <= i < |txG| :: txG[i].t == PUBLISH ==> QoS(txG[i].flags) == 0
  }

  ghost predicate Inv(s: Out) {
    QuotaRight(s) && QueueRight(s.txQ) && OutRight(s.pubOut) && OthersRight(s.txG) && IdsRight(s.inUse, s.txQ, s.pubOut)
  }

  lemma WaitingTail(q: seq<Queued>, id: Id)
    requires q != []
    ensures Waiting(q, id) <==> Waiting(q[1..], id) || Waits(q, 0, id)
  {
    if Waiting(q, id) {
      var i :| Waits(q, i, id);
      if i > 0 { assert Waits(q[1..], i - 1, id); }
    }
    if Waiting(q[1..], id) {
      var i :| Waits(q[1..], i, id);
      assert Waits(q, i + 1, id);
    }
  }

  lemma WaitingSnoc(q: seq<Queued>, x: Queued, id: Id)
    ensures Waiting(q + [x], id) <==> Waiting(q, id) || (x.Unack? && PacketId(x.p) == id)
  {
    if Waiting(q, id) {
      var i :| Waits(q, i, id);
      assert Waits(q + [x], i, id);
    }
    if x.Unack? && PacketId(x.p) == id { assert Waits(q + [x], |q|, id); }
    if Waiting(q + [x], id) {
      var i :| Waits(q + [x], i, id);
      if i < |q| { assert Waits(q, i, id); }
    }
  }

  lemma HeadWaitsAlone(q: seq<Queued>)
    requires q != [] && q[0].Unack? && QueueRight(q)
    ensures !Waiting(q[1..], PacketId(q[0].p))
  {
    var id := PacketId(q[0].p);
    assert forall i | 0 <= i < |q| - 1 :: q[1..][i] == q[i + 1] && (q[i + 1].Unack? ==> PacketId(q[i + 1].p) != id);
  }

  lemma TailRight(q: seq<Queued>)
    requires q != [] && QueueRight(q)
    ensures QueueRight(q[1..])
  {
    hide Numbered, IsPublish;
  }

  lemma PopFreshKeeps(s: Out)
    requires Inv(s) && !s.exceeded && s.txQ != [] && s.txQ[0].Fresh?
    ensures Inv(Pop(s).0)
    ensures Pop(s).1 == Some(WithId(s.txQ[0].p, PacketId(Pop(s).1.value))) && PacketId(Pop(s).1.value) !in s.inUse
  {
    hide QueueRight, OutRight, OthersRight, IdsRight, QuotaRight, WithId, FirstFree, Probe;
    HeadRight(s.txQ);
    TailRight(s.txQ);
    var id := PacketId(Pop(s).1.value);
    FreshTaken(s);
    TakenIdsRight(s, id, Pop(s).1.value);
    OutGrows(s.pubOut, id, Pop(s).1.value);
  }

  /** The identifier a fresh message gets, and the quota behind it. */
  lemma FreshTaken(s: Out)
    requires Inv(s) && !s.exceeded && s.txQ != [] && s.txQ[0].Fresh?
    ensures Pop(s).1.Some? && QuotaRight(Pop(s).0)
    ensures var (t, sent) := Pop(s);
            var id := PacketId(sent.value);
            && id !in s.inUse && sent == Some(WithId(s.txQ[0].p, id)) && Numbered(sent.value)
            && t.inUse == s.inUse + {id} && t.pubOut == s.pubOut[id := sent.value]
  {
    hide QueueRight, OutRight, OthersRight, IdsRight, Probe;
    HeadRight(s.txQ);
    FreeIdFound(s.counter, s.inUse);
  }

  /** The peer may finish any exchange at any time, known or not; what it may not do is confirm one with PUBREC
      that is not in flight. */
  lemma AckedExactlyIf(s: Out, t: PacketType, id: Id, reason: byte)
    ensures Enabled(s, Acked(t, id, reason)) <==> t in {PUBACK, PUBCOMP} || (t == PUBREC && id in s.pubOut)
  {
  }

  /** What goes out is the packet at the head of the queue, with the identifier it has or gets, and it is kept under
      that identifier; nothing goes out exactly if the queue is empty or the quota used up. */
  lemma PopSendsHead(s: Out)
    ensures Pop(s).1.None? <==> s.exceeded || s.txQ == []
    ensures var (t, sent) := Pop(s);
            if sent.None? then t == s
            else
              var p, id := s.txQ[0].p, sent.value.id.GetOr(0);
              && sent.value == (if s.txQ[0].Fresh? then p.(id := Some(id)) else p)
              && t.txQ == s.txQ[1..] && t.pubOut == s.pubOut[id := sent.value] && t.txG == s.txG
  {
  }

  /** The search for the next message goes on behind the identifier this one got. */
  lemma TurnGoesOn(s: Out)
    requires !s.exceeded && s.txQ != [] && s.txQ[0].Fresh?
    ensures var (t, sent) := Pop(s); t.counter < 0x1_0000_0000_0000_0000 && t.counter % 0x1_0000 == PacketId(sent.value)
  {
    CounterWraps(s.counter, FirstFree(s.counter, s.inUse, 1));
  }

  /** Exactly the messages of QoS 1 and 2 go to the message queue. */
  lemma PushedExactlyIf(s: Out, p: Packet)
    ensures Enabled(s, Push(p)) <==> p.t == PUBLISH && ((p.flags / 2) % 4 == 1 || (p.flags / 2) % 4 == 2)
    ensures Enabled(s, PushG(p)) <==> !(p.t == PUBLISH && (p.flags / 2) % 4 != 0)
  {
  }

  /** Taking an identifier for the packet sent keeps the identifiers in use those of the packets there are. */
  lemma TakenIdsRight(s: Out, id: Id, p: Packet)
    requires IdsRight(s.inUse, s.txQ, s.pubOut) && s.txQ != [] && s.txQ[0].Fresh? && id !in s.inUse
    ensures IdsRight(s.inUse + {id}, s.txQ[1..], s.pubOut[id := p])
  {
    forall id: Id ensures Waiting(s.txQ[1..], id) <==> Waiting(s.txQ, id) {
      WaitingTail(s.txQ, id);
    }
    hide Waiting;
  }

  /** What a PUBREC does to a packet in flight: in version 5 with a reason of 0x80 or more it frees the
      identifier and gives the quota back; otherwise the packet is replaced by a PUBREL, which goes out. */
  lemma PubrecExactly(s: Out, id: Id, reason: byte)
    requires id in s.pubOut && id in s.inUse
    ensures var t := OnPubrec(s, id, reason);
            var rel := Packet(PUBREL, s.version, 2, Some(id), NoProps, Ack(0));
            if s.version == 5 && reason >= 128
            then id !in t.pubOut && id !in t.inUse && t.inUse == s.inUse - {id} && t.quota == s.quota + 1 && t.txG == s.txG && t.txQ == s.txQ
            else t.pubOut == s.pubOut[id := rel] && t.inUse == s.inUse && t.quota == s.quota && t.txG == s.txG + [rel] && t.txQ == s.txQ
  {
  }

  lemma OutGrows(pubOut: map<Id, Packet>, id: Id, p: Packet)
    requires OutRight(pubOut) && Numbered(p) && PacketId(p) == id
    ensures OutRight(pubOut[id := p])
  {
    assert p.id == Some(id);
    hide Numbered;
  }

  lemma HeadRight(q: seq<Queued>)
    requires q != [] && QueueRight(q)
    ensures if q[0].Fresh? then IsPublish(q[0].p) else Numbered(q[0].p)
  {
  }

  lemma PopUnackKeeps(s: Out)
    requires Inv(s) && !s.exceeded && s.txQ != [] && s.txQ[0].Unack?
    ensures Inv(Pop(s).0)
  {
    hide QueueRight;
    var t := Pop(s).0;
    HeadRight(s.txQ);
    TailRight(s.txQ);
    HeadWaitsAlone(s.txQ);
    forall id: Id ensures Waiting(s.txQ, id) <==> Waiting(t.txQ, id) || id == PacketId(s.txQ[0].p) {
      WaitingTail(s.txQ, id);
    }
    hide Waiting;
  }

  lemma PopKeeps(s: Out)
    requires Inv(s)
    ensures Inv(Pop(s).0)
  {
    hide Inv, Pop;
    if s.exceeded || s.txQ == [] {
      PopNothing(s);
    } else if s.txQ[0].Fresh? {
      PopFreshKeeps(s);
    } else {
      PopUnackKeeps(s);
    }
  }

  lemma PopNothing(s: Out)
    requires s.exceeded || s.txQ == []
    ensures Pop(s) == (s, None)
  {
  }

  lemma PushKeeps(s: Out, p: Packet)
    requires Inv(s) && IsPublish(p)
    ensures Inv(s.(txQ := s.txQ + [Fresh(p)]))
  {
    hide IsPublish, Numbered;
    forall id: Id ensures Waiting(s.txQ + [Fresh(p)], id) <==> Waiting(s.txQ, id) {
      WaitingSnoc(s.txQ, Fresh(p), id);
    }
    hide Waiting;
  }

  lemma FinishedKeeps(s: Out, id: Id)
    requires Inv(s)
    ensures Inv(OnFinished(s, id))
  {
    hide Waiting, QueueRight, IsPublish, Numbered;
  }

  /** A PUBREC keeps the invariant exactly if it is for a packet that was sent and not acknowledged. */
  lemma PubrecKeepsExactlyIfKnown(s: Out, id: Id, reason: byte)
    requires Inv(s)
    ensures Inv(OnPubrec(s, id, reason)) <==> id in s.pubOut
  {
    hide Waiting, QueueRight;
    var t := OnPubrec(s, id, reason);
    if id !in s.pubOut {
      if Waiting(s.txQ, id) {
        assert id in s.inUse;
      } else if Refusal(s.version, reason) {
        assert t.inUse == s.inUse;
      }
    } else {
      assert |s.inUse - {id}| == |s.inUse| - 1;
    }
  }

  // ---------------------------------------------------------------- closing and opening again

  lemma SavedKeepsId(q: Queued)
    ensures Saved(q).Unack? <==> q.Unack?
    ensures q.Unack? ==> PacketId(Saved(q).p) == PacketId(q.p) && Saved(q).p.t == q.p.t
    ensures q.Unack? && Numbered(q.p) ==> Numbered(Saved(q).p)
    ensures q.Fresh? && IsPublish(q.p) ==> IsPublish(Saved(q).p)
  {
    if q.Unack? { DupKeepsQoS(q.p.flags); }
  }

  lemma DupKeepsQoS(flags: byte)
    ensures QoS(WithDup(flags)) == QoS(flags) && WithDup(flags) % 2 == flags % 2
    ensures flags < 16 ==> WithDup(flags) < 16 && Dup(WithDup(flags))
  {
    if !Dup(flags) {
      var f: int := flags;
      assert (f + 8) / 2 == f / 2 + 4 && (f + 8) / 8 == f / 8 + 1 && (f + 8) % 2 == f % 2;
    }
  }

  lemma ReadBackKeeps(v: byte, p: Packet, q: Packet)
    requires ReadBack(v, p, q)
    ensures PacketId(q) == PacketId(p) && (Numbered(p) ==> Numbered(q)) && (IsPublish(p) <==> IsPublish(q)) && (IsPubrel(p) <==> IsPubrel(q))
  {
  }

  /** The item of the old state an item of the reopened queue stands for. */
  function Origin(s: Out, order: seq<Id>, i: nat): Queued
    requires (forall id <- order :: id in s.pubOut) && i < |s.txQ| + |order|
  {
    if i < |s.txQ| then s.txQ[i] else Unack(s.pubOut[order[i - |s.txQ|]])
  }

  lemma SavedAt(s: Out, order: seq<Id>, i: nat)
    requires (forall id <- order :: id in s.pubOut) && i < |s.txQ| + |order|
    ensures |SavedList(s, order)| == |s.txQ| + |order| && SavedList(s, order)[i] == Saved(Origin(s, order, i))
  {
    hide Saved;
  }

  /** Which item of the reopened queue stands for which. */
  lemma ReopenedAt(s: Out, r: Return, i: nat)
    requires Comes(s, r) && i < |s.txQ| + |r.order|
    ensures var q, o := Reopen(s, r).txQ, Origin(s, r.order, i);
            && |q| == |r.back| == |s.txQ| + |r.order| && q[i] == With(Saved(o), r.back[i]) && ReadBack(r.v, Saved(o).p, r.back[i])
            && (q[i].Unack? <==> o.Unack?) && (o.Unack? ==> PacketId(q[i].p) == PacketId(o.p) && (IsPubrel(o.p) <==> IsPubrel(q[i].p)))
            && (o.Unack? && Numbered(o.p) ==> Numbered(q[i].p)) && (o.Fresh? && IsPublish(o.p) ==> IsPublish(q[i].p))
  {
    hide Saved, ReadBack, Numbered, IsPublish;
    SavedAt(s, r.order, i);
    var o := Origin(s, r.order, i);
    SavedKeepsId(o);
    ReadBackKeeps(r.v, Saved(o).p, r.back[i]);
  }

  lemma LengthReopened(s: Out, r: Return)
    requires Comes(s, r)
    ensures |Reopen(s, r).txQ| == |s.txQ| + |r.order|
  {
  }

  lemma ReopenedWaiting(s: Out, r: Return, id: Id)
    requires Comes(s, r) && OutRight(s.pubOut)
    ensures Waiting(Reopen(s, r).txQ, id) <==> id in s.pubOut || Waiting(s.txQ, id)
  {
    hide Saved, Reopen, Numbered, IsPublish, ReadBack, AllReadBack, OthersReadBack;
    var q := Reopen(s, r).txQ;
    LengthReopened(s, r);
    if i :| Waits(q, i, id) {
      ReopenedAt(s, r, i);
      if i < |s.txQ| { assert Waits(s.txQ, i, id); }
    }
    if i :| Waits(s.txQ, i, id) {
      ReopenedAt(s, r, i);
      assert Waits(q, i, id);
    }
    if id in s.pubOut {
      var j :| 0 <= j < |r.order| && r.order[j] == id;
      ReopenedAt(s, r, |s.txQ| + j);
      assert Waits(q, |s.txQ| + j, id);
    }
  }

  lemma ReopenedQueueRight(s: Out, r: Return)
    requires Inv(s) && Comes(s, r)
    ensures QueueRight(Reopen(s, r).txQ)
  {
    hide Saved, Reopen, Numbered, IsPublish, QuotaRight, ReadBack, AllReadBack, OthersReadBack;
    var q := Reopen(s, r).txQ;
    var m := |s.txQ| + |r.order|;
    LengthReopened(s, r);
    forall i | 0 <= i < m ensures if q[i].Fresh? then IsPublish(q[i].p) else Numbered(q[i].p) {
      ReopenedAt(s, r, i);
    }
    forall i, j | 0 <= i < j < m && q[i].Unack? && q[j].Unack? ensures PacketId(q[i].p) != PacketId(q[j].p) {
      ReopenedAt(s, r, i);
      ReopenedAt(s, r, j);
      OriginsDiffer(s, r.order, i, j);
    }
  }

  lemma OriginsDiffer(s: Out, order: seq<Id>, i: nat, j: nat)
    requires Inv(s) && Enumeration(order, s.pubOut) && i < j < |s.txQ| + |order|
    requires Origin(s, order, i).Unack? && Origin(s, order, j).Unack?
    ensures PacketId(Origin(s, order, i).p) != PacketId(Origin(s, order, j).p)
  {
    hide Numbered, IsPublish, QuotaRight;
    if i < |s.txQ| <= j {
      var id := PacketId(s.txQ[i].p);
      assert Waits(s.txQ, i, id) && Waiting(s.txQ, id);
    }
  }

  lemma {:induction false} KeptRight(txG: seq<Packet>)
    requires OthersRight(txG)
    ensures OthersRight(Kept(txG))
  {
    if txG != [] { KeptRight(txG[1..]); }
  }

  /** Closing and opening again, in whatever version and whatever the saved packets are read back as, keeps
      every identifier with its packet, so a new connection cannot give it to another one. */
  lemma ReopenKeeps(s: Out, r: Return)
    requires Inv(s) && Comes(s, r)
    ensures Inv(Reopen(s, r)) && Reopen(s, r).inUse == s.inUse
  {
    var t := Reopen(s, r);
    ReopenedQueueRight(s, r);
    KeptRight(s.txG);
    assert OthersRight(r.others);
    forall id: Id ensures Waiting(t.txQ, id) <==> id in s.pubOut || Waiting(s.txQ, id) {
      ReopenedWaiting(s, r, id);
    }
    hide QueueRight, SavedAll, Unacked, Waiting, Relabelled, SavedList, ReadBack, AllReadBack, OthersReadBack, Kept, OthersRight;
  }

  // ---------------------------------------------------------------- runs

  lemma ApplyKeeps(s: Out, e: Event)
    requires Inv(s) && Enabled(s, e)
    ensures Inv(Apply(s, e))
  {
    match e
    case Push(p) => PushKeeps(s, p);
    case PushG(p) => assert OthersRight(s.txG + [p]);
    case SendQ => PopKeeps(s);
    case SendG => assert s.txG != [] ==> OthersRight(s.txG[1..]);
    case Acked(t, id, reason) =>
      if t == PUBREC { PubrecKeepsExactlyIfKnown(s, id, reason); } else { FinishedKeeps(s, id); }
    case Reconnect(r) => ReopenKeeps(s, r);
  }

  ghost predicate AllEnabled(s: Out, es: seq<Event>)
    decreases |es|
  {
    es != [] ==> Enabled(s, es[0]) && AllEnabled(Apply(s, es[0]), es[1..])
  }

  function Run(s: Out, es: seq<Event>): Out
    requires AllEnabled(s, es)
    decreases |es|
  {
    if es == [] then s else Run(Apply(s, es[0]), es[1..])
  }

  function Opened(v: byte, n: nat): Out {
    Out(v, n, n, 0, {}, false, [], [], map[])
  }

  lemma {:induction false} RunKeeps(s: Out, es: seq<Event>)
    requires Inv(s) && AllEnabled(s, es)
    ensures Inv(Run(s, es))
    decreases |es|
  {
    hide Inv, Apply, Enabled;
    if es != [] {
      ApplyKeeps(s, es[0]);
      RunKeeps(Apply(s, es[0]), es[1..]);
    }
  }

  /** The packets of all unfinished exchanges. */
  ghost predicate Unfinished(s: Out, p: Packet) {
    (exists id :: id in s.pubOut && s.pubOut[id] == p) || Unack(p) in s.txQ
  }

  /** In every run, through any number of connections: two unfinished exchanges never share an identifier,
      their number and the quota make up the negotiated maximum, and a message that is sent gets an
      identifier no unfinished exchange has. */
  lemma NoSharedIds(v: byte, n: nat, es: seq<Event>)
    requires 1 <= n <= 65535 && AllEnabled(Opened(v, n), es)
    ensures var s := Run(Opened(v, n), es);
            && s.quota >= 0 && s.quota + |s.inUse| == s.max
            && (forall p, q | Unfinished(s, p) && Unfinished(s, q) && PacketId(p) == PacketId(q) :: p == q)
            && (forall p | Unfinished(s, p) :: PacketId(p) in s.inUse)
            && (!s.exceeded && s.txQ != [] && s.txQ[0].Fresh? ==>
                  forall p | Unfinished(s, p) :: PacketId(p) != PacketId(Pop(s).1.value))
  {
    var s := Run(Opened(v, n), es);
    OpenedRight(v, n);
    RunKeeps(Opened(v, n), es);
    SharedIdsApart(s);
    if !s.exceeded && s.txQ != [] && s.txQ[0].Fresh? { PopFreshKeeps(s); }
  }

  lemma OpenedRight(v: byte, n: nat)
    requires 1 <= n <= 65535
    ensures Inv(Opened(v, n))
  {
  }

  lemma UnfinishedInUse(s: Out, p: Packet)
    requires Inv(s) && Unfinished(s, p)
    ensures PacketId(p) in s.inUse
    ensures (PacketId(p) in s.pubOut && s.pubOut[PacketId(p)] == p) || exists i :: Waits(s.txQ, i, PacketId(p)) && s.txQ[i].p == p
  {
    hide QuotaRight, IsPublish;
    if Unack(p) in s.txQ {
      var i :| 0 <= i < |s.txQ| && s.txQ[i] == Unack(p);
      assert Waits(s.txQ, i, PacketId(p)) && Waiting(s.txQ, PacketId(p));
    } else {
      var id :| id in s.pubOut && s.pubOut[id] == p;
    }
  }

  lemma SharedIdsApart(s: Out)
    requires Inv(s)
    ensures forall p, q | Unfinished(s, p) && Unfinished(s, q) && PacketId(p) == PacketId(q) :: p == q
    ensures forall p | Unfinished(s, p) :: PacketId(p) in s.inUse
  {
    forall p | Unfinished(s, p) ensures PacketId(p) in s.inUse { UnfinishedInUse(s, p); }
    forall p, q | Unfinished(s, p) && Unfinished(s, q) && PacketId(p) == PacketId(q) ensures p == q {
      UnfinishedInUse(s, p);
      UnfinishedInUse(s, q);
      OneWaits(s, PacketId(p));
    }
  }

  lemma OneWaits(s: Out, id: Id)
    requires Inv(s)
    ensures forall i, j | Waits(s.txQ, i, id) && Waits(s.txQ, j, id) :: i == j
    ensures id in s.pubOut ==> forall i :: !Waits(s.txQ, i, id)
  {
    hide QuotaRight, IsPublish, Numbered;
    assert id in s.pubOut ==> !Waiting(s.txQ, id);
  }

  // ---------------------------------------------------------------- exactly once: PUBREL takes over

  /** The peer has confirmed the message of this exchange with PUBREC; only PUBREL is left to send. */
  ghost predicate Confirmed(s: Out, id: Id) {
    (id in s.pubOut && IsPubrel(s.pubOut[id])) || exists i :: Waits(s.txQ, i, id) && IsPubrel(s.txQ[i].p)
  }

  predicate Finishes(s: Out, e: Event, id: Id) {
    e.Acked? && e.id == id && (e.t != PUBREC || Refusal(s.version, e.reason))
  }

  lemma ConfirmedByPubrec(s: Out, id: Id, reason: byte)
    requires Inv(s) && !Refusal(s.version, reason)
    ensures var t := OnPubrec(s, id, reason);
            Confirmed(t, id) && t.pubOut[id].id == Some(id) && t.txG == s.txG + [t.pubOut[id]] && t.inUse == s.inUse && t.quota == s.quota
  {
    hide Inv;
  }

  lemma ConfirmedPop(s: Out, id: Id)
    requires Inv(s) && Confirmed(s, id)
    ensures Confirmed(Pop(s).0, id)
    ensures var p := Pop(s).1; p.Some? && p.value.id == Some(id) ==> IsPubrel(p.value)
  {
    if s.exceeded || s.txQ == [] {
      PopNothing(s);
    } else {
      OneWaits(s, id);
      ConfirmedInUse(s, id);
      if s.txQ[0].Fresh? {
        PopFreshKeeps(s);
      }
      hide Inv, IdsRight, QuotaRight, Probe;
      if !(id in s.pubOut && IsPubrel(s.pubOut[id])) {
        var i :| Waits(s.txQ, i, id) && IsPubrel(s.txQ[i].p);
        if i > 0 { assert Waits(s.txQ[1..], i - 1, id) && s.txQ[1..][i - 1] == s.txQ[i]; }
      }
      if s.txQ[0].Unack? && PacketId(s.txQ[0].p) == id { assert Waits(s.txQ, 0, id); }
    }
  }

  lemma ConfirmedInUse(s: Out, id: Id)
    requires Inv(s) && Confirmed(s, id)
    ensures id in s.inUse
  {
    if id !in s.pubOut {
      var i :| Waits(s.txQ, i, id) && IsPubrel(s.txQ[i].p);
      assert Waiting(s.txQ, id);
    }
  }

  lemma ConfirmedReopen(s: Out, id: Id, r: Return)
    requires Inv(s) && Confirmed(s, id) && Comes(s, r)
    ensures Confirmed(Reopen(s, r), id)
  {
    hide Saved, Reopen, QuotaRight, IsPublish, ReadBack, AllReadBack, OthersReadBack;
    var q := Reopen(s, r).txQ;
    LengthReopened(s, r);
    var i: nat;
    if id in s.pubOut && IsPubrel(s.pubOut[id]) {
      var j :| 0 <= j < |r.order| && r.order[j] == id;
      i := |s.txQ| + j;
    } else {
      i :| Waits(s.txQ, i, id) && IsPubrel(s.txQ[i].p);
    }
    ReopenedAt(s, r, i);
    assert Waits(q, i, id) && IsPubrel(q[i].p);
  }

  /** Whatever goes out for `id` from the message queue is PUBREL, and from the other queue no message
      that needs an identifier. */
  predicate PubrelAtMost(e: Event, p: Option<Packet>, id: Id) {
    p.Some? && p.value.id == Some(id) ==> (e.SendQ? ==> IsPubrel(p.value)) && !IsPublish(p.value)
  }

  lemma ConfirmedStays(s: Out, e: Event, id: Id)
    requires Inv(s) && Enabled(s, e) && Confirmed(s, id) && !Finishes(s, e, id)
    ensures Confirmed(Apply(s, e), id)
    ensures PubrelAtMost(e, Emitted(s, e), id)
  {
    match e
    case Push(p) =>
      if i :| Waits(s.txQ, i, id) && IsPubrel(s.txQ[i].p) {
        assert Waits(s.txQ + [Fresh(p)], i, id) && (s.txQ + [Fresh(p)])[i] == s.txQ[i];
      }
    case SendQ => ConfirmedPop(s, id);
    case Acked(t, i, reason) => ConfirmedAcked(s, t, i, reason, id);
    case Reconnect(r) => ConfirmedReopen(s, id, r);
    case _ =>
  }

  lemma ConfirmedAcked(s: Out, t: PacketType, i: Id, reason: byte, id: Id)
    requires Inv(s) && Confirmed(s, id) && Enabled(s, Acked(t, i, reason)) && !Finishes(s, Acked(t, i, reason), id)
    ensures Confirmed(Apply(s, Acked(t, i, reason)), id)
  {
    hide Inv;
    var s' := Apply(s, Acked(t, i, reason));
    assert s'.txQ == s.txQ;
  }

  /** In this run the message of `id` is not sent. */
  ghost predicate NoPublishSent(s: Out, es: seq<Event>, id: Id)
    requires AllEnabled(s, es)
    decreases |es|
  {
    es != [] ==>
      && PubrelAtMost(es[0], Emitted(s, es[0]), id)
      && NoPublishSent(Apply(s, es[0]), es[1..], id)
  }

  /** The run has no acknowledgement that ends the exchange. */
  ghost predicate Unended(s: Out, es: seq<Event>, id: Id)
    requires AllEnabled(s, es)
    decreases |es|
  {
    es != [] ==> !Finishes(s, es[0], id) && Unended(Apply(s, es[0]), es[1..], id)
  }

  /** Once a PUBREC without an error has been handled, whatever happens until the exchange ends, through
      any number of connections: the message is not sent again, and PUBREL stays to be sent or acknowledged. */
  lemma {:induction false} PubrelOnlyAfterPubrec(s: Out, es: seq<Event>, id: Id)
    requires Inv(s) && Confirmed(s, id) && AllEnabled(s, es) && Unended(s, es, id)
    ensures NoPublishSent(s, es, id) && Confirmed(Run(s, es), id)
    decreases |es|
  {
    hide Inv, Confirmed, Apply, Enabled, Finishes, Emitted, PubrelAtMost;
    if es != [] {
      ApplyKeeps(s, es[0]);
      ConfirmedStays(s, es[0], id);
      PubrelOnlyAfterPubrec(Apply(s, es[0]), es[1..], id);
    }
  }

  /** A new connection, place by place: the message queue as it was, each item new or unacknowledged as before and
      read back; behind it the packets in flight, now to be sent again; their identifiers taken from the new quota. */
  lemma ReopenedExactly(s: Out, r: Return)
    requires Comes(s, r)
    ensures var t, k := Reopen(s, r), |s.txQ|;
            && t.version == r.v && t.max == r.n && t.quota == r.n - |s.inUse| && t.inUse == s.inUse
            && !t.exceeded && t.counter == 0 && t.pubOut == map[] && t.txG == r.others && |t.txQ| == k + |r.order|
            && (forall i {:trigger t.txQ[i]} | 0 <= i < k :: t.txQ[i].Fresh? == s.txQ[i].Fresh? && t.txQ[i].p == r.back[i])
            && (forall i {:trigger t.txQ[i]} | k <= i < k + |r.order| ::
                  t.txQ[i] == Unack(r.back[i]) && r.back[i].id == s.pubOut[r.order[i - k]].id && r.back[i].t == s.pubOut[r.order[i - k]].t)
  {
    hide WithDup, WithId;
    var q := SavedList(s, r.order);
    forall i {:trigger q[i]} | 0 <= i < |q| ensures ReadBack(r.v, q[i].p, r.back[i]) {}
  }

  // ---------------------------------------------------------------- the other queue

  /** What a step adds to the other queue: what is pushed there, and the PUBREL that answers a PUBREC. */
  function Joined(s: Out, e: Event): seq<Packet> {
    match e
    case PushG(p) => [p]
    case Acked(PUBREC, id, reason) =>
      if s.version == 5 && reason >= 128 then [] else [Packet(PUBREL, s.version, 2, Some(id), NoProps, Ack(0))]
    case _ => []
  }

  /** What a step takes from it. */
  function Left(s: Out, e: Event): seq<Packet> {
    if e.SendG? && Emitted(s, e).Some? then [Emitted(s, e).value] else []
  }

  ghost function AllJoined(s: Out, es: seq<Event>): seq<Packet>
    requires AllEnabled(s, es)
    decreases |es|
  {
    if es == [] then [] else Joined(s, es[0]) + AllJoined(Apply(s, es[0]), es[1..])
  }

  ghost function AllLeft(s: Out, es: seq<Event>): seq<Packet>
    requires AllEnabled(s, es)
    decreases |es|
  {
    if es == [] then [] else Left(s, es[0]) + AllLeft(Apply(s, es[0]), es[1..])
  }

  lemma OthersStep(s: Out, e: Event)
    requires Enabled(s, e) && !e.Reconnect?
    ensures Left(s, e) + Apply(s, e).txG == s.txG + Joined(s, e)
  {
    hide Pop;
    if e.SendQ? { PopLeavesOthers(s); }
  }

  lemma PopLeavesOthers(s: Out)
    ensures Pop(s).0.txG == s.txG
  {
  }

  /** In every run on one connection, control packets and messages of QoS 0 go out once each, in the order in which
      they were queued: those sent and those still waiting are those that were there and those that joined. */
  lemma {:induction false} OthersInOrder(s: Out, es: seq<Event>)
    requires AllEnabled(s, es) && forall e <- es :: !e.Reconnect?
    ensures AllLeft(s, es) + Run(s, es).txG == s.txG + AllJoined(s, es)
    decreases |es|
  {
    hide Apply, Enabled, Left, Joined;
    if es == [] {
      assert s.txG + [] == s.txG && [] + s.txG == s.txG;
    } else {
      assert es[0] in es && forall e <- es[1..] :: e in es;
      OthersStep(s, es[0]);
      var t := Apply(s, es[0]);
      OthersInOrder(t, es[1..]);
      var a, b, c, d := Left(s, es[0]), AllLeft(t, es[1..]), Joined(s, es[0]), AllJoined(t, es[1..]);
      assert a + b + Run(t, es[1..]).txG == a + (b + Run(t, es[1..]).txG) == a + (t.txG + d);
      assert a + (t.txG + d) == (a + t.txG) + d == (s.txG + c) + d == s.txG + (c + d);
    }
  }
}
