/** Inbound delivery: a QoS 2 message is kept until the peer releases it. */
module Inbound {
  import opened Common
  import opened Wire
  import opened Properties
  import opened Packets
  import opened FlowControl
  import opened Delivery

  datatype In = In(
    pubIn: map<Id, Packet>,        // QoS 2 messages received and not released
    handed: seq<Packet>)           // messages handed over to the topics, in order

  datatype Arrival =
    | Published(p: Packet, refused: bool, denied: bool)  // refused before it is looked at; denied by access control
    | Released(id: Id)                                   // PUBREL

  /** onPublish. */
  function OnPublish(s: In, p: Packet, refused: bool, denied: bool): In {
    if refused || denied then s
    else if QoS(p.flags) == 2 then s.(pubIn := s.pubIn[PacketId(p) := p])
    else if QoS(p.flags) < 2 then s.(handed := s.handed + [p])
    else s
  }

  /** The PUBREL branch of onAck: ackQueue.release with onReleaseIn. */
  function OnPubrel(s: In, id: Id): In {
    if id in s.pubIn then s.(handed := s.handed + [s.pubIn[id]], pubIn := s.pubIn - {id}) else s
  }

  function Receive(s: In, a: Arrival): In {
    match a
    case Published(p, refused, denied) => OnPublish(s, p, refused, denied)
    case Released(id) => OnPubrel(s, id)
  }

  function ReceiveAll(s: In, arrivals: seq<Arrival>): In
    decreases |arrivals|
  {
    if arrivals == [] then s else ReceiveAll(Receive(s, arrivals[0]), arrivals[1..])
  }

  predicate Begins(s: In, a: Arrival, id: Id) {
    a.Published? && !a.refused && !a.denied && QoS(a.p.flags) == 2 && PacketId(a.p) == id && id !in s.pubIn
  }

  /** How many QoS 2 messages were accepted for `id` while no exchange was open for it. */
  function Exchanges(s: In, arrivals: seq<Arrival>, id: Id): nat
    decreases |arrivals|
  {
    if arrivals == [] then 0
    else (if Begins(s, arrivals[0], id) then 1 else 0) + Exchanges(Receive(s, arrivals[0]), arrivals[1..], id)
  }

  predicate IsFor(p: Packet, id: Id) {
    QoS(p.flags) == 2 && PacketId(p) == id
  }

  /** How many QoS 2 messages were handed over for `id`. */
  function HandedFor(ps: seq<Packet>, id: Id): nat {
    if ps == [] then 0 else (if IsFor(ps[|ps| - 1], id) then 1 else 0) + HandedFor(ps[..|ps| - 1], id)
  }

  function Pending(s: In, id: Id): nat {
    if id in s.pubIn then 1 else 0
  }

  predicate InRight(s: In) {
    forall id <- s.pubIn.Keys :: IsFor(s.pubIn[id], id)
  }

  lemma HandedSnoc(ps: seq<Packet>, p: Packet, id: Id)
    ensures HandedFor(ps + [p], id) == HandedFor(ps, id) + if IsFor(p, id) then 1 else 0
  {
    assert (ps + [p])[..|ps|] == ps;
  }

  lemma ReceiveBalances(s: In, a: Arrival, id: Id)
    requires InRight(s)
    ensures var t := Receive(s, a);
            && InRight(t)
            && HandedFor(t.handed, id) + Pending(t, id) == HandedFor(s.handed, id) + Pending(s, id) + if Begins(s, a, id) then 1 else 0
  {
    hide HandedFor;
    match a
    case Published(p, _, _) => HandedSnoc(s.handed, p, id);
    case Released(i) => if i in s.pubIn { HandedSnoc(s.handed, s.pubIn[i], id); }
  }

  /** For every interleaving of PUBLISH, its repetitions and PUBREL: the messages handed over and the ones
      still kept are together exactly the exchanges that were begun, so each is handed over at most once,
      and exactly once when it has been released. */
  lemma {:induction false} HandedExactlyOnce(s: In, arrivals: seq<Arrival>, id: Id)
    requires InRight(s)
    ensures var t := ReceiveAll(s, arrivals);
            && InRight(t)
            && HandedFor(t.handed, id) + Pending(t, id) == HandedFor(s.handed, id) + Pending(s, id) + Exchanges(s, arrivals, id)
    decreases |arrivals|
  {
    hide Receive, Begins, InRight, HandedFor, Pending;
    if arrivals != [] {
      ReceiveBalances(s, arrivals[0], id);
      HandedExactlyOnce(Receive(s, arrivals[0]), arrivals[1..], id);
    }
  }

  /** What is handed over on PUBREL is the message accepted last for that exchange. */
  lemma ReleaseHandsLatest(s: In, p: Packet, others: seq<Arrival>)
    requires QoS(p.flags) == 2
    requires forall a <- others :: a != Released(PacketId(p))
    requires forall a <- others :: a.Published? && !a.refused && !a.denied && QoS(a.p.flags) == 2 ==> PacketId(a.p) != PacketId(p)
    ensures var t := ReceiveAll(OnPublish(s, p, false, false), others);
            PacketId(p) in t.pubIn && OnPubrel(t, PacketId(p)).handed == t.handed + [p]
  {
    Undisturbed(OnPublish(s, p, false, false), PacketId(p), p, others);
  }

  lemma {:induction false} Undisturbed(s: In, id: Id, p: Packet, others: seq<Arrival>)
    requires id in s.pubIn && s.pubIn[id] == p
    requires forall a <- others :: a != Released(id)
    requires forall a <- others :: a.Published? && !a.refused && !a.denied && QoS(a.p.flags) == 2 ==> PacketId(a.p) != id
    ensures var t := ReceiveAll(s, others); id in t.pubIn && t.pubIn[id] == p
    decreases |others|
  {
    if others != [] {
      assert others[0] in others;
      assert forall a <- others[1..] :: a in others;
      Undisturbed(Receive(s, others[0]), id, p, others[1..]);
    }
  }

  // ---------------------------------------------------------------- by the history of arrivals

  predicate Accepted(a: Arrival) {
    a.Published? && !a.refused && !a.denied
  }

  /** Of QoS 0 or 1, by bits 1 and 2 of the flags. */
  predicate Low(p: Packet) {
    (p.flags / 2) % 4 <= 1
  }

  /** The messages of QoS 0 and 1 among `ps`, in order. */
  function LowOf(ps: seq<Packet>): seq<Packet> {
    if ps == [] then [] else LowOf(ps[..|ps| - 1]) + if Low(ps[|ps| - 1]) then [ps[|ps| - 1]] else []
  }

  /** The accepted messages of QoS 0 and 1, in the order of their arrival. */
  function LowArrived(arrivals: seq<Arrival>): seq<Packet>
    decreases |arrivals|
  {
    if arrivals == [] then []
    else (if Accepted(arrivals[0]) && Low(arrivals[0].p) then [arrivals[0].p] else []) + LowArrived(arrivals[1..])
  }

  lemma LowSnoc(ps: seq<Packet>, p: Packet)
    ensures LowOf(ps + [p]) == LowOf(ps) + if Low(p) then [p] else []
  {
    assert (ps + [p])[..|ps|] == ps;
  }

  lemma ReceiveLow(s: In, a: Arrival)
    requires InRight(s)
    ensures LowOf(Receive(s, a).handed) == LowOf(s.handed) + if Accepted(a) && Low(a.p) then [a.p] else []
  {
    hide LowOf;
    match a
    case Published(p, _, _) => LowSnoc(s.handed, p);
    case Released(id) => if id in s.pubIn { LowSnoc(s.handed, s.pubIn[id]); }
  }

  /** In every run of arrivals, the messages of QoS 0 and 1 that are handed over are exactly the accepted ones,
      each once, in the order in which they arrived. */
  lemma {:induction false} LowHandedAsArrived(s: In, arrivals: seq<Arrival>)
    requires InRight(s)
    ensures LowOf(ReceiveAll(s, arrivals).handed) == LowOf(s.handed) + LowArrived(arrivals)
    decreases |arrivals|
  {
    hide Receive, InRight, LowOf, Low;
    if arrivals != [] {
      var a := arrivals[0];
      ReceiveLow(s, a);
      ReceiveBalances(s, a, 0);
      LowHandedAsArrived(Receive(s, a), arrivals[1..]);
      var x := if Accepted(a) && Low(a.p) then [a.p] else [];
      assert LowOf(s.handed) + x + LowArrived(arrivals[1..]) == LowOf(s.handed) + (x + LowArrived(arrivals[1..]));
    }
  }

  /** The message kept for `id`: the last one of QoS 2 that was accepted for it and not released since. */
  function KeptBy(arrivals: seq<Arrival>, id: Id): Option<Packet> {
    if arrivals == [] then None
    else
      var a, before := arrivals[|arrivals| - 1], arrivals[..|arrivals| - 1];
      if a == Released(id) then None
      else if Accepted(a) && (a.p.flags / 2) % 4 == 2 && a.p.id.GetOr(0) == id then Some(a.p)
      else KeptBy(before, id)
  }

  /** What is handed over: messages of QoS 0 and 1 as they arrive, those of QoS 2 as they are released. */
  function HandedBy(arrivals: seq<Arrival>): seq<Packet> {
    if arrivals == [] then []
    else
      var a, before := arrivals[|arrivals| - 1], arrivals[..|arrivals| - 1];
      HandedBy(before) +
      match a
      case Published(p, _, _) => if Accepted(a) && Low(p) then [p] else []
      case Released(id) => if KeptBy(before, id).Some? then [KeptBy(before, id).value] else []
  }

  lemma {:induction false} ReceiveLast(s: In, arrivals: seq<Arrival>, a: Arrival)
    ensures ReceiveAll(s, arrivals + [a]) == Receive(ReceiveAll(s, arrivals), a)
    decreases |arrivals|
  {
    hide Receive;
    if arrivals == [] {
      assert arrivals + [a] == [a] && [a][1..] == [];
    } else {
      assert (arrivals + [a])[0] == arrivals[0] && (arrivals + [a])[1..] == arrivals[1..] + [a];
      ReceiveLast(Receive(s, arrivals[0]), arrivals[1..], a);
    }
  }

  /** From a fresh start, whatever arrives: what has been handed over and what is kept are what the history of
      arrivals says, message by message and in order. */
  lemma {:induction false} HistoryDecides(arrivals: seq<Arrival>)
    ensures var t := ReceiveAll(In(map[], []), arrivals);
            && t.handed == HandedBy(arrivals)
            && forall id: Id {:trigger KeptBy(arrivals, id)} {:trigger id in t.pubIn} ::
                 KeptBy(arrivals, id) == if id in t.pubIn then Some(t.pubIn[id]) else None
  {
    if arrivals != [] {
      var a, before := arrivals[|arrivals| - 1], arrivals[..|arrivals| - 1];
      assert arrivals == before + [a];
      HistoryDecides(before);
      ReceiveLast(In(map[], []), before, a);
      hide ReceiveAll;
    }
  }

  predicate Arrived(arrivals: seq<Arrival>, i: nat, p: Packet) {
    i < |arrivals| && Accepted(arrivals[i]) && arrivals[i].p == p
  }

  lemma {:induction false} KeptWasAccepted(arrivals: seq<Arrival>, id: Id) returns (i: nat)
    requires KeptBy(arrivals, id).Some?
    ensures Arrived(arrivals, i, KeptBy(arrivals, id).value)
  {
    var a, before := arrivals[|arrivals| - 1], arrivals[..|arrivals| - 1];
    if Accepted(a) && (a.p.flags / 2) % 4 == 2 && a.p.id.GetOr(0) == id {
      i := |arrivals| - 1;
    } else {
      i := KeptWasAccepted(before, id);
    }
  }

  /** A message that was refused or denied is never handed over: whatever is, was accepted. */
  lemma {:induction false} OnlyAccepted(arrivals: seq<Arrival>, p: Packet) returns (i: nat)
    requires p in HandedBy(arrivals)
    ensures Arrived(arrivals, i, p)
  {
    hide KeptBy;
    var a, before := arrivals[|arrivals| - 1], arrivals[..|arrivals| - 1];
    if p in HandedBy(before) {
      i := OnlyAccepted(before, p);
    } else if a.Published? {
      i := |arrivals| - 1;
    } else {
      i := KeptWasAccepted(before, a.id);
    }
  }
}
