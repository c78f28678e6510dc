/** What survives a connection: the queues and the unacknowledged packets, saved as encoded packets and
    read back by the next connection. */
module Persistence {
  import opened Common
  import opened Wire
  import opened Properties
  import opened Packets
  import opened PacketRoundTrip
  import opened Versions
  import opened FlowControl
  import opened Delivery

  datatype Record = Record(data: bytes, unack: bool)

  // ---------------------------------------------------------------- saving

  function AsFresh(ps: seq<Packet>): seq<Queued> {
    seq(|ps|, i requires 0 <= i < |ps| => Fresh(ps[i]))
  }

  /** What is saved, in order: the message queue, the QoS 0 messages, the unacknowledged packets. */
  function SavedItems(s: Out, order: seq<Id>): seq<Queued>
    requires forall id <- order :: id in s.pubOut
  {
    SavedAll(s.txQ) + AsFresh(Kept(s.txG)) + Unacked(s.pubOut, order)
  }

  /** `rec` is an encoding of `q`, for some order of its properties. */
  ghost predicate Stores(rec: Record, q: Queued) {
    rec.unack == q.Unack? && q.p.flags < 16 && exists order :: Encodes(q.p, order) && rec.data == PacketBytes(q.p, order)
  }

  ghost predicate StoresAll(recs: seq<Record>, qs: seq<Queued>) {
    |recs| == |qs| && forall i {:trigger recs[i]} {:trigger qs[i]} | 0 <= i < |qs| :: Stores(recs[i], qs[i])
  }

  /** A packet that can be encoded, in whatever version it was made: a message, or the PUBREL that has taken
      its place. */
  ghost predicate Storable(p: Packet) {
    Supported(p.version) && ((p.t == PUBLISH && Valid(p)) || p == Pubrel(p.version, PacketId(p)))
  }

  ghost predicate AllStorable(qs: seq<Queued>) {
    forall i {:trigger qs[i]} | 0 <= i < |qs| :: Storable(qs[i].p)
  }

  // ---------------------------------------------------------------- loading

  function ReAcquire(s: Out, id: Id): Out {
    s.(quota := s.quota - 1, inUse := s.inUse + {id})
  }

  /** What one record adds to a connection that is being opened. */
  function LoadOne(s: Out, p: Packet, unack: bool): Out {
    if unack then
      var t := if p.body.Publish? || p.body.Ack? then ReAcquire(s, PacketId(p)) else s;
      t.(txQ := t.txQ + [Unack(p)])
    else if !p.body.Publish? then s
    else if QoS(p.flags) == 0 then s.(txG := s.txG + [p])
    else s.(txQ := s.txQ + [Fresh(p)])
  }

  function Load(decode: bytes -> Result<Packet>, s: Out, recs: seq<Record>): Result<Out>
    decreases |recs|
  {
    if recs == [] then Ok(s)
    else
      var p :- decode(recs[0].data);
      Load(decode, LoadOne(s, p, recs[0].unack), recs[1..])
  }

  function LoadItems(s: Out, qs: seq<Queued>): Out
    decreases |qs|
  {
    if qs == [] then s else LoadItems(LoadOne(s, qs[0].p, qs[0].Unack?), qs[1..])
  }

  lemma DecodeAgrees(v: byte, decode: bytes -> Result<Packet>, b: bytes)
    requires DecodesFor(v, decode) && b != [] && Modelled(TypeOf(b[0] / 16))
    ensures decode(b) == match Decode(v, b) case Ok((p, _)) => Ok(p) case Err(e) => Err(e)
  {
    hide Decode;
  }

  lemma PubrelValid(v: byte, id: Id)
    ensures Valid(Pubrel(v, id)) && Encodes(Pubrel(v, id), [])
    ensures forall order | Encodes(Pubrel(v, id), order) :: MessageBytes(Pubrel(v, id), order) == U16(id)
  {
    var p := Pubrel(v, id);
    NothingMeasured();
    VarLenSteps(0);
    assert ValidAck(p) && MessageLen(p) == 2;
    assert ValidProps(p);
  }

  /** A PUBREL reads back in every version. */
  lemma PubrelReads(a: byte, v: byte, id: Id, order: seq<PropertyId>)
    requires Encodes(Pubrel(a, id), order)
    ensures var buf := PacketBytes(Pubrel(a, id), order);
            buf != [] && Modelled(TypeOf(buf[0] / 16)) && Decode(v, buf).Ok? && Decode(v, buf).value.0 == Pubrel(v, id)
  {
    var p := Pubrel(a, id);
    PubrelValid(a, id);
    hide Valid, MessageBytes, Encodes, Decode, PacketBytes, TakeId;
    PubrelLen(a, id);
    HeaderRoundTrip(p, v, order, []);
    assert PacketBytes(p, order) + [] == PacketBytes(p, order) && U16(id) + [] == U16(id);
    IdRoundTrip(id, []);
  }

  lemma PubrelLen(v: byte, id: Id)
    ensures MessageLen(Pubrel(v, id)) == 2
  {
    VarLenSteps(0);
  }

  /** What a saved packet is read back as in version `v`: a message as the same message exactly if its version
      is compatible, and in any case with its topic, flags and identifier; a PUBREL always. */
  lemma StoredReads(v: byte, decode: bytes -> Result<Packet>, rec: Record, q: Queued)
    requires DecodesFor(v, decode) && Stores(rec, q) && Storable(q.p) && Supported(v)
    ensures var r := decode(rec.data);
            && rec.unack == q.Unack?
            && (r.Ok? ==> ReadBack(v, q.p, r.value))
            && (q.p.t == PUBREL || Compatible(q.p.version, v) ==> r == Ok(AsReadIn(q.p, v)))
            && (q.p.t == PUBLISH && !Compatible(q.p.version, v) ==> r.Err? || r.value.body != q.p.body)
  {
    hide Valid, Encodes, MessageBytes, Decode, PacketBytes, DecodesFor, NormalMap;
    var order :| Encodes(q.p, order) && rec.data == PacketBytes(q.p, order);
    if q.p.t == PUBLISH {
      SameMessageExactlyIfCompatible(q.p, v, order);
    } else {
      PubrelReads(q.p.version, v, PacketId(q.p), order);
      PubrelPlain(q.p.version, v, PacketId(q.p));
    }
    DecodeAgrees(v, decode, rec.data);
  }

  lemma PubrelPlain(a: byte, v: byte, id: Id)
    ensures AsReadIn(Pubrel(a, id), v) == Pubrel(v, id)
  {
    assert NormalMap(map[]) == map[];
  }

  /** The records, read one after the other, give these packets. */
  predicate Gives(decode: bytes -> Result<Packet>, recs: seq<Record>, qs: seq<Queued>) {
    |recs| == |qs| && forall i {:trigger recs[i]} {:trigger qs[i]} | 0 <= i < |qs| ::
      decode(recs[i].data) == Ok(qs[i].p) && recs[i].unack == qs[i].Unack?
  }

  lemma {:induction false} LoadDecodes(decode: bytes -> Result<Packet>, s: Out, recs: seq<Record>, qs: seq<Queued>)
    requires Gives(decode, recs, qs)
    ensures Load(decode, s, recs) == Ok(LoadItems(s, qs))
    decreases |recs|
  {
    hide LoadOne;
    if recs != [] {
      LoadDecodes(decode, LoadOne(s, qs[0].p, qs[0].Unack?), recs[1..], qs[1..]);
    }
  }

  // ---------------------------------------------------------------- what loading adds up to

  /** An item that goes back to the message queue. */
  predicate ForQ(q: Queued) {
    q.Unack? || QoS(q.p.flags) != 0
  }

  predicate Loadable(q: Queued) {
    if q.Unack? then q.p.body.Publish? || q.p.body.Ack? else q.p.body.Publish?
  }

  predicate AllLoadable(qs: seq<Queued>) {
    forall i {:trigger qs[i]} | 0 <= i < |qs| :: Loadable(qs[i])
  }

  predicate AllForQ(qs: seq<Queued>) {
    forall i {:trigger qs[i]} | 0 <= i < |qs| :: ForQ(qs[i])
  }

  /** Loading items for the message queue: they are appended, and each unacknowledged one takes its
      identifier and one from the quota. */
  lemma {:induction false} LoadQueue(s: Out, qs: seq<Queued>)
    requires AllLoadable(qs) && AllForQ(qs)
    requires forall i, j | 0 <= i < j < |qs| && qs[i].Unack? && qs[j].Unack? :: PacketId(qs[i].p) != PacketId(qs[j].p)
    requires forall id <- s.inUse :: !Waiting(qs, id)
    ensures var t := LoadItems(s, qs);
            && t == s.(txQ := s.txQ + qs, quota := t.quota, inUse := t.inUse)
            && t.quota + |t.inUse| == s.quota + |s.inUse|
            && forall id: Id :: id in t.inUse <==> id in s.inUse || Waiting(qs, id)
    decreases |qs|
  {
    if qs == [] {
      assert s.txQ + qs == s.txQ;
      forall id: Id ensures !Waiting(qs, id) {}
    } else {
      hide ForQ, QoS;
      var q, more := qs[0], qs[1..];
      var s1 := LoadOne(s, q.p, q.Unack?);
      forall id: Id ensures Waiting(qs, id) <==> Waiting(more, id) || (q.Unack? && PacketId(q.p) == id) {
        WaitingTail(qs, id);
      }
      LoadFirst(s, q);
      FirstAlone(qs);
      hide Waiting, LoadOne, Loadable;
      LoadQueue(s1, more);
      assert s.txQ + [q] + more == s.txQ + qs;
    }
  }

  lemma FirstAlone(qs: seq<Queued>)
    requires qs != []
    requires forall i, j | 0 <= i < j < |qs| && qs[i].Unack? && qs[j].Unack? :: PacketId(qs[i].p) != PacketId(qs[j].p)
    ensures qs[0].Unack? ==> !Waiting(qs[1..], PacketId(qs[0].p))
  {
    if qs[0].Unack? {
      var id := PacketId(qs[0].p);
      assert forall i | 0 <= i < |qs| - 1 :: qs[1..][i] == qs[i + 1] && (qs[i + 1].Unack? ==> PacketId(qs[i + 1].p) != id);
    }
  }

  lemma LoadFirst(s: Out, q: Queued)
    requires Loadable(q) && ForQ(q) && (q.Unack? ==> PacketId(q.p) !in s.inUse)
    ensures var t := LoadOne(s, q.p, q.Unack?);
            && t == s.(txQ := s.txQ + [q], quota := t.quota, inUse := t.inUse) && t.quota + |t.inUse| == s.quota + |s.inUse|
            && t.inUse == s.inUse + if q.Unack? then {PacketId(q.p)} else {}
  {
  }

  lemma {:induction false} LoadOthers(s: Out, ps: seq<Packet>)
    requires forall i {:trigger ps[i]} | 0 <= i < |ps| :: ps[i].body.Publish? && QoS(ps[i].flags) == 0
    ensures LoadItems(s, AsFresh(ps)) == s.(txG := s.txG + ps)
    decreases |ps|
  {
    if ps == [] {
      assert s.txG + ps == s.txG;
    } else {
      hide QoS;
      assert AsFresh(ps)[1..] == AsFresh(ps[1..]);
      LoadOthers(s.(txG := s.txG + [ps[0]]), ps[1..]);
      assert s.txG + [ps[0]] + ps[1..] == s.txG + ps;
    }
  }

  lemma {:induction false} LoadConcat(s: Out, a: seq<Queued>, b: seq<Queued>)
    ensures LoadItems(s, a + b) == LoadItems(LoadItems(s, a), b)
    decreases |a|
  {
    hide LoadOne;
    if a == [] {
      assert a + b == b;
    } else {
      assert (a + b)[0] == a[0] && (a + b)[1..] == a[1..] + b;
      LoadConcat(LoadOne(s, a[0].p, a[0].Unack?), a[1..], b);
    }
  }

  // ---------------------------------------------------------------- loading undoes saving

  lemma {:induction false} KeptPublishes(txG: seq<Packet>)
    requires OthersRight(txG)
    ensures forall i {:trigger Kept(txG)[i]} | 0 <= i < |Kept(txG)| :: Kept(txG)[i].t == PUBLISH && QoS(Kept(txG)[i].flags) == 0
  {
    hide QoS;
    if txG != [] {
      assert OthersRight(txG[1..]);
      KeptPublishes(txG[1..]);
    }
  }

  lemma QueueLoadable(s: Out, r: Return)
    requires Inv(s) && Comes(s, r)
    ensures AllLoadable(Reopen(s, r).txQ) && AllForQ(Reopen(s, r).txQ)
  {
    ReopenedQueueRight(s, r);
    LengthReopened(s, r);
    var q := Reopen(s, r).txQ;
    hide Inv, Reopen, QueueRight, AllReadBack, OthersReadBack;
    forall i | 0 <= i < |q| ensures Loadable(q[i]) && ForQ(q[i]) {
      ReopenedAt(s, r, i);
      QueueAt(q, i);
    }
  }

  lemma QueueAt(q: seq<Queued>, i: nat)
    requires QueueRight(q) && i < |q|
    ensures if q[i].Fresh? then IsPublish(q[i].p) else Numbered(q[i].p)
  {
  }

  /** The QoS 0 messages stand in the middle, but go to the other queue. */
  lemma {:induction false} OthersAside(s: Out, ps: seq<Packet>, b: seq<Queued>)
    requires forall i {:trigger ps[i]} | 0 <= i < |ps| :: ps[i].body.Publish? && QoS(ps[i].flags) == 0
    ensures LoadItems(s, AsFresh(ps) + b) == LoadItems(s.(txG := s.txG + ps), b)
  {
    LoadConcat(s, AsFresh(ps), b);
    LoadOthers(s, ps);
  }

  lemma {:induction false} OthersUntouched(s: Out, b: seq<Queued>, ps: seq<Packet>)
    requires AllLoadable(b) && AllForQ(b)
    ensures LoadItems(s.(txG := ps), b) == LoadItems(s, b).(txG := ps)
    decreases |b|
  {
    if b != [] {
      hide QoS;
      assert AllLoadable(b[1..]) && AllForQ(b[1..]) && Loadable(b[0]) && ForQ(b[0]);
      OthersUntouched(LoadOne(s, b[0].p, b[0].Unack?), b[1..], ps);
    }
  }

  /** What loading goes through: the saved items in the order they were saved, as they are read back. */
  function ReadItems(s: Out, r: Return): seq<Queued>
    requires Comes(s, r)
  {
    var k := |s.txQ|;
    Relabelled(SavedAll(s.txQ), r.back[..k]) + AsFresh(r.others) + Relabelled(Unacked(s.pubOut, r.order), r.back[k..])
  }

  /** Opening a connection with what an earlier one saved gives every message and every unacknowledged
      packet back as it is read: the message queue in its old order, the unacknowledged packets behind it,
      each of them with its identifier taken and one from the new quota. */
  lemma LoadIsReopen(decode: bytes -> Result<Packet>, s: Out, r: Return, recs: seq<Record>)
    requires Inv(s) && Comes(s, r) && Gives(decode, recs, ReadItems(s, r))
    ensures Load(decode, Opened(r.v, r.n), recs) == Ok(Reopen(s, r))
  {
    hide Gives, Comes, Inv, ReadItems, Reopen, LoadItems;
    LoadDecodes(decode, Opened(r.v, r.n), recs, ReadItems(s, r));
    ItemsReopen(s, r);
  }

  lemma OthersLoadable(s: Out, r: Return)
    requires OthersRight(s.txG) && OthersReadBack(r.v, Kept(s.txG), r.others)
    ensures forall i {:trigger r.others[i]} | 0 <= i < |r.others| :: r.others[i].body.Publish? && QoS(r.others[i].flags) == 0
  {
    hide QoS, Kept;
    KeptPublishes(s.txG);
    assert forall i {:trigger r.others[i]} | 0 <= i < |r.others| :: ReadBack(r.v, Kept(s.txG)[i], r.others[i]);
  }

  lemma RelabelledConcat(a: seq<Queued>, b: seq<Queued>, back: seq<Packet>)
    requires |back| == |a| + |b|
    ensures Relabelled(a + b, back) == Relabelled(a, back[..|a|]) + Relabelled(b, back[|a|..])
  {
    hide With;
  }

  lemma ItemsReopen(s: Out, r: Return)
    requires Inv(s) && Comes(s, r)
    ensures LoadItems(Opened(r.v, r.n), ReadItems(s, r)) == Reopen(s, r)
  {
    QueueLoadable(s, r);
    OthersLoadable(s, r);
    RelabelledConcat(SavedAll(s.txQ), Unacked(s.pubOut, r.order), r.back);
    hide Kept, SavedAll, Unacked, AsFresh, Loadable, ForQ, LoadItems, QueueRight, QuotaRight, Relabelled, AllReadBack, OthersReadBack;
    var k := |s.txQ|;
    var a, ps, c := Relabelled(SavedAll(s.txQ), r.back[..k]), r.others, Relabelled(Unacked(s.pubOut, r.order), r.back[k..]);
    var o, t := Opened(r.v, r.n), Reopen(s, r);
    var q := a + c;
    assert t.txQ == q;
    assert forall i | 0 <= i < |c| :: q[|a| + i] == c[i];
    assert forall i | 0 <= i < |a| :: q[i] == a[i];
    assert AllLoadable(c) && AllForQ(c) && AllLoadable(a) && AllForQ(a);
    assert a + AsFresh(ps) + c == a + (AsFresh(ps) + c);
    LoadConcat(o, a, AsFresh(ps) + c);
    OthersAside(LoadItems(o, a), ps, c);
    LoadConcat(o, a, c);
    FinalLoad(s, r, a, c);
  }

  lemma WaitsIfTaken(s: Out, r: Return, id: Id)
    requires Inv(s) && Comes(s, r)
    ensures Waiting(Reopen(s, r).txQ, id) <==> id in s.inUse
  {
    hide Comes, Reopen, Waiting, QueueRight;
    ReopenedWaiting(s, r, id);
  }

  /** The message queue alone, loaded into a new connection. */
  lemma QueueLoads(s: Out, r: Return)
    requires Inv(s) && Comes(s, r) && AllLoadable(Reopen(s, r).txQ) && AllForQ(Reopen(s, r).txQ)
    ensures LoadItems(Opened(r.v, r.n), Reopen(s, r).txQ) == Reopen(s, r).(txG := [])
  {
    hide Inv, Kept, Loadable, ForQ, LoadItems, QueueRight, AllLoadable, AllForQ, Relabelled, SavedList, AllReadBack, OthersReadBack, Waiting;
    var o, t := Opened(r.v, r.n), Reopen(s, r);
    QueueTaken(s, r);
    LoadQueue(o, t.txQ);
    assert LoadItems(o, t.txQ).inUse == s.inUse;
    assert [] + t.txQ == t.txQ && |o.inUse| == 0;
  }

  /** The packets of the reopened queue that have an identifier have different ones, those in use. */
  lemma QueueTaken(s: Out, r: Return)
    requires Inv(s) && Comes(s, r)
    ensures var q := Reopen(s, r).txQ;
            && (forall i, j | 0 <= i < j < |q| && q[i].Unack? && q[j].Unack? :: PacketId(q[i].p) != PacketId(q[j].p))
            && (forall id: Id :: Waiting(q, id) <==> id in s.inUse)
  {
    hide Inv, Kept, QueueRight, Relabelled, SavedList, AllReadBack, OthersReadBack, Waiting;
    ReopenedQueueRight(s, r);
    QueueDistinct(Reopen(s, r).txQ);
    forall id: Id ensures Waiting(Reopen(s, r).txQ, id) <==> id in s.inUse {
      WaitsIfTaken(s, r, id);
    }
  }

  lemma FinalLoad(s: Out, r: Return, a: seq<Queued>, c: seq<Queued>)
    requires Inv(s) && Comes(s, r)
    requires var q := Reopen(s, r).txQ; q == a + c && AllLoadable(q) && AllForQ(q)
    requires AllLoadable(a) && AllForQ(a) && AllLoadable(c) && AllForQ(c)
    ensures var t := LoadItems(Opened(r.v, r.n), a); LoadItems(t.(txG := t.txG + r.others), c) == Reopen(s, r)
  {
    QueueLoads(s, r);
    ReopenOthers(s, r);
    hide Inv, Comes, LoadItems, AllLoadable, AllForQ, Reopen;
    var o := Opened(r.v, r.n);
    LoadConcat(o, a, c);
    var l := LoadItems(o, a);
    OthersUntouched(o, a, o.txG);
    OthersUntouched(l, c, l.txG + r.others);
    assert [] + r.others == r.others;
  }

  lemma ReopenOthers(s: Out, r: Return)
    requires Comes(s, r)
    ensures Reopen(s, r).txG == r.others
  {
  }

  lemma QueueDistinct(q: seq<Queued>)
    requires QueueRight(q)
    ensures forall i, j | 0 <= i < j < |q| && q[i].Unack? && q[j].Unack? :: PacketId(q[i].p) != PacketId(q[j].p)
  {
  }

  // ---------------------------------------------------------------- nothing is lost, nothing is added

  function IdSet(order: seq<Id>): set<Id> {
    set id <- order
  }

  /** The unacknowledged packets that are saved as `x`. */
  function SavedAs(pubOut: map<Id, Packet>, ids: set<Id>, x: Queued): set<Id> {
    set id | id in ids && id in pubOut && Saved(Unack(pubOut[id])) == x
  }

  lemma {:induction false} UnackedCount(pubOut: map<Id, Packet>, order: seq<Id>, x: Queued)
    requires forall i {:trigger order[i]} | 0 <= i < |order| :: order[i] in pubOut
    requires forall i, j | 0 <= i < j < |order| :: order[i] != order[j]
    ensures multiset(Unacked(pubOut, order))[x] == |SavedAs(pubOut, IdSet(order), x)|
    decreases |order|
  {
    hide Saved, Unacked, SavedAs, IdSet;
    if order == [] {
      NoneUnacked(pubOut, x);
    } else {
      var last, init := order[|order| - 1], order[..|order| - 1];
      UnackedCount(pubOut, init, x);
      assert order == init + [last] && last !in init;
      OneMoreUnacked(pubOut, init, last, x);
    }
  }

  lemma NoneUnacked(pubOut: map<Id, Packet>, x: Queued)
    ensures multiset(Unacked(pubOut, []))[x] == |SavedAs(pubOut, IdSet([]), x)|
  {
    assert SavedAs(pubOut, IdSet([]), x) == {};
  }

  lemma OneMoreUnacked(pubOut: map<Id, Packet>, init: seq<Id>, last: Id, x: Queued)
    requires (forall id <- init :: id in pubOut) && last in pubOut && last !in init
    ensures var k := if Saved(Unack(pubOut[last])) == x then 1 else 0;
            && (forall id <- init + [last] :: id in pubOut)
            && multiset(Unacked(pubOut, init + [last]))[x] == multiset(Unacked(pubOut, init))[x] + k
            && |SavedAs(pubOut, IdSet(init + [last]), x)| == |SavedAs(pubOut, IdSet(init), x)| + k
  {
    hide Saved;
    var q := Saved(Unack(pubOut[last]));
    assert Unacked(pubOut, init + [last]) == Unacked(pubOut, init) + [q];
    var before, after := SavedAs(pubOut, IdSet(init), x), SavedAs(pubOut, IdSet(init + [last]), x);
    assert after == if q == x then before + {last} else before;
  }

  /** Saving keeps the multiset of queued messages and unacknowledged packets, each as it is saved: the saved
      list holds `x` as often as the queue held it and packets saved as it were unacknowledged. */
  lemma NothingLostOrAdded(s: Out, order: seq<Id>, x: Queued)
    requires Enumeration(order, s.pubOut)
    ensures multiset(SavedList(s, order))[x] == multiset(SavedAll(s.txQ))[x] + |SavedAs(s.pubOut, s.pubOut.Keys, x)|
  {
    hide Saved, SavedAll, Unacked, SavedAs;
    assert forall i {:trigger order[i]} | 0 <= i < |order| :: order[i] in order;
    UnackedCount(s.pubOut, order, x);
    assert IdSet(order) == s.pubOut.Keys;
    var a, b := SavedAll(s.txQ), Unacked(s.pubOut, order);
    assert SavedList(s, order) == a + b;
    assert multiset(a + b)[x] == multiset(a)[x] + multiset(b)[x];
  }

  /** Saving changes a message once: only the identifier of one not yet sent and the duplicate flag of a
      QoS 1 one that was sent, and never its topic, payload, properties or QoS. */
  lemma SavedOnce(q: Queued)
    ensures Saved(Saved(q)) == Saved(q) && Saved(q).p.body == q.p.body && Saved(q).p.props == q.p.props
    ensures QoS(Saved(q).p.flags) == QoS(q.p.flags) && (q.Unack? ==> Saved(q).p.id == q.p.id)
  {
    if q.Unack? {
      DupKeepsQoS(q.p.flags);
      DupTwice(q.p.flags);
    }
    hide QoS, WithDup;
  }

  /** What is saved of a packet, field by field: one not yet sent gets identifier 0, one of QoS 1 that was sent
      gets bit 3 of its flags, any other is saved as it is. */
  lemma SavedExactly(q: Queued)
    ensures var p, r := q.p, Saved(q).p;
            && Saved(q).Fresh? == q.Fresh? && r.t == p.t && r.version == p.version && r.props == p.props && r.body == p.body
            && r.id == (if q.Fresh? then Some(0) else p.id)
            && (if q.Unack? && p.t == PUBLISH && (p.flags / 2) % 4 == 1
                then (r.flags / 8) % 2 == 1 && (r.flags == p.flags || r.flags == p.flags + 8) else r.flags == p.flags)
  {
  }

  lemma DupTwice(flags: byte)
    ensures WithDup(WithDup(flags)) == WithDup(flags)
  {
  }

  // ---------------------------------------------------------------- from records to a new connection

  /** Everything that is saved can be encoded. */
  ghost predicate CanSave(s: Out) {
    && (forall i {:trigger s.txQ[i]} | 0 <= i < |s.txQ| :: Storable(Saved(s.txQ[i]).p))
    && (forall i {:trigger s.txG[i]} | 0 <= i < |s.txG| :: s.txG[i].t == PUBLISH ==> Storable(s.txG[i]))
    && (forall id {:trigger s.pubOut[id]} | id in s.pubOut :: Storable(Saved(Unack(s.pubOut[id])).p))
  }

  lemma {:induction false} KeptStorable(txG: seq<Packet>)
    requires forall i {:trigger txG[i]} | 0 <= i < |txG| :: txG[i].t == PUBLISH ==> Storable(txG[i])
    ensures forall i {:trigger Kept(txG)[i]} | 0 <= i < |Kept(txG)| :: Storable(Kept(txG)[i]) && Kept(txG)[i].t == PUBLISH
  {
    hide Storable;
    if txG != [] { KeptStorable(txG[1..]); }
  }

  lemma SavedItemsStorable(s: Out, order: seq<Id>)
    requires CanSave(s) && forall id <- order :: id in s.pubOut
    ensures AllStorable(SavedItems(s, order))
  {
    hide Storable, Saved, Kept;
    KeptStorable(s.txG);
  }

  /** The message is of a version that a connection of version `v` can read; a PUBREL always is. */
  predicate Legible(v: byte, p: Packet) {
    p.t == PUBLISH ==> Compatible(p.version, v)
  }

  predicate AllLegible(v: byte, qs: seq<Queued>) {
    forall i {:trigger qs[i]} | 0 <= i < |qs| :: Legible(v, qs[i].p)
  }

  predicate AllRead(decode: bytes -> Result<Packet>, recs: seq<Record>) {
    forall i {:trigger recs[i]} | 0 <= i < |recs| :: decode(recs[i].data).Ok?
  }

  lemma {:induction false} LoadReadsAll(decode: bytes -> Result<Packet>, s: Out, recs: seq<Record>)
    ensures Load(decode, s, recs).Ok? <==> AllRead(decode, recs)
    decreases |recs|
  {
    hide LoadOne;
    if recs != [] {
      var p := decode(recs[0].data);
      if p.Ok? {
        LoadReadsAll(decode, LoadOne(s, p.value, recs[0].unack), recs[1..]);
        assert forall i {:trigger recs[i]} | 0 < i < |recs| :: recs[i] == recs[1..][i - 1];
        assert forall i {:trigger recs[1..][i]} | 0 <= i < |recs| - 1 :: recs[1..][i] == recs[i + 1];
      }
    }
  }

  function PacketsIn(decode: bytes -> Result<Packet>, recs: seq<Record>): seq<Packet>
    requires AllRead(decode, recs)
  {
    seq(|recs|, i requires 0 <= i < |recs| => decode(recs[i].data).value)
  }

  /** What the records of a connection bring back. */
  function ReturnFrom(s: Out, order: seq<Id>, n: nat, v: byte, ps: seq<Packet>): Return
    requires |ps| >= |s.txQ| + |Kept(s.txG)|
  {
    var k, g := |s.txQ|, |Kept(s.txG)|;
    Return(order, n, v, ps[..k] + ps[k + g..], ps[k..k + g])
  }

  ghost predicate Recorded(s: Out, order: seq<Id>, n: nat, v: byte, decode: bytes -> Result<Packet>, recs: seq<Record>) {
    && Enumeration(order, s.pubOut) && |s.inUse| < n <= 65535 && CanSave(s) && DecodesFor(v, decode) && Supported(v)
    && StoresAll(recs, SavedItems(s, order))
  }

  /** The place among the saved items of item `i` of the message queue. */
  function Place(s: Out, i: nat): nat {
    if i < |s.txQ| then i else |Kept(s.txG)| + i
  }

  lemma ItemCount(s: Out, order: seq<Id>)
    requires forall id <- order :: id in s.pubOut
    ensures |SavedItems(s, order)| == |s.txQ| + |Kept(s.txG)| + |order| && |SavedList(s, order)| == |s.txQ| + |order|
  {
    hide Saved, Kept;
  }

  lemma ItemAt(s: Out, order: seq<Id>, i: nat)
    requires (forall id <- order :: id in s.pubOut) && i < |s.txQ| + |order|
    ensures |SavedList(s, order)| == |s.txQ| + |order| && Place(s, i) < |SavedItems(s, order)|
    ensures SavedItems(s, order)[Place(s, i)] == SavedList(s, order)[i]
  {
    hide Saved, Kept;
  }

  lemma OtherItemAt(s: Out, order: seq<Id>, i: nat)
    requires (forall id <- order :: id in s.pubOut) && i < |Kept(s.txG)|
    ensures |s.txQ| + i < |SavedItems(s, order)| && SavedItems(s, order)[|s.txQ| + i] == Fresh(Kept(s.txG)[i])
  {
    hide Saved, Kept;
  }

  /** A record gives what its item is read back as. */
  lemma RecordRead(s: Out, order: seq<Id>, n: nat, v: byte, decode: bytes -> Result<Packet>, recs: seq<Record>, i: nat)
    requires Recorded(s, order, n, v, decode, recs) && AllRead(decode, recs) && i < |recs|
    ensures var items, ps := SavedItems(s, order), PacketsIn(decode, recs);
            && |ps| == |items| == |recs|
            && ReadBack(v, items[i].p, ps[i]) && (Legible(v, items[i].p) ==> ps[i] == AsReadIn(items[i].p, v))
  {
    SavedItemsStorable(s, order);
    var items := SavedItems(s, order);
    hide Storable, Stores, DecodesFor, ReadBack, SavedItems, CanSave, NormalMap;
    StorableType(items[i].p);
    StoredReads(v, decode, recs[i], items[i]);
  }

  /** Where a packet of a return comes from. */
  lemma BackFrom(s: Out, order: seq<Id>, n: nat, v: byte, ps: seq<Packet>, i: nat)
    requires |ps| == |s.txQ| + |Kept(s.txG)| + |order| && i < |s.txQ| + |order|
    ensures var r := ReturnFrom(s, order, n, v, ps); |r.back| == |s.txQ| + |order| && r.back[i] == ps[Place(s, i)]
  {
    hide Kept;
  }

  lemma OtherFrom(s: Out, order: seq<Id>, n: nat, v: byte, ps: seq<Packet>, i: nat)
    requires |ps| == |s.txQ| + |Kept(s.txG)| + |order| && i < |Kept(s.txG)|
    ensures var r := ReturnFrom(s, order, n, v, ps); |r.others| == |Kept(s.txG)| && r.others[i] == ps[|s.txQ| + i]
  {
    hide Kept;
  }

  /** One saved item of the message queue, and what comes back for it. */
  lemma BackAt(s: Out, order: seq<Id>, n: nat, v: byte, decode: bytes -> Result<Packet>, recs: seq<Record>, i: nat)
    requires Recorded(s, order, n, v, decode, recs) && AllRead(decode, recs) && |recs| >= |s.txQ| + |Kept(s.txG)|
    requires i < |s.txQ| + |order|
    ensures var r, p := ReturnFrom(s, order, n, v, PacketsIn(decode, recs)), SavedList(s, order);
            && |r.back| == |p| == |s.txQ| + |order|
            && ReadBack(v, p[i].p, r.back[i]) && (Legible(v, p[i].p) ==> r.back[i] == AsReadIn(p[i].p, v))
  {
    hide ReadBack, SavedItems, SavedList, Kept, AsReadIn, Legible, ReturnFrom, CanSave, DecodesFor, StoresAll;
    RecordCount(s, order, n, v, decode, recs);
    ItemAt(s, order, i);
    BackFrom(s, order, n, v, PacketsIn(decode, recs), i);
    RecordRead(s, order, n, v, decode, recs, Place(s, i));
  }

  /** One message of QoS 0, and what comes back for it. */
  lemma OtherAt(s: Out, order: seq<Id>, n: nat, v: byte, decode: bytes -> Result<Packet>, recs: seq<Record>, i: nat)
    requires Recorded(s, order, n, v, decode, recs) && AllRead(decode, recs) && |recs| >= |s.txQ| + |Kept(s.txG)|
    requires i < |Kept(s.txG)|
    ensures var r := ReturnFrom(s, order, n, v, PacketsIn(decode, recs));
            |r.others| == |Kept(s.txG)| && ReadBack(v, Kept(s.txG)[i], r.others[i])
  {
    hide ReadBack, SavedItems, SavedList, Kept, AsReadIn, Legible, ReturnFrom, CanSave, DecodesFor, StoresAll;
    RecordCount(s, order, n, v, decode, recs);
    OtherItemAt(s, order, i);
    OtherFrom(s, order, n, v, PacketsIn(decode, recs), i);
    RecordRead(s, order, n, v, decode, recs, |s.txQ| + i);
  }

  lemma RecordCount(s: Out, order: seq<Id>, n: nat, v: byte, decode: bytes -> Result<Packet>, recs: seq<Record>)
    requires Recorded(s, order, n, v, decode, recs)
    ensures |recs| == |s.txQ| + |Kept(s.txG)| + |order|
  {
    ItemCount(s, order);
  }

  /** Reading the records gives a new connection: what comes back keeps type, flags and identifiers, and what
      is legible comes back as it was saved. */
  lemma ReturnComes(s: Out, order: seq<Id>, n: nat, v: byte, decode: bytes -> Result<Packet>, recs: seq<Record>)
    requires Recorded(s, order, n, v, decode, recs) && AllRead(decode, recs)
    ensures |recs| >= |s.txQ| + |Kept(s.txG)|
    ensures var r := ReturnFrom(s, order, n, v, PacketsIn(decode, recs));
            && Comes(s, r)
            && (forall i {:trigger r.back[i]} | 0 <= i < |r.back| ::
                  Legible(v, SavedList(s, order)[i].p) ==> r.back[i] == AsReadIn(SavedList(s, order)[i].p, v))
  {
    RecordCount(s, order, n, v, decode, recs);
    ItemCount(s, order);
    var ps := PacketsIn(decode, recs);
    var r, saved := ReturnFrom(s, order, n, v, ps), SavedList(s, order);
    ReturnSizes(s, order, n, v, ps);
    hide ReadBack, SavedItems, SavedList, Kept, AsReadIn, Legible, PacketsIn, ReturnFrom, CanSave, DecodesFor, StoresAll, AllRead;
    forall i | 0 <= i < |saved| ensures ReadBack(v, saved[i].p, r.back[i]) && (Legible(v, saved[i].p) ==> r.back[i] == AsReadIn(saved[i].p, v)) {
      BackAt(s, order, n, v, decode, recs, i);
    }
    forall i | 0 <= i < |Kept(s.txG)| ensures ReadBack(v, Kept(s.txG)[i], r.others[i]) {
      OtherAt(s, order, n, v, decode, recs, i);
    }
  }

  lemma StorableType(p: Packet)
    requires Storable(p)
    ensures p.t == PUBLISH || p.t == PUBREL
  {
  }

  lemma ReturnGives(s: Out, order: seq<Id>, n: nat, v: byte, decode: bytes -> Result<Packet>, recs: seq<Record>)
    requires Recorded(s, order, n, v, decode, recs) && AllRead(decode, recs) && |recs| >= |s.txQ| + |Kept(s.txG)|
    requires Comes(s, ReturnFrom(s, order, n, v, PacketsIn(decode, recs)))
    ensures Gives(decode, recs, ReadItems(s, ReturnFrom(s, order, n, v, PacketsIn(decode, recs))))
  {
    RecordCount(s, order, n, v, decode, recs);
    ItemCount(s, order);
    SameReturn(s, order, n, v, PacketsIn(decode, recs));
    hide Storable, Saved, Kept, DecodesFor, CanSave, Comes, ReturnFrom, ReadItems, SavedItems;
    var items, ps := SavedItems(s, order), PacketsIn(decode, recs);
    var r := ReturnFrom(s, order, n, v, ps);
    var back := ReadItems(s, r);
    ReadItemCount(s, r, ps);
    forall i | 0 <= i < |items| ensures decode(recs[i].data) == Ok(back[i].p) && recs[i].unack == back[i].Unack? {
      ReadItemAt(s, r, ps, i);
      assert Stores(recs[i], items[i]);
    }
  }

  lemma ReturnSizes(s: Out, order: seq<Id>, n: nat, v: byte, ps: seq<Packet>)
    requires |ps| == |s.txQ| + |Kept(s.txG)| + |order|
    ensures var r := ReturnFrom(s, order, n, v, ps); |r.back| == |s.txQ| + |order| && |r.others| == |Kept(s.txG)|
  {
    hide Kept;
  }

  lemma ReadItemCount(s: Out, r: Return, ps: seq<Packet>)
    requires Comes(s, r) && |ps| == |s.txQ| + |Kept(s.txG)| + |r.order| && r == ReturnFrom(s, r.order, r.n, r.v, ps)
    ensures |ReadItems(s, r)| == |ps|
  {
    hide Saved, Kept, ReadBack, AllReadBack, OthersReadBack;
  }

  lemma ReadItemAt(s: Out, r: Return, ps: seq<Packet>, i: nat)
    requires Comes(s, r) && |ps| == |SavedItems(s, r.order)| == |s.txQ| + |Kept(s.txG)| + |r.order| && i < |ps|
    requires r == ReturnFrom(s, r.order, r.n, r.v, ps)
    ensures |ReadItems(s, r)| == |ps| && ReadItems(s, r)[i] == With(SavedItems(s, r.order)[i], ps[i])
  {
    hide Saved, Kept, ReadBack, AllReadBack, OthersReadBack;
    var k, g := |s.txQ|, |Kept(s.txG)|;
    if i < k {
    } else if i < k + g {
      OtherItemAt(s, r.order, i - k);
    } else {
      assert r.back[k..][i - k - g] == ps[i];
    }
  }

  /** Loading the records of a connection in version `v`: it succeeds if all of them are legible; whenever it
      succeeds the new connection is the old one reopened, with every legible message as it was saved. */
  lemma LoadUndoesPersist(s: Out, order: seq<Id>, n: nat, v: byte, decode: bytes -> Result<Packet>, recs: seq<Record>)
    requires Inv(s) && Recorded(s, order, n, v, decode, recs)
    ensures AllLegible(v, SavedItems(s, order)) ==> Load(decode, Opened(v, n), recs).Ok?
    ensures Load(decode, Opened(v, n), recs).Ok? ==>
              && AllRead(decode, recs) && |recs| >= |s.txQ| + |Kept(s.txG)|
              && var r := ReturnFrom(s, order, n, v, PacketsIn(decode, recs));
                 && Comes(s, r) && Load(decode, Opened(v, n), recs) == Ok(Reopen(s, r))
                 && (forall i {:trigger r.back[i]} | 0 <= i < |r.back| ::
                       Legible(v, SavedList(s, order)[i].p) ==> r.back[i] == AsReadIn(SavedList(s, order)[i].p, v))
  {
    LoadReadsAll(decode, Opened(v, n), recs);
    if AllLegible(v, SavedItems(s, order)) {
      LegibleRead(s, order, n, v, decode, recs);
    }
    hide Inv, Recorded, Load, Comes, Reopen, ReturnFrom, PacketsIn, SavedList, Kept, AllLegible, Legible;
    if AllRead(decode, recs) {
      ReturnComes(s, order, n, v, decode, recs);
      ReturnGives(s, order, n, v, decode, recs);
      LoadIsReopen(decode, s, ReturnFrom(s, order, n, v, PacketsIn(decode, recs)), recs);
      SameReturn(s, order, n, v, PacketsIn(decode, recs));
    }
  }

  lemma SameReturn(s: Out, order: seq<Id>, n: nat, v: byte, ps: seq<Packet>)
    requires |ps| >= |s.txQ| + |Kept(s.txG)|
    ensures var r := ReturnFrom(s, order, n, v, ps); r.v == v && r.n == n && r.order == order
  {
  }

  lemma LegibleRead(s: Out, order: seq<Id>, n: nat, v: byte, decode: bytes -> Result<Packet>, recs: seq<Record>)
    requires Recorded(s, order, n, v, decode, recs) && AllLegible(v, SavedItems(s, order))
    ensures AllRead(decode, recs)
  {
    SavedItemsStorable(s, order);
    var items := SavedItems(s, order);
    hide Storable, Stores, DecodesFor, SavedItems, CanSave, NormalMap;
    forall i | 0 <= i < |recs| ensures decode(recs[i].data).Ok? {
      StorableType(items[i].p);
      StoredReads(v, decode, recs[i], items[i]);
    }
  }
}
