/** The state of one connection and the callbacks that change it. */
module Connection {
  import opened Common
  import opened Wire
  import opened Properties
  import opened Packets
  import opened PacketRoundTrip
  import opened Versions
  import PacketWriter
  import opened FlowControl
  import opened Delivery
  import opened Inbound
  import opened Spelling
  import opened Replies
  import opened Persistence

  /** What flowAcquire answers: the connection is closing, or an identifier and whether it took the last quota. */
  datatype Acquired = Exit | Taken(id: Id, last: bool)

  lemma FoundFirst(c: nat, inUse: set<Id>, k: nat)
    requires 1 <= k <= IdCount && (forall j | 1 <= j < k :: Probe(c, j) in inUse)
    requires k == IdCount || Probe(c, k) !in inUse
    ensures FirstFree(c, inUse, 1) == k
  {
    hide Probe;
    assert FirstFree(c, inUse, 1) >= 1;
  }

  lemma CounterNext(c: nat, count: nat)
    ensures ((c + count) % CounterRange + 1) % CounterRange == (c + count + 1) % CounterRange
    ensures (c + count + 1) % CounterRange % IdCount == Probe(c, count + 1)
  {
    CounterWraps(c, count + 1);
    var q, r := (c + count) / CounterRange, (c + count) % CounterRange;
    assert c + count + 1 == q * CounterRange + (r + 1);
    WholeTurns(q, r + 1);
  }

  lemma WholeTurns(q: nat, x: nat)
    ensures (q * CounterRange + x) % CounterRange == x % CounterRange
  {
    var d := x / CounterRange;
    assert q * CounterRange + x == (q + d) * CounterRange + x % CounterRange;
  }

  class Conn {
    const version: byte
    const max: nat
    const offlineQoS0: bool
    var quit: bool
    var sendQuota: int
    var flowCounter: nat
    var flowInUse: set<Id>
    var txQuotaExceeded: bool
    var txQMessages: seq<Queued>
    var txGMessages: seq<Packet>
    var pubOut: map<Id, Packet>
    var pubIn: map<Id, Packet>
    /** What publishToTopic was called with, in order. */
    var handed: seq<Packet>

    ghost function Value(): Out
      reads this
    {
      Out(version, max, sendQuota, flowCounter, flowInUse, txQuotaExceeded, txQMessages, txGMessages, pubOut)
    }

    ghost function Incoming(): In
      reads this
    {
      In(pubIn, handed)
    }

    ghost predicate Counting()
      reads this
    {
      flowCounter < CounterRange
    }

    constructor (version: byte, n: nat, offlineQoS0: bool)
      ensures Value() == Opened(version, n) && Incoming() == In(map[], []) && !quit && this.offlineQoS0 == offlineQoS0
    {
      this.version, max, this.offlineQoS0, quit := version, n, offlineQoS0, false;
      sendQuota, flowCounter, flowInUse, txQuotaExceeded := n, 0, {}, false;
      txQMessages, txGMessages, pubOut, pubIn, handed := [], [], map[], map[], [];
    }

    // -------------------------------------------------------------- flow control

    method FlowReAcquire(id: Id)
      modifies this
      ensures Value() == ReAcquire(old(Value()), id) && Incoming() == old(Incoming()) && quit == old(quit)
    {
      sendQuota := sendQuota - 1;
      flowInUse := flowInUse + {id};
    }

    method FlowAcquire() returns (r: Acquired)
      requires Counting()
      modifies this
      ensures Counting() && Incoming() == old(Incoming()) && quit == old(quit)
      ensures r.Exit? <==> old(quit)
      ensures r.Exit? ==> Value() == old(Value())
      ensures r.Taken? ==>
                var s := old(Value());
                var k := FirstFree(s.counter, s.inUse, 1);
                && r == Taken(Probe(s.counter, k), s.quota - 1 == 0)
                && Value() == s.(quota := s.quota - 1, counter := (s.counter + k) % CounterRange, inUse := s.inUse + {r.id})
    {
      hide Probe, FirstFree;
      if quit {
        return Exit;
      }
      sendQuota := sendQuota - 1;
      var last := sendQuota == 0;
      var id: Id := 0;
      ghost var c := flowCounter;
      for count := 0 to IdCount
        invariant flowCounter == (c + count) % CounterRange && forall j | 1 <= j <= count :: Probe(c, j) in flowInUse
        invariant Value() == old(Value()).(quota := sendQuota, counter := flowCounter) && sendQuota == old(sendQuota) - 1
        invariant Incoming() == old(Incoming()) && quit == old(quit)
        invariant count == IdCount ==> id == Probe(c, count)
      {
        CounterNext(c, count);
        flowCounter := (flowCounter + 1) % CounterRange;
        id := flowCounter % IdCount;
        if id !in flowInUse {
          FoundFirst(c, flowInUse, count + 1);
          flowInUse := flowInUse + {id};
          return Taken(id, last);
        }
      }
      FoundFirst(c, flowInUse, IdCount);
      assert flowInUse + {id} == flowInUse;
      return Taken(id, last);
    }

    method FlowRelease(id: Id) returns (signal: bool)
      modifies this
      ensures Value() == old(Value()).(quota := old(sendQuota) + 1, inUse := old(flowInUse) - {id})
      ensures signal == (sendQuota == 1) && Incoming() == old(Incoming()) && quit == old(quit)
    {
      flowInUse := flowInUse - {id};
      sendQuota := sendQuota + 1;
      return sendQuota == 1;
    }

    method SignalQuota()
      modifies this`txQuotaExceeded
      ensures !txQuotaExceeded
    {
      txQuotaExceeded := false;
    }

    // -------------------------------------------------------------- the transmitter

    method QPush(p: Packet)
      modifies this`txQMessages
      ensures txQMessages == old(txQMessages) + [Fresh(p)]
    {
      txQMessages := txQMessages + [Fresh(p)];
    }

    method GPush(p: Packet)
      modifies this`txGMessages
      ensures txGMessages == old(txGMessages) + [p]
    {
      txGMessages := txGMessages + [p];
    }

    method GPopPacket() returns (p: Option<Packet>)
      modifies this`txGMessages
      ensures old(txGMessages) == [] ==> p == None && txGMessages == []
      ensures old(txGMessages) != [] ==> p == Some(old(txGMessages)[0]) && txGMessages == old(txGMessages)[1..]
    {
      if txGMessages == [] {
        return None;
      }
      p := Some(txGMessages[0]);
      txGMessages := txGMessages[1..];
    }

    method QPopPacket() returns (p: Option<Packet>)
      requires Counting()
      modifies this
      ensures Counting() && Incoming() == old(Incoming()) && quit == old(quit)
      ensures if old(quit) && !old(txQuotaExceeded) && old(txQMessages) != [] && old(txQMessages)[0].Fresh?
              then p == None && Value() == old(Value())
              else (Value(), p) == Pop(old(Value()))
    {
      hide Probe, FirstFree;
      if txQuotaExceeded || txQMessages == [] {
        return None;
      }
      match txQMessages[0]
      case Fresh(m) =>
        var r := FlowAcquire();
        if r.Exit? {
          return None;
        }
        if r.last {
          txQuotaExceeded := true;
        }
        p := Some(WithId(m, r.id));
        txQMessages := txQMessages[1..];
        PubOutStore(p.value);
      case Unack(m) =>
        p := Some(m);
        txQMessages := txQMessages[1..];
        PubOutStore(m);
    }

    // -------------------------------------------------------------- the queues of packets to be acknowledged

    method PubOutStore(p: Packet)
      modifies this`pubOut
      ensures pubOut == old(pubOut)[PacketId(p) := p]
    {
      pubOut := pubOut[PacketId(p) := p];
    }

    /** ackQueue.release with onReleaseOut. */
    method PubOutRelease(n: Packet)
      modifies this
      ensures Incoming() == old(Incoming()) && quit == old(quit)
      ensures Value() == var s := old(Value());
                         if n.t == PUBACK || n.t == PUBCOMP then OnFinished(s, PacketId(n))
                         else s.(pubOut := s.pubOut - {PacketId(n)})
    {
      var id := PacketId(n);
      if id in pubOut {
        if n.t == PUBACK || n.t == PUBCOMP {
          var signal := FlowRelease(id);
          if signal {
            SignalQuota();
          }
        }
        pubOut := pubOut - {id};
      } else {
        assert pubOut - {id} == pubOut;
      }
    }

    /** ackQueue.release with onReleaseIn. */
    method PubInRelease(id: Id)
      modifies this`pubIn, this`handed
      ensures Incoming() == OnPubrel(old(Incoming()), id)
    {
      if id in pubIn {
        handed := handed + [pubIn[id]];
        pubIn := pubIn - {id};
      }
    }

    // -------------------------------------------------------------- the receiver

    method OnAck(msg: Packet) returns (resp: Option<Packet>)
      requires msg.body.Ack?
      modifies this
      ensures quit == old(quit)
      ensures msg.t == PUBACK || msg.t == PUBCOMP ==>
                Value() == OnFinished(old(Value()), PacketId(msg)) && Incoming() == old(Incoming()) && resp == None
      ensures msg.t == PUBREC ==>
                && Value() == OnPubrec(old(Value()), PacketId(msg), msg.body.reason).(txG := old(txGMessages)) && Incoming() == old(Incoming())
                && resp == if Refusal(version, msg.body.reason) then None else Some(Pubrel(version, PacketId(msg)))
      ensures msg.t == PUBREL ==>
                Value() == old(Value()) && Incoming() == OnPubrel(old(Incoming()), PacketId(msg)) && resp == Some(Response(PUBCOMP, version, PacketId(msg), 0))
      ensures !IsAck(msg.t) ==> Value() == old(Value()) && Incoming() == old(Incoming()) && resp == None
      ensures resp.Some? <==> msg.t == PUBREL || (msg.t == PUBREC && !(version == 5 && msg.body.reason >= 128))
      ensures resp.Some? ==> resp.value.flags < 16 && PacketBytes(resp.value, []) == [if msg.t == PUBREL then 0x70 else 0x62, 2] + TwoBytes(msg.id.GetOr(0))
    {
      var id := PacketId(msg);
      PubrelSpelled(version, id);
      ResponseSpelled(PUBCOMP, version, id, 0);
      hide PacketBytes, TwoBytes;
      resp := None;
      match msg.t
      case PUBACK => PubOutRelease(msg);
      case PUBREC =>
        PubOutRelease(msg);
        if Refusal(version, msg.body.reason) {
          var signal := FlowRelease(id);
          if signal {
            SignalQuota();
          }
        } else {
          resp := Some(Pubrel(version, id));
          assert (old(pubOut) - {id})[id := resp.value] == old(pubOut)[id := resp.value];
          PubOutStore(resp.value);
        }
      case PUBREL =>
        resp := Some(Response(PUBCOMP, version, id, 0));
        PubInRelease(id);
      case PUBCOMP => PubOutRelease(msg);
      case _ =>
    }

    /** Handles an acknowledgement and queues the answer. */
    method ProcessAck(msg: Packet)
      requires msg.body.Ack? && IsAck(msg.t)
      modifies this
      ensures msg.t == PUBREC ==> Value() == OnPubrec(old(Value()), PacketId(msg), msg.body.reason)
      ensures msg.t == PUBACK || msg.t == PUBCOMP ==> Value() == OnFinished(old(Value()), PacketId(msg))
      ensures msg.t != PUBREL ==> Incoming() == old(Incoming())
      ensures msg.t == PUBREL ==> Value() == Apply(old(Value()), PushG(Response(PUBCOMP, version, PacketId(msg), 0)))
                                  && Incoming() == Receive(old(Incoming()), Released(PacketId(msg)))
    {
      var resp := OnAck(msg);
      if resp.Some? {
        GPush(resp.value);
      }
    }

    /** `refused`: the packet breaks the rules of its version; `denied`: the client may not write to its topic. */
    method OnPublish(p: Packet, refused: bool, denied: bool) returns (resp: Option<Packet>)
      modifies this
      ensures Value() == old(Value()) && quit == old(quit)
      ensures Incoming() == Receive(old(Incoming()), Published(p, refused, denied))
      ensures resp == if refused || (QoS(p.flags) != 1 && QoS(p.flags) != 2) then None
                      else Some(Response(if QoS(p.flags) == 2 then PUBREC else PUBACK, version, PacketId(p), if denied then AdministrativeAction else 0))
      ensures resp.Some? <==> !refused && ((p.flags / 2) % 4 == 1 || (p.flags / 2) % 4 == 2)
      ensures resp.Some? ==>
                && resp.value.flags < 16
                && PacketBytes(resp.value, []) == Reply(if (p.flags / 2) % 4 == 1 then 0x40 else 0x50, version, p.id.GetOr(0), if denied then 0x98 else 0)
    {
      ResponseSpelled(PUBACK, version, PacketId(p), if denied then AdministrativeAction else 0);
      ResponseSpelled(PUBREC, version, PacketId(p), if denied then AdministrativeAction else 0);
      hide PacketBytes, Reply;
      if refused {
        return None;
      }
      var reason: byte := if denied then AdministrativeAction else 0;
      resp := None;
      if QoS(p.flags) == 2 {
        resp := Some(Response(PUBREC, version, PacketId(p), reason));
        if reason < 0x80 {
          pubIn := pubIn[PacketId(p) := p];
        }
      } else if QoS(p.flags) < 2 {
        if QoS(p.flags) == 1 {
          resp := Some(Response(PUBACK, version, PacketId(p), reason));
        }
        if reason < 0x80 {
          handed := handed + [p];
        }
      }
    }

    // -------------------------------------------------------------- across connections

    /** persistAppend on a packet that is not left out. */
    method PersistAppend(q: Queued) returns (rec: Record)
      requires Storable(q.p)
      ensures Stores(rec, q)
    {
      StorableValid(q.p);
      hide Stores, Storable, Valid;
      PacketWriter.ValidEncodes(q.p);
      var data, order := EncodePacket(q.p);
      rec := Record(data, q.Unack?);
      StoredAs(rec, q, order);
    }

    method PersistQueue() returns (recs: seq<Record>)
      requires CanSave(Value())
      modifies this`txQMessages
      ensures txQMessages == [] && StoresAll(recs, SavedAll(old(txQMessages)))
    {
      hide Storable, Saved, Stores;
      recs := [];
      ghost var all, k := txQMessages, 0;
      while txQMessages != []
        invariant 0 <= k <= |all| && txQMessages == all[k..] && all == old(txQMessages)
        invariant forall i {:trigger all[i]} | 0 <= i < |all| :: Storable(Saved(all[i]).p)
        invariant StoresAll(recs, SavedAll(all)[..k])
        decreases |txQMessages|
      {
        var rec := PersistAppend(Saved(txQMessages[0]));
        txQMessages := txQMessages[1..];
        StoresNext(recs, SavedAll(all), k, rec);
        recs := recs + [rec];
        k := k + 1;
      }
      assert SavedAll(all)[..k] == SavedAll(all);
    }

    /** The messages of QoS 0; without OfflineQoS0 the first of them makes the encoder fail. */
    method PersistOthers() returns (r: Result<seq<Record>>)
      requires CanSave(Value())
      modifies this`txGMessages
      ensures r == Err(Panic) <==> !offlineQoS0 && Kept(old(txGMessages)) != []
      ensures r.Err? ==> r.error == Panic
      ensures r.Ok? ==> txGMessages == [] && StoresAll(r.value, AsFresh(Kept(old(txGMessages))))
    {
      hide Storable, Stores, Kept, StoresAll, AsFresh;
      var recs := [];
      KeptStorable(txGMessages);
      ghost var all, k := Kept(txGMessages), 0;
      FreshAll(all);
      NothingStored(AsFresh(all));
      while txGMessages != []
        invariant 0 <= k <= |all| && Kept(txGMessages) == all[k..] && all == Kept(old(txGMessages))
        invariant forall i {:trigger all[i]} | 0 <= i < |all| :: Storable(all[i])
        invariant StoresAll(recs, AsFresh(all)[..k])
        invariant k > 0 ==> offlineQoS0
        decreases |txGMessages|
      {
        var p := txGMessages[0];
        KeptStep(txGMessages);
        txGMessages := txGMessages[1..];
        if p.t == PUBLISH {
          if !offlineQoS0 {
            return Err(Panic);
          }
          assert all[k] == all[k..][0] == p;
          var rec := PersistAppend(Fresh(p));
          FreshAt(all, k);
          StoresNext(recs, AsFresh(all), k, rec);
          recs := recs + [rec];
          k := k + 1;
        }
      }
      KeptNothing();
      return Ok(recs);
    }

    method PersistUnacked() returns (recs: seq<Record>, ghost order: seq<Id>)
      requires CanSave(Value())
      ensures Enumeration(order, pubOut) && StoresAll(recs, Unacked(pubOut, order))
    {
      hide Storable, Saved, Stores;
      recs, order := [], [];
      var left := pubOut.Keys;
      while left != {}
        invariant forall id: Id {:trigger id in left} {:trigger id in order} :: id in pubOut <==> id in left || id in order
        invariant forall id <- order :: id !in left
        invariant forall i, j | 0 <= i < j < |order| :: order[i] != order[j]
        invariant StoresAll(recs, Unacked(pubOut, order))
      {
        var id :| id in left;
        var q := Saved(Unack(pubOut[id]));
        var rec := PersistAppend(q);
        assert Unacked(pubOut, order + [id]) == Unacked(pubOut, order) + [q];
        recs, order := recs + [rec], order + [id];
        left := left - {id};
      }
    }

    /** Saves what the next connection needs: the message queue, the QoS 0 messages, the unacknowledged packets. */
    method Persist() returns (r: Result<seq<Record>>, ghost order: seq<Id>)
      requires CanSave(Value())
      modifies this`txQMessages, this`txGMessages
      ensures r.Err? <==> !offlineQoS0 && Kept(old(txGMessages)) != []
      ensures r.Err? ==> r.error == Panic
      ensures r.Ok? ==> txQMessages == [] && txGMessages == [] && Enumeration(order, pubOut) && StoresAll(r.value, SavedItems(old(Value()), order))
    {
      hide Storable, Saved, Stores;
      order := [];
      var a := PersistQueue();
      var b := PersistOthers();
      if b.Err? {
        return b, [];
      }
      var c;
      c, order := PersistUnacked();
      ghost var s := old(Value());
      StoresConcat(a, SavedAll(s.txQ), b.value, AsFresh(Kept(s.txG)));
      StoresConcat(a + b.value, SavedAll(s.txQ) + AsFresh(Kept(s.txG)), c, Unacked(s.pubOut, order));
      return Ok(a + b.value + c), order;
    }

    method LoadPersistence(decode: bytes -> Result<Packet>, recs: seq<Record>) returns (err: Option<Error>)
      modifies this
      ensures Incoming() == old(Incoming()) && quit == old(quit)
      ensures match Load(decode, old(Value()), recs)
              case Ok(t) => err == None && Value() == t
              case Err(e) => err == Some(e)
    {
      for i := 0 to |recs|
        invariant Load(decode, old(Value()), recs) == Load(decode, Value(), recs[i..])
        invariant Incoming() == old(Incoming()) && quit == old(quit)
      {
        assert recs[i..][0] == recs[i] && recs[i..][1..] == recs[i + 1..];
        var p := decode(recs[i].data);
        if p.Err? {
          return Some(p.error);
        }
        LoadRecord(p.value, recs[i].unack);
      }
      return None;
    }

    method LoadRecord(p: Packet, unack: bool)
      modifies this
      ensures Value() == LoadOne(old(Value()), p, unack) && Incoming() == old(Incoming()) && quit == old(quit)
    {
      if unack {
        if p.body.Publish? || p.body.Ack? {
          FlowReAcquire(PacketId(p));
        }
        txQMessages := txQMessages + [Unack(p)];
      } else if p.body.Publish? {
        if QoS(p.flags) == 0 {
          txGMessages := txGMessages + [p];
        } else {
          txQMessages := txQMessages + [Fresh(p)];
        }
      }
    }
  }

  /** packet.Encode into a buffer of its own. */
  method EncodePacket(p: Packet) returns (data: bytes, ghost order: seq<PropertyId>)
    requires Valid(p) && PacketWriter.Consistent(p) && PacketWriter.EncodeError(p).None? && Size(p).Ok?
    ensures Encodes(p, order) && data == PacketBytes(p, order)
  {
    order := PacketWriter.AnyOrder(p);
    PacketWriter.NothingMissing(p, order);
    hide PacketWriter.EncodeError, Size, MessageLen, ValidProps, PacketBytes, Encodes, PacketWriter.Settled;
    var r;
    r, order := PacketWriter.Encode(p);
    data := r.value[..];
  }

  lemma StorableValid(p: Packet)
    requires Storable(p)
    ensures Valid(p)
  {
    hide Valid;
    if p.t != PUBLISH { PubrelValid(p.version, PacketId(p)); }
  }

  lemma StoredAs(rec: Record, q: Queued, order: seq<PropertyId>)
    requires rec.unack == q.Unack? && q.p.flags < 16 && Encodes(q.p, order) && rec.data == PacketBytes(q.p, order)
    ensures Stores(rec, q)
  {
  }

  lemma NothingStored(qs: seq<Queued>)
    ensures StoresAll([], qs[..0])
  {
  }

  lemma KeptStep(txG: seq<Packet>)
    requires txG != []
    ensures Kept(txG) == if txG[0].t == PUBLISH then [txG[0]] + Kept(txG[1..]) else Kept(txG[1..])
  {
  }

  lemma KeptNothing()
    ensures Kept([]) == []
  {
  }

  lemma FreshAt(ps: seq<Packet>, k: nat)
    requires k < |ps|
    ensures |AsFresh(ps)| == |ps| && AsFresh(ps)[k] == Fresh(ps[k])
  {
  }

  lemma FreshAll(ps: seq<Packet>)
    ensures |AsFresh(ps)| == |ps| && AsFresh(ps)[..|ps|] == AsFresh(ps)
  {
  }

  lemma StoresNext(recs: seq<Record>, qs: seq<Queued>, k: nat, rec: Record)
    requires k < |qs| && StoresAll(recs, qs[..k]) && Stores(rec, qs[k])
    ensures StoresAll(recs + [rec], qs[..k + 1])
  {
    hide Stores;
  }

  lemma StoresConcat(a: seq<Record>, qs: seq<Queued>, b: seq<Record>, rs: seq<Queued>)
    requires StoresAll(a, qs) && StoresAll(b, rs)
    ensures StoresAll(a + b, qs + rs)
  {
    hide Stores;
  }

  /** Some saved message cannot be read by a connection of version `v`. */
  ghost predicate Illegible(s: Out, v: byte) {
    exists order | Enumeration(order, s.pubOut) :: !AllLegible(v, SavedItems(s, order))
  }

  /** A connection saved and another one opened from the records, in whatever version: if it opens, the second
      one's state is that of the first, reopened, with every legible message as it was saved; it opens if all
      of them are legible. */
  method Reconnected(closed: Conn, n: nat, v: byte, decode: bytes -> Result<Packet>)
    returns (next: Conn, err: Option<Error>, ghost r: Return)
    requires Inv(closed.Value()) && CanSave(closed.Value()) && |closed.flowInUse| < n <= 65535
    requires DecodesFor(v, decode) && Supported(v) && (closed.offlineQoS0 || Kept(closed.txGMessages) == [])
    modifies closed
    ensures fresh(next) && (err.Some? ==> Illegible(old(closed.Value()), v))
    ensures err.None? ==> Comes(old(closed.Value()), r) && r.n == n && r.v == v && next.Value() == Reopen(old(closed.Value()), r)
    ensures err.None? ==> var saved := SavedList(old(closed.Value()), r.order);
              forall i {:trigger r.back[i]} | 0 <= i < |r.back| :: Legible(v, saved[i].p) ==> r.back[i] == AsReadIn(saved[i].p, v)
  {
    hide CanSave, StoresAll, DecodesFor, Delivery.Inv, Reopen, SavedItems, SavedList, Kept, Load, ReturnFrom, AsReadIn, Legible, AllLegible, AllReadBack, OthersReadBack;
    ghost var s := closed.Value();
    var recs;
    ghost var order;
    recs, order := closed.Persist();
    next := new Conn(v, n, closed.offlineQoS0);
    err := next.LoadPersistence(decode, recs.value);
    LoadUndoesPersist(s, order, n, v, decode, recs.value);
    if err.None? {
      r := ReturnFrom(s, order, n, v, PacketsIn(decode, recs.value));
      SameReturn(s, order, n, v, PacketsIn(decode, recs.value));
    } else {
      r := Return([], n, v, [], []);
    }
  }
}
