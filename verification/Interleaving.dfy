/** One transmitter and one receiver at work on the send quota, the identifiers in use, the "quota
    exceeded" flag and the queue of unacknowledged packets, one atomic access at a time. */
module Interleaving {
  import opened Common
  import opened Wire
  import opened FlowControl

  /** Where the transmitter is in qPopPacket. From `Locked` on it holds the queue lock. */
  datatype Tx =
    | Idle
    | Locked                                             // has seen the flag down and a fresh message
    | Scanning(hit: bool, start: nat, count: nat)        // has taken quota, is looking for an identifier
    | Acquired(hit: bool, id: Id)                        // has stored the identifier
    | Flagged(id: Id)                                    // has raised the flag if it took the last quota

  /** Where the receiver is in handling an acknowledgement. `late` says that the record of the packet is
      erased at the end, as ackQueue.release does, and not at the start. */
  datatype Rx =
    | Waiting
    | Freeing(id: Id, late: bool)
    | Freed(id: Id, late: bool)                          // the identifier is free again
    | Counted(id: Id, late: bool, signal: bool)          // the quota is back; `signal`: the flag is to be cleared

  datatype Flow = Flow(
    quota: int, counter: nat, inUse: set<Id>, exceeded: bool,
    pubOut: set<Id>,                                     // packets sent and not acknowledged
    queued: set<Id>,                                     // restored packets still to be sent again
    tx: Tx, rx: Rx)

  datatype Step =
    | Lock | Take | Look | Flag | Store | Resend(id: Id)
    | Ack(id: Id) | Refuse(id: Id) | Free | Count | Clear | Erase

  function Look1(s: Flow): Flow
    requires s.tx.Scanning?
  {
    var c := (s.counter + 1) % CounterRange;
    var id := c % IdCount;
    if id !in s.inUse || s.tx.count + 1 == IdCount
    then s.(counter := c, inUse := s.inUse + {id}, tx := Acquired(s.tx.hit, id))
    else s.(counter := c, tx := s.tx.(count := s.tx.count + 1))
  }

  /** One atomic step, where it can be taken. */
  function Next(s: Flow, a: Step): Option<Flow> {
    match a
    case Lock => if s.tx.Idle? && !s.exceeded then Some(s.(tx := Locked)) else None
    case Take => if s.tx.Locked? then Some(s.(quota := s.quota - 1, tx := Scanning(s.quota - 1 == 0, s.counter, 0))) else None
    case Look => if s.tx.Scanning? then Some(Look1(s)) else None
    case Flag => if s.tx.Acquired? then Some(s.(exceeded := s.exceeded || s.tx.hit, tx := Flagged(s.tx.id))) else None
    case Store => if s.tx.Flagged? then Some(s.(pubOut := s.pubOut + {s.tx.id}, tx := Idle)) else None
    case Resend(id) =>
      if s.tx.Idle? && !s.exceeded && id in s.queued then Some(s.(queued := s.queued - {id}, pubOut := s.pubOut + {id})) else None
    case Ack(id) => if s.rx.Waiting? && id in s.pubOut then Some(s.(rx := Freeing(id, true))) else None
    case Refuse(id) => if s.rx.Waiting? && id in s.pubOut then Some(s.(pubOut := s.pubOut - {id}, rx := Freeing(id, false))) else None
    case Free => if s.rx.Freeing? then Some(s.(inUse := s.inUse - {s.rx.id}, rx := Freed(s.rx.id, s.rx.late))) else None
    case Count =>
      if s.rx.Freed? then Some(s.(quota := s.quota + 1, rx := Counted(s.rx.id, s.rx.late, s.quota + 1 == 1))) else None
    case Clear =>
      if s.rx.Counted? && s.rx.signal && s.tx.Idle? then Some(s.(exceeded := false, rx := s.rx.(signal := false))) else None
    case Erase =>
      if s.rx.Counted? && !s.rx.signal
      then Some(s.(pubOut := if s.rx.late then s.pubOut - {s.rx.id} else s.pubOut, rx := Waiting)) else None
  }

  // ---------------------------------------------------------------- what every step keeps

  /** The transmitter has taken the last quota and not yet raised the flag. */
  predicate Hit(s: Flow) {
    (s.tx.Scanning? || s.tx.Acquired?) && s.tx.hit
  }

  predicate Clearing(s: Flow) {
    s.rx.Counted? && s.rx.signal
  }

  /** The receiver is done with `id` but its record is still there. */
  predicate Stale(s: Flow, id: Id) {
    (s.rx.Freed? || s.rx.Counted?) && s.rx.late && s.rx.id == id
  }

  predicate Holds(s: Flow, id: Id) {
    (s.tx.Acquired? || s.tx.Flagged?) && s.tx.id == id
  }

  function InHand(s: Flow): nat {
    (if s.tx.Scanning? then 1 else 0) + (if s.rx.Freed? then 1 else 0)
  }

  /** Quota and identifiers add up to the negotiated maximum, but for what is in hand between two accesses. */
  predicate Balanced(n: nat, s: Flow) {
    0 <= s.quota && s.quota + |s.inUse| + InHand(s) == n
  }

  predicate FlagRight(s: Flow) {
    && (!s.exceeded && !Hit(s) ==> s.quota >= 1)
    && ((s.exceeded || Hit(s)) && s.quota > 0 ==> Clearing(s))
    && (Clearing(s) ==> s.quota >= 1 && (s.exceeded || Hit(s)))
    && (s.tx.Locked? || s.tx.Scanning? || s.tx.Acquired? ==> !s.exceeded)
  }

  /** A search under way still has a free identifier in front of it. */
  ghost predicate SearchRight(s: Flow) {
    s.tx.Scanning? ==>
      && s.tx.count < IdCount && s.counter % IdCount == Probe(s.tx.start, s.tx.count)
      && exists k :: s.tx.count < k <= IdCount && Probe(s.tx.start, k) !in s.inUse
  }

  predicate RecordsRight(s: Flow) {
    && (forall id <- s.pubOut :: id in s.inUse || Stale(s, id))
    && s.queued <= s.inUse && s.queued !! s.pubOut
    && (!s.rx.Waiting? ==> s.rx.id !in s.queued)
    && (s.rx.Freeing? ==> s.rx.id in s.inUse && !Holds(s, s.rx.id) && (!s.rx.late ==> s.rx.id !in s.pubOut))
    && (s.tx.Acquired? || s.tx.Flagged? ==>
          s.tx.id in s.inUse && s.tx.id !in s.queued && (s.tx.id in s.pubOut ==> Stale(s, s.tx.id)))
  }

  ghost predicate Inv(n: nat, s: Flow) {
    Balanced(n, s) && FlagRight(s) && SearchRight(s) && RecordsRight(s)
  }

  lemma KeepsBalance(n: nat, s: Flow, a: Step)
    requires Inv(n, s) && Next(s, a).Some?
    ensures Balanced(n, Next(s, a).value)
  {
    hide Probe;
    if a.Look? { LookFinds(s); }
    if a.Take? { assert !Hit(s); }
  }

  lemma KeepsFlag(n: nat, s: Flow, a: Step)
    requires Inv(n, s) && Next(s, a).Some?
    ensures FlagRight(Next(s, a).value)
  {
    hide SearchRight, RecordsRight, Probe;
  }

  /** A look that ends the search ends it with an identifier that was free. */
  lemma LookFinds(s: Flow)
    requires SearchRight(s) && s.tx.Scanning?
    ensures var t := Look1(s);
            && t.counter % IdCount == Probe(s.tx.start, s.tx.count + 1)
            && (t.tx.Acquired? ==> t.tx.id !in s.inUse)
            && (t.tx.Scanning? ==> SearchRight(t))
  {
    var k :| s.tx.count < k <= IdCount && Probe(s.tx.start, k) !in s.inUse;
    NextProbe(s.counter, s.tx.start, s.tx.count);
    hide Probe;
    var t := Look1(s);
    if t.tx.Scanning? {
      assert k != s.tx.count + 1;
      assert t.tx.count < k <= IdCount && Probe(t.tx.start, k) !in t.inUse;
    }
  }

  lemma NextProbe(counter: nat, start: nat, count: nat)
    requires counter % IdCount == Probe(start, count)
    ensures (counter + 1) % CounterRange % IdCount == Probe(start, count + 1)
  {
    CounterWraps(counter, 1);
    var a, b := counter / IdCount, (start + count) / IdCount;
    var r := counter % IdCount;
    assert counter + 1 == a * IdCount + (r + 1) && start + count + 1 == b * IdCount + (r + 1);
    AddMultiple(r + 1, a);
    AddMultiple(r + 1, b);
  }

  lemma KeepsSearch(n: nat, s: Flow, a: Step)
    requires n < IdCount && Inv(n, s) && Next(s, a).Some?
    ensures SearchRight(Next(s, a).value)
  {
    hide RecordsRight;
    var t := Next(s, a).value;
    match a
    case Take =>
      assert s.quota >= 1;
      FreeIdFound(s.counter, s.inUse);
      var k := FirstFree(s.counter, s.inUse, 1);
      assert 0 < k <= IdCount && Probe(s.counter, k) !in s.inUse;
    case Look => LookFinds(s);
    case Free =>
      if s.tx.Scanning? {
        var k :| s.tx.count < k <= IdCount && Probe(s.tx.start, k) !in s.inUse;
        assert Probe(s.tx.start, k) !in t.inUse;
      }
    case _ =>
  }

  lemma KeepsRecords(n: nat, s: Flow, a: Step)
    requires Inv(n, s) && Next(s, a).Some?
    ensures RecordsRight(Next(s, a).value)
  {
    hide Balanced, FlagRight, Probe;
    if a.Look? { LookFinds(s); }
  }

  lemma KeepsInv(n: nat, s: Flow, a: Step)
    requires n < IdCount && Inv(n, s) && Next(s, a).Some?
    ensures Inv(n, Next(s, a).value)
  {
    hide Balanced, FlagRight, SearchRight, RecordsRight, Next;
    KeepsBalance(n, s, a);
    KeepsFlag(n, s, a);
    KeepsSearch(n, s, a);
    KeepsRecords(n, s, a);
  }

  // ---------------------------------------------------------------- runs

  function Run(s: Flow, steps: seq<Step>): Option<Flow>
    decreases |steps|
  {
    if steps == [] then Some(s)
    else
      match Next(s, steps[0])
      case None => None
      case Some(t) => Run(t, steps[1..])
  }

  lemma {:induction false} RunKeepsInv(n: nat, s: Flow, steps: seq<Step>)
    requires n < IdCount && Inv(n, s) && Run(s, steps).Some?
    ensures Inv(n, Run(s, steps).value)
    decreases |steps|
  {
    hide Inv, Next;
    if steps != [] {
      KeepsInv(n, s, steps[0]);
      RunKeepsInv(n, Next(s, steps[0]).value, steps[1..]);
    }
  }

  /** A connection that starts with the packets `ids` restored from an earlier one. */
  function Restored(n: nat, ids: set<Id>): Flow {
    Flow(n - |ids|, 0, ids, false, {}, ids, Idle, Waiting)
  }

  /** In every interleaving: the quota is never negative; between accesses quota and identifiers in use
      make up the negotiated maximum; a raised flag with quota left has its clearing under way; an
      identifier that is handed out was free. */
  lemma EveryInterleaving(n: nat, ids: set<Id>, steps: seq<Step>)
    requires 1 <= n <= 65535 && |ids| < n && Run(Restored(n, ids), steps).Some?
    ensures var s := Run(Restored(n, ids), steps).value;
            && s.quota >= 0
            && (!s.tx.Scanning? && !s.rx.Freed? ==> s.quota + |s.inUse| == n)
            && (s.exceeded && s.quota > 0 ==> Clearing(s))
            && (s.tx.Scanning? && Look1(s).tx.Acquired? ==> Look1(s).tx.id !in s.inUse)
  {
    RunKeepsInv(n, Restored(n, ids), steps);
    var s := Run(Restored(n, ids), steps).value;
    if s.tx.Scanning? { LookFinds(s); }
  }

  /** The quota stays non-negative in every run exactly if fewer packets were restored than the quota allows. */
  lemma SafeExactlyIfFewerRestored(n: nat, ids: set<Id>)
    requires 1 <= n <= 65535
    ensures (forall steps {:trigger Run(Restored(n, ids), steps)} ::
               Run(Restored(n, ids), steps).Some? ==> Run(Restored(n, ids), steps).value.quota >= 0)
            <==> |ids| < n
  {
    if |ids| < n {
      forall steps | Run(Restored(n, ids), steps).Some? ensures Run(Restored(n, ids), steps).value.quota >= 0 {
        RunKeepsInv(n, Restored(n, ids), steps);
      }
    } else {
      var s := Restored(n, ids);
      var steps := [Lock, Take];
      var t := Next(s, Lock).value;
      assert steps[1..] == [Take] && [Take][1..] == [];
      assert Run(t, [Take]) == Run(Next(t, Take).value, []);
      assert Run(s, steps).value.quota == n - |ids| - 1;
    }
  }

  // ---------------------------------------------------------------- records that get lost

  /** Every identifier in use belongs to a packet an acknowledgement can still reach. */
  predicate NoOrphans(s: Flow) {
    forall id <- s.inUse :: id in s.pubOut || id in s.queued || Holds(s, id) || (s.rx.Freeing? && s.rx.id == id)
  }

  /** ackQueue.release frees the identifier before it erases the record. If the transmitter has taken the
      identifier again and stored its packet in between, it is the new record that is erased: the erasing
      step is the only one that can lose a packet, and it does exactly then. */
  lemma OnlyLateEraseOrphans(n: nat, s: Flow, a: Step)
    requires Inv(n, s) && NoOrphans(s) && Next(s, a).Some?
    ensures NoOrphans(Next(s, a).value) <==>
            !(a.Erase? && s.rx.late && s.rx.id in s.inUse && !Holds(s, s.rx.id))
  {
    hide Balanced, FlagRight, Probe;
    if a.Look? { LookFinds(s); }
    if a.Erase? && s.rx.late && s.rx.id in s.inUse && !Holds(s, s.rx.id) {
      assert s.rx.id !in Next(s, a).value.pubOut;
      assert Next(s, a).value.inUse == s.inUse;
    }
  }

  function LossRun(): seq<Step> {
    [Resend(1), Ack(1), Free, Lock, Take, Look, Flag, Store, Count, Erase]
  }

  /** It does happen: with one packet restored under identifier 1, its acknowledgement and the first
      message of the new connection can meet so that the new packet's record is lost. */
  lemma RecordLost(n: nat)
    requires 3 <= n <= 65535
    ensures var r := Run(Restored(n, {1}), LossRun());
            r.Some? && r.value.inUse == {1} && r.value.pubOut == {} && r.value.quota == n - 1 && !NoOrphans(r.value)
  {
    hide Run;
    RunNothing();
    var s0 := Restored(n, {1});
    var s1 := s0.(queued := {}, pubOut := {1});
    var s2 := s1.(rx := Freeing(1, true));
    var s3 := s2.(inUse := {}, rx := Freed(1, true));
    var s4 := s3.(tx := Locked);
    var s5 := s4.(quota := n - 2, tx := Scanning(false, 0, 0));
    var s6 := s5.(counter := 1, inUse := {1}, tx := Acquired(false, 1));
    var s7 := s6.(tx := Flagged(1));
    var s8 := s7.(tx := Idle);
    var s9 := s8.(quota := n - 1, rx := Counted(1, true, false));
    var s10 := s9.(pubOut := {}, rx := Waiting);
    var none: set<Id>, one: set<Id> := {}, {1};
    assert one - one == none && none + one == one && one + one == one;
    var r := LossRun();
    StepAt(s0, s1, r, 0);
    StepAt(s1, s2, r, 1);
    StepAt(s2, s3, r, 2);
    StepAt(s3, s4, r, 3);
    StepAt(s4, s5, r, 4);
    StepAt(s5, s6, r, 5);
    StepAt(s6, s7, r, 6);
    StepAt(s7, s8, r, 7);
    StepAt(s8, s9, r, 8);
    StepAt(s9, s10, r, 9);
    assert r[0..] == r && r[10..] == [];
    assert 1 in s10.inUse;
  }

  lemma RunNothing()
    ensures forall s {:trigger Run(s, [])} :: Run(s, []) == Some(s)
  {
  }

  lemma StepAt(s: Flow, t: Flow, r: seq<Step>, k: nat)
    requires k < |r| && Next(s, r[k]) == Some(t)
    ensures Run(s, r[k..]) == Run(t, r[k + 1..])
  {
    assert r[k..][1..] == r[k + 1..];
  }

  // ---------------------------------------------------------------- one side at work alone

  lemma FirstStep(s: Flow, a: Step, rest: seq<Step>)
    requires Next(s, a).Some?
    ensures Run(s, [a] + rest) == Run(Next(s, a).value, rest)
  {
    assert ([a] + rest)[1..] == rest;
  }

  lemma LastStep(s: Flow, a: Step)
    requires Next(s, a).Some?
    ensures Run(s, [a]) == Next(s, a)
  {
    assert [a][1..] == [];
  }

  /** The steps from a free identifier on. */
  function Settling(s: Flow): seq<Step> {
    if s.quota == 0 then [Count, Clear, Erase] else [Count, Erase]
  }

  /** With the transmitter idle the receiver finishes an acknowledgement: the identifier is free, the quota back, the
      flag down if the quota had been used up, and the record gone. */
  lemma AckAlone(s: Flow, id: Id)
    requires s.rx.Waiting? && s.tx.Idle? && id in s.pubOut
    ensures var done := s.(quota := s.quota + 1, inUse := s.inUse - {id}, pubOut := s.pubOut - {id}, exceeded := s.exceeded && s.quota != 0);
            Run(s, [Ack(id)] + ([Free] + Settling(s))) == Some(done) && Run(s, [Refuse(id)] + ([Free] + Settling(s))) == Some(done)
  {
    var a, r := Next(s, Ack(id)).value, Next(s, Refuse(id)).value;
    FirstStep(s, Ack(id), [Free] + Settling(s));
    FirstStep(s, Refuse(id), [Free] + Settling(s));
    FirstStep(a, Free, Settling(s));
    FirstStep(r, Free, Settling(s));
    Settled(Next(a, Free).value);
    Settled(Next(r, Free).value);
    hide Run;
  }

  lemma Settled(s: Flow)
    requires s.rx.Freed? && s.tx.Idle?
    ensures Run(s, Settling(s)) ==
            Some(s.(quota := s.quota + 1, exceeded := s.exceeded && s.quota != 0,
                    pubOut := if s.rx.late then s.pubOut - {s.rx.id} else s.pubOut, rx := Waiting))
  {
    var t := Next(s, Count).value;
    if s.quota == 0 {
      var u := Next(t, Clear).value;
      assert Settling(s) == [Count] + ([Clear] + [Erase]);
      FirstStep(s, Count, [Clear] + [Erase]);
      FirstStep(t, Clear, [Erase]);
      LastStep(u, Erase);
    } else {
      assert Settling(s) == [Count] + [Erase];
      FirstStep(s, Count, [Erase]);
      LastStep(t, Erase);
    }
    hide Run;
  }

  function Looks(k: nat): seq<Step> {
    seq(k, _ => Look)
  }

  /** Looking on from step `j` of a search that started behind `c`, up to the first free identifier. */
  lemma {:induction false} LooksFind(s: Flow, c: nat, j: nat, k: nat, rest: seq<Step>)
    requires s.tx.Scanning? && s.tx.count == j < k <= IdCount && s.counter == (c + j) % CounterRange
    requires (forall i | j < i < k :: Probe(c, i) in s.inUse) && (k == IdCount || Probe(c, k) !in s.inUse)
    ensures Run(s, Looks(k - j) + rest) ==
            Run(s.(counter := (c + k) % CounterRange, inUse := s.inUse + {Probe(c, k)}, tx := Acquired(s.tx.hit, Probe(c, k))), rest)
    decreases k - j
  {
    var next := (s.counter + 1) % CounterRange;
    NextCounter(c, j);
    CounterWraps(c, j + 1);
    var t := Next(s, Look).value;
    assert Looks(k - j) + rest == [Look] + (Looks(k - j - 1) + rest);
    FirstStep(s, Look, Looks(k - j - 1) + rest);
    if j + 1 < k {
      LooksFind(t, c, j + 1, k, rest);
    } else {
      assert Looks(0) + rest == rest;
    }
  }

  lemma NextCounter(c: nat, j: nat)
    ensures ((c + j) % CounterRange + 1) % CounterRange == (c + j + 1) % CounterRange
  {
    var q, r := (c + j) / CounterRange, (c + j) % CounterRange;
    assert c + j + 1 == q * CounterRange + (r + 1);
    if r + 1 == CounterRange {
      assert c + j + 1 == (q + 1) * CounterRange + 0;
    }
  }

  /** With the receiver idle the transmitter sends a message: it gets the first free identifier in turn, one from the
      quota, and the flag goes up with the last. */
  lemma SendAlone(s: Flow)
    requires s.tx.Idle? && !s.exceeded && s.counter < CounterRange
    ensures var k := FirstFree(s.counter, s.inUse, 1);
            var id := Probe(s.counter, k);
            Run(s, [Lock] + ([Take] + (Looks(k) + ([Flag] + [Store])))) ==
            Some(s.(quota := s.quota - 1, counter := (s.counter + k) % CounterRange, inUse := s.inUse + {id},
                    exceeded := s.quota - 1 == 0, pubOut := s.pubOut + {id}))
  {
    hide Run, Probe, Looks, Next;
    var k := FirstFree(s.counter, s.inUse, 1);
    var id := Probe(s.counter, k);
    var u := s.(quota := s.quota - 1, tx := Scanning(s.quota - 1 == 0, s.counter, 0));
    var v := u.(counter := (s.counter + k) % CounterRange, inUse := s.inUse + {id}, tx := Acquired(s.quota - 1 == 0, id));
    SendBegins(s, Looks(k) + ([Flag] + [Store]));
    LooksFind(u, s.counter, 0, k, [Flag] + [Store]);
    SendEnds(v);
  }

  lemma SendBegins(s: Flow, rest: seq<Step>)
    requires s.tx.Idle? && !s.exceeded
    ensures Run(s, [Lock] + ([Take] + rest)) == Run(s.(quota := s.quota - 1, tx := Scanning(s.quota - 1 == 0, s.counter, 0)), rest)
  {
    FirstStep(s, Lock, [Take] + rest);
    FirstStep(s.(tx := Locked), Take, rest);
    hide Run;
  }

  lemma SendEnds(v: Flow)
    requires v.tx.Acquired? && !v.exceeded
    ensures Run(v, [Flag] + [Store]) == Some(v.(exceeded := v.tx.hit, pubOut := v.pubOut + {v.tx.id}, tx := Idle))
  {
    FirstStep(v, Flag, [Store]);
    LastStep(v.(exceeded := v.tx.hit, tx := Flagged(v.tx.id)), Store);
    hide Run;
  }
}
