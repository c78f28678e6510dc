/** How the transmitter routine is woken: the token in txAvailable, the txRunning flag, and what becomes of a
    message that is pushed while the routine is about to stop. */
module WakeUp {
  import opened Common

  /** Where the transmitter routine is. */
  datatype Tx =
    | Off                                                // there is none, or it is leaving its loop
    | Waiting                                            // in its select
    | Deciding(more: bool, stop: bool)                   // has looked whether there is more to send, and will stop if not

  /** What a turn does to the buffers: the first packets, more of them, or enough to flush at once. */
  datatype Fill = First | More | Full

  datatype Wake = Wake(
    running: bool,                                       // txRunning
    token: bool,                                         // txAvailable
    work: nat,                                           // packets that can be sent: queued, and quota left for them
    armed: bool,                                         // txTimer
    pushed: nat,                                         // pushers that have queued and not yet signalled
    signalled: nat,                                      // pushers that have signalled and not yet called txRun
    tx: Tx)

  datatype Step =
    | Push | Signal | Run                                // qPush, gPush and signalQuota
    | Turn(k: nat, fill: Fill) | Tick | Decide           // txRoutine

  predicate Enabled(s: Wake, a: Step) {
    match a
    case Push => true
    case Signal => s.pushed > 0
    case Run => s.signalled > 0
    case Turn(k, _) => s.tx.Waiting? && s.token && (if s.work == 0 then k == 0 else 1 <= k <= 2 && k <= s.work)
    case Tick => s.tx.Waiting? && s.armed
    case Decide => s.tx.Deciding?
  }

  function Next(s: Wake, a: Step): Wake
    requires Enabled(s, a)
  {
    match a
    case Push => s.(work := s.work + 1, pushed := s.pushed + 1)
    case Signal => s.(token := true, pushed := s.pushed - 1, signalled := s.signalled + 1)
    case Run =>
      var t := s.(signalled := s.signalled - 1);
      if s.running then t else t.(running := true, tx := Waiting)
    case Turn(k, fill) =>
      s.(token := false, work := s.work - k, armed := match fill case First => true case More => s.armed case Full => false,
         tx := Deciding(s.work - k > 0, fill.Full?))
    case Tick => s.(armed := false, tx := Deciding(s.work > 0, true))
    case Decide =>
      if s.tx.more then s.(token := true, tx := Waiting)
      else if s.tx.stop then s.(running := false, tx := Off)
      else s.(tx := Waiting)
  }

  function RunAll(s: Wake, steps: seq<Step>): Option<Wake>
    decreases |steps|
  {
    if steps == [] then Some(s) else if Enabled(s, steps[0]) then RunAll(Next(s, steps[0]), steps[1..]) else None
  }

  const Started := Wake(true, false, 0, false, 0, 0, Waiting)

  // ---------------------------------------------------------------- what always holds

  /** There is a token for work that nobody is about to signal, or the routine will leave one; and the flag
      tells whether there is a routine. */
  predicate Sound(s: Wake) {
    && (s.work > 0 && s.pushed == 0 ==> s.token || (s.tx.Deciding? && s.tx.more))
    && (s.running <==> !s.tx.Off?)
  }

  lemma KeepsSound(s: Wake, a: Step)
    requires Sound(s) && Enabled(s, a)
    ensures Sound(Next(s, a))
  {
  }

  // ---------------------------------------------------------------- stalled messages

  /** Packets could be sent, but there is no routine and nobody is about to start one. */
  predicate Stalled(s: Wake) {
    s.work > 0 && s.tx.Off? && s.pushed == 0 && s.signalled == 0
  }

  /** The routine has decided to stop, and nobody will start it again for the packets there are. */
  predicate Doomed(s: Wake) {
    s.work > 0 && s.tx == Deciding(false, true) && s.pushed == 0 && s.signalled == 0
  }

  predicate Fine(s: Wake) {
    Sound(s) && !Stalled(s) && !Doomed(s)
  }

  /** The last pusher calls txRun when the routine has found nothing to send and has not yet said that it stops. */
  predicate Missed(s: Wake, a: Step) {
    a.Run? && s.tx == Deciding(false, true) && s.work > 0 && s.pushed == 0 && s.signalled == 1
  }

  /** Each step keeps packets from stalling, except exactly the call of txRun that comes between the routine's
      check and its stopping. */
  lemma FineExceptWhenMissed(s: Wake, a: Step)
    requires Fine(s) && Enabled(s, a)
    ensures Fine(Next(s, a)) <==> !Missed(s, a)
  {
  }

  predicate NoneMissed(s: Wake, steps: seq<Step>)
    decreases |steps|
  {
    steps != [] && Enabled(s, steps[0]) ==> !Missed(s, steps[0]) && NoneMissed(Next(s, steps[0]), steps[1..])
  }

  /** In every run without such a call no packet is ever left without a routine to send it. */
  lemma {:induction false} NothingStalls(s: Wake, steps: seq<Step>)
    requires Fine(s) && RunAll(s, steps).Some? && NoneMissed(s, steps)
    ensures Fine(RunAll(s, steps).value)
    decreases |steps|
  {
    hide Fine, Missed, Enabled, Next;
    if steps != [] {
      FineExceptWhenMissed(s, steps[0]);
      NothingStalls(Next(s, steps[0]), steps[1..]);
    }
  }

  /** After one, the packets stall whatever is done short of another push: the routine stops, and from then on
      nothing at all can happen. */
  lemma MissedStalls(s: Wake, a: Step)
    requires Fine(s) && Enabled(s, a) && Missed(s, a)
    ensures var t := Next(s, a);
            && Doomed(t) && (forall b | Enabled(t, b) :: b.Push? || b.Decide?) && Stalled(Next(t, Decide))
            && forall b | Enabled(Next(t, Decide), b) :: b.Push?
  {
  }

  lemma FirstStep(s: Wake, a: Step, rest: seq<Step>)
    requires Enabled(s, a)
    ensures RunAll(s, [a] + rest) == RunAll(Next(s, a), rest)
  {
    assert ([a] + rest)[1..] == rest;
  }

  /** A turn takes at most one packet from each of the two queues, and none only if there is none. */
  lemma TurnExactly(s: Wake, k: nat, fill: Fill)
    ensures Enabled(s, Turn(k, fill)) <==>
            s.tx.Waiting? && s.token && ((k == 0 && s.work == 0) || (k == 1 && s.work >= 1) || (k == 2 && s.work >= 2))
  {
  }

  /** And while packets do not stall, those that can be sent get sent: without another push, the steps under way
      lead to a turn that takes one. */
  lemma WorkGetsDone(s: Wake) returns (steps: seq<Step>)
    requires Fine(s) && s.work > 0
    ensures (forall i {:trigger steps[i]} | 0 <= i < |steps| :: !steps[i].Push?)
    ensures RunAll(s, steps).Some? && RunAll(s, steps).value.work == s.work - 1
  {
    hide Enabled, Next, RunAll;
    if s.pushed > 0 {
      SignalSpelled(s);
      steps := WokenUp(Next(s, Signal));
      FirstStep(s, Signal, steps);
      steps := [Signal] + steps;
    } else {
      steps := WokenUp(s);
    }
  }

  lemma SignalSpelled(s: Wake)
    requires s.pushed > 0
    ensures Enabled(s, Signal) && Next(s, Signal) == s.(token := true, pushed := s.pushed - 1, signalled := s.signalled + 1)
  {
  }

  /** The routine waits with a token, or will once it has decided or been started. */
  predicate Wakes(s: Wake) {
    && (s.token || (s.tx.Deciding? && s.tx.more)) && (s.running <==> !s.tx.Off?)
    && (s.tx.Off? || s.tx == Deciding(false, true) ==> s.signalled > 0)
  }

  lemma WokenUp(s: Wake) returns (steps: seq<Step>)
    requires Wakes(s) && s.work > 0
    ensures (forall i {:trigger steps[i]} | 0 <= i < |steps| :: !steps[i].Push?)
    ensures RunAll(s, steps).Some? && RunAll(s, steps).value.work == s.work - 1
    decreases match s.tx case Deciding(_, _) => 2 case Off => 1 case Waiting => 0
  {
    var a := match s.tx case Deciding(_, _) => Decide case Off => Step.Run case Waiting => Turn(1, First);
    assert Enabled(s, a);
    var t := Next(s, a);
    if s.tx.Waiting? {
      steps := [];
      assert RunAll(t, []) == Some(t);
    } else {
      assert Wakes(t) && t.work == s.work;
      steps := WokenUp(t);
    }
    hide Enabled, Next;
    FirstStep(s, a, steps);
    steps := [a] + steps;
  }

  function StallingRun(): seq<Step> {
    [Push, Signal, Run, Turn(1, First), Decide, Tick, Push, Signal, Run, Decide]
  }

  /** The states StallingRun goes through. */
  function StallAt(k: nat): Wake {
    match k
    case 0 => Started
    case 1 => Wake(true, false, 1, false, 1, 0, Waiting)
    case 2 => Wake(true, true, 1, false, 0, 1, Waiting)
    case 3 => Wake(true, true, 1, false, 0, 0, Waiting)
    case 4 => Wake(true, false, 0, true, 0, 0, Deciding(false, false))
    case 5 => Wake(true, false, 0, true, 0, 0, Waiting)
    case 6 => Wake(true, false, 0, false, 0, 0, Deciding(false, true))
    case 7 => Wake(true, false, 1, false, 1, 0, Deciding(false, true))
    case 8 => Wake(true, true, 1, false, 0, 1, Deciding(false, true))
    case 9 => Wake(true, true, 1, false, 0, 0, Deciding(false, true))
    case _ => Wake(false, true, 1, false, 0, 0, Off)
  }

  /** The first message goes out. */
  lemma StallStep(k: nat)
    requires k < 5
    ensures Enabled(StallAt(k), StallingRun()[k]) && Next(StallAt(k), StallingRun()[k]) == StallAt(k + 1)
  {
  }

  /** The second one stays. */
  lemma StallStepLater(k: nat)
    requires 5 <= k < 10
    ensures Enabled(StallAt(k), StallingRun()[k]) && Next(StallAt(k), StallingRun()[k]) == StallAt(k + 1)
  {
  }

  lemma {:induction false} StallFrom(k: nat)
    requires k <= 10
    ensures RunAll(StallAt(k), StallingRun()[k..]) == Some(StallAt(10))
    decreases 10 - k
  {
    hide Enabled, Next, StallAt;
    if k < 10 {
      if k < 5 { StallStep(k); } else { StallStepLater(k); }
      assert StallingRun()[k..][0] == StallingRun()[k] && StallingRun()[k..][1..] == StallingRun()[k + 1..];
      StallFrom(k + 1);
    }
  }

  /** It does happen: the second message is pushed between the timer's check and its stopping the routine. */
  lemma MessageStalls()
    ensures Fine(Started) && RunAll(Started, StallingRun()).Some? && Stalled(RunAll(Started, StallingRun()).value)
  {
    hide RunAll;
    StallFrom(0);
    assert StallingRun()[0..] == StallingRun();
  }
}
