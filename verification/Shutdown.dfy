/** Shutdown stops the sessions in the map without taking the locks of their wraps: what that does to a session
    in each phase of a connection being set up. */
module Shutdown {
  import opened Common
  import opened Wire
  import opened Packets
  import Life = SessionLife
  import opened SessionLife
  import opened Sessions

  // ---------------------------------------------------------------- phase by phase

  /** A session that is online, or offline and waiting for its timer: stopping it keeps everything right. */
  lemma HaltSettled(m: Mgr, id: ClientId, e: Ending, at: nat)
    requires Right(m) && id in m.sessions && SessionOf(m, id) !in m.joining
    ensures Sessions.Enabled(m, Halt(id, e, at)) && Right(Sessions.Apply(m, Halt(id, e, at)))
    ensures Sessions.Apply(m, Halt(id, e, at)).all[SessionOf(m, id)].finalized
  {
    StepKeeps(m, Halt(id, e, at));
    StopFinalizes(m.all[SessionOf(m, id)], e.p, e.has, at);
    hide Right, StopSession;
  }

  /** A connection that is allocated: the stop waits until it has been started, and then keeps everything right. */
  lemma HaltAllocatedWaits(m: Mgr, id: ClientId, e: Ending, at: nat)
    requires Right(m) && id in m.sessions && Waits(m, SessionOf(m, id))
    ensures var i := SessionOf(m, id);
            && !Sessions.Enabled(m, Halt(id, e, at)) && Sessions.Enabled(m, Start(i))
            && Right(Sessions.Apply(m, Start(i))) && id in Sessions.Apply(m, Start(i)).sessions && SessionOf(Sessions.Apply(m, Start(i)), id) == i
            && Sessions.Enabled(Sessions.Apply(m, Start(i)), Halt(id, e, at))
            && Right(Sessions.Apply(Sessions.Apply(m, Start(i)), Halt(id, e, at)))
  {
    var i := SessionOf(m, id);
    StepKeeps(m, Start(i));
    HaltSettled(Sessions.Apply(m, Start(i)), id, e, at);
  }

  /** A new session that has no connection yet: the stop runs into a fault. */
  lemma HaltNewCrashes(m: Mgr, id: ClientId, e: Ending, at: nat)
    requires Right(m) && id in m.sessions && var i := SessionOf(m, id); i in m.joining && !m.joining[i].Allocated? && m.joining[i].isNew
    ensures Sessions.Enabled(m, Halt(id, e, at)) && Sessions.Apply(m, Halt(id, e, at)).crashed
  {
  }

  /** What a stop makes of a session that is neither online nor ended nor waiting for its timer. */
  lemma StopJoining(s: State, e: Ending, at: nat)
    requires Joining(s)
    ensures StopSession(s, e.p, e.has, at) == s.(finalized := true, closed := [Closed(at, Shutdown)])
  {
    assert [] + [Closed(at, Shutdown)] == [Closed(at, Shutdown)];
  }

  lemma OneStep(m: Mgr, e: Step, t: Mgr, es: seq<Step>)
    requires Shaped(m) && Sessions.Enabled(m, e) && Sessions.Apply(m, e) == t
    ensures Sessions.Run(m, [e] + es) == Sessions.Run(t, es)
    ensures !e.Halt? && CalmRun(t, es) ==> CalmRun(m, [e] + es)
  {
    hide Sessions.Enabled, Sessions.Apply;
    assert ([e] + es)[0] == e && ([e] + es)[1..] == es;
  }

  lemma NoSteps(m: Mgr)
    ensures Sessions.Run(m, []) == Some(m) && CalmRun(m, [])
  {
  }

  /** The state after a session being set up has been stopped. */
  function Halted(m: Mgr, i: nat, at: nat): Mgr
    requires i < |m.all| == |m.ids|
  {
    m.(all := m.all[i := m.all[i].(finalized := true, closed := [Closed(at, Shutdown)])],
       count := m.count - 1, sessions := m.sessions - {m.ids[i]})
  }

  lemma HaltJoining(m: Mgr, id: ClientId, e: Ending, at: nat)
    requires Right(m) && id in m.sessions && var i := SessionOf(m, id); i in m.joining && !m.joining[i].Allocated? && !m.joining[i].isNew
    ensures Sessions.Enabled(m, Halt(id, e, at)) && Sessions.Apply(m, Halt(id, e, at)) == Halted(m, SessionOf(m, id), at)
    ensures Halted(m, SessionOf(m, id), at).count == Unfinalized(Halted(m, SessionOf(m, id), at).all)
    ensures Shaped(Halted(m, SessionOf(m, id), at)) && Joining(m.all[SessionOf(m, id)])
  {
    hide Unfinalized;
    var i := SessionOf(m, id);
    assert SessionRight(m, i);
    StopJoining(m.all[i], e, at);
    OneChanged(m.all, i, m.all[i].(finalized := true, closed := [Closed(at, Shutdown)]));
  }

  /** What follows when it had not been configured yet. */
  function ShortRun(i: nat, c: Conf): seq<Step> {
    [Configure(i, c)] + ([Allocate(i)] + ([Start(i)] + []))
  }

  /** A session switched back and not configured yet: its close has been signalled, and setting the connection
      up brings it back to life, uncounted. */
  lemma HaltClaimedShort(m: Mgr, id: ClientId, e: Ending, at: nat, c: Conf)
    requires Right(m) && id in m.sessions && var i := SessionOf(m, id); i in m.joining && m.joining[i] == Claimed(false)
    ensures Sessions.Enabled(m, Halt(id, e, at)) && !Sessions.Apply(m, Halt(id, e, at)).crashed
    ensures var t, es := Sessions.Apply(m, Halt(id, e, at)), ShortRun(SessionOf(m, id), c);
            && CalmRun(t, es) && Sessions.Run(t, es).Some?
            && var u := Sessions.Run(t, es).value; SessionOf(m, id) < |u.all| && u.all[SessionOf(m, id)].online && u.count == Unfinalized(u.all) - 1
  {
    hide Unfinalized;
    var i := SessionOf(m, id);
    HaltJoining(m, id, e, at);
    var t := Halted(m, i, at);
    var s := Reconfigure(t.all[i], c);
    var t1 := t.(all := t.all[i := s], joining := t.joining[i := Configured(false)]);
    var t2 := t1.(joining := t1.joining[i := Allocated]);
    var t3 := t2.(all := t2.all[i := s.(online := true)], joining := t2.joining - {i});
    NoSteps(t3);
    OneStep(t2, Start(i), t3, []);
    OneStep(t1, Allocate(i), t2, [Start(i)] + []);
    OneStep(t, Configure(i, c), t1, [Allocate(i)] + ([Start(i)] + []));
    hide Right, Sessions.Run, CalmRun, Sessions.Apply, Sessions.Enabled;
    OneChanged(t.all, i, s);
    OneChanged(t1.all, i, s.(online := true));
  }

  /** What follows when it had been configured: the connection is set up and the client leaves. */
  function TwiceRun(i: nat, at: nat): seq<Step> {
    [Allocate(i)] + ([Start(i)] + ([Leave(i, Params(false, Some(0)), false, at)] + []))
  }

  lemma LeaveAgain(s: State, at: nat)
    ensures var t := OnDisconnect(s.(online := true), Params(false, Some(0)), false, at); t.finalized && |t.closed| == |s.closed| + 1
  {
  }

  /** A session switched back and configured: its close has been signalled and is signalled again when the
      connection that was being set up ends. */
  lemma HaltConfiguredTwice(m: Mgr, id: ClientId, e: Ending, at: nat)
    requires Right(m) && id in m.sessions && var i := SessionOf(m, id); i in m.joining && m.joining[i] == Configured(false)
    ensures Sessions.Enabled(m, Halt(id, e, at)) && !Sessions.Apply(m, Halt(id, e, at)).crashed
    ensures var t, es := Sessions.Apply(m, Halt(id, e, at)), TwiceRun(SessionOf(m, id), at);
            && CalmRun(t, es) && Sessions.Run(t, es).Some?
            && var u := Sessions.Run(t, es).value; SessionOf(m, id) < |u.all| && |u.all[SessionOf(m, id)].closed| == 2 && u.count == Unfinalized(u.all) - 1
  {
    hide Unfinalized, OnDisconnect;
    var i := SessionOf(m, id);
    HaltJoining(m, id, e, at);
    var t := Halted(m, i, at);
    var t1 := t.(joining := t.joining[i := Allocated]);
    var s := t.all[i].(online := true);
    var t2 := t1.(all := t1.all[i := s], joining := t1.joining - {i});
    var d := OnDisconnect(s, Params(false, Some(0)), false, at);
    LeaveAgain(t.all[i], at);
    var t3 := Become(t2, i, d);
    NoSteps(t3);
    OneStep(t2, Leave(i, Params(false, Some(0)), false, at), t3, []);
    OneStep(t1, Start(i), t2, [Leave(i, Params(false, Some(0)), false, at)] + []);
    OneStep(t, Allocate(i), t1, [Start(i)] + ([Leave(i, Params(false, Some(0)), false, at)] + []));
    hide Right, Sessions.Run, CalmRun, Sessions.Apply, Sessions.Enabled;
    OneChanged(t1.all, i, s);
    OneChanged(t2.all, i, d);
  }

  // ---------------------------------------------------------------- exactly when a stop is safe

  /** Whatever follows, as long as no other stop meets a connection being set up, the count is right. */
  ghost predicate SafeAfter(t: Mgr) {
    !t.crashed && forall es {:trigger Sessions.Run(t, es)} | Sessions.Run(t, es).Some? && CalmRun(t, es) ::
      Sessions.Run(t, es).value.count == Unfinalized(Sessions.Run(t, es).value.all)
  }

  /** A stop by shutdown is safe exactly if the session's connection is not being set up, or is allocated, when
      the stop waits: before that it faults on a new session, and leaves the count short for good on one that
      was switched back. */
  lemma HaltSafeExactlyIfNotJoining(m: Mgr, id: ClientId, e: Ending, at: nat)
    requires Right(m) && Sessions.Enabled(m, Halt(id, e, at))
    ensures SafeAfter(Sessions.Apply(m, Halt(id, e, at))) <==> SessionOf(m, id) !in m.joining
  {
    var i := SessionOf(m, id);
    var t := Sessions.Apply(m, Halt(id, e, at));
    if i !in m.joining {
      HaltSettled(m, id, e, at);
      forall es | Sessions.Run(t, es).Some? && CalmRun(t, es) ensures Sessions.Run(t, es).value.count == Unfinalized(Sessions.Run(t, es).value.all) {
        RunKeeps(t, es);
      }
    } else if m.joining[i].isNew {
      HaltNewCrashes(m, id, e, at);
    } else if m.joining[i].Claimed? {
      HaltClaimedShort(m, id, e, at, Conf(None, 0, None, false));
    } else {
      HaltConfiguredTwice(m, id, e, at);
    }
    hide Right, Sessions.Apply, Sessions.Enabled, Unfinalized;
  }

  // ---------------------------------------------------------------- the whole shutdown

  /** Stops the session of one client: an allocated connection is started first, which the stop waits for. */
  function StopOne(m: Mgr, id: ClientId, e: Ending, at: nat): (t: Mgr)
    requires Shaped(m)
    ensures Shaped(t) && |t.all| == |m.all| && t.wraps == m.wraps && t.ids == m.ids
  {
    if id !in m.sessions then m
    else
      var i := SessionOf(m, id);
      var m1 := if Waits(m, i) then m.(all := m.all[i := m.all[i].(online := true)], joining := m.joining - {i}) else m;
      Stopped(m1, i, e, at)
  }

  /** Stops the sessions the map leads to, one client after the other, until there is a fault. */
  function StopEach(m: Mgr, order: seq<ClientId>, how: ClientId -> Ending, at: nat): (t: Mgr)
    requires Shaped(m)
    ensures Shaped(t) && |t.all| == |m.all| && t.wraps == m.wraps && t.ids == m.ids
    decreases |order|
  {
    if order == [] || m.crashed then m else StopEach(StopOne(m, order[0], how(order[0]), at), order[1..], how, at)
  }

  predicate Enumerates(order: seq<ClientId>, sessions: map<ClientId, nat>) {
    (forall id {:trigger id in sessions} | id in sessions :: id in order) && forall i, j | 0 <= i < j < |order| :: order[i] != order[j]
  }

  /** No connection to a client in the map is being set up, short of being allocated. */
  predicate Quiet(m: Mgr)
    requires Shaped(m)
  {
    forall id {:trigger m.sessions[id]} | id in m.sessions :: SessionOf(m, id) in m.joining ==> Waits(m, SessionOf(m, id))
  }

  /** Stopping one session ends it, takes its own entry from the map and leaves the others as they are. */
  lemma StopOneKeeps(m: Mgr, id: ClientId, e: Ending, at: nat)
    requires Right(m) && Quiet(m) && id in m.sessions
    ensures var i, t := SessionOf(m, id), StopOne(m, id, e, at);
            && Right(t) && Quiet(t) && t.all[i].finalized
            && (forall k :: k in t.sessions <==> k in m.sessions && k != id)
            && (forall k | k in t.sessions :: t.sessions[k] == m.sessions[k])
            && (forall j | 0 <= j < |m.all| && m.all[j].finalized :: t.all[j].finalized)
  {
    hide Right, StopSession;
    RightIsShaped(m);
    var i := SessionOf(m, id);
    if Waits(m, i) {
      HaltAllocatedWaits(m, id, e, at);
      StartLeaves(m, i);
      StopStarted(Sessions.Apply(m, Start(i)), id, e, at);
    } else {
      StopStarted(m, id, e, at);
    }
  }

  lemma RightIsShaped(m: Mgr)
    requires Right(m)
    ensures Shaped(m)
  {
  }

  /** Starting a connection that was waited for. */
  lemma StartLeaves(m: Mgr, i: nat)
    requires Right(m) && Quiet(m) && Waits(m, i)
    ensures var t := Sessions.Apply(m, Start(i));
            && Shaped(t) && Quiet(t) && i !in t.joining && t.sessions == m.sessions && t.wraps == m.wraps && |t.all| == |m.all|
            && (forall j | 0 <= j < |m.all| && m.all[j].finalized :: t.all[j].finalized)
  {
    hide Unfinalized;
  }

  /** Stopping a session whose connection, if it has one, has been started. */
  lemma StopStarted(m: Mgr, id: ClientId, e: Ending, at: nat)
    requires Right(m) && Quiet(m) && id in m.sessions && SessionOf(m, id) !in m.joining
    ensures var i, t := SessionOf(m, id), StopOne(m, id, e, at);
            && t == Sessions.Apply(m, Halt(id, e, at)) && Right(t) && Quiet(t) && t.all[i].finalized
            && (forall k :: k in t.sessions <==> k in m.sessions && k != id)
            && (forall k | k in t.sessions :: t.sessions[k] == m.sessions[k])
            && (forall j | 0 <= j < |m.all| && m.all[j].finalized :: t.all[j].finalized)
  {
    RightIsShaped(m);
    hide Right, StopSession;
    HaltSettled(m, id, e, at);
    StopEntry(m, id, e, at);
  }

  lemma StopEntry(m: Mgr, id: ClientId, e: Ending, at: nat)
    requires Right(m) && id in m.sessions && SessionOf(m, id) !in m.joining
    ensures var t := Sessions.Apply(m, Halt(id, e, at));
            && t.joining == m.joining && t.wraps == m.wraps && |t.all| == |m.all|
            && (forall k :: k in t.sessions <==> k in m.sessions && k != id)
            && (forall k | k in t.sessions :: t.sessions[k] == m.sessions[k])
            && (forall j | 0 <= j < |m.all| && m.all[j].finalized :: t.all[j].finalized)
  {
    hide Unfinalized;
    var i := SessionOf(m, id);
    assert EntryRight(m, id) && SessionRight(m, i);
    StopCloses(m.all[i], e.p, e.has, at);
    hide StopSession;
  }

  lemma StopCloses(s: State, p: Params, has: bool, at: nat)
    requires !s.finalized
    ensures |StopSession(s, p, has, at).closed| > |s.closed| && StopSession(s, p, has, at).finalized
  {
    Life.Detached(s, p.(will := true), has, at);
    hide Detach;
  }

  lemma {:induction false} StopEachKeeps(m: Mgr, order: seq<ClientId>, how: ClientId -> Ending, at: nat)
    requires Right(m) && Quiet(m) && forall i, j | 0 <= i < j < |order| :: order[i] != order[j]
    ensures var t := StopEach(m, order, how, at);
            && Right(t)
            && (forall k :: k in t.sessions <==> k in m.sessions && k !in order)
            && (forall j | 0 <= j < |m.all| && m.all[j].finalized :: t.all[j].finalized)
            && (forall id | id in m.sessions && id in order :: t.all[SessionOf(m, id)].finalized)
    decreases |order|
  {
    if order != [] {
      var id, rest := order[0], order[1..];
      assert forall k :: k in order <==> k == id || k in rest;
      assert id !in rest;
      var t := StopOne(m, id, how(id), at);
      if id in m.sessions { StopOneKeeps(m, id, how(id), at); }
      hide Mapped, StopOne, Unfinalized, SessionRight;
      StopEachKeeps(t, rest, how, at);
    }
  }

  lemma {:induction false} NoneLeft(all: seq<State>)
    requires forall i {:trigger all[i]} | 0 <= i < |all| :: all[i].finalized
    ensures Unfinalized(all) == 0
  {
    if all != [] { NoneLeft(all[..|all| - 1]); }
  }

  /** Shutdown with no connection short of being allocated, and every session that has not ended in the map's
      sight, in whatever order it goes through the map: all sessions have ended and the count is zero, so the
      wait for it returns. */
  lemma ShutdownEndsAll(m: Mgr, order: seq<ClientId>, how: ClientId -> Ending, at: nat)
    requires Right(m) && Quiet(m) && Tracked(m) && Enumerates(order, m.sessions)
    ensures var t := StopEach(m, order, how, at);
            Right(t) && t.count == 0 && t.sessions == map[] && forall i | 0 <= i < |t.all| :: t.all[i].finalized
  {
    hide Unfinalized;
    var t := StopEach(m, order, how, at);
    StopEachKeeps(m, order, how, at);
    hide StopEach;
    forall i | 0 <= i < |t.all| ensures t.all[i].finalized { assert Tracks(m, i); }
    NoneLeft(t.all);
  }
}
