/** All sessions of a broker and the count of those that have not ended, through connects, takeovers,
    disconnects, timers and shutdown. */
module Sessions {
  import opened Common
  import opened Wire
  import opened Packets
  import Life = SessionLife
  import opened SessionLife

  type ClientId = string

  /** How far a connection is being set up while its wrap is locked. A fresh session has no connection to stop
      before one is allocated; one that was switched back still has what its last connection left. */
  datatype Phase =
    | Claimed(isNew: bool)                                           // the session has been chosen
    | Configured(isNew: bool)                                        // and been given what the client brings
    | Allocated                                                      // and its connection, not yet started

  /** Client identifiers map to wraps, and a wrap holds the session in use; a wrap may outlive its entry
      in the map when a connect had looked it up before. */
  datatype Mgr = Mgr(
    sessions: map<ClientId, nat>,  // client to wrap
    wraps: seq<nat>,               // wrap to session
    ids: seq<ClientId>,            // session to client
    all: seq<State>,               // every session there has been
    joining: map<nat, Phase>,      // sessions whose wrap is locked while a connection is being set up
    count: int,
    crashed: bool)                 // the broker has run into a fault

  /** The session `i` has become `s`; onSessionClose is called for a close it has signalled. */
  function Become(m: Mgr, i: nat, s: State): Mgr
    requires i < |m.all| == |m.ids|
  {
    var closes := |s.closed| - |m.all[i].closed|;
    m.(all := m.all[i := s], count := m.count - closes, sessions := if closes > 0 then m.sessions - {m.ids[i]} else m.sessions)
  }

  /** A new session in service under wrap `w`, which may be a new wrap. */
  function Adopt(m: Mgr, id: ClientId, w: nat): Mgr
    requires w <= |m.wraps|
  {
    var i := |m.all|;
    m.(all := m.all + [Created()], ids := m.ids + [id], wraps := if w < |m.wraps| then m.wraps[w := i] else m.wraps + [i],
       sessions := m.sessions[id := w], joining := m.joining[i := Claimed(true)], count := m.count + 1)
  }

  /** How the connection of a client ends. */
  datatype Ending = Ending(p: Params, has: bool)

  datatype Step =
    | Fresh(id: ClientId)                                            // a connect that finds no session
    | Found(id: ClientId, w: nat, replace: bool, p: Params, has: bool, at: nat)  // one that had found a wrap and now holds its lock
    | Configure(i: nat, c: Conf) | Allocate(i: nat) | Start(i: nat)  // setting up the connection
    | Leave(i: nat, p: Params, has: bool, at: nat)                   // a connection ends
    | Timer(i: nat)
    | Halt(id: ClientId, e: Ending, at: nat)                         // shutdown stops a session, without taking the lock of its wrap

  /** The session the map leads to. */
  function SessionOf(m: Mgr, id: ClientId): nat
    requires Shaped(m) && id in m.sessions
  {
    m.wraps[m.sessions[id]]
  }

  predicate Waits(m: Mgr, i: nat) {
    i in m.joining && m.joining[i].Allocated?
  }

  predicate Enabled(m: Mgr, e: Step)
    requires Shaped(m)
  {
    && !m.crashed
    && match e
       case Fresh(id) => id !in m.sessions
       case Found(id, w, _, _, _, _) => w < |m.wraps| && m.ids[m.wraps[w]] == id && m.wraps[w] !in m.joining
       case Configure(i, _) => i in m.joining && m.joining[i].Claimed?
       case Allocate(i) => i in m.joining && m.joining[i].Configured?
       case Start(i) => Waits(m, i)
       case Leave(i, _, _, _) => i < |m.all| && m.all[i].online
       case Timer(i) => i < |m.all| && m.all[i].timer.Some?
       case Halt(id, _, _) => id in m.sessions && !Waits(m, SessionOf(m, id))  // stopping an allocated connection waits for its start
  }

  /** loadSession on a wrap that was found. */
  function Load(m: Mgr, id: ClientId, w: nat, replace: bool, p: Params, has: bool, at: nat): Mgr
    requires |m.all| == |m.ids| && w < |m.wraps| && m.wraps[w] < |m.all|
  {
    var i := m.wraps[w];
    match SetOnline(m.all[i])
    case (_, IsOnline) => if replace then Adopt(Become(m, i, StopSession(m.all[i], p, has, at)), id, w) else m
    case (s, Switched) => m.(all := m.all[i := s], joining := m.joining[i := Claimed(false)])
    case (_, Finalized) => Adopt(m, id, w)
  }

  /** session.stop by way of shutdown. A fresh session without a connection has nothing to stop it with. */
  function Stopped(m: Mgr, i: nat, e: Ending, at: nat): Mgr
    requires i < |m.all| == |m.ids|
  {
    if i in m.joining && !m.joining[i].Allocated? && m.joining[i].isNew then m.(crashed := true)
    else Become(m, i, StopSession(m.all[i], e.p, e.has, at))
  }

  function Apply(m: Mgr, e: Step): Mgr
    requires Shaped(m) && Enabled(m, e)
  {
    match e
    case Fresh(id) => Adopt(m, id, |m.wraps|)
    case Found(id, w, replace, p, has, at) => Load(m, id, w, replace, p, has, at)
    case Configure(i, c) => m.(all := m.all[i := Reconfigure(m.all[i], c)], joining := m.joining[i := Configured(m.joining[i].isNew)])
    case Allocate(i) => m.(joining := m.joining[i := Allocated])
    case Start(i) => m.(all := m.all[i := m.all[i].(online := true)], joining := m.joining - {i})
    case Leave(i, p, has, at) => Become(m, i, OnDisconnect(m.all[i], p, has, at))
    case Timer(i) => Become(m, i, Fire(m.all[i]))
    case Halt(id, e, at) => Stopped(m, SessionOf(m, id), e, at)
  }

  // ---------------------------------------------------------------- what every step keeps

  function Unfinalized(all: seq<State>): nat {
    if all == [] then 0 else Unfinalized(all[..|all| - 1]) + if all[|all| - 1].finalized then 0 else 1
  }

  predicate Shaped(m: Mgr) {
    && |m.all| == |m.ids|
    && (forall w {:trigger m.wraps[w]} | 0 <= w < |m.wraps| :: m.wraps[w] < |m.all|)
    && (forall i {:trigger i in m.joining} | i in m.joining :: i < |m.all|)
    && (forall id {:trigger m.sessions[id]} | id in m.sessions :: m.sessions[id] < |m.wraps|)
  }

  /** A session while its connection is being set up. */
  predicate Joining(s: State) {
    !s.online && !s.finalized && s.timer.None? && s.closed == []
  }

  predicate SessionRight(m: Mgr, i: nat)
    requires i < |m.all|
  {
    if i in m.joining then Joining(m.all[i]) else Life.Inv(m.all[i])
  }

  predicate Inv(m: Mgr) {
    && Shaped(m) && m.count == Unfinalized(m.all)
    && forall i {:trigger SessionRight(m, i)} {:trigger m.all[i]} | 0 <= i < |m.all| :: SessionRight(m, i)
  }

  lemma {:induction false} OneChanged(all: seq<State>, i: nat, s: State)
    requires i < |all|
    ensures Unfinalized(all[i := s]) == Unfinalized(all) + (if s.finalized then 0 else 1) - (if all[i].finalized then 0 else 1)
  {
    var n := |all| - 1;
    if i == n {
      assert all[i := s][..n] == all[..n];
    } else {
      assert all[i := s][..n] == all[..n][i := s];
      OneChanged(all[..n], i, s);
    }
  }

  lemma OneMore(all: seq<State>, s: State)
    ensures Unfinalized(all + [s]) == Unfinalized(all) + if s.finalized then 0 else 1
  {
    assert (all + [s])[..|all|] == all;
  }

  /** A session that goes on by its own rules keeps the count right. */
  lemma BecomeKeeps(m: Mgr, i: nat, s: State)
    requires Inv(m) && i < |m.all| && i !in m.joining && Life.Inv(s) && (m.all[i].finalized ==> s.finalized)
    ensures Inv(Become(m, i, s))
  {
    hide Unfinalized;
    OneChanged(m.all, i, s);
    var t := Become(m, i, s);
    assert SessionRight(m, i);
    forall j | 0 <= j < |t.all| ensures SessionRight(t, j) {
      if j != i { assert SessionRight(m, j); }
    }
  }

  lemma AdoptKeeps(m: Mgr, id: ClientId, w: nat)
    requires Inv(m) && w <= |m.wraps|
    ensures Inv(Adopt(m, id, w))
  {
    hide Unfinalized, Life.Inv;
    OneMore(m.all, Created());
    var t := Adopt(m, id, w);
    forall j | 0 <= j < |t.all| ensures SessionRight(t, j) {
      if j < |m.all| { assert SessionRight(m, j) && t.all[j] == m.all[j]; }
    }
  }

  /** A session whose wrap is being locked or released does not change the count. */
  lemma HandleKeeps(m: Mgr, i: nat, s: State, joining: map<nat, Phase>)
    requires Inv(m) && i < |m.all| && s.finalized == m.all[i].finalized
    requires forall j :: j != i ==> (j in joining <==> j in m.joining)
    requires if i in joining then Joining(s) else Life.Inv(s)
    ensures Inv(m.(all := m.all[i := s], joining := joining))
  {
    hide Unfinalized, Life.Inv, Joining;
    OneChanged(m.all, i, s);
    var t := m.(all := m.all[i := s], joining := joining);
    forall j | 0 <= j < |t.all| ensures SessionRight(t, j) {
      if j != i { assert SessionRight(m, j); }
    }
  }

  lemma LoadKeeps(m: Mgr, id: ClientId, w: nat, replace: bool, p: Params, has: bool, at: nat)
    requires Inv(m) && w < |m.wraps| && m.wraps[w] !in m.joining
    ensures Inv(Load(m, id, w, replace, p, has, at))
  {
    hide Unfinalized, StopSession, Become, Adopt;
    var i := m.wraps[w];
    assert SessionRight(m, i);
    match SetOnline(m.all[i])
    case (_, IsOnline) =>
      if replace {
        Life.ApplyKeeps(m.all[i], StopAt(p, has, at));
        BecomeKeeps(m, i, StopSession(m.all[i], p, has, at));
        BecomeShape(m, i, StopSession(m.all[i], p, has, at));
        AdoptKeeps(Become(m, i, StopSession(m.all[i], p, has, at)), id, w);
      }
    case (s, Switched) => HandleKeeps(m, i, s, m.joining[i := Claimed(false)]);
    case (_, Finalized) => AdoptKeeps(m, id, w);
  }

  lemma BecomeShape(m: Mgr, i: nat, s: State)
    requires Shaped(m) && i < |m.all|
    ensures var t := Become(m, i, s); t.wraps == m.wraps && t.ids == m.ids && t.joining == m.joining && |t.all| == |m.all| && t.crashed == m.crashed
  {
  }

  /** Shutdown does not meet a session whose connection is being set up. */
  predicate Calm(m: Mgr, e: Step)
    requires Shaped(m) && Enabled(m, e)
  {
    e.Halt? ==> SessionOf(m, e.id) !in m.joining
  }

  lemma ApplyKeeps(m: Mgr, e: Step)
    requires Inv(m) && Enabled(m, e) && Calm(m, e)
    ensures Inv(Apply(m, e)) && !Apply(m, e).crashed
  {
    hide Unfinalized, Become, Adopt, Load, StopSession, OnDisconnect, Fire;
    match e
    case Fresh(id) => AdoptKeeps(m, id, |m.wraps|); AdoptShape(m, id, |m.wraps|);
    case Found(id, w, replace, p, has, at) => LoadKeeps(m, id, w, replace, p, has, at); LoadShape(m, id, w, replace, p, has, at);
    case Configure(i, c) =>
      assert SessionRight(m, i);
      HandleKeeps(m, i, Reconfigure(m.all[i], c), m.joining[i := Configured(m.joining[i].isNew)]);
    case Allocate(i) =>
      assert SessionRight(m, i);
      HandleKeeps(m, i, m.all[i], m.joining[i := Allocated]);
      assert m.all[i := m.all[i]] == m.all;
    case Start(i) =>
      assert SessionRight(m, i);
      HandleKeeps(m, i, m.all[i].(online := true), m.joining - {i});
    case Leave(i, p, has, at) =>
      assert SessionRight(m, i);
      Life.ApplyKeeps(m.all[i], Disconnect(p, has, at));
      BecomeKeeps(m, i, OnDisconnect(m.all[i], p, has, at));
      BecomeShape(m, i, OnDisconnect(m.all[i], p, has, at));
    case Timer(i) =>
      assert SessionRight(m, i);
      Life.ApplyKeeps(m.all[i], TimerFires);
      BecomeKeeps(m, i, Fire(m.all[i]));
      BecomeShape(m, i, Fire(m.all[i]));
    case Halt(id, e, at) =>
      var i := SessionOf(m, id);
      assert SessionRight(m, i);
      Life.ApplyKeeps(m.all[i], StopAt(e.p, e.has, at));
      StopFinalizes(m.all[i], e.p, e.has, at);
      BecomeKeeps(m, i, StopSession(m.all[i], e.p, e.has, at));
      BecomeShape(m, i, StopSession(m.all[i], e.p, e.has, at));
  }

  lemma AdoptShape(m: Mgr, id: ClientId, w: nat)
    requires w <= |m.wraps|
    ensures Adopt(m, id, w).crashed == m.crashed
  {
  }

  lemma LoadShape(m: Mgr, id: ClientId, w: nat, replace: bool, p: Params, has: bool, at: nat)
    requires |m.all| == |m.ids| && w < |m.wraps| && m.wraps[w] < |m.all|
    ensures Load(m, id, w, replace, p, has, at).crashed == m.crashed
  {
  }

  // ---------------------------------------------------------------- the map

  /** Each entry of the map leads to a session of that client that has not ended. */
  predicate EntryRight(m: Mgr, id: ClientId)
    requires Shaped(m) && id in m.sessions
  {
    var i := m.wraps[m.sessions[id]];
    m.ids[i] == id && !m.all[i].finalized
  }

  predicate Mapped(m: Mgr)
    requires Shaped(m)
  {
    forall id {:trigger EntryRight(m, id)} {:trigger m.sessions[id]} | id in m.sessions :: EntryRight(m, id)
  }

  lemma BecomeMapped(m: Mgr, i: nat, s: State)
    requires Inv(m) && Mapped(m) && i < |m.all| && i !in m.joining && Life.Inv(s) && (m.all[i].finalized ==> s.finalized)
    ensures Shaped(Become(m, i, s)) && Mapped(Become(m, i, s))
    ensures s.finalized ==> m.ids[i] !in Become(m, i, s).sessions || m.all[i].finalized
  {
    hide Unfinalized;
    assert SessionRight(m, i);
    var t := Become(m, i, s);
    forall id | id in t.sessions ensures EntryRight(t, id) { assert EntryRight(m, id); }
  }

  lemma AdoptMapped(m: Mgr, id: ClientId, w: nat)
    requires Shaped(m) && Mapped(m) && w <= |m.wraps| && (w < |m.wraps| ==> m.ids[m.wraps[w]] == id)
    ensures Shaped(Adopt(m, id, w)) && Mapped(Adopt(m, id, w))
  {
    var t := Adopt(m, id, w);
    forall k | k in t.sessions ensures EntryRight(t, k) {
      if k != id { assert EntryRight(m, k); }
    }
  }

  lemma ApplyMapped(m: Mgr, e: Step)
    requires Inv(m) && Mapped(m) && Enabled(m, e) && Calm(m, e)
    ensures Shaped(Apply(m, e)) && Mapped(Apply(m, e))
  {
    hide Unfinalized, Become, Adopt, Load, StopSession, OnDisconnect, Fire;
    match e
    case Fresh(id) => AdoptMapped(m, id, |m.wraps|);
    case Found(id, w, replace, p, has, at) => LoadMapped(m, id, w, replace, p, has, at);
    case Configure(i, c) =>
      assert SessionRight(m, i);
      HandleMapped(m, i, Reconfigure(m.all[i], c), m.joining[i := Configured(m.joining[i].isNew)]);
    case Allocate(i) =>
      HandleMapped(m, i, m.all[i], m.joining[i := Allocated]);
      assert m.all[i := m.all[i]] == m.all;
    case Start(i) =>
      assert SessionRight(m, i);
      HandleMapped(m, i, m.all[i].(online := true), m.joining - {i});
    case Leave(i, p, has, at) =>
      assert SessionRight(m, i);
      Life.ApplyKeeps(m.all[i], Disconnect(p, has, at));
      BecomeMapped(m, i, OnDisconnect(m.all[i], p, has, at));
    case Timer(i) =>
      assert SessionRight(m, i);
      Life.ApplyKeeps(m.all[i], TimerFires);
      BecomeMapped(m, i, Fire(m.all[i]));
    case Halt(id, e, at) =>
      var i := SessionOf(m, id);
      assert SessionRight(m, i);
      Life.ApplyKeeps(m.all[i], StopAt(e.p, e.has, at));
      StopFinalizes(m.all[i], e.p, e.has, at);
      BecomeMapped(m, i, StopSession(m.all[i], e.p, e.has, at));
  }

  lemma HandleMapped(m: Mgr, i: nat, s: State, joining: map<nat, Phase>)
    requires Shaped(m) && Mapped(m) && i < |m.all| && s.finalized == m.all[i].finalized && joining.Keys <= m.joining.Keys + {i}
    ensures var t := m.(all := m.all[i := s], joining := joining); Shaped(t) && Mapped(t)
  {
    var t := m.(all := m.all[i := s], joining := joining);
    forall k | k in t.sessions ensures EntryRight(t, k) { assert EntryRight(m, k); }
  }

  lemma LoadMapped(m: Mgr, id: ClientId, w: nat, replace: bool, p: Params, has: bool, at: nat)
    requires Inv(m) && Mapped(m) && w < |m.wraps| && m.ids[m.wraps[w]] == id && m.wraps[w] !in m.joining
    ensures Shaped(Load(m, id, w, replace, p, has, at)) && Mapped(Load(m, id, w, replace, p, has, at))
  {
    hide Unfinalized, StopSession, Become, Adopt;
    var i := m.wraps[w];
    assert SessionRight(m, i);
    match SetOnline(m.all[i])
    case (_, IsOnline) =>
      if replace {
        Life.ApplyKeeps(m.all[i], StopAt(p, has, at));
        BecomeMapped(m, i, StopSession(m.all[i], p, has, at));
        BecomeShape(m, i, StopSession(m.all[i], p, has, at));
        AdoptMapped(Become(m, i, StopSession(m.all[i], p, has, at)), id, w);
      }
    case (s, Switched) => HandleMapped(m, i, s, m.joining[i := Claimed(false)]);
    case (_, Finalized) => AdoptMapped(m, id, w);
  }

  // ---------------------------------------------------------------- runs

  predicate Right(m: Mgr) {
    Inv(m) && Mapped(m) && !m.crashed
  }

  lemma StepKeeps(m: Mgr, e: Step)
    requires Right(m) && Enabled(m, e) && Calm(m, e)
    ensures Right(Apply(m, e))
  {
    hide Mapped, Apply, Enabled, Calm, Unfinalized, SessionRight;
    ApplyKeeps(m, e);
    ApplyMapped(m, e);
  }

  /** A run of steps, if each can be taken. */
  function Run(m: Mgr, es: seq<Step>): Option<Mgr>
    decreases |es|
  {
    if es == [] then Some(m)
    else if Shaped(m) && Enabled(m, es[0]) then Run(Apply(m, es[0]), es[1..])
    else None
  }

  predicate CalmRun(m: Mgr, es: seq<Step>)
    decreases |es|
  {
    es != [] && Shaped(m) && Enabled(m, es[0]) ==> Calm(m, es[0]) && CalmRun(Apply(m, es[0]), es[1..])
  }

  const Empty := Mgr(map[], [], [], [], map[], 0, false)

  lemma {:induction false} RunKeeps(m: Mgr, es: seq<Step>)
    requires Right(m) && Run(m, es).Some? && CalmRun(m, es)
    ensures Right(Run(m, es).value)
    decreases |es|
  {
    hide Apply, Enabled, Calm, Mapped, Unfinalized, SessionRight;
    if es != [] {
      StepKeeps(m, es[0]);
      RunKeeps(Apply(m, es[0]), es[1..]);
    }
  }

  /** In every run of connects, takeovers, disconnects, timer firings and stops by shutdown, however connects
      of one client overtake each other and as long as shutdown meets no session that is being set up: the
      count is the number of sessions that have not ended, each session has signalled its close once if it
      has ended and not at all otherwise, and one that is neither online nor being set up has ended or has
      its timer running. */
  lemma CountRight(m: Mgr, es: seq<Step>)
    requires Right(m) && Run(m, es).Some? && CalmRun(m, es)
    ensures var t := Run(m, es).value;
            && !t.crashed && t.count == Unfinalized(t.all)
            && forall i | 0 <= i < |t.all| ::
                 && |t.all[i].closed| == (if t.all[i].finalized then 1 else 0)
                 && (!t.all[i].online && i !in t.joining ==> t.all[i].finalized || t.all[i].timer.Some?)
  {
    RunKeeps(m, es);
    var t := Run(m, es).value;
    forall i | 0 <= i < |t.all| ensures |t.all[i].closed| == (if t.all[i].finalized then 1 else 0)
                                       && (!t.all[i].online && i !in t.joining ==> t.all[i].finalized || t.all[i].timer.Some?) {
      assert SessionRight(t, i);
    }
  }

  // ---------------------------------------------------------------- sessions the map loses sight of

  /** Every session that has not ended can be found in the map. */
  predicate Tracks(m: Mgr, i: nat)
    requires Shaped(m) && i < |m.all|
  {
    !m.all[i].finalized ==> m.ids[i] in m.sessions && m.wraps[m.sessions[m.ids[i]]] == i
  }

  predicate Tracked(m: Mgr)
    requires Shaped(m)
  {
    forall i {:trigger Tracks(m, i)} {:trigger m.all[i]} | 0 <= i < |m.all| :: Tracks(m, i)
  }

  /** A connect that had found a session which has ended since, while the client has got another one. */
  predicate Overtaken(m: Mgr, e: Step)
    requires Shaped(m) && Enabled(m, e)
  {
    e.Found? && m.all[m.wraps[e.w]].finalized && e.id in m.sessions
  }

  lemma BecomeTracked(m: Mgr, i: nat, s: State)
    requires Inv(m) && Tracked(m) && i < |m.all| && i !in m.joining && Life.Inv(s) && (m.all[i].finalized ==> s.finalized)
    ensures Shaped(Become(m, i, s)) && Tracked(Become(m, i, s))
  {
    hide Unfinalized;
    assert SessionRight(m, i) && Tracks(m, i);
    var t := Become(m, i, s);
    forall j | 0 <= j < |t.all| ensures Tracks(t, j) { assert Tracks(m, j); }
  }

  lemma AdoptTracked(m: Mgr, id: ClientId, w: nat)
    requires Shaped(m) && Tracked(m) && w <= |m.wraps| && (w < |m.wraps| ==> m.ids[m.wraps[w]] == id && m.all[m.wraps[w]].finalized)
    ensures Shaped(Adopt(m, id, w)) && (Tracked(Adopt(m, id, w)) <==> forall i {:trigger m.all[i]} | 0 <= i < |m.all| && m.ids[i] == id :: m.all[i].finalized)
  {
    hide Created;
    var t := Adopt(m, id, w);
    if forall i {:trigger m.all[i]} | 0 <= i < |m.all| && m.ids[i] == id :: m.all[i].finalized {
      forall j | 0 <= j < |t.all| ensures Tracks(t, j) { if j < |m.all| { assert Tracks(m, j); } }
    } else {
      var i :| 0 <= i < |m.all| && m.ids[i] == id && !m.all[i].finalized;
      assert !Tracks(t, i);
    }
  }

  /** The map keeps every session that has not ended in sight, step by step, except exactly when a connect
      that was overtaken puts its new session in the place of the other one. */
  lemma TrackedExceptWhenOvertaken(m: Mgr, e: Step)
    requires Inv(m) && Mapped(m) && Tracked(m) && Enabled(m, e) && Calm(m, e)
    ensures Shaped(Apply(m, e)) && (Tracked(Apply(m, e)) <==> !Overtaken(m, e))
  {
    hide Unfinalized, Become, Adopt, Load, StopSession, OnDisconnect, Fire, EntryRight;
    match e
    case Fresh(id) =>
      forall i | 0 <= i < |m.all| && m.ids[i] == id ensures m.all[i].finalized { assert Tracks(m, i); }
      AdoptTracked(m, id, |m.wraps|);
    case Found(id, w, replace, p, has, at) => LoadTracked(m, e);
    case Configure(i, c) =>
      assert SessionRight(m, i);
      HandleTracked(m, i, Reconfigure(m.all[i], c), m.joining[i := Configured(m.joining[i].isNew)]);
    case Allocate(i) =>
      HandleTracked(m, i, m.all[i], m.joining[i := Allocated]);
      assert m.all[i := m.all[i]] == m.all;
    case Start(i) =>
      assert SessionRight(m, i);
      HandleTracked(m, i, m.all[i].(online := true), m.joining - {i});
    case Leave(i, p, has, at) =>
      assert SessionRight(m, i);
      Life.ApplyKeeps(m.all[i], Disconnect(p, has, at));
      BecomeTracked(m, i, OnDisconnect(m.all[i], p, has, at));
    case Timer(i) =>
      assert SessionRight(m, i);
      Life.ApplyKeeps(m.all[i], TimerFires);
      BecomeTracked(m, i, Fire(m.all[i]));
    case Halt(id, e, at) =>
      var i := SessionOf(m, id);
      assert SessionRight(m, i);
      Life.ApplyKeeps(m.all[i], StopAt(e.p, e.has, at));
      StopFinalizes(m.all[i], e.p, e.has, at);
      BecomeTracked(m, i, StopSession(m.all[i], e.p, e.has, at));
  }

  lemma HandleTracked(m: Mgr, i: nat, s: State, joining: map<nat, Phase>)
    requires Shaped(m) && Tracked(m) && i < |m.all| && s.finalized == m.all[i].finalized && joining.Keys <= m.joining.Keys + {i}
    ensures var t := m.(all := m.all[i := s], joining := joining); Shaped(t) && Tracked(t)
  {
    var t := m.(all := m.all[i := s], joining := joining);
    forall j | 0 <= j < |t.all| ensures Tracks(t, j) { assert Tracks(m, j); }
  }

  lemma LoadTracked(m: Mgr, e: Step)
    requires Inv(m) && Mapped(m) && Tracked(m) && Enabled(m, e) && e.Found?
    ensures var t := Load(m, e.id, e.w, e.replace, e.p, e.has, e.at); Shaped(t) && (Tracked(t) <==> !Overtaken(m, e))
  {
    hide Unfinalized, StopSession, Become, Adopt;
    var Found(id, w, replace, p, has, at) := e;
    var i := m.wraps[w];
    assert SessionRight(m, i) && Tracks(m, i);
    match SetOnline(m.all[i])
    case (_, IsOnline) => if replace { ReplaceTracked(m, id, w, p, has, at); }
    case (s, Switched) => HandleTracked(m, i, s, m.joining[i := Claimed(false)]);
    case (_, Finalized) =>
      if id in m.sessions {
        assert EntryRight(m, id);
        assert m.all[m.wraps[m.sessions[id]]].finalized == false;
      } else {
        forall j | 0 <= j < |m.all| && m.ids[j] == id ensures m.all[j].finalized { assert Tracks(m, j); }
      }
      AdoptTracked(m, id, w);
  }

  lemma ReplaceTracked(m: Mgr, id: ClientId, w: nat, p: Params, has: bool, at: nat)
    requires Inv(m) && Mapped(m) && Tracked(m) && w < |m.wraps| && m.ids[m.wraps[w]] == id && m.wraps[w] !in m.joining && m.all[m.wraps[w]].online
    ensures var t := Become(m, m.wraps[w], StopSession(m.all[m.wraps[w]], p, has, at));
            |t.all| == |t.ids| && w < |t.wraps| && Shaped(Adopt(t, id, w)) && Tracked(Adopt(t, id, w))
  {
    hide Unfinalized, Adopt;
    var i := m.wraps[w];
    assert SessionRight(m, i) && Tracks(m, i);
    var s := StopSession(m.all[i], p, has, at);
    Life.ApplyKeeps(m.all[i], StopAt(p, has, at));
    StopFinalizes(m.all[i], p, has, at);
    hide StopSession, Life.Inv;
    BecomeTracked(m, i, s);
    var t := Become(m, i, s);
    forall j | 0 <= j < |t.all| && t.ids[j] == id ensures t.all[j].finalized {
      if j != i { assert Tracks(m, j); }
    }
    AdoptTracked(t, id, w);
  }

  lemma StopFinalizes(s: State, p: Params, has: bool, at: nat)
    ensures StopSession(s, p, has, at).finalized
  {
  }

  const Bye := Params(false, None)
  const Once := Conf(None, 0, None, true)

  function LostRun(): seq<Step> {
    [Fresh("a"), Configure(0, Once), Allocate(0), Start(0), Leave(0, Bye, false, 0),
     Fresh("a"), Configure(1, Once), Allocate(1), Start(1), Found("a", 0, true, Bye, false, 0)]
  }

  function SetOnce(): State { Reconfigure(Created(), Once) }
  function LiveOnce(): State { SetOnce().(online := true) }
  function DeadOnce(): State { OnDisconnect(LiveOnce(), Bye, false, 0) }

  /** The states LostRun goes through. */
  function LostAt(k: nat): Mgr {
    var one := Mgr(map["a" := 0], [0], ["a"], [Created()], map[0 := Claimed(true)], 1, false);
    var two := Mgr(map["a" := 1], [0, 1], ["a", "a"], [DeadOnce(), Created()], map[1 := Claimed(true)], 1, false);
    match k
    case 0 => Empty
    case 1 => one
    case 2 => one.(all := [SetOnce()], joining := map[0 := Configured(true)])
    case 3 => one.(all := [SetOnce()], joining := map[0 := Allocated])
    case 4 => one.(all := [LiveOnce()], joining := map[])
    case 5 => one.(all := [DeadOnce()], joining := map[], sessions := map[], count := 0)
    case 6 => two
    case 7 => two.(all := [DeadOnce(), SetOnce()], joining := map[1 := Configured(true)])
    case 8 => two.(all := [DeadOnce(), SetOnce()], joining := map[1 := Allocated])
    case 9 => two.(all := [DeadOnce(), LiveOnce()], joining := map[])
    case _ => Mgr(map["a" := 0], [2, 1], ["a", "a", "a"], [DeadOnce(), LiveOnce(), Created()], map[2 := Claimed(true)], 2, false)
  }

  lemma LostStepFirst(k: nat)
    requires 0 <= k < 2
    ensures Shaped(LostAt(k)) && Enabled(LostAt(k), LostRun()[k]) && Calm(LostAt(k), LostRun()[k])
    ensures Apply(LostAt(k), LostRun()[k]) == LostAt(k + 1)
  {
    var m, t, e := LostAt(k), LostAt(k + 1), LostRun()[k];
    assert Apply(m, e).joining == t.joining && Apply(m, e).sessions == t.sessions;
  }

  lemma LostStepSecond(k: nat)
    requires 2 <= k < 4
    ensures Shaped(LostAt(k)) && Enabled(LostAt(k), LostRun()[k]) && Calm(LostAt(k), LostRun()[k])
    ensures Apply(LostAt(k), LostRun()[k]) == LostAt(k + 1)
  {
    var m, t, e := LostAt(k), LostAt(k + 1), LostRun()[k];
    assert Apply(m, e).joining == t.joining && Apply(m, e).sessions == t.sessions;
  }

  lemma LostStepThird(k: nat)
    requires 4 <= k < 6
    ensures Shaped(LostAt(k)) && Enabled(LostAt(k), LostRun()[k]) && Calm(LostAt(k), LostRun()[k])
    ensures Apply(LostAt(k), LostRun()[k]) == LostAt(k + 1)
  {
    var m, t, e := LostAt(k), LostAt(k + 1), LostRun()[k];
    assert Apply(m, e).joining == t.joining && Apply(m, e).sessions == t.sessions;
  }

  lemma LostStepFourth()
    ensures Shaped(LostAt(6)) && Enabled(LostAt(6), LostRun()[6]) && Calm(LostAt(6), LostRun()[6])
    ensures Apply(LostAt(6), LostRun()[6]) == LostAt(7)
  {
    var m, t, e := LostAt(6), LostAt(7), LostRun()[6];
    assert Apply(m, e).joining == t.joining && Apply(m, e).sessions == t.sessions;
  }

  lemma LostStepFifth()
    ensures Shaped(LostAt(7)) && Enabled(LostAt(7), LostRun()[7]) && Calm(LostAt(7), LostRun()[7])
    ensures Apply(LostAt(7), LostRun()[7]) == LostAt(8)
  {
    var m, t, e := LostAt(7), LostAt(8), LostRun()[7];
    assert Apply(m, e).joining == t.joining && Apply(m, e).sessions == t.sessions;
  }

  lemma LostStepSixth()
    ensures Shaped(LostAt(8)) && Enabled(LostAt(8), LostRun()[8]) && Calm(LostAt(8), LostRun()[8])
    ensures Apply(LostAt(8), LostRun()[8]) == LostAt(9)
  {
    var m, t, e := LostAt(8), LostAt(9), LostRun()[8];
    assert Apply(m, e).joining == t.joining && Apply(m, e).sessions == t.sessions;
  }

  lemma LostStepLast()
    ensures Shaped(LostAt(9)) && Enabled(LostAt(9), LostRun()[9]) && Calm(LostAt(9), LostRun()[9])
    ensures Apply(LostAt(9), LostRun()[9]) == LostAt(10)
  {
    var m, t, e := LostAt(9), LostAt(10), LostRun()[9];
    assert Apply(m, e).joining == t.joining && Apply(m, e).sessions == t.sessions;
  }

  lemma {:induction false} LostFrom(k: nat)
    requires k <= 10
    ensures Run(LostAt(k), LostRun()[k..]) == Some(LostAt(10)) && CalmRun(LostAt(k), LostRun()[k..])
    decreases 10 - k
  {
    hide Apply, Enabled, Calm, LostAt, LostRun;
    LostLength();
    if k < 10 {
      if k < 2 { LostStepFirst(k); } else if k < 4 { LostStepSecond(k); } else if k < 6 { LostStepThird(k); }
      else if k == 6 { LostStepFourth(); } else if k == 7 { LostStepFifth(); } else if k == 8 { LostStepSixth(); } else { LostStepLast(); }
      assert LostRun()[k..][0] == LostRun()[k] && LostRun()[k..][1..] == LostRun()[k + 1..];
      LostFrom(k + 1);
    }
  }

  lemma LostLength()
    ensures |LostRun()| == 10
  {
  }

  /** It does happen: a client leaves and connects again while an earlier connect of its still waits for the
      session that has ended; the session it had just got is then out of the map's sight, though online. */
  lemma SessionLost()
    ensures Right(Empty) && CalmRun(Empty, LostRun()) && Run(Empty, LostRun()).Some?
    ensures var m := Run(Empty, LostRun()).value;
            m.count == 2 && m.sessions == map["a" := 0] && m.wraps == [2, 1] && |m.all| == 3 && m.all[1].online
  {
    EmptyRight();
    hide Apply, Enabled, Calm, Right, LostAt, LostRun;
    AtStart();
    LostFrom(0);
    assert LostRun()[0..] == LostRun();
    AtEnd();
  }

  lemma EmptyRight()
    ensures Right(Empty)
  {
  }

  lemma AtStart()
    ensures LostAt(0) == Empty
  {
  }

  lemma AtEnd()
    ensures var m := LostAt(10); m.count == 2 && m.sessions == map["a" := 0] && m.wraps == [2, 1] && |m.all| == 3 && m.all[1].online
  {
  }
}
