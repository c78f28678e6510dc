/** What becomes of a client's session when the client connects again. */
module Takeover {
  import opened Common
  import opened Wire
  import opened Packets
  import Life = SessionLife
  import opened SessionLife
  import opened Sessions

  /** Nothing has happened in this session yet. */
  predicate Blank(s: State) {
    !s.online && !s.finalized && s.timer.None? && s.will.None? && s.published == [] && s.closed == []
  }

  /** A new session for `id` is being set up under wrap `w`, and the map leads to it. */
  ghost predicate Succeeds(m: Mgr, t: Mgr, id: ClientId, w: nat) {
    var n := |m.all|;
    && |t.all| == |t.ids| == n + 1 && t.ids == m.ids + [id] && Blank(t.all[n])
    && w < |t.wraps| == |m.wraps| && t.wraps[w] == n && (forall u | 0 <= u < |m.wraps| && u != w :: t.wraps[u] == m.wraps[u])
    && id in t.sessions && t.sessions[id] == w && (forall k | k != id :: (k in t.sessions <==> k in m.sessions) && (k in t.sessions ==> t.sessions[k] == m.sessions[k]))
    && n in t.joining && t.joining[n] == Claimed(true)
  }

  predicate OthersStay(m: Mgr, t: Mgr, i: nat) {
    |t.all| >= |m.all| && forall j | 0 <= j < |m.all| && j != i :: t.all[j] == m.all[j]
  }

  /** A connect that finds a session. If that is online, the connect is turned away and nothing changes, or, where
      replacing is allowed, the session is ended and another takes its place, the count unchanged. If it is offline
      it is taken up again, its timer stopped. If it has ended, another takes its place and is counted. */
  lemma FoundExactly(m: Mgr, id: ClientId, w: nat, replace: bool, p: Params, has: bool, at: nat)
    requires Right(m) && Sessions.Enabled(m, Found(id, w, replace, p, has, at))
    ensures var t, i := Sessions.Apply(m, Found(id, w, replace, p, has, at)), m.wraps[w];
            var s := m.all[i];
            && OthersStay(m, t, i)
            && (s.online && !replace ==> t == m)
            && (s.online && replace ==>
                  Succeeds(m, t, id, w) && t.count == m.count && !t.all[i].online && t.all[i].finalized && |t.all[i].closed| == 1 && t.all[i].timer.None?)
            && (!s.online && !s.finalized ==>
                  t == m.(all := m.all[i := s.(timer := None)], joining := t.joining) && i in t.joining && t.joining[i] == Claimed(false))
            && (s.finalized ==> Succeeds(m, t, id, w) && t.count == m.count + 1 && t.all[i] == s)
  {
    var i := m.wraps[w];
    var s := m.all[i];
    assert SessionRight(m, i);
    hide Unfinalized, Mapped;
    if s.online && replace {
      StopEnds(s, p, has, at);
      Replaced(m, id, w, p, has, at);
    } else if s.finalized {
      AdoptSucceeds(m, id, w);
    }
    hide Become, Adopt, StopSession;
  }

  lemma StopEnds(s: State, p: Params, has: bool, at: nat)
    requires Life.Inv(s) && s.online
    ensures var t := StopSession(s, p, has, at); t.finalized && !t.online && t.timer.None? && |t.closed| == 1
  {
    Detached(s, p.(will := true), has, at);
    hide Detach;
  }

  lemma AdoptSucceeds(m: Mgr, id: ClientId, w: nat)
    requires w < |m.wraps| && |m.all| == |m.ids|
    ensures var t := Adopt(m, id, w); Succeeds(m, t, id, w) && t.count == m.count + 1 && t.all[..|m.all|] == m.all
  {
  }

  lemma Replaced(m: Mgr, id: ClientId, w: nat, p: Params, has: bool, at: nat)
    requires Shaped(m) && w < |m.wraps| && m.ids[m.wraps[w]] == id && Life.Inv(m.all[m.wraps[w]]) && m.all[m.wraps[w]].online
    ensures var i := m.wraps[w]; var t := Adopt(Become(m, i, StopSession(m.all[i], p, has, at)), id, w);
            Succeeds(m, t, id, w) && t.count == m.count && OthersStay(m, t, i) && t.all[i] == StopSession(m.all[i], p, has, at)
  {
    var i := m.wraps[w];
    StopEnds(m.all[i], p, has, at);
    hide StopSession;
  }

  /** Setting the connection up is the client joining the session with what it brings. */
  lemma SetUpIsJoining(m: Mgr, i: nat, c: Conf)
    requires Right(m) && i in m.joining && m.joining[i].Claimed? && !m.crashed
    ensures var es := [Configure(i, c), Allocate(i), Start(i)];
            && Sessions.Run(m, es).Some?
            && var t := Sessions.Run(m, es).value;
               |t.all| == |m.all| && t.all[i] == Life.Apply(m.all[i], Joins(c)) && OthersStay(m, t, i) && t.count == m.count && i !in t.joining
  {
    assert SessionRight(m, i);
    hide Unfinalized, Mapped, SessionRight;
    var es := [Configure(i, c), Allocate(i), Start(i)];
    var m1 := Sessions.Apply(m, es[0]);
    var m2 := Sessions.Apply(m1, es[1]);
    var m3 := Sessions.Apply(m2, es[2]);
    assert es[1..] == [es[1], es[2]] && es[1..][1..] == [es[2]] && [es[2]][1..] == [];
    assert Sessions.Run(m3, []) == Some(m3);
    assert Sessions.Run(m2, [es[2]]) == Some(m3);
    assert Sessions.Run(m1, [es[1], es[2]]) == Some(m3);
  }
}
