/** The manager object that keeps the sessions, the map to them and their count. */
module SessionManager {
  import opened Common
  import opened Wire
  import Life = SessionLife
  import opened SessionLife
  import opened Sessions
  import opened Shutdown
  import Down = Shutdown

  class Manager {
    var sessions: map<ClientId, nat>
    var wraps: seq<nat>
    var ids: seq<ClientId>
    var all: seq<State>
    var joining: map<nat, Phase>
    var count: int
    var crashed: bool

    ghost function Value(): Mgr
      reads this
    {
      Mgr(sessions, wraps, ids, all, joining, count, crashed)
    }

    constructor ()
      ensures Value() == Empty
    {
      sessions, wraps, ids, all, joining, count, crashed := map[], [], [], [], map[], 0, false;
    }

    method OnSessionClose(id: ClientId)
      modifies this`sessions, this`count
      ensures sessions == old(sessions) - {id} && count == old(count) - 1
    {
      sessions := sessions - {id};
      count := count - 1;
    }

    /** Session `i` has gone over to `s` and may have signalled its close. */
    method Update(i: nat, s: State)
      requires Shaped(Value()) && i < |all| && |all[i].closed| <= |s.closed| <= |all[i].closed| + 1
      modifies this
      ensures Value() == Become(old(Value()), i, s)
    {
      var closes := |s.closed| > |all[i].closed|;
      all := all[i := s];
      if closes {
        OnSessionClose(ids[i]);
      }
    }

    /** Puts a new session in service under wrap `w`. */
    method Serve(id: ClientId, w: nat)
      requires Shaped(Value()) && w <= |wraps|
      modifies this
      ensures Value() == Adopt(old(Value()), id, w)
    {
      var i := |all|;
      all, ids := all + [Created()], ids + [id];
      wraps := if w < |wraps| then wraps[w := i] else wraps + [i];
      joining := joining[i := Claimed(true)];
      sessions := sessions[id := w];
      count := count + 1;
    }

    /** The second half of loadSession, once the lock of the wrap that was found is held. */
    method UseFound(id: ClientId, w: nat, replace: bool, p: Params, has: bool, at: nat)
      requires Right(Value()) && Sessions.Enabled(Value(), Found(id, w, replace, p, has, at))
      modifies this
      ensures Right(Value()) && Value() == Load(old(Value()), id, w, replace, p, has, at)
    {
      StepKeeps(Value(), Found(id, w, replace, p, has, at));
      hide Right, Become, Adopt, StopSession;
      var i := wraps[w];
      var (s, status) := SetOnline(all[i]);
      match status
      case IsOnline =>
        if replace {
          var stopped := StopSession(all[i], p, has, at);
          StopSignals(all[i], p, has, at);
          BecomeShaped(Value(), i, stopped);
          Update(i, stopped);
          Serve(id, w);
        }
      case Switched =>
        all := all[i := s];
        joining := joining[i := Claimed(false)];
      case Finalized =>
        Serve(id, w);
    }

    /** loadSession when nothing else goes on for the client between looking up and locking. */
    method LoadSession(id: ClientId, replace: bool, p: Params, has: bool, at: nat)
      requires Right(Value()) && (id in sessions ==> SessionOf(Value(), id) !in joining)
      modifies this
      ensures Right(Value())
      ensures Value() == if id in old(sessions) then Load(old(Value()), id, old(sessions)[id], replace, p, has, at)
                         else Adopt(old(Value()), id, |old(wraps)|)
    {
      if id in sessions {
        assert EntryRight(Value(), id);
        UseFound(id, sessions[id], replace, p, has, at);
      } else {
        StepKeeps(Value(), Fresh(id));
        Serve(id, |wraps|);
      }
    }

    /** configureSession and start, with nothing going on in between. */
    method SetUp(i: nat, c: Conf)
      requires Right(Value()) && i in joining && joining[i].Claimed?
      modifies this
      ensures Right(Value()) && Sessions.Run(old(Value()), [Configure(i, c)] + ([Allocate(i)] + ([Start(i)] + []))) == Some(Value())
      ensures |all| == |old(all)| && i < |all| && all[i] == Life.Apply(old(all[i]), Joins(c))
    {
      ghost var m0 := Value();
      assert SessionRight(m0, i);
      StepKeeps(m0, Configure(i, c));
      all := all[i := Reconfigure(all[i], c)];
      joining := joining[i := Configured(joining[i].isNew)];
      ghost var m1 := Value();
      StepKeeps(m1, Allocate(i));
      joining := joining[i := Allocated];
      ghost var m2 := Value();
      StepKeeps(m2, Start(i));
      all := all[i := all[i].(online := true)];
      joining := joining - {i};
      ghost var m3 := Value();
      hide Right;
      NoSteps(m3);
      OneStep(m2, Start(i), m3, []);
      OneStep(m1, Allocate(i), m2, [Start(i)] + []);
      OneStep(m0, Configure(i, c), m1, [Allocate(i)] + ([Start(i)] + []));
    }

    /** Stops every session in the map, in whatever order the map yields them, whatever is being set up
        meanwhile: it waits for a connection that is allocated to be started, and ends in a fault at a new
        session that has none. */
    method Shutdown(how: ClientId -> Ending, at: nat) returns (ghost order: seq<ClientId>)
      requires Shaped(Value()) && !crashed
      modifies this
      ensures Down.Enumerates(order, old(sessions)) && Value() == StopEach(old(Value()), order, how, at)
      ensures old(Right(Value()) && Quiet(Value())) ==> Right(Value()) && sessions == map[]
    {
      hide StopOne;
      ghost var start := Value();
      order := [];
      var left := sessions.Keys;
      while left != {} && !crashed
        invariant Shaped(Value()) && Shaped(start) && start == old(Value())
        invariant forall id :: id in start.sessions <==> id in left || id in order
        invariant (forall id <- order :: id !in left) && NoDup(order)
        invariant Value() == StopEach(start, order, how, at)
        decreases left
      {
        var id :| id in left;
        StopClient(id, how(id), at);
        StopSnoc(start, order, id, how, at);
        order := order + [id];
        left := left - {id};
      }
      ghost var rest := Listed(left);
      StopAfterFault(start, order, rest, how, at);
      NoDupConcat(order, rest);
      order := order + rest;
      if Right(start) && Quiet(start) { StopEachKeeps(start, order, how, at); }
    }

    method StopClient(id: ClientId, e: Ending, at: nat)
      requires Shaped(Value())
      modifies this
      ensures Shaped(Value()) && Value() == StopOne(old(Value()), id, e, at)
    {
      hide StopSession;
      if id !in sessions {
        return;
      }
      var i := wraps[sessions[id]];
      if i in joining && joining[i].Allocated? {
        all := all[i := all[i].(online := true)];
        joining := joining - {i};
      }
      if i in joining && joining[i].isNew {
        crashed := true;
      } else {
        StopSignals(all[i], e.p, e.has, at);
        BecomeShaped(Value(), i, StopSession(all[i], e.p, e.has, at));
        Update(i, StopSession(all[i], e.p, e.has, at));
      }
    }
  }

  lemma StopSignals(s: State, p: Params, has: bool, at: nat)
    ensures var t := StopSession(s, p, has, at); |s.closed| <= |t.closed| <= |s.closed| + 1
  {
    Life.StopGrows(s, p, has, at);
  }

  lemma BecomeShaped(m: Mgr, i: nat, s: State)
    requires Shaped(m) && i < |m.all|
    ensures Shaped(Become(m, i, s)) && Become(m, i, s).wraps == m.wraps
  {
  }

  /** A set, one after the other. */
  lemma {:induction false} Listed(left: set<ClientId>) returns (rest: seq<ClientId>)
    ensures (forall id :: id in rest <==> id in left) && (left == {} ==> rest == []) && NoDup(rest)
  {
    if left == {} {
      rest := [];
    } else {
      var id :| id in left;
      var more := Listed(left - {id});
      rest := [id] + more;
    }
  }

  lemma {:induction false} StopSnoc(m: Mgr, order: seq<ClientId>, id: ClientId, how: ClientId -> Ending, at: nat)
    requires Shaped(m) && !StopEach(m, order, how, at).crashed
    ensures StopEach(m, order + [id], how, at) == StopOne(StopEach(m, order, how, at), id, how(id), at)
    decreases |order|
  {
    hide StopOne;
    if order == [] {
      assert order + [id] == [id] && [id][1..] == [];
      assert StopEach(StopOne(m, id, how(id), at), [], how, at) == StopOne(m, id, how(id), at);
    } else {
      assert (order + [id])[0] == order[0] && (order + [id])[1..] == order[1..] + [id];
      if !m.crashed { StopSnoc(StopOne(m, order[0], how(order[0]), at), order[1..], id, how, at); }
    }
  }

  lemma {:induction false} StopAfterFault(m: Mgr, order: seq<ClientId>, rest: seq<ClientId>, how: ClientId -> Ending, at: nat)
    requires Shaped(m) && (rest == [] || StopEach(m, order, how, at).crashed)
    ensures StopEach(m, order + rest, how, at) == StopEach(m, order, how, at)
    decreases |order|
  {
    hide StopOne;
    if order == [] {
      assert order + rest == rest;
    } else {
      assert (order + rest)[0] == order[0] && (order + rest)[1..] == order[1..] + rest;
      if !m.crashed { StopAfterFault(StopOne(m, order[0], how(order[0]), at), order[1..], rest, how, at); }
    }
  }
}
