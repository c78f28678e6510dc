/** The session object: its callbacks, each tied to what the session's life is said to be. */
module LiveSession {
  import opened Common
  import opened Wire
  import opened Packets
  import Life = SessionLife
  import opened SessionLife

  class Session {
    var will: Option<Packet>
    var willDelay: uint32
    var expireIn: Option<uint32>
    var killOnDisconnect: bool
    var subscriber: bool
    var finalized: bool
    var isOnline: bool
    var timer: Option<nat>
    var published: seq<Sent>
    var closed: seq<Closed>
    var connStop: bool                       // set with the first connection; until then there is nothing to stop with

    ghost function Value(): State
      reads this
    {
      State(will, willDelay, expireIn, killOnDisconnect, subscriber, finalized, isOnline, timer, published, closed)
    }

    constructor ()
      ensures Value() == Life.Created() && !connStop
    {
      will, willDelay, expireIn, killOnDisconnect, subscriber := None, 0, None, false, false;
      finalized, isOnline, timer, published, closed, connStop := false, false, None, [], [], false;
    }

    method SignalClose(now: nat, reason: ExitReason)
      modifies this
      ensures Value() == Life.Finish(old(Value()), now, reason)
      ensures connStop == old(connStop)
    {
      closed := closed + [Closed(now, reason)];
      finalized := true;
    }

    method Reconfigure(c: Conf, runExpiry: bool, now: nat)
      modifies this
      ensures Value() == var s := Life.Reconfigure(old(Value()), c); if runExpiry then Life.RunExpiry(s, true, now) else s
      ensures connStop == old(connStop)
    {
      will, willDelay, expireIn, killOnDisconnect, subscriber := c.will, c.willDelay, c.expireIn, c.kill, true;
      finalized := false;
      if runExpiry {
        RunExpiry(true, now);
      }
    }

    method RunExpiry(useWill: bool, now: nat)
      modifies this
      ensures Value() == Life.RunExpiry(old(Value()), useWill, now)
      ensures connStop == old(connStop)
    {
      var timerPeriod: uint32 := 0;
      if useWill && will.Some? && willDelay > 0 {
        timerPeriod := willDelay;
      } else {
        will := None;
      }
      if expireIn.Some? {
        if timerPeriod > 0 && timerPeriod < expireIn.value {
          expireIn := Some(expireIn.value - timerPeriod);
        } else {
          timerPeriod := expireIn.value;
          expireIn := Some(0);
        }
      }
      timer := Some(now + timerPeriod);
    }

    method Detach(p: Params, hasSubscriptions: bool, now: nat)
      modifies this
      ensures Value() == Life.Detach(old(Value()), p, hasSubscriptions, now)
      ensures connStop == old(connStop)
    {
      isOnline := false;
      if p.expireAt.Some? {
        expireIn := p.expireAt;
      }
      if expireIn == Some(0) {
        killOnDisconnect := true;
      }
      if p.will && will.Some? && (killOnDisconnect || willDelay == 0) {
        published := published + [Sent(now, will.value)];
        will := None;
      }
      if killOnDisconnect || !hasSubscriptions {
        subscriber := false;
      }
    }

    method OnDisconnect(p: Params, hasSubscriptions: bool, now: nat)
      modifies this
      ensures Value() == Life.OnDisconnect(old(Value()), p, hasSubscriptions, now)
      ensures connStop == old(connStop)
    {
      Life.Detached(Value(), p, hasSubscriptions, now);
      hide Life.Detach, Life.RunExpiry, Life.Finish;
      Detach(p, hasSubscriptions, now);
      if killOnDisconnect {
        SignalClose(now, Clean);
      } else if expireIn.None? && willDelay == 0 {
        SignalClose(now, Shutdown);
      } else if (expireIn.Some? && expireIn.value > 0) || willDelay > 0 {
        // The expiry the client sent when it left is already in place.
        RunExpiry(p.will, now);
      }
    }

    /** The timer has gone off. */
    method TimerCallback()
      requires timer.Some?
      modifies this
      ensures Value() == Life.Fire(old(Value()))
      ensures connStop == old(connStop)
    {
      var now := timer.value;
      timer := None;
      if will.Some? {
        published := published + [Sent(now, will.value)];
        will := None;
        willDelay := 0;
      }
      if expireIn.None? {
        SignalClose(now, Shutdown);
      } else if expireIn.value == 0 {
        subscriber := false;
        SignalClose(now, Expired);
      } else {
        var val := expireIn.value;
        expireIn := Some(0);
        timer := Some(now + val);
      }
    }

    method SetOnline() returns (status: Status)
      modifies this
      ensures (Value(), status) == Life.SetOnline(old(Value()))
      ensures connStop == old(connStop)
    {
      if isOnline {
        return IsOnline;
      }
      timer := None;
      return if finalized then Finalized else Switched;
    }

    /** Faults on a session that has never had a connection. */
    method Stop(p: Params, hasSubscriptions: bool, now: nat) returns (fault: bool)
      modifies this
      ensures fault == !old(connStop) && connStop == old(connStop)
      ensures Value() == if fault then old(Value()) else Life.StopSession(old(Value()), p, hasSubscriptions, now)
    {
      if !connStop {
        return true;
      }
      if isOnline {
        OnDisconnect(p.(will := true), hasSubscriptions, now);
      }
      timer := None;
      if !finalized {
        SignalClose(now, Shutdown);
      }
      return false;
    }

    /** A client connects to a session that has not ended: setOnline, reconfigure, allocConnection and start. */
    method Join(c: Conf)
      requires !isOnline && !finalized
      modifies this
      ensures Value() == Life.Apply(old(Value()), Joins(c)) && connStop
    {
      var status := SetOnline();
      Reconfigure(c, false, 0);
      connStop := true;
      isOnline := true;
    }

    method Perform(e: Event)
      requires Life.Enabled(Value(), e) && (connStop || e.Joins?)
      modifies this
      ensures Value() == Life.Apply(old(Value()), e) && connStop
    {
      match e
      case Joins(c) => Join(c);
      case Disconnect(p, has, at) => OnDisconnect(p, has, at);
      case TimerFires => TimerCallback();
      case StopAt(p, has, at) => var _ := Stop(p, has, at);
    }

    /** Any life of the object: it closes once and only at its end, and offline it has ended or waits for the
        timer; a will nobody brings again is published at most once more, and only if it is pending. */
    method Lives(es: seq<Event>)
      requires connStop && Life.Inv(Value()) && Life.AllEnabled(Value(), es)
      modifies this
      ensures Value() == Life.Run(old(Value()), es) && Life.Inv(Value())
      ensures forall w | forall e <- es :: !Life.Brings(e, w) ::
                Life.Times(published, w) <= Life.Times(old(published), w) + Life.B(Life.Pending(old(Value()), w))
    {
      hide Life.Apply, Life.Enabled, Life.Inv;
      ghost var start := Value();
      for i := 0 to |es|
        invariant connStop && Life.Inv(Value()) && Life.AllEnabled(Value(), es[i..]) && Life.Run(Value(), es[i..]) == Life.Run(start, es)
      {
        assert es[i..][0] == es[i] && es[i..][1..] == es[i + 1..];
        Life.ApplyKeeps(Value(), es[i]);
        Perform(es[i]);
      }
      forall w | forall e <- es :: !Life.Brings(e, w)
        ensures Life.Times(published, w) <= Life.Times(start.published, w) + Life.B(Life.Pending(start, w)) {
        Life.WillAtMostOnce(start, es, w);
      }
    }

    /** The client leaves and does not come back: the timer fires at most twice, the will is published exactly
        once at its time if it is due, and the session ends at its time with one close signal. */
    method RunOut(p: Params, hasSubscriptions: bool, now: nat) returns (fired: nat)
      requires Life.Live(Value())
      modifies this
      ensures fired <= 2 && finalized && timer.None? && !isOnline && connStop == old(connStop)
      ensures var s := old(Value());
              && published == s.published + (if Life.WillDue(s, p) then [Sent(now + Life.WillAfter(s, p), s.will.value)] else [])
              && closed == s.closed + [Closed(now + Life.EndAfter(s, p), Life.EndReason(s, p))]
    {
      hide Life.Fire, Life.OnDisconnect, Life.WillDue, Life.WillAfter, Life.EndAfter, Life.EndReason;
      ghost var s := Value();
      Life.DisconnectRunsOut(s, p, hasSubscriptions, now);
      OnDisconnect(p, hasSubscriptions, now);
      ghost var left := Value();
      fired := 0;
      while timer.Some?
        invariant fired <= 2 && connStop == old(connStop) && Value() == if fired == 0 then left else if fired == 1 then Life.Fire(left) else Life.Fire(Life.Fire(left))
        decreases 2 - fired
      {
        TimerCallback();
        fired := fired + 1;
      }
      Life.NothingFires(Value());
    }

    /** A client comes, stays and leaves for good: its own will is published once at its time if it is not
        taken back, and the session ends at its time. */
    method Visit(c: Conf, p: Params, hasSubscriptions: bool, now: nat)
      requires !isOnline && !finalized
      modifies this
      ensures finalized && timer.None? && !isOnline && connStop
      ensures published == old(published) + (if p.will && c.will.Some? then [Sent(now + Life.WillWait(c, p), c.will.value)] else [])
      ensures closed == old(closed) + [Closed(now + Life.EndWait(c, p), if Life.Ephemeral(c, p) then Clean else if Life.InForce(c, p).Some? then Expired else Shutdown)]
    {
      Life.VisitRunsOut(Value(), c, p, hasSubscriptions, now);
      Join(c);
      ghost var s := Value();
      Life.DisconnectRunsOut(s, p, hasSubscriptions, now);
      hide Life.Fire, Life.OnDisconnect;
      var _ := RunOut(p, hasSubscriptions, now);
    }
  }
}
