/** The life of a session: its will, its expiry and the one timer they share. Times are whole seconds. */
module SessionLife {
  import opened Common
  import opened Wire
  import opened Packets

  datatype ExitReason = Clean | Shutdown | Expired

  datatype Closed = Closed(at: nat, reason: ExitReason)
  datatype Sent = Sent(at: nat, will: Packet)

  /** What a new connection brings. */
  datatype Conf = Conf(will: Option<Packet>, willDelay: uint32, expireIn: Option<uint32>, kill: bool)

  datatype State = State(
    will: Option<Packet>, willDelay: uint32, expireIn: Option<uint32>, kill: bool,
    subscriber: bool,              // a subscriber is attached
    finalized: bool, online: bool,
    timer: Option<nat>,            // when the timer fires, if it is running
    published: seq<Sent>,          // wills published, in order
    closed: seq<Closed>)           // close signals given, in order

  datatype Params = Params(will: bool, expireAt: Option<uint32>)

  datatype Status = Switched | IsOnline | Finalized

  // ---------------------------------------------------------------- the callbacks, as functions

  function Finish(s: State, now: nat, reason: ExitReason): State {
    s.(closed := s.closed + [Closed(now, reason)], finalized := true)
  }

  function PublishWill(s: State, now: nat): State {
    if s.will.Some? then s.(published := s.published + [Sent(now, s.will.value)], will := None) else s
  }

  function RunExpiry(s: State, will: bool, now: nat): State {
    var delayed := will && s.will.Some? && s.willDelay > 0;
    var s1 := if delayed then s else s.(will := None);
    match s.expireIn
    case None => s1.(timer := Some(now + if delayed then s.willDelay else 0))
    case Some(e) =>
      if delayed && s.willDelay < e then s1.(expireIn := Some(e - s.willDelay), timer := Some(now + s.willDelay))
      else s1.(expireIn := Some(0), timer := Some(now + e))
  }

  /** The first half of onDisconnect: what the client asked for last, and a will that does not wait. */
  function Detach(s: State, p: Params, hasSubscriptions: bool, now: nat): State {
    var expireIn := if p.expireAt.Some? then p.expireAt else s.expireIn;
    var kill := s.kill || expireIn == Some(0);
    var s1 := s.(online := false, expireIn := expireIn, kill := kill, subscriber := s.subscriber && !kill && hasSubscriptions);
    if p.will && (kill || s.willDelay == 0) then PublishWill(s1, now) else s1
  }

  function OnDisconnect(s: State, p: Params, hasSubscriptions: bool, now: nat): State {
    var s1 := Detach(s, p, hasSubscriptions, now);
    if s1.kill then Finish(s1, now, Clean)
    else if s1.expireIn.None? && s1.willDelay == 0 then Finish(s1, now, Shutdown)
    else RunExpiry(s1, p.will, now)
  }

  function TimerCallback(s: State, now: nat): State {
    var s1 := if s.will.Some? then PublishWill(s, now).(willDelay := 0) else s;
    match s1.expireIn
    case None => Finish(s1, now, Shutdown)
    case Some(e) =>
      if e == 0 then Finish(s1.(subscriber := false), now, Expired)
      else s1.(expireIn := Some(0), timer := Some(now + e))
  }

  /** The timer goes off when it is due. */
  function Fire(s: State): State {
    if s.timer.None? then s else TimerCallback(s.(timer := None), s.timer.value)
  }

  function SetOnline(s: State): (State, Status) {
    if s.online then (s, IsOnline)
    else (s.(timer := None), if s.finalized then Finalized else Switched)
  }

  function Reconfigure(s: State, c: Conf): State {
    s.(will := c.will, willDelay := c.willDelay, expireIn := c.expireIn, kill := c.kill, subscriber := true, finalized := false)
  }

  /** Ends a session: its connection first, if it has one, as an abnormal disconnect. */
  function StopSession(s: State, p: Params, hasSubscriptions: bool, now: nat): State {
    var s1 := (if s.online then OnDisconnect(s, p.(will := true), hasSubscriptions, now) else s).(timer := None);
    if s1.finalized then s1 else Finish(s1, now, Shutdown)
  }

  function Created(): State {
    State(None, 0, None, false, false, false, false, None, [], [])
  }

  // ---------------------------------------------------------------- one disconnect and what follows

  predicate Live(s: State) {
    s.online && !s.finalized && s.timer.None?
  }

  /** The expiry that counts: the last one the client asked for. */
  function Expiry(s: State, p: Params): Option<uint32> {
    if p.expireAt.Some? then p.expireAt else s.expireIn
  }

  predicate EndsNow(s: State, p: Params) {
    s.kill || Expiry(s, p) == Some(0)
  }

  predicate WillDue(s: State, p: Params) {
    p.will && s.will.Some?
  }

  /** When the will is due, counted from the disconnect. */
  function WillAfter(s: State, p: Params): nat {
    if EndsNow(s, p) then 0
    else
      match Expiry(s, p)
      case None => s.willDelay
      case Some(e) => if s.willDelay < e then s.willDelay else e
  }

  /** When the session ends, counted from the disconnect. */
  function EndAfter(s: State, p: Params): nat {
    if EndsNow(s, p) then 0
    else
      match Expiry(s, p)
      case None => if WillDue(s, p) then s.willDelay else 0
      case Some(e) => e
  }

  function EndReason(s: State, p: Params): ExitReason {
    if EndsNow(s, p) then Clean else if Expiry(s, p).Some? then Expired else Shutdown
  }

  /** After a disconnect, with the timer left to itself, at most two firings bring this about: a due will
      is published exactly once, at the will delay or the session expiry, whichever comes first, and at
      once when the session ends with the connection or there is no delay; without a due will nothing is
      published; and the session ends exactly when its expiry interval has passed in all, with one close
      signal. The subscriber is let go when the session is wiped or has no subscriptions. */
  lemma DisconnectRunsOut(s: State, p: Params, hasSubscriptions: bool, now: nat)
    requires Live(s)
    ensures var t := Fire(Fire(OnDisconnect(s, p, hasSubscriptions, now)));
            && t.finalized && t.timer.None? && !t.online
            && t.published == s.published + (if WillDue(s, p) then [Sent(now + WillAfter(s, p), s.will.value)] else [])
            && t.closed == s.closed + [Closed(now + EndAfter(s, p), EndReason(s, p))]
            && t.subscriber == (EndReason(s, p).Shutdown? && s.subscriber && hasSubscriptions)
  {
    hide Fire, Detach;
    Detached(s, p, hasSubscriptions, now);
    var t := OnDisconnect(s, p, hasSubscriptions, now);
    if t.timer.None? {
      NothingFires(t);
    } else {
      TimerRunsOut(t, t.timer.value);
    }
  }

  lemma Detached(s: State, p: Params, hasSubscriptions: bool, now: nat)
    ensures var t := Detach(s, p, hasSubscriptions, now);
            var atOnce := p.will && (EndsNow(s, p) || s.willDelay == 0);
            && t.expireIn == Expiry(s, p) && t.kill == EndsNow(s, p) && !t.online
            && t.subscriber == (s.subscriber && !EndsNow(s, p) && hasSubscriptions)
            && t.willDelay == s.willDelay && t.timer == s.timer && t.closed == s.closed && t.finalized == s.finalized
            && t.will == (if atOnce then None else s.will)
            && t.published == (if atOnce && s.will.Some? then s.published + [Sent(now, s.will.value)] else s.published)
  {
  }

  lemma NothingFires(t: State)
    requires t.timer.None?
    ensures Fire(t) == t
  {
  }

  /** What a running timer leads to: the will when it fires, the end then or when the rest of the expiry has passed. */
  lemma TimerRunsOut(t: State, due: nat)
    requires t.timer == Some(due)
    ensures var u := Fire(Fire(t));
            && u.finalized && u.timer.None? && u.online == t.online
            && u.published == t.published + (if t.will.Some? then [Sent(due, t.will.value)] else [])
            && u.closed == t.closed + [Closed(due + t.expireIn.GetOr(0), if t.expireIn.Some? then Expired else Shutdown)]
            && u.subscriber == (t.expireIn.None? && t.subscriber)
  {
    hide PublishWill;
    var t1 := if t.will.Some? then PublishWill(t.(timer := None), due) else t.(timer := None);
    PublishedWill(t.(timer := None), due);
    var u := Fire(t);
    if t.expireIn.Some? && t.expireIn.value > 0 {
      assert u.timer == Some(due + t.expireIn.value) && u.expireIn == Some(0) && u.will.None?;
    }
  }

  lemma PublishedWill(s: State, now: nat)
    ensures var t := PublishWill(s, now);
            && t == s.(published := t.published, will := None)
            && t.published == s.published + if s.will.Some? then [Sent(now, s.will.value)] else []
  {
  }

  /** A disconnected session is finalized or its timer is running, never both. */
  lemma DisconnectSettles(s: State, p: Params, hasSubscriptions: bool, now: nat)
    requires Live(s)
    ensures var t := OnDisconnect(s, p, hasSubscriptions, now); !t.online && (t.finalized <==> t.timer.None?)
  {
  }

  // ---------------------------------------------------------------- runs

  datatype Event =
    | Joins(c: Conf)
    | Disconnect(p: Params, hasSubscriptions: bool, at: nat)
    | TimerFires
    | StopAt(p: Params, hasSubscriptions: bool, at: nat)

  /** A session that has ended is not used again. */
  predicate Enabled(s: State, e: Event) {
    match e
    case Joins(_) => !s.online && !s.finalized
    case Disconnect(_, _, _) => s.online
    case TimerFires => s.timer.Some?
    case StopAt(_, _, _) => true
  }

  function Apply(s: State, e: Event): State {
    match e
    case Joins(c) => Reconfigure(SetOnline(s).0, c).(online := true)
    case Disconnect(p, h, at) => OnDisconnect(s, p, h, at)
    case TimerFires => Fire(s)
    case StopAt(p, h, at) => StopSession(s, p, h, at)
  }

  predicate AllEnabled(s: State, es: seq<Event>)
    decreases |es|
  {
    es != [] ==> Enabled(s, es[0]) && AllEnabled(Apply(s, es[0]), es[1..])
  }

  function Run(s: State, es: seq<Event>): State
    decreases |es|
  {
    if es == [] then s else Run(Apply(s, es[0]), es[1..])
  }

  /** Online, or ended, or waiting for the timer; and one close signal exactly if it has ended. */
  predicate Inv(s: State) {
    && (s.online ==> !s.finalized && s.timer.None?)
    && (!s.online ==> (s.finalized <==> s.timer.None?))
    && |s.closed| == if s.finalized then 1 else 0
  }

  lemma ApplyKeeps(s: State, e: Event)
    requires Inv(s) && Enabled(s, e)
    ensures Inv(Apply(s, e))
  {
    hide OnDisconnect, Fire;
    match e
    case Joins(_) =>
    case Disconnect(p, h, at) => DisconnectKeeps(s, p, h, at);
    case TimerFires => FireKeeps(s);
    case StopAt(p, h, at) => if s.online { DisconnectKeeps(s, p.(will := true), h, at); }
  }

  lemma DisconnectKeeps(s: State, p: Params, hasSubscriptions: bool, now: nat)
    requires Inv(s) && s.online
    ensures Inv(OnDisconnect(s, p, hasSubscriptions, now)) && !OnDisconnect(s, p, hasSubscriptions, now).online
  {
    Detached(s, p, hasSubscriptions, now);
    hide Detach;
  }

  lemma FireKeeps(s: State)
    requires Inv(s) && s.timer.Some?
    ensures Inv(Fire(s))
  {
  }

  /** In every run of connects, disconnects, timer firings and stops: a session closes once and only at
      its end, and one that is disconnected has ended or has its timer running. */
  lemma {:induction false} EveryLife(s: State, es: seq<Event>)
    requires Inv(s) && AllEnabled(s, es)
    ensures var t := Run(s, es);
            && |t.closed| == (if t.finalized then 1 else 0)
            && (t.online ==> !t.finalized && t.timer.None?)
            && (!t.online ==> (t.finalized <==> t.timer.None?))
    decreases |es|
  {
    hide Apply, Enabled;
    if es != [] {
      ApplyKeeps(s, es[0]);
      EveryLife(Apply(s, es[0]), es[1..]);
    }
  }

  // ---------------------------------------------------------------- wills are not repeated

  /** How often `w` has been published. */
  function Times(sent: seq<Sent>, w: Packet): nat {
    if sent == [] then 0 else (if sent[|sent| - 1].will == w then 1 else 0) + Times(sent[..|sent| - 1], w)
  }

  lemma TimesSnoc(sent: seq<Sent>, x: Sent, w: Packet)
    ensures Times(sent + [x], w) == Times(sent, w) + if x.will == w then 1 else 0
  {
    assert (sent + [x])[..|sent|] == sent;
  }

  /** `w` can still be published by this session without a client bringing it again. */
  predicate Pending(s: State, w: Packet) {
    s.will == Some(w) && !s.finalized
  }

  predicate Brings(e: Event, w: Packet) {
    e.Joins? && e.c.will == Some(w)
  }

  function B(b: bool): nat { if b then 1 else 0 }

  lemma StepPublishes(s: State, e: Event, w: Packet)
    requires Inv(s) && Enabled(s, e) && !Brings(e, w)
    ensures var t := Apply(s, e); Times(t.published, w) + B(Pending(t, w)) <= Times(s.published, w) + B(Pending(s, w))
  {
    hide Times, Detach;
    if e.Disconnect? { Detached(s, e.p, e.hasSubscriptions, e.at); }
    if e.StopAt? { Detached(s, e.p.(will := true), e.hasSubscriptions, e.at); }
    forall at ensures s.will.Some? ==> Times(s.published + [Sent(at, s.will.value)], w) == Times(s.published, w) + B(s.will == Some(w)) {
      if s.will.Some? { TimesSnoc(s.published, Sent(at, s.will.value), w); }
    }
  }

  /** A will is published at most once, and not at all once it is no longer pending: after a disconnect
      without it, or after the client came back before the timer fired. */
  lemma {:induction false} WillAtMostOnce(s: State, es: seq<Event>, w: Packet)
    requires Inv(s) && AllEnabled(s, es) && forall e <- es :: !Brings(e, w)
    ensures Times(Run(s, es).published, w) <= Times(s.published, w) + B(Pending(s, w))
    decreases |es|
  {
    hide Inv, Apply, Enabled, Times, Brings, Pending, B;
    if es != [] {
      assert es[0] in es && forall e <- es[1..] :: e in es;
      StepPublishes(s, es[0], w);
      ApplyKeeps(s, es[0]);
      WillAtMostOnce(Apply(s, es[0]), es[1..], w);
    }
  }

  lemma {:induction false} PublishedGrows(s: State, es: seq<Event>, w: Packet)
    requires Inv(s) && AllEnabled(s, es)
    ensures Times(Run(s, es).published, w) >= Times(s.published, w)
    decreases |es|
  {
    hide Inv, Enabled, Times, Apply;
    if es != [] {
      var t := Apply(s, es[0]);
      ApplyKeeps(s, es[0]);
      AppendsAtMostOne(s, es[0]);
      if t.published != s.published {
        var last := t.published[|s.published|];
        assert t.published == s.published + [last];
        TimesSnoc(s.published, last, w);
      }
      PublishedGrows(t, es[1..], w);
    }
  }

  predicate Extends(a: seq<Sent>, b: seq<Sent>) {
    b == a || (|b| == |a| + 1 && b[..|a|] == a)
  }

  lemma AppendsAtMostOne(s: State, e: Event)
    ensures Extends(s.published, Apply(s, e).published)
  {
    hide OnDisconnect, Fire;
    match e
    case Joins(_) =>
    case Disconnect(p, h, at) => DisconnectAppends(s, p, h, at);
    case TimerFires => FireAppends(s);
    case StopAt(p, h, at) => DisconnectAppends(s, p.(will := true), h, at);
  }

  lemma DisconnectAppends(s: State, p: Params, hasSubscriptions: bool, now: nat)
    ensures var t := OnDisconnect(s, p, hasSubscriptions, now);
            t.published == s.published || (s.will.Some? && t.published == s.published + [Sent(now, s.will.value)])
    ensures Extends(s.published, OnDisconnect(s, p, hasSubscriptions, now).published)
  {
    Detached(s, p, hasSubscriptions, now);
    hide Detach;
  }

  lemma FireAppends(s: State)
    ensures Extends(s.published, Fire(s).published)
  {
    var t := Fire(s);
    assert t.published == s.published || (s.will.Some? && t.published == s.published + [Sent(s.timer.GetOr(0), s.will.value)]);
    hide Fire;
  }

  /** After a normal disconnect the will is never published, whatever follows, unless a client brings it again. */
  lemma NormalDisconnectSilences(s: State, p: Params, hasSubscriptions: bool, at: nat, es: seq<Event>, w: Packet)
    requires Inv(s) && s.online && !p.will && forall e <- es :: !Brings(e, w)
    requires AllEnabled(OnDisconnect(s, p, hasSubscriptions, at), es)
    ensures Times(Run(OnDisconnect(s, p, hasSubscriptions, at), es).published, w) == Times(s.published, w)
  {
    var t := OnDisconnect(s, p, hasSubscriptions, at);
    ApplyKeeps(s, Disconnect(p, hasSubscriptions, at));
    assert !Pending(t, w) && t.published == s.published;
    hide OnDisconnect;
    WillAtMostOnce(t, es, w);
    PublishedGrows(t, es, w);
  }

  /** So it is when the client comes back before the timer has fired. */
  lemma ReconnectSilences(s: State, c: Conf, es: seq<Event>, w: Packet)
    requires Inv(s) && !s.online && s.timer.Some? && c.will != Some(w) && forall e <- es :: !Brings(e, w)
    requires AllEnabled(Apply(s, Joins(c)), es)
    ensures Times(Run(Apply(s, Joins(c)), es).published, w) == Times(s.published, w)
  {
    var t := Apply(s, Joins(c));
    ApplyKeeps(s, Joins(c));
    assert !Pending(t, w) && t.published == s.published;
    hide Apply;
    WillAtMostOnce(t, es, w);
    PublishedGrows(t, es, w);
  }

  // ---------------------------------------------------------------- from what a client brings and how it leaves

  /** The expiry in force: the one sent on leaving, or else the one the client came with. */
  function InForce(c: Conf, p: Params): Option<uint32> {
    match p.expireAt
    case Some(e) => Some(e)
    case None => c.expireIn
  }

  /** The session does not outlive the connection. */
  predicate Ephemeral(c: Conf, p: Params) {
    c.kill || InForce(c, p) == Some(0)
  }

  /** When the will is due after the client has gone: at once if the session ends with the connection, otherwise
      after the delay or the expiry, whichever is shorter. */
  function WillWait(c: Conf, p: Params): nat {
    if Ephemeral(c, p) then 0
    else if InForce(c, p).Some? && InForce(c, p).value < c.willDelay then InForce(c, p).value
    else c.willDelay
  }

  /** When the session ends after the client has gone. One without an expiry ends with its will. */
  function EndWait(c: Conf, p: Params): nat {
    if Ephemeral(c, p) then 0
    else if InForce(c, p).Some? then InForce(c, p).value
    else if p.will && c.will.Some? then c.willDelay
    else 0
  }

  /** A client that comes with `c`, to a new session or to one that was offline, and leaves for good: the will it
      brought, and no other, is published exactly once, at its time, if it leaves without taking it back; the
      session ends at its time; a subscriber is kept only by a session that is neither wiped nor expired. */
  lemma VisitRunsOut(s: State, c: Conf, p: Params, hasSubscriptions: bool, now: nat)
    requires !s.online && !s.finalized
    ensures var t := Fire(Fire(Apply(Apply(s, Joins(c)), Disconnect(p, hasSubscriptions, now))));
            && t.finalized && t.timer.None? && !t.online
            && t.published == s.published + (if p.will && c.will.Some? then [Sent(now + WillWait(c, p), c.will.value)] else [])
            && t.closed == s.closed + [Closed(now + EndWait(c, p), if Ephemeral(c, p) then Clean else if InForce(c, p).Some? then Expired else Shutdown)]
            && t.subscriber == (!Ephemeral(c, p) && InForce(c, p).None? && hasSubscriptions)
  {
    hide Fire, OnDisconnect;
    DisconnectRunsOut(Apply(s, Joins(c)), p, hasSubscriptions, now);
  }

  /** When the client leaves, the session ends at once exactly if it does not outlive the connection or has neither
      expiry nor will delay; otherwise its timer runs to the will delay or the expiry, whichever it waits for. */
  lemma EndsAtOnceExactlyIf(s: State, c: Conf, p: Params, hasSubscriptions: bool, now: nat)
    requires !s.online && !s.finalized
    ensures var t, e := Apply(Apply(s, Joins(c)), Disconnect(p, hasSubscriptions, now)), InForce(c, p);
            && (t.finalized <==> Ephemeral(c, p) || (e.None? && c.willDelay == 0))
            && t.timer == (if t.finalized then None
                           else if p.will && c.will.Some? && c.willDelay > 0 && (e.None? || c.willDelay < e.value) then Some(now + c.willDelay)
                           else Some(now + e.GetOr(0)))
  {
    Detached(Apply(s, Joins(c)), p, hasSubscriptions, now);
    hide Detach;
  }

  /** While the client is there nothing is published and nothing closes, and the timer does not run. */
  lemma VisitIsQuiet(s: State, c: Conf)
    requires !s.online && !s.finalized
    ensures var t := Apply(s, Joins(c)); t.online && !t.finalized && t.timer.None? && t.subscriber && t.published == s.published && t.closed == s.closed
  {
  }

  /** A session that is stopped while the client that came with `c` is there: its will is published exactly if
      there is no delay or the session ends with the connection; one that should wait is lost. */
  lemma StopPublishesExactlyIf(s: State, c: Conf, p: Params, hasSubscriptions: bool, now: nat)
    requires !s.online && !s.finalized
    ensures var t := Apply(Apply(s, Joins(c)), StopAt(p, hasSubscriptions, now));
            && t.finalized && t.timer.None? && !t.online && |t.closed| == |s.closed| + 1 && t.closed[|s.closed|].at == now
            && t.published == s.published + (if c.will.Some? && (c.willDelay == 0 || Ephemeral(c, p)) then [Sent(now, c.will.value)] else [])
  {
    Detached(Apply(s, Joins(c)), p.(will := true), hasSubscriptions, now);
    hide Detach;
  }

  /** A stop signals at most one close. */
  lemma StopGrows(s: State, p: Params, hasSubscriptions: bool, now: nat)
    ensures |s.closed| <= |StopSession(s, p, hasSubscriptions, now).closed| <= |s.closed| + 1
  {
    Detached(s, p.(will := true), hasSubscriptions, now);
    hide Detach;
  }
}
