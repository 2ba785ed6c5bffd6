/** What the recorded events look like session by session. */
module TelemetrySessions {
  import opened Options
  import opened Telemetry

  /** The events of one session, in the order they were emitted. */
  function SessionEvents(q: seq<Queued>, session: nat): seq<Event> {
    if q == [] then []
    else
      var last := q[|q| - 1];
      SessionEvents(q[..|q| - 1], session) + if last.session == session then [last.event] else []
  }

  /** Opens with `presented` at sequence 1, counts on without gaps, never runs backwards, stays
      within a week, and ends at the first `disconnect`. */
  predicate WellFormedSession(es: seq<Event>) {
    && (forall i | 0 <= i < |es| :: es[i].sequence == i + 1 && es[i].monotonicMs <= MAX_MONOTONIC_MS)
    && (forall i | 0 <= i < |es| :: es[i].kind == Presented <==> i == 0)
    && (forall i, j | 0 <= i < j < |es| :: es[i].monotonicMs <= es[j].monotonicMs)
    && (forall i | 0 <= i < |es| - 1 :: es[i].kind != Disconnect)
  }

  lemma SessionEventsAppend(q: seq<Queued>, x: Queued, session: nat)
    ensures SessionEvents(q + [x], session) ==
            SessionEvents(q, session) + if x.session == session then [x.event] else []
  {
    assert (q + [x])[..|q|] == q;
  }

  lemma {:induction false} NoEventsOfUnusedSession(q: seq<Queued>, session: nat)
    requires forall i | 0 <= i < |q| :: q[i].session != session
    ensures SessionEvents(q, session) == []
  {
    if q != [] { NoEventsOfUnusedSession(q[..|q| - 1], session); }
  }

  // ----- The inductive invariant -----

  /** The refs describe the end of the current session. */
  predicate CurrentOk(w: World) {
    w.browser.session.Some? ==>
      var b, es := w.browser, SessionEvents(w.emitted, w.browser.session.value);
      && b.session.value in w.used && b.startedAt <= w.clock
      && |es| == b.sequence
      && (es == [] ==> !b.disconnected)
      && (es != [] ==>
            && (es[|es| - 1].kind == Disconnect <==> b.disconnected)
            && es[|es| - 1].monotonicMs <= MonotonicMs(w.clock - b.startedAt))
  }

  predicate DistinctIds(q: seq<Queued>, used: set<nat>) {
    && (forall i | 0 <= i < |q| :: q[i].event.id in used && q[i].session in used)
    && (forall i, j | 0 <= i < j < |q| :: q[i].event.id != q[j].event.id)
  }

  ghost predicate AllWellFormed(emitted: seq<Queued>) {
    forall s: nat :: WellFormedSession(SessionEvents(emitted, s))
  }

  ghost predicate SessionInv(w: World) {
    && AllWellFormed(w.emitted)
    && DistinctIds(w.emitted, w.used)
    && CurrentOk(w)
  }

  lemma ExtendSession(es: seq<Event>, e: Event)
    requires WellFormedSession(es)
    requires e.sequence == |es| + 1 && e.monotonicMs <= MAX_MONOTONIC_MS
    requires e.kind == Presented <==> es == []
    requires es != [] ==> es[|es| - 1].kind != Disconnect && es[|es| - 1].monotonicMs <= e.monotonicMs
    ensures WellFormedSession(es + [e])
  {}

  /** One more event of its own session, and of no other. */
  lemma EmittedSession(emitted: seq<Queued>, x: Queued, s: nat)
    requires WellFormedSession(SessionEvents(emitted, s))
    requires x.session == s ==>
               var es := SessionEvents(emitted, s);
               && x.event.sequence == |es| + 1 && x.event.monotonicMs <= MAX_MONOTONIC_MS
               && (x.event.kind == Presented <==> es == [])
               && (es != [] ==> es[|es| - 1].kind != Disconnect && es[|es| - 1].monotonicMs <= x.event.monotonicMs)
    ensures WellFormedSession(SessionEvents(emitted + [x], s))
  {
    SessionEventsAppend(emitted, x, s);
    if s == x.session {
      ExtendSession(SessionEvents(emitted, s), x.event);
    } else {
      assert SessionEvents(emitted + [x], s) == SessionEvents(emitted, s);
    }
  }

  lemma EmitKeepsWellFormed(w: World, x: Queued)
    requires SessionInv(w) && w.browser.session == Some(x.session)
    requires x.event.sequence == w.browser.sequence + 1 && x.event.monotonicMs == MonotonicMs(w.clock - w.browser.startedAt)
    requires (x.event.kind == Presented <==> w.browser.sequence == 0) && !w.browser.disconnected
    ensures AllWellFormed(w.emitted + [x])
  {
    forall s: nat ensures WellFormedSession(SessionEvents(w.emitted + [x], s)) {
      EmittedSession(w.emitted, x, s);
    }
  }

  lemma EmitKeepsCurrent(w: World, kind: Kind, now: real, id: nat)
    requires SessionInv(w) && w.clock == now && Emits(w.browser, kind) && !w.browser.disconnected
    ensures CurrentOk(EmitWorld(w, kind, now, id))
  {
    var x := Queued(w.browser.session.value, NextEvent(w.browser, kind, now, id));
    SessionEventsAppend(w.emitted, x, x.session);
  }

  lemma EmitKeepsSessions(w: World, kind: Kind, now: real, id: nat)
    requires SessionInv(w) && w.clock == now && id !in w.used
    requires Emits(w.browser, kind) ==> (kind == Presented <==> w.browser.sequence == 0) && !w.browser.disconnected
    ensures SessionInv(EmitWorld(w, kind, now, id))
  {
    if Emits(w.browser, kind) {
      var x := Queued(w.browser.session.value, NextEvent(w.browser, kind, now, id));
      EmitKeepsWellFormed(w, x);
      EmitKeepsDistinct(w.emitted, w.used, x);
      EmitKeepsCurrent(w, kind, now, id);
    } else {
      SilenceKeepsSessions(w, id);
    }
  }

  lemma EmitKeepsDistinct(q: seq<Queued>, used: set<nat>, x: Queued)
    requires DistinctIds(q, used) && x.event.id !in used && x.session in used
    ensures DistinctIds(q + [x], used + {x.event.id})
  {}

  lemma SilenceKeepsSessions(w: World, id: nat)
    requires SessionInv(w)
    ensures SessionInv(w.(used := w.used + {id}))
  {}

  lemma ClockKeepsSessions(w: World, now: real)
    requires SessionInv(w) && now >= w.clock
    ensures SessionInv(w.(clock := now))
  {
    if w.browser.session.Some? {
      MonotonicMsIsMonotone(w.clock - w.browser.startedAt, now - w.browser.startedAt);
    }
  }

  lemma OpenKeepsSessions(w: World, session: nat, now: real)
    requires SessionInv(w) && session !in w.used && w.clock <= now
    ensures var w0 := w.(browser := Open(w.browser, session, now), clock := now, used := w.used + {session});
            SessionInv(w0) && w0.browser.sequence == 0 && !w0.browser.disconnected
  {
    NoEventsOfUnusedSession(w.emitted, session);
  }

  lemma StepKeepsSessions(w: World, step: Step)
    requires SessionInv(w) && Enabled(w, step)
    requires w.browser.session.Some? ==> w.browser.sequence >= 1
    ensures SessionInv(Apply(w, step))
    ensures Apply(w, step).browser.session.Some? ==> Apply(w, step).browser.sequence >= 1
  {
    var w' := Apply(w, step);
    match step
    case EmitStep(kind, now, id) =>
      ClockKeepsSessions(w, now);
      EmitKeepsSessions(w.(clock := now), kind, now, id);
    case ResumeStep(session, o) =>
      ResumeKeepsSessions(w, session, o);
    case FlushStep(keepalive, batchId) =>
      OnlyQueueMoves(w, w');
    case ArriveStep(copy) =>
      OnlyQueueMoves(w, w');
    case OkStep(batchId) =>
      OnlyQueueMoves(w, w');
    case FailStep =>
      OnlyQueueMoves(w, w');
  }

  lemma ResumeKeepsSessions(w: World, session: nat, o: Opening)
    requires SessionInv(w) && Enabled(w, ResumeStep(session, o))
    ensures SessionInv(Apply(w, ResumeStep(session, o)))
    ensures Apply(w, ResumeStep(session, o)).browser.sequence == 3
  {
    OpenKeepsSessions(w, session, o.now);
    var w0 := w.(browser := Open(w.browser, session, o.now), clock := o.now, used := w.used + {session});
    OpeningIdsAreFresh(w.used, session, o);
    OpeningEvents(w0, o, if o.visible then Visible else Hidden, if o.focused then Focus else Blur);
  }

  lemma OpeningEvents(w0: World, o: Opening, second: Kind, third: Kind)
    requires SessionInv(w0) && w0.clock == o.now && w0.browser.session.Some? && !w0.browser.disconnected && w0.browser.sequence == 0
    requires |o.ids| == 3 && o.ids[0] !in w0.used && o.ids[1] !in w0.used + {o.ids[0]} && o.ids[2] !in w0.used + {o.ids[0]} + {o.ids[1]}
    requires second != Presented && second != Disconnect && third != Presented && third != Disconnect
    ensures var w1 := EmitWorld(w0, Presented, o.now, o.ids[0]);
            var w3 := EmitWorld(EmitWorld(w1, second, o.now, o.ids[1]), third, o.now, o.ids[2]);
            SessionInv(w3) && w3.browser.sequence == 3
  {
    OpeningEvent(w0, Presented, o.now, o.ids[0]);
    var w1 := EmitWorld(w0, Presented, o.now, o.ids[0]);
    OpeningEvent(w1, second, o.now, o.ids[1]);
    var w2 := EmitWorld(w1, second, o.now, o.ids[1]);
    OpeningEvent(w2, third, o.now, o.ids[2]);
  }

  lemma OpeningIdsAreFresh(used: set<nat>, session: nat, o: Opening)
    requires |o.ids| == 3
    requires forall i | 0 <= i < 3 :: o.ids[i] !in used + {session} + (set j | 0 <= j < i :: o.ids[j])
    ensures o.ids[0] !in used + {session} && o.ids[1] !in used + {session} + {o.ids[0]}
    ensures o.ids[2] !in used + {session} + {o.ids[0]} + {o.ids[1]}
  {}

  /** An event right after a session was opened: `presented` first, the others after it. */
  lemma OpeningEvent(w: World, kind: Kind, now: real, id: nat)
    requires SessionInv(w) && w.clock == now && id !in w.used && w.browser.session.Some? && !w.browser.disconnected
    requires (kind == Presented <==> w.browser.sequence == 0) && kind != Disconnect
    ensures var w' := EmitWorld(w, kind, now, id);
            && SessionInv(w') && w'.clock == now && w'.used == w.used + {id} && w'.browser.session.Some?
            && !w'.browser.disconnected && w'.browser.sequence == w.browser.sequence + 1
  {
    EmitKeepsSessions(w, kind, now, id);
  }

  lemma OnlyQueueMoves(w: World, w': World)
    requires SessionInv(w)
    requires w'.emitted == w.emitted && w.used <= w'.used && w'.clock == w.clock
    requires w'.browser == w.browser.(queue := w'.browser.queue, pending := w'.browser.pending, flush := w'.browser.flush)
    ensures SessionInv(w')
  {}

  lemma {:induction false} RunKeepsSessions(w: World, steps: seq<Step>)
    requires ValidRun(w, steps) && SessionInv(w)
    requires w.browser.session.Some? ==> w.browser.sequence >= 1
    ensures SessionInv(Run(w, steps))
    decreases |steps|
  {
    if steps != [] {
      StepKeepsSessions(w, steps[0]);
      RunKeepsSessions(Apply(w, steps[0]), steps[1..]);
    }
  }

  lemma {:induction false} SessionEventsOfPrefix(q: seq<Queued>, k: nat, session: nat)
    requires k <= |q|
    ensures SessionEvents(q[..k], session) <= SessionEvents(q, session)
    decreases |q| - k
  {
    if k < |q| {
      SessionEventsOfPrefix(q, k + 1, session);
      assert q[..k + 1] == q[..k] + [q[k]];
      SessionEventsAppend(q[..k], q[k], session);
    } else {
      assert q[..k] == q;
    }
  }

  /** In every run each session is well formed, no event id occurs twice, and what the store
      holds of a session is a prefix of it. */
  lemma EverySessionWellFormed(steps: seq<Step>, session: nat)
    requires ValidRun(Start, steps)
    ensures var w := Run(Start, steps);
            && WellFormedSession(SessionEvents(w.emitted, session))
            && SessionEvents(Flat(w.store), session) <= SessionEvents(w.emitted, session)
            && forall i, j | 0 <= i < j < |w.emitted| :: w.emitted[i].event.id != w.emitted[j].event.id
  {
    assert SessionInv(Start);
    RunKeepsSessions(Start, steps);
    StoreIsPrefixOfEmitted(steps);
    var w := Run(Start, steps);
    SessionEventsOfPrefix(w.emitted, |Flat(w.store)|, session);
    assert Flat(w.store) == w.emitted[..|Flat(w.store)|];
  }
}
