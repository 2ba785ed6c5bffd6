/** What the activity recorder records, told from the calls alone: which events a run emits, with
    their kinds, ids, sessions, numbers and times. */
module TelemetryTrace {
  import opened Options
  import opened Telemetry

  /** A session as its calls make it: when it was opened, how many events it has, and whether a
      `disconnect` has ended it. */
  datatype Session = Session(id: nat, openedAt: real, count: nat, ended: bool)

  /** A resumed session opens with three events at time 0; a call of `emit` is recorded unless no
      session is open or the session has ended. */
  function Said(open: Option<Session>, step: Step): seq<Queued>
    requires step.ResumeStep? ==> |step.opening.ids| == 3
  {
    match step
    case ResumeStep(session, o) =>
      [Queued(session, Event(o.ids[0], 0, 1, Presented)),
       Queued(session, Event(o.ids[1], 0, 2, if o.visible then Visible else Hidden)),
       Queued(session, Event(o.ids[2], 0, 3, if o.focused then Focus else Blur))]
    case EmitStep(kind, now, id) =>
      if open.None? || open.value.ended then []
      else [Queued(open.value.id, Event(id, MonotonicMs(now - open.value.openedAt), open.value.count + 1, kind))]
    case _ => []
  }

  function Next(open: Option<Session>, step: Step): Option<Session> {
    match step
    case ResumeStep(session, o) => Some(Session(session, o.now, 3, false))
    case EmitStep(kind, now, id) =>
      if open.None? || open.value.ended then open
      else Some(open.value.(count := open.value.count + 1, ended := kind == Disconnect))
    case _ => open
  }

  predicate Opens(steps: seq<Step>) { forall i | 0 <= i < |steps| && steps[i].ResumeStep? :: |steps[i].opening.ids| == 3 }

  /** Everything said in a run, in order. */
  function Trace(open: Option<Session>, steps: seq<Step>): seq<Queued>
    requires Opens(steps)
    decreases |steps|
  {
    if steps == [] then [] else Said(open, steps[0]) + Trace(Next(open, steps[0]), steps[1..])
  }

  /** The refs of the recorder, as a session. */
  function Current(b: Browser): Option<Session> {
    if b.session.None? then None else Some(Session(b.session.value, b.startedAt, b.sequence, b.disconnected))
  }

  lemma EmitIsSaid(w: World, kind: Kind, now: real, id: nat)
    requires kind != Presented
    ensures EmitWorld(w, kind, now, id).emitted == w.emitted + Said(Current(w.browser), EmitStep(kind, now, id))
    ensures Current(EmitWorld(w, kind, now, id).browser) == Next(Current(w.browser), EmitStep(kind, now, id))
  {}

  lemma ResumeIsSaid(w: World, session: nat, o: Opening)
    requires Enabled(w, ResumeStep(session, o))
    ensures var w' := Apply(w, ResumeStep(session, o));
            && w'.emitted == w.emitted + Said(Current(w.browser), ResumeStep(session, o))
            && Current(w'.browser) == Next(Current(w.browser), ResumeStep(session, o))
  {
    assert MonotonicMs(o.now - o.now) == 0;
  }

  lemma StepIsSaid(w: World, step: Step)
    requires Enabled(w, step)
    ensures Apply(w, step).emitted == w.emitted + Said(Current(w.browser), step)
    ensures Current(Apply(w, step).browser) == Next(Current(w.browser), step)
  {
    match step
    case EmitStep(kind, now, id) => EmitIsSaid(w.(clock := now), kind, now, id);
    case ResumeStep(session, o) => ResumeIsSaid(w, session, o);
    case _ =>
  }

  lemma {:induction false} ValidRunsOpen(w: World, steps: seq<Step>)
    requires ValidRun(w, steps)
    ensures Opens(steps)
    decreases |steps|
  {
    if steps != [] {
      ValidRunsOpen(Apply(w, steps[0]), steps[1..]);
      assert forall i | 1 <= i < |steps| :: steps[i] == steps[1..][i - 1];
    }
  }

  lemma {:induction false} RunIsTrace(w: World, steps: seq<Step>)
    requires ValidRun(w, steps) && Opens(steps)
    ensures Run(w, steps).emitted == w.emitted + Trace(Current(w.browser), steps)
    decreases |steps|
  {
    if steps != [] {
      var w' := Apply(w, steps[0]);
      StepIsSaid(w, steps[0]);
      ValidRunsOpen(w', steps[1..]);
      RunIsTrace(w', steps[1..]);
      Regroup(w.emitted, Said(Current(w.browser), steps[0]), Trace(Current(w'.browser), steps[1..]));
    }
  }

  /** In every run what was emitted is what the calls said, and what the store holds is a prefix of
      that. */
  lemma EmittedIsTrace(steps: seq<Step>)
    requires ValidRun(Start, steps)
    ensures Opens(steps) && Run(Start, steps).emitted == Trace(None, steps) && Flat(Run(Start, steps).store) <= Trace(None, steps)
  {
    ValidRunsOpen(Start, steps);
    RunIsTrace(Start, steps);
    StoreIsPrefixOfEmitted(steps);
  }

  /** Times are whole milliseconds, rounded to the nearest, between 0 and one week. */
  lemma TimesAreRounded(elapsed: real)
    ensures elapsed <= 0.0 ==> MonotonicMs(elapsed) == 0
    ensures elapsed >= 604_800_000.0 ==> MonotonicMs(elapsed) == 604_800_000
    ensures 0.0 <= elapsed <= 604_800_000.0 ==>
              MonotonicMs(elapsed) as real - 0.5 <= elapsed < MonotonicMs(elapsed) as real + 0.5
  {}
}
