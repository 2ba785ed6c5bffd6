/** Browser-context snapshots (src/components/evidence/participant-context-recorder.tsx): the
    head of the queue is sent until it is acknowledged, into a store that keeps one row per
    session and sequence (database/engine-participant-context.sql). */
module ContextRecorder {
  import opened Options
  import T = Telemetry

  datatype Purpose = Presentation | Save | Submission

  datatype Snapshot = Snapshot(session: nat, sequence: nat, purpose: Purpose, monotonicMs: nat)

  datatype Context = Context(
    session: Option<nat>, startedAt: real, sequence: nat, queue: seq<Snapshot>, flush: T.Flush)

  const NewContext := Context(None, 0.0, 0, [], T.Idle)

  /** What `record` pushes: nothing for a repeated presentation, and a presentation first when a
      session opens with a response. `openedAt` and `now` are the two readings of the clock. */
  function Pushed(c: Context, purpose: Purpose, openedAt: real, now: real, newId: nat): seq<Snapshot> {
    if c.session.None? then
      if purpose == Presentation then [Snapshot(newId, 1, Presentation, T.MonotonicMs(now - openedAt))]
      else [Snapshot(newId, 1, Presentation, 0), Snapshot(newId, 2, purpose, T.MonotonicMs(now - openedAt))]
    else if purpose == Presentation && c.sequence > 0 then []
    else [Snapshot(c.session.value, c.sequence + 1, purpose, T.MonotonicMs(now - c.startedAt))]
  }

  function Record(c: Context, purpose: Purpose, openedAt: real, now: real, newId: nat): Context {
    var pushed := Pushed(c, purpose, openedAt, now, newId);
    var current := if c.session.None? then c.(session := Some(newId), startedAt := openedAt, sequence := 0) else c;
    current.(sequence := current.sequence + |pushed|, queue := c.queue + pushed)
  }

  function SendHead(c: Context, keepalive: bool): Context {
    c.(flush := if c.queue == [] then T.Idle else T.Awaiting(keepalive))
  }

  function CallFlush(c: Context, keepalive: bool): Context {
    if c.flush.Awaiting? then c else SendHead(c, keepalive)
  }

  function ReplyOk(c: Context): Context
    requires c.flush.Awaiting? && c.queue != []
  {
    var shifted := c.(queue := c.queue[1..]);
    if c.flush.keepalive then shifted.(flush := T.Idle) else SendHead(shifted, false)
  }

  function ReplyFailed(c: Context): Context { c.(flush := T.Idle) }

  /** The hook's refs, updated in place. */
  class SnapshotRecorder {
    var session: Option<nat>
    var startedAt: real
    var sequence: nat
    var queue: seq<Snapshot>
    var flush: T.Flush

    function State(): Context
      reads this
    {
      Context(session, startedAt, sequence, queue, flush)
    }

    constructor ()
      ensures State() == NewContext
    {
      session, startedAt, sequence, queue, flush := None, 0.0, 0, [], T.Idle;
    }

    method RecordSnapshot(purpose: Purpose, openedAt: real, now: real, newId: nat)
      modifies this
      ensures State() == Record(old(State()), purpose, openedAt, now, newId)
      ensures old(session.None?) && purpose == Presentation ==>
                queue == old(queue) + [Snapshot(newId, 1, Presentation, T.MonotonicMs(now - openedAt))]
      ensures old(session.None?) && purpose != Presentation ==>
                queue == old(queue) + [Snapshot(newId, 1, Presentation, 0), Snapshot(newId, 2, purpose, T.MonotonicMs(now - openedAt))]
      ensures old(session.Some?) ==>
                queue == old(queue) + if purpose == Presentation && old(sequence) > 0 then []
                                      else [Snapshot(old(session.value), old(sequence) + 1, purpose, T.MonotonicMs(now - old(startedAt)))]
    {
      var newSession := session.None?;
      if session.None? {
        session, startedAt, sequence := Some(newId), openedAt, 0;
      }
      if purpose == Presentation && sequence > 0 {
        assert queue == queue + [];
        return;
      }
      ghost var was, first := queue, Snapshot(session.value, 1, Presentation, 0);
      if newSession && purpose != Presentation {
        sequence := sequence + 1;
        queue := queue + [Snapshot(session.value, sequence, Presentation, 0)];
      }
      sequence := sequence + 1;
      var snapshot := Snapshot(session.value, sequence, purpose, T.MonotonicMs(now - startedAt));
      assert was + [first] + [snapshot] == was + [first, snapshot];
      queue := queue + [snapshot];
    }

    method Flush(keepalive: bool)
      modifies this`flush
      ensures State() == CallFlush(old(State()), keepalive)
    {
      if flush.Awaiting? { return; }
      flush := if queue == [] then T.Idle else T.Awaiting(keepalive);
    }

    method OnReply(ok: bool)
      requires flush.Awaiting? && queue != []
      modifies this
      ensures State() == if ok then ReplyOk(old(State())) else ReplyFailed(old(State()))
    {
      var keepalive := flush.keepalive;
      flush := T.Idle;
      if !ok { return; }
      queue := queue[1..];
      if keepalive { return; }
      Flush(false);
    }
  }

  // ----- Browser, network and store -----

  datatype World = World(
    context: Context, network: set<Snapshot>, store: seq<Snapshot>, emitted: seq<Snapshot>, acked: seq<Snapshot>)

  const Start := World(NewContext, {}, [], [], [])

  datatype Step =
    | RecordStep(purpose: Purpose, openedAt: real, now: real, newId: nat)
    | FlushStep(keepalive: bool)
    | ArriveStep(copy: Snapshot)
    | OkStep
    | FailStep

  /** The largest sequence number that the table admits. */
  const MAX_SEQUENCE := 64

  /** One row per session and sequence, within the table's check. */
  function Keep(store: seq<Snapshot>, copy: Snapshot): seq<Snapshot> {
    if copy.sequence > MAX_SEQUENCE
       || (exists i | 0 <= i < |store| :: store[i].session == copy.session && store[i].sequence == copy.sequence)
    then store else store + [copy]
  }

  predicate Enabled(w: World, step: Step) {
    match step
    case RecordStep(_, _, _, _) => true
    case FlushStep(_) => true
    case ArriveStep(copy) => copy in w.network
    case OkStep => w.context.flush.Awaiting? && w.context.queue != [] && w.context.queue[0] in w.store
    case FailStep => w.context.flush.Awaiting?
  }

  function Transmit(w: World): World {
    if w.context.flush.Awaiting? && w.context.queue != []
    then w.(network := w.network + {w.context.queue[0]}) else w
  }

  function Apply(w: World, step: Step): World
    requires Enabled(w, step)
  {
    match step
    case RecordStep(purpose, openedAt, now, newId) =>
      w.(context := Record(w.context, purpose, openedAt, now, newId), emitted := w.emitted + Pushed(w.context, purpose, openedAt, now, newId))
    case FlushStep(keepalive) => Transmit(w.(context := CallFlush(w.context, keepalive)))
    case ArriveStep(copy) => w.(store := Keep(w.store, copy))
    case OkStep => Transmit(w.(context := ReplyOk(w.context), acked := w.acked + [w.context.queue[0]]))
    case FailStep => w.(context := ReplyFailed(w.context))
  }

  predicate ValidRun(w: World, steps: seq<Step>)
    decreases |steps|
  {
    steps == [] || (Enabled(w, steps[0]) && ValidRun(Apply(w, steps[0]), steps[1..]))
  }

  function Run(w: World, steps: seq<Step>): World
    requires ValidRun(w, steps)
    decreases |steps|
  {
    if steps == [] then w else Run(Apply(w, steps[0]), steps[1..])
  }

  // ----- The inductive invariant -----

  /** One session, numbered from 1, whose only presentation is its first snapshot. */
  predicate OneSession(c: Context, emitted: seq<Snapshot>) {
    && |emitted| == c.sequence
    && (c.session.None? <==> emitted == [])
    && (forall i | 0 <= i < |emitted| ::
          && emitted[i].sequence == i + 1 && Some(emitted[i].session) == c.session
          && emitted[i].monotonicMs <= T.MAX_MONOTONIC_MS
          && (emitted[i].purpose == Presentation <==> i == 0))
  }

  ghost predicate Inv(w: World) {
    && OneSession(w.context, w.emitted)
    && w.emitted == w.acked + w.context.queue
    && w.acked <= w.store <= w.emitted && |w.store| <= |w.acked| + 1 && |w.store| <= MAX_SEQUENCE
    && (forall s <- w.network :: s in w.acked || (w.context.queue != [] && s == w.context.queue[0]))
    && (w.context.flush.Awaiting? ==> w.context.queue != [] && w.context.queue[0] in w.network)
  }

  lemma StepKeepsInv(w: World, step: Step)
    requires Inv(w) && Enabled(w, step)
    ensures Inv(Apply(w, step))
  {
    match step
    case RecordStep(purpose, openedAt, now, newId) =>
      RecordKeepsInv(w, purpose, openedAt, now, newId);
    case FlushStep(keepalive) =>
    case ArriveStep(copy) =>
      ArrivalKeepsInv(w, copy);
    case OkStep =>
      OkKeepsInv(w);
    case FailStep =>
  }

  lemma RecordKeepsInv(w: World, purpose: Purpose, openedAt: real, now: real, newId: nat)
    requires Inv(w)
    ensures Inv(Apply(w, RecordStep(purpose, openedAt, now, newId)))
  {
    var pushed := Pushed(w.context, purpose, openedAt, now, newId);
    var w' := Apply(w, RecordStep(purpose, openedAt, now, newId));
    RecordKeepsSession(w.context, w.emitted, purpose, openedAt, now, newId);
    assert w'.context.queue == w.context.queue + pushed;
    assert w.acked + (w.context.queue + pushed) == w.acked + w.context.queue + pushed;
    assert w.emitted <= w'.emitted;
  }

  lemma RecordKeepsSession(c: Context, emitted: seq<Snapshot>, purpose: Purpose, openedAt: real, now: real, newId: nat)
    requires OneSession(c, emitted)
    ensures OneSession(Record(c, purpose, openedAt, now, newId), emitted + Pushed(c, purpose, openedAt, now, newId))
  {}

  lemma OkKeepsInv(w: World)
    requires Inv(w) && Enabled(w, OkStep)
    ensures Inv(Apply(w, OkStep))
  {
    var head := w.context.queue[0];
    assert w.emitted[|w.acked|] == head;
    assert w.acked + w.context.queue == (w.acked + [head]) + w.context.queue[1..];
    assert w.store == w.emitted[..|w.acked| + 1] == w.acked + [head];
  }

  lemma ArrivalKeepsInv(w: World, copy: Snapshot)
    requires Inv(w) && copy in w.network
    ensures Inv(w.(store := Keep(w.store, copy)))
  {
    var k :| 0 <= k <= |w.acked| && k < |w.emitted| && w.emitted[k] == copy;
    if copy.sequence > MAX_SEQUENCE {
    } else if k < |w.store| {
      assert w.store[k] == w.emitted[k];
    } else {
      assert forall i | 0 <= i < |w.store| :: w.store[i] == w.emitted[i] && w.store[i].sequence != copy.sequence;
      assert Keep(w.store, copy) == w.emitted[..k + 1];
    }
  }

  lemma {:induction false} RunKeepsInv(w: World, steps: seq<Step>)
    requires Inv(w) && ValidRun(w, steps)
    ensures Inv(Run(w, steps))
    decreases |steps|
  {
    if steps != [] {
      StepKeepsInv(w, steps[0]);
      RunKeepsInv(Apply(w, steps[0]), steps[1..]);
    }
  }

  /** In every run the stored snapshots are a prefix of those recorded, numbered from 1, with
      exactly one presentation, at sequence 1. */
  lemma SnapshotsArriveInOrder(steps: seq<Step>)
    requires ValidRun(Start, steps)
    ensures var w := Run(Start, steps);
            && w.store <= w.emitted
            && (forall i | 0 <= i < |w.store| :: w.store[i].sequence == i + 1)
            && (forall i | 0 <= i < |w.store| :: w.store[i].purpose == Presentation <==> i == 0)
            && (forall i | 0 <= i < |w.store| :: w.store[i].session == w.store[0].session)
  {
    RunKeepsInv(Start, steps);
    var w := Run(Start, steps);
    assert forall i | 0 <= i < |w.store| :: w.store[i] == w.emitted[i];
  }

  // ----- What was recorded, told from the calls alone -----

  /** A session of the recorder: its id, when it was opened, and how many snapshots it has. */
  datatype Opened = Opened(id: nat, at: real, count: nat)

  /** The first call opens the session, with a presentation first; a later presentation is ignored. */
  function Taken(open: Option<Opened>, step: Step): seq<Snapshot> {
    match step
    case RecordStep(purpose, openedAt, now, newId) =>
      if open.None? then
        (if purpose == Presentation then [Snapshot(newId, 1, Presentation, T.MonotonicMs(now - openedAt))]
         else [Snapshot(newId, 1, Presentation, 0), Snapshot(newId, 2, purpose, T.MonotonicMs(now - openedAt))])
      else if purpose == Presentation then []
      else [Snapshot(open.value.id, open.value.count + 1, purpose, T.MonotonicMs(now - open.value.at))]
    case _ => []
  }

  function NextOpened(open: Option<Opened>, step: Step): Option<Opened> {
    if !step.RecordStep? then open
    else if open.None? then Some(Opened(step.newId, step.openedAt, |Taken(open, step)|))
    else Some(open.value.(count := open.value.count + |Taken(open, step)|))
  }

  function Trace(open: Option<Opened>, steps: seq<Step>): seq<Snapshot>
    decreases |steps|
  {
    if steps == [] then [] else Taken(open, steps[0]) + Trace(NextOpened(open, steps[0]), steps[1..])
  }

  function Current(c: Context): Option<Opened> {
    if c.session.None? then None else Some(Opened(c.session.value, c.startedAt, c.sequence))
  }

  lemma StepIsTaken(w: World, step: Step)
    requires Inv(w) && Enabled(w, step)
    ensures Apply(w, step).emitted == w.emitted + Taken(Current(w.context), step)
    ensures Current(Apply(w, step).context) == NextOpened(Current(w.context), step)
  {
    assert w.context.session.Some? ==> w.context.sequence > 0;
  }

  lemma {:induction false} RunIsTrace(w: World, steps: seq<Step>)
    requires Inv(w) && ValidRun(w, steps)
    ensures Run(w, steps).emitted == w.emitted + Trace(Current(w.context), steps)
    decreases |steps|
  {
    if steps != [] {
      var w' := Apply(w, steps[0]);
      StepKeepsInv(w, steps[0]);
      StepIsTaken(w, steps[0]);
      RunIsTrace(w', steps[1..]);
      assert w.emitted + Taken(Current(w.context), steps[0]) + Trace(Current(w'.context), steps[1..])
          == w.emitted + (Taken(Current(w.context), steps[0]) + Trace(Current(w'.context), steps[1..]));
    }
  }

  /** In every run the recorded snapshots are those that the calls asked for. */
  lemma RecordedIsTrace(steps: seq<Step>)
    requires ValidRun(Start, steps)
    ensures Run(Start, steps).emitted == Trace(None, steps)
  {
    RunIsTrace(Start, steps);
  }
}
