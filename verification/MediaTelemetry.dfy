/** The media recorder (`useMediaTelemetry` in
    src/components/evidence/external-media-activity.tsx): one session, batches cut off the front
    of the queue, and otherwise the delivery protocol of the activity recorder. */
module MediaTelemetry {
  import opened Options
  import opened Telemetry
  import opened TelemetryLiveness

  /** The sequence column of media events is a 32-bit integer. */
  const MEDIA_MAX_SEQUENCE := 0x7fff_ffff

  /** `emit`, which nothing holds back. */
  function Push(b: Browser, kind: Kind, now: real, id: nat): Browser
    requires b.session.Some?
  {
    b.(queue := b.queue + [Queued(b.session.value, NextEvent(b, kind, now, id))], sequence := b.sequence + 1)
  }

  function Tag(session: nat, events: seq<Event>): (q: seq<Queued>)
    ensures |q| == |events|
  {
    seq(|events|, i requires 0 <= i < |events| => Queued(session, events[i]))
  }

  /** With one session, `queue.splice(0, 100)` takes the batch that the activity recorder would. */
  lemma SpliceIsLeading(events: seq<Event>, session: nat, k: nat)
    requires k == if |events| < MAX_BATCH then |events| else MAX_BATCH
    ensures Leading(Tag(session, events), session, MAX_BATCH) == k
    ensures Events(Tag(session, events)[..k]) == events[..k]
    ensures Tag(session, events)[k..] == Tag(session, events[k..])
  {}

  class MediaRecorder {
    const telemetrySessionId: nat
    var startedAt: real
    var sequence: nat
    var queue: seq<Event>
    var pending: Option<Batch>
    var flushing: Flush

    function State(): Browser
      reads this
    {
      Browser(Some(telemetrySessionId), startedAt, sequence, false, Tag(telemetrySessionId, queue), pending, flushing)
    }

    constructor (session: nat, now: real)
      ensures State() == Opened(session, now)
    {
      telemetrySessionId, startedAt, sequence := session, now, 0;
      queue, pending, flushing := [], None, Idle;
    }

    method EmitEvent(kind: Kind, now: real, id: nat)
      modifies this
      ensures State() == Push(old(State()), kind, now, id)
      ensures queue == old(queue) + [Event(id, MonotonicMs(now - old(startedAt)), old(sequence) + 1, kind)]
    {
      var monotonicMs := MonotonicMs(now - startedAt);
      sequence := sequence + 1;
      queue := queue + [Event(id, monotonicMs, sequence, kind)];
    }

    method TakeBatch(batchId: nat)
      modifies this`queue, this`pending
      ensures State() == FormBatch(old(State()), batchId)
    {
      if pending.Some? || queue == [] { return; }
      var k := if |queue| < MAX_BATCH then |queue| else MAX_BATCH;
      SpliceIsLeading(queue, telemetrySessionId, k);
      pending := Some(Batch(batchId, telemetrySessionId, queue[..k]));
      queue := queue[k..];
    }

    method FlushQueue(keepalive: bool, batchId: nat)
      modifies this
      ensures State() == CallFlush(old(State()), keepalive, batchId)
    {
      if flushing.Awaiting? { return; }
      TakeBatch(batchId);
      flushing := if pending.None? then Idle else Awaiting(keepalive);
    }

    method OnReply(ok: bool, batchId: nat)
      requires flushing.Awaiting?
      modifies this
      ensures State() == if ok then ReplyOk(old(State()), batchId) else ReplyFailed(old(State()))
    {
      var keepalive := flushing.keepalive;
      flushing := Idle;
      if !ok { return; }
      pending := None;
      if keepalive { return; }
      FlushQueue(false, batchId);
    }
  }

  // ----- Runs -----

  function Opened(session: nat, now: real): Browser {
    Browser(Some(session), now, 0, false, [], None, Idle)
  }

  function Mounted(session: nat, now: real): World {
    World(Opened(session, now), now, {}, [], [], [], {session}, MEDIA_MAX_SEQUENCE)
  }

  /** An emitted event, or a step of the delivery protocol. */
  datatype MediaStep = EmitMedia(kind: Kind, now: real, id: nat) | Deliver(step: Step)

  predicate MediaEnabled(w: World, step: MediaStep) {
    match step
    case EmitMedia(kind, now, id) => w.browser.session.Some? && now >= w.clock && id !in w.used
    case Deliver(s) => !s.EmitStep? && !s.ResumeStep? && Enabled(w, s)
  }

  function MediaApply(w: World, step: MediaStep): World
    requires MediaEnabled(w, step)
  {
    match step
    case EmitMedia(kind, now, id) =>
      w.(browser := Push(w.browser, kind, now, id), clock := now, used := w.used + {id},
         emitted := w.emitted + [Queued(w.browser.session.value, NextEvent(w.browser, kind, now, id))])
    case Deliver(s) => Apply(w, s)
  }

  predicate MediaRunValid(w: World, steps: seq<MediaStep>)
    decreases |steps|
  {
    steps == [] || (MediaEnabled(w, steps[0]) && MediaRunValid(MediaApply(w, steps[0]), steps[1..]))
  }

  function MediaRun(w: World, steps: seq<MediaStep>): World
    requires MediaRunValid(w, steps)
    decreases |steps|
  {
    if steps == [] then w else MediaRun(MediaApply(w, steps[0]), steps[1..])
  }

  /** Everything emitted is of one session, numbered from 1, in time order and within a week. */
  predicate OneSession(emitted: seq<Queued>, session: nat) {
    && (forall i | 0 <= i < |emitted| :: emitted[i].session == session && emitted[i].event.sequence == i + 1)
    && (forall i | 0 <= i < |emitted| :: emitted[i].event.monotonicMs <= MAX_MONOTONIC_MS)
    && (forall i, j | 0 <= i < j < |emitted| :: emitted[i].event.monotonicMs <= emitted[j].event.monotonicMs)
  }

  ghost predicate MediaInv(w: World, session: nat) {
    && w.browser.session == Some(session) && |w.emitted| == w.browser.sequence && OneSession(w.emitted, session)
    && forall i | 0 <= i < |w.emitted| :: w.emitted[i].event.monotonicMs <= MonotonicMs(w.clock - w.browser.startedAt)
  }

  lemma PushKeepsDelivery(w: World, kind: Kind, now: real, id: nat)
    requires DeliveryInv(w) && MediaEnabled(w, EmitMedia(kind, now, id))
    ensures DeliveryInv(MediaApply(w, EmitMedia(kind, now, id)))
  {
    var w' := MediaApply(w, EmitMedia(kind, now, id));
    var q := Queued(w.browser.session.value, NextEvent(w.browser, kind, now, id));
    assert Issued(w') == Issued(w);
    assert Flat(w.acked) + PendingEvents(w.browser) + (w.browser.queue + [q])
        == Flat(w.acked) + PendingEvents(w.browser) + w.browser.queue + [q];
  }

  lemma PushKeepsSession(w: World, session: nat, kind: Kind, now: real, id: nat)
    requires MediaInv(w, session) && MediaEnabled(w, EmitMedia(kind, now, id))
    ensures MediaInv(MediaApply(w, EmitMedia(kind, now, id)), session)
  {
    MonotonicMsIsMonotone(w.clock - w.browser.startedAt, now - w.browser.startedAt);
  }

  /** A step of the delivery protocol emits nothing. */
  lemma DeliverKeepsSession(w: World, session: nat, step: Step)
    requires MediaInv(w, session) && MediaEnabled(w, Deliver(step))
    ensures MediaInv(Apply(w, step), session)
  {
    var w' := Apply(w, step);
    assert w'.emitted == w.emitted && w'.clock == w.clock;
    assert w'.browser.session == w.browser.session && w'.browser.startedAt == w.browser.startedAt;
  }

  lemma MediaStepKeepsInv(w: World, step: MediaStep, session: nat)
    requires DeliveryInv(w) && MediaInv(w, session) && MediaEnabled(w, step)
    ensures DeliveryInv(MediaApply(w, step)) && MediaInv(MediaApply(w, step), session)
  {
    match step
    case EmitMedia(kind, now, id) =>
      PushKeepsDelivery(w, kind, now, id);
      PushKeepsSession(w, session, kind, now, id);
    case Deliver(s) =>
      StepKeepsDelivery(w, s);
      DeliverKeepsSession(w, session, s);
  }

  lemma {:induction false} MediaRunKeepsInv(w: World, steps: seq<MediaStep>, session: nat)
    requires DeliveryInv(w) && MediaInv(w, session) && MediaRunValid(w, steps)
    ensures DeliveryInv(MediaRun(w, steps)) && MediaInv(MediaRun(w, steps), session)
    decreases |steps|
  {
    if steps != [] {
      MediaStepKeepsInv(w, steps[0], session);
      MediaRunKeepsInv(MediaApply(w, steps[0]), steps[1..], session);
    }
  }

  /** In every run of the media recorder the store holds a prefix of what was emitted, and that is
      one session numbered from 1 without a gap, in order of time. */
  lemma MediaStoreIsPrefix(session: nat, now: real, steps: seq<MediaStep>)
    requires MediaRunValid(Mounted(session, now), steps)
    ensures var w := MediaRun(Mounted(session, now), steps);
            && Flat(w.store) <= w.emitted && OneSession(Flat(w.store), session)
            && (forall c <- w.network :: (c in w.acked || w.browser.pending == Some(c)) && BatchOk(c))
  {
    MediaRunKeepsInv(Mounted(session, now), steps, session);
    var w := MediaRun(Mounted(session, now), steps);
    DeliveredPrefix(w);
    PrefixOfSession(Flat(w.store), w.emitted, session);
  }

  /** In every run of the media recorder, everything emitted so far can still be stored exactly
      when the count fits the column. */
  lemma MediaDeliverableIffWithinLimit(session: nat, now: real, steps: seq<MediaStep>)
    requires MediaRunValid(Mounted(session, now), steps)
    ensures var w := MediaRun(Mounted(session, now), steps);
            (exists rest :: Delivers(w, rest)) <==> |w.emitted| <= MEDIA_MAX_SEQUENCE
  {
    MediaRunKeepsInv(Mounted(session, now), steps, session);
    MediaLimitStays(Mounted(session, now), steps);
    var w := MediaRun(Mounted(session, now), steps);
    DeliverableIffWithinLimit(w);
    if |w.emitted| > MEDIA_MAX_SEQUENCE {
      assert w.emitted[|w.emitted| - 1].event.sequence > MEDIA_MAX_SEQUENCE;
    }
  }

  lemma {:induction false} MediaLimitStays(w: World, steps: seq<MediaStep>)
    requires MediaRunValid(w, steps)
    ensures MediaRun(w, steps).limit == w.limit
    decreases |steps|
  {
    if steps != [] { MediaLimitStays(MediaApply(w, steps[0]), steps[1..]); }
  }

  /** What the calls say: one event per call, numbered from `count + 1`. */
  function MediaTrace(session: nat, openedAt: real, count: nat, steps: seq<MediaStep>): seq<Queued>
    decreases |steps|
  {
    if steps == [] then []
    else match steps[0]
      case EmitMedia(kind, now, id) =>
        [Queued(session, Event(id, MonotonicMs(now - openedAt), count + 1, kind))] + MediaTrace(session, openedAt, count + 1, steps[1..])
      case Deliver(_) => MediaTrace(session, openedAt, count, steps[1..])
  }

  lemma {:induction false} MediaRunIsTrace(w: World, steps: seq<MediaStep>)
    requires MediaRunValid(w, steps) && w.browser.session.Some?
    ensures MediaRun(w, steps).emitted ==
            w.emitted + MediaTrace(w.browser.session.value, w.browser.startedAt, w.browser.sequence, steps)
    decreases |steps|
  {
    if steps != [] {
      var w' := MediaApply(w, steps[0]);
      DeliveryKeepsRefs(w, steps[0]);
      MediaRunIsTrace(w', steps[1..]);
      if steps[0].EmitMedia? {
        Regroup(w.emitted, [w'.emitted[|w.emitted|]],
                MediaTrace(w.browser.session.value, w.browser.startedAt, w.browser.sequence + 1, steps[1..]));
      }
    }
  }

  lemma DeliveryKeepsRefs(w: World, step: MediaStep)
    requires MediaEnabled(w, step)
    ensures var w' := MediaApply(w, step);
            && w'.browser.session == w.browser.session && w'.browser.startedAt == w.browser.startedAt
            && (step.Deliver? ==> w'.browser.sequence == w.browser.sequence && w'.emitted == w.emitted)
  {}

  /** In every run of the media recorder what was emitted is what the calls said. */
  lemma MediaEmittedIsTrace(session: nat, now: real, steps: seq<MediaStep>)
    requires MediaRunValid(Mounted(session, now), steps)
    ensures MediaRun(Mounted(session, now), steps).emitted == MediaTrace(session, now, 0, steps)
  {
    MediaRunIsTrace(Mounted(session, now), steps);
  }

  lemma PrefixOfSession(front: seq<Queued>, emitted: seq<Queued>, session: nat)
    requires front <= emitted && OneSession(emitted, session)
    ensures OneSession(front, session)
  {
    assert forall i | 0 <= i < |front| :: front[i] == emitted[i];
  }
}
