/** The browser side of activity telemetry (src/components/evidence/activity-interaction-recorder.tsx)
    over a network that loses replies, keeps stale copies and delivers them late, into a
    store that keeps one copy per batch id (database/engine-activity-interaction.sql).
    Each browser step is the code between two `await`s. */
module Telemetry {
  import opened Options

  const MAX_BATCH := 100
  const MAX_MONOTONIC_MS := 604_800_000
  const MAX_SEQUENCE := 100_000

  datatype Kind = Presented | Visible | Hidden | Focus | Blur | Heartbeat | Interaction | Disconnect

  datatype Event = Event(id: nat, monotonicMs: nat, sequence: nat, kind: Kind)
  datatype Queued = Queued(session: nat, event: Event)
  datatype Batch = Batch(id: nat, session: nat, events: seq<Event>)

  /** Whether a flush is waiting for the reply to its `fetch`. */
  datatype Flush = Idle | Awaiting(keepalive: bool)

  /** The recorder's refs. */
  datatype Browser = Browser(
    session: Option<nat>, startedAt: real, sequence: nat, disconnected: bool,
    queue: seq<Queued>, pending: Option<Batch>, flush: Flush)

  const NewBrowser := Browser(None, 0.0, 0, true, [], None, Idle)

  // ----- Emitting events -----

  /** `Math.round` followed by the clamp to one week. */
  function MonotonicMs(elapsed: real): (ms: nat)
    ensures ms <= MAX_MONOTONIC_MS
  {
    var rounded := (elapsed + 0.5).Floor;
    if rounded < 0 then 0 else if rounded > MAX_MONOTONIC_MS then MAX_MONOTONIC_MS else rounded
  }

  lemma MonotonicMsIsMonotone(x: real, y: real)
    requires x <= y
    ensures MonotonicMs(x) <= MonotonicMs(y)
  {}

  predicate Emits(b: Browser, kind: Kind) {
    b.session.Some? && !(b.disconnected && kind != Presented)
  }

  function NextEvent(b: Browser, kind: Kind, now: real, id: nat): Event {
    Event(id, MonotonicMs(now - b.startedAt), b.sequence + 1, kind)
  }

  function Emit(b: Browser, kind: Kind, now: real, id: nat): Browser {
    if !Emits(b, kind) then b
    else b.(
      queue := b.queue + [Queued(b.session.value, NextEvent(b, kind, now, id))],
      sequence := b.sequence + 1,
      disconnected := b.disconnected || kind == Disconnect)
  }

  /** The three events with which a session opens. */
  datatype Opening = Opening(now: real, visible: bool, focused: bool, ids: seq<nat>)

  function Open(b: Browser, session: nat, now: real): Browser {
    b.(session := Some(session), startedAt := now, sequence := 0, disconnected := false)
  }

  function Resume(b: Browser, session: nat, o: Opening): Browser
    requires |o.ids| == 3
  {
    var b1 := Emit(Open(b, session, o.now), Presented, o.now, o.ids[0]);
    var b2 := Emit(b1, if o.visible then Visible else Hidden, o.now, o.ids[1]);
    Emit(b2, if o.focused then Focus else Blur, o.now, o.ids[2])
  }

  // ----- Forming and sending batches -----

  /** How many leading events belong to `session`, up to `room`. */
  function Leading(queue: seq<Queued>, session: nat, room: nat): (k: nat)
    ensures k <= |queue| && k <= room
    ensures forall i | 0 <= i < k :: queue[i].session == session
    ensures k < |queue| && k < room ==> queue[k].session != session
  {
    if queue == [] || room == 0 || queue[0].session != session then 0
    else 1 + Leading(queue[1..], session, room - 1)
  }

  function Events(queue: seq<Queued>): (es: seq<Event>)
    ensures |es| == |queue|
  {
    seq(|queue|, i requires 0 <= i < |queue| => queue[i].event)
  }

  function FormBatch(b: Browser, batchId: nat): Browser {
    if b.pending.Some? || b.queue == [] then b
    else
      var session := b.queue[0].session;
      var k := Leading(b.queue, session, MAX_BATCH);
      b.(pending := Some(Batch(batchId, session, Events(b.queue[..k]))), queue := b.queue[k..])
  }

  /** The loop body of `flush` up to its `fetch`: send the pending batch, or return. */
  function SendNext(b: Browser, keepalive: bool, batchId: nat): Browser {
    var formed := FormBatch(b, batchId);
    formed.(flush := if formed.pending.None? then Idle else Awaiting(keepalive))
  }

  /** A call of `flush`; while one is active the call only waits for it. */
  function CallFlush(b: Browser, keepalive: bool, batchId: nat): Browser {
    if b.flush.Awaiting? then b else SendNext(b, keepalive, batchId)
  }

  /** The reply was `ok`: drop the pending batch, and go round again unless `keepalive`. */
  function ReplyOk(b: Browser, batchId: nat): Browser
    requires b.flush.Awaiting?
  {
    var cleared := b.(pending := None);
    if b.flush.keepalive then cleared.(flush := Idle) else SendNext(cleared, false, batchId)
  }

  /** An error reply, a network failure or the four-second abort: keep the batch for a retry. */
  function ReplyFailed(b: Browser): Browser { b.(flush := Idle) }

  // ----- The recorder as the hook keeps it: refs updated in place -----

  class ActivityRecorder {
    var session: Option<nat>
    var startedAt: real
    var sequence: nat
    var disconnected: bool
    var queue: seq<Queued>
    var pending: Option<Batch>
    var flush: Flush

    function State(): Browser
      reads this
    {
      Browser(session, startedAt, sequence, disconnected, queue, pending, flush)
    }

    constructor ()
      ensures State() == NewBrowser
    {
      session, startedAt, sequence, disconnected := None, 0.0, 0, true;
      queue, pending, flush := [], None, Idle;
    }

    method EmitEvent(kind: Kind, now: real, id: nat)
      modifies this
      ensures State() == Emit(old(State()), kind, now, id)
      ensures queue == old(queue) +
                if old(session.None? || (disconnected && kind != Presented)) then []
                else [Queued(old(session.value), Event(id, MonotonicMs(now - old(startedAt)), old(sequence) + 1, kind))]
    {
      if session.None? || (disconnected && kind != Presented) { return; }
      var monotonicMs := MonotonicMs(now - startedAt);
      sequence := sequence + 1;
      queue := queue + [Queued(session.value, Event(id, monotonicMs, sequence, kind))];
      if kind == Disconnect { disconnected := true; }
    }

    method ResumeSession(newId: nat, o: Opening)
      requires |o.ids| == 3
      modifies this
      ensures State() == Resume(old(State()), newId, o)
      ensures session == Some(newId) && startedAt == o.now && sequence == 3 && !disconnected
      ensures queue == old(queue) +
                [Queued(newId, Event(o.ids[0], 0, 1, Presented)),
                 Queued(newId, Event(o.ids[1], 0, 2, if o.visible then Visible else Hidden)),
                 Queued(newId, Event(o.ids[2], 0, 3, if o.focused then Focus else Blur))]
    {
      session, startedAt, sequence, disconnected := Some(newId), o.now, 0, false;
      assert MonotonicMs(o.now - o.now) == 0;
      EmitEvent(Presented, o.now, o.ids[0]);
      EmitEvent(if o.visible then Visible else Hidden, o.now, o.ids[1]);
      EmitEvent(if o.focused then Focus else Blur, o.now, o.ids[2]);
    }

    /** Shift events of one session off the queue, at most a hundred. */
    method SelectBatch(batchId: nat)
      modifies this`queue, this`pending
      ensures State() == FormBatch(old(State()), batchId)
    {
      if pending.Some? || queue == [] { return; }
      var sessionId := queue[0].session;
      var selected: seq<Event> := [];
      ghost var all, total := queue, Leading(queue, sessionId, MAX_BATCH);
      while queue != [] && |selected| < MAX_BATCH && queue[0].session == sessionId
        invariant |selected| <= MAX_BATCH && |selected| <= |all|
        invariant queue == all[|selected|..]
        invariant selected == Events(all[..|selected|])
        invariant total == |selected| + Leading(queue, sessionId, MAX_BATCH - |selected|)
        decreases |queue|
      {
        assert all[..|selected| + 1] == all[..|selected|] + [queue[0]];
        selected := selected + [queue[0].event];
        queue := queue[1..];
      }
      pending := Some(Batch(batchId, sessionId, selected));
    }

    method Flush(keepalive: bool, batchId: nat)
      modifies this
      ensures State() == CallFlush(old(State()), keepalive, batchId)
      ensures old(flush.Awaiting?) ==> State() == old(State())
      ensures old(flush.Idle?) ==> flush == (if old(pending.None? && queue == []) then Idle else Awaiting(keepalive))
      ensures old(pending.Some?) ==> pending == old(pending) && queue == old(queue)
    {
      if flush.Awaiting? { return; }
      SelectBatch(batchId);
      flush := if pending.None? then Idle else Awaiting(keepalive);
    }

    method OnReply(ok: bool, batchId: nat)
      requires flush.Awaiting?
      modifies this
      ensures State() == if ok then ReplyOk(old(State()), batchId) else ReplyFailed(old(State()))
      ensures !ok ==> flush == Idle && pending == old(pending) && queue == old(queue)
      ensures ok && old(flush.keepalive) ==> flush == Idle && pending == None && queue == old(queue)
      ensures ok && !old(flush.keepalive) ==>
                && flush == (if old(queue) == [] then Idle else Awaiting(false))
                && (pending.Some? <==> old(queue) != []) && (pending.Some? ==> pending.value.id == batchId)
    {
      var keepalive := flush.keepalive;
      flush := Idle;
      if !ok { return; }
      pending := None;
      if keepalive { return; }
      Flush(false, batchId);
    }
  }

  // ----- Browser, network and store -----

  /** `network` holds every copy ever sent: each may arrive at any later time, any number of
      times, or never. `emitted`, `acked` and `used` are history; `limit` is the largest sequence
      number that the store's table admits. */
  datatype World = World(
    browser: Browser, clock: real, network: set<Batch>, store: seq<Batch>,
    emitted: seq<Queued>, acked: seq<Batch>, used: set<nat>, limit: nat)

  const Start := World(NewBrowser, 0.0, {}, [], [], [], {}, MAX_SEQUENCE)

  datatype Step =
    | EmitStep(kind: Kind, now: real, id: nat)
    | ResumeStep(session: nat, opening: Opening)
    | FlushStep(keepalive: bool, batchId: nat)
    | ArriveStep(copy: Batch)
    | OkStep(batchId: nat)
    | FailStep

  /** Every row of the batch passes the table's check; otherwise all of it is refused. */
  predicate Storable(limit: nat, copy: Batch) {
    forall i | 0 <= i < |copy.events| :: copy.events[i].sequence <= limit
  }

  /** The store keeps one copy per batch id, of batches whose rows its checks admit. */
  function Keep(limit: nat, store: seq<Batch>, copy: Batch): seq<Batch> {
    if !Storable(limit, copy) || (exists i | 0 <= i < |store| :: store[i].id == copy.id) then store else store + [copy]
  }

  predicate Enabled(w: World, step: Step) {
    match step
    case EmitStep(kind, now, id) => kind != Presented && now >= w.clock && id !in w.used
    case ResumeStep(session, o) =>
      && o.now >= w.clock && |o.ids| == 3 && session !in w.used
      && forall i | 0 <= i < 3 :: o.ids[i] !in w.used + {session} + (set j | 0 <= j < i :: o.ids[j])
    case FlushStep(_, batchId) => batchId !in w.used
    case ArriveStep(copy) => copy in w.network
    // The server says `ok` only for a batch it has stored.
    case OkStep(batchId) =>
      && w.browser.flush.Awaiting? && w.browser.pending.Some? && w.browser.pending.value in w.store
      && batchId !in w.used
    case FailStep => w.browser.flush.Awaiting?
  }

  /** Whatever the browser now awaits a reply for has a copy on the network. */
  function Transmit(w: World): World {
    if w.browser.flush.Awaiting? && w.browser.pending.Some?
    then w.(network := w.network + {w.browser.pending.value}) else w
  }

  function Apply(w: World, step: Step): World
    requires Enabled(w, step)
  {
    match step
    case EmitStep(kind, now, id) => EmitWorld(w.(clock := now), kind, now, id)
    case ResumeStep(session, o) =>
      var w0 := w.(browser := Open(w.browser, session, o.now), clock := o.now, used := w.used + {session});
      var w1 := EmitWorld(w0, Presented, o.now, o.ids[0]);
      var w2 := EmitWorld(w1, if o.visible then Visible else Hidden, o.now, o.ids[1]);
      EmitWorld(w2, if o.focused then Focus else Blur, o.now, o.ids[2])
    case FlushStep(keepalive, batchId) =>
      Transmit(w.(browser := CallFlush(w.browser, keepalive, batchId), used := w.used + {batchId}))
    case ArriveStep(copy) => w.(store := Keep(w.limit, w.store, copy))
    case OkStep(batchId) =>
      Transmit(w.(browser := ReplyOk(w.browser, batchId), acked := w.acked + [w.browser.pending.value],
                  used := w.used + {batchId}))
    case FailStep => w.(browser := ReplyFailed(w.browser))
  }

  function EmitWorld(w: World, kind: Kind, now: real, id: nat): World {
    w.(browser := Emit(w.browser, kind, now, id),
       emitted := if Emits(w.browser, kind)
                  then w.emitted + [Queued(w.browser.session.value, NextEvent(w.browser, kind, now, id))]
                  else w.emitted,
       used := w.used + {id})
  }

  predicate ValidRun(w: World, steps: seq<Step>)
    decreases |steps|
  {
    steps == [] || (Enabled(w, steps[0]) && ValidRun(Apply(w, steps[0]), steps[1..]))
  }

  function Run(w: World, steps: seq<Step>): World
    requires ValidRun(w, steps)
    decreases |steps|
  {
    if steps == [] then w else Run(Apply(w, steps[0]), steps[1..])
  }

  // ----- The events of batches, in order -----

  function Tagged(b: Batch): (q: seq<Queued>)
    ensures |q| == |b.events|
  {
    seq(|b.events|, i requires 0 <= i < |b.events| => Queued(b.session, b.events[i]))
  }

  function Flat(batches: seq<Batch>): seq<Queued> {
    if batches == [] then [] else Flat(batches[..|batches| - 1]) + Tagged(batches[|batches| - 1])
  }

  function PendingEvents(b: Browser): seq<Queued> {
    if b.pending.Some? then Tagged(b.pending.value) else []
  }

  lemma FlatAppend(batches: seq<Batch>, b: Batch)
    ensures Flat(batches + [b]) == Flat(batches) + Tagged(b)
  {
    assert (batches + [b])[..|batches|] == batches;
  }

  // ----- Delivery: the inductive invariant -----

  /** Acknowledged batches, then the one pending batch. */
  function Issued(w: World): seq<Batch> {
    w.acked + if w.browser.pending.Some? then [w.browser.pending.value] else []
  }

  predicate BatchOk(b: Batch) { 1 <= |b.events| <= MAX_BATCH }

  ghost predicate IssuedOk(issued: seq<Batch>, used: set<nat>) {
    && (forall i | 0 <= i < |issued| :: issued[i].id in used && BatchOk(issued[i]))
    && (forall i, j | 0 <= i < j < |issued| :: issued[i].id != issued[j].id)
  }

  ghost predicate DeliveryInv(w: World) {
    // No event is lost, repeated or reordered between the queue and the acknowledged batches.
    && w.emitted == Flat(w.acked) + PendingEvents(w.browser) + w.browser.queue
    // The store holds the acknowledged batches, and perhaps the pending one.
    && (w.store == w.acked || w.store == Issued(w))
    && (forall i | 0 <= i < |w.store| :: Storable(w.limit, w.store[i]))
    // Every copy in flight is of an acknowledged batch or of the pending one.
    && (forall c <- w.network :: c in Issued(w))
    && IssuedOk(Issued(w), w.used)
    && (w.browser.flush.Awaiting? ==> w.browser.pending.Some? && w.browser.pending.value in w.network)
  }

  lemma EmitKeepsDelivery(w: World, kind: Kind, now: real, id: nat)
    requires DeliveryInv(w)
    ensures DeliveryInv(EmitWorld(w, kind, now, id))
  {
    var w' := EmitWorld(w, kind, now, id);
    assert Issued(w') == Issued(w);
    if Emits(w.browser, kind) {
      var q := Queued(w.browser.session.value, NextEvent(w.browser, kind, now, id));
      assert Flat(w.acked) + PendingEvents(w.browser) + (w.browser.queue + [q])
          == Flat(w.acked) + PendingEvents(w.browser) + w.browser.queue + [q];
    }
  }

  /** The formed batch is exactly the front of the queue. */
  lemma FormBatchSplitsQueue(b: Browser, batchId: nat)
    ensures var b' := FormBatch(b, batchId);
            && PendingEvents(b') + b'.queue == PendingEvents(b) + b.queue
            && (b.pending.Some? || b.queue == [] ==> b' == b)
            && (b.pending.None? && b.queue != [] ==>
                  && b'.pending.Some? && b'.pending.value.id == batchId && BatchOk(b'.pending.value)
                  && b'.pending.value.session == b.queue[0].session
                  && |b'.pending.value.events| == Leading(b.queue, b.queue[0].session, 100))
  {
    if b.pending.None? && b.queue != [] {
      var k := Leading(b.queue, b.queue[0].session, MAX_BATCH);
      assert k >= 1;
      var b' := FormBatch(b, batchId);
      assert Tagged(b'.pending.value) == b.queue[..k];
      assert b.queue[..k] + b.queue[k..] == b.queue;
    }
  }

  lemma IssuedGrows(issued: seq<Batch>, used: set<nat>, b: Batch)
    requires IssuedOk(issued, used) && b.id !in used && BatchOk(b)
    ensures IssuedOk(issued + [b], used + {b.id})
  {}

  lemma FormKeepsDelivery(w: World, batchId: nat)
    requires batchId !in w.used && DeliveryInv(w) && w.browser.flush.Idle?
    ensures DeliveryInv(w.(browser := FormBatch(w.browser, batchId), used := w.used + {batchId}))
  {
    var b, b' := w.browser, FormBatch(w.browser, batchId);
    var w' := w.(browser := b', used := w.used + {batchId});
    FormBatchSplitsQueue(b, batchId);
    Regroup(Flat(w.acked), PendingEvents(b'), b'.queue);
    Regroup(Flat(w.acked), PendingEvents(b), b.queue);
    if b.pending.Some? || b.queue == [] {
      assert Issued(w') == Issued(w);
    } else {
      assert Issued(w) == w.acked;
      IssuedGrows(w.acked, w.used, b'.pending.value);
      assert Issued(w') == w.acked + [b'.pending.value];
    }
  }

  lemma Regroup(a: seq<Queued>, b: seq<Queued>, c: seq<Queued>)
    ensures a + b + c == a + (b + c)
  {}

  lemma TransmitKeepsDelivery(w: World, keepalive: bool)
    requires DeliveryInv(w) && w.browser.pending.Some?
    ensures DeliveryInv(Transmit(w.(browser := w.browser.(flush := Awaiting(keepalive)))))
  {
    var w' := Transmit(w.(browser := w.browser.(flush := Awaiting(keepalive))));
    assert Issued(w') == Issued(w);
    assert Issued(w)[|w.acked|] == w.browser.pending.value;
  }

  /** Sending the next batch from an idle browser keeps the invariant. */
  lemma SendKeepsDelivery(w: World, keepalive: bool, batchId: nat)
    requires batchId !in w.used
    requires DeliveryInv(w.(browser := w.browser.(flush := Idle)))
    ensures DeliveryInv(Transmit(w.(browser := SendNext(w.browser, keepalive, batchId), used := w.used + {batchId})))
  {
    var idle := w.(browser := w.browser.(flush := Idle));
    FormKeepsDelivery(idle, batchId);
    var formed := idle.(browser := FormBatch(idle.browser, batchId), used := w.used + {batchId});
    var sent := w.(browser := SendNext(w.browser, keepalive, batchId), used := w.used + {batchId});
    if formed.browser.pending.Some? {
      TransmitKeepsDelivery(formed, keepalive);
      assert sent == formed.(browser := formed.browser.(flush := Awaiting(keepalive)));
    } else {
      assert sent == formed;
    }
  }

  /** An acknowledgement moves the pending batch to the acknowledged ones. */
  lemma AckKeepsDelivery(w: World)
    requires DeliveryInv(w) && w.browser.pending.Some? && w.browser.pending.value in w.store
    ensures DeliveryInv(w.(browser := w.browser.(pending := None, flush := Idle),
                           acked := w.acked + [w.browser.pending.value]))
  {
    var p := w.browser.pending.value;
    var w' := w.(browser := w.browser.(pending := None, flush := Idle), acked := w.acked + [p]);
    assert Issued(w) == w.acked + [p] == Issued(w');
    PendingNotAcked(w);
    assert w.store == Issued(w);
    AckFlat(w.acked, p, w.browser.queue);
  }

  lemma AckFlat(acked: seq<Batch>, p: Batch, queue: seq<Queued>)
    ensures Flat(acked + [p]) + [] + queue == Flat(acked) + Tagged(p) + queue
  {
    FlatAppend(acked, p);
    assert Flat(acked + [p]) + [] == Flat(acked + [p]);
  }

  lemma PendingNotAcked(w: World)
    requires DeliveryInv(w) && w.browser.pending.Some?
    ensures w.browser.pending.value !in w.acked
  {
    forall i | 0 <= i < |w.acked| ensures w.acked[i] != w.browser.pending.value {
      assert w.acked[i] == Issued(w)[i] && w.browser.pending.value == Issued(w)[|w.acked|];
    }
  }

  lemma ArrivalKeepsDelivery(w: World, copy: Batch)
    requires DeliveryInv(w) && copy in w.network
    ensures DeliveryInv(w.(store := Keep(w.limit, w.store, copy)))
  {
    var w' := w.(store := Keep(w.limit, w.store, copy));
    assert Issued(w') == Issued(w);
    if !Storable(w.limit, copy) { return; }
    var i :| 0 <= i < |Issued(w)| && Issued(w)[i] == copy;
    if i < |w.acked| {
      assert w.store[i] == Issued(w)[i];
    } else if w.store == Issued(w) {
      assert w.store[i].id == copy.id;
    } else {
      assert copy == w.browser.pending.value;
      assert forall j | 0 <= j < |w.store| :: w.store[j] == Issued(w)[j] && w.store[j].id != Issued(w)[|w.acked|].id;
      assert Keep(w.limit, w.store, copy) == Issued(w);
    }
  }

  lemma EmitStepKeepsDelivery(w: World, kind: Kind, now: real, id: nat)
    requires DeliveryInv(w)
    ensures DeliveryInv(EmitWorld(w.(clock := now), kind, now, id))
  {
    assert Issued(w.(clock := now)) == Issued(w);
    EmitKeepsDelivery(w.(clock := now), kind, now, id);
  }

  /** Opening a session touches neither the queue nor what was issued. */
  lemma OpenKeepsDelivery(w: World, session: nat, now: real)
    requires DeliveryInv(w)
    ensures DeliveryInv(w.(browser := Open(w.browser, session, now), clock := now, used := w.used + {session}))
  {
    var w0 := w.(browser := Open(w.browser, session, now), clock := now, used := w.used + {session});
    assert Issued(w0) == Issued(w);
  }

  lemma ResumeKeepsDelivery(w: World, session: nat, o: Opening)
    requires DeliveryInv(w) && Enabled(w, ResumeStep(session, o))
    ensures DeliveryInv(Apply(w, ResumeStep(session, o)))
  {
    OpenKeepsDelivery(w, session, o.now);
    var w0 := w.(browser := Open(w.browser, session, o.now), clock := o.now, used := w.used + {session});
    EmitKeepsDelivery(w0, Presented, o.now, o.ids[0]);
    var w1 := EmitWorld(w0, Presented, o.now, o.ids[0]);
    EmitKeepsDelivery(w1, if o.visible then Visible else Hidden, o.now, o.ids[1]);
    var w2 := EmitWorld(w1, if o.visible then Visible else Hidden, o.now, o.ids[1]);
    EmitKeepsDelivery(w2, if o.focused then Focus else Blur, o.now, o.ids[2]);
  }

  lemma FlushKeepsDelivery(w: World, keepalive: bool, batchId: nat)
    requires DeliveryInv(w) && batchId !in w.used
    ensures DeliveryInv(Apply(w, FlushStep(keepalive, batchId)))
  {
    if w.browser.flush.Awaiting? {
      var w' := Apply(w, FlushStep(keepalive, batchId));
      assert w'.network == w.network;
      assert Issued(w') == Issued(w);
    } else {
      assert w.(browser := w.browser.(flush := Idle)) == w;
      SendKeepsDelivery(w, keepalive, batchId);
    }
  }

  /** The state between the acknowledgement and the next batch. */
  function Acked(w: World): World
    requires w.browser.pending.Some?
  {
    w.(browser := w.browser.(pending := None, flush := Idle), acked := w.acked + [w.browser.pending.value])
  }

  /** A used id stays used. */
  lemma UseKeepsDelivery(w: World, id: nat)
    requires DeliveryInv(w)
    ensures DeliveryInv(w.(used := w.used + {id}))
  {
    assert Issued(w.(used := w.used + {id})) == Issued(w);
  }

  lemma OkStopsKeepsDelivery(w: World, batchId: nat)
    requires DeliveryInv(w) && Enabled(w, OkStep(batchId)) && w.browser.flush.keepalive
    ensures DeliveryInv(Apply(w, OkStep(batchId)))
  {
    AckKeepsDelivery(w);
    UseKeepsDelivery(Acked(w), batchId);
    assert Apply(w, OkStep(batchId)) == Acked(w).(used := w.used + {batchId});
  }

  lemma OkGoesOnKeepsDelivery(w: World, batchId: nat)
    requires DeliveryInv(w) && Enabled(w, OkStep(batchId)) && !w.browser.flush.keepalive
    ensures DeliveryInv(Apply(w, OkStep(batchId)))
  {
    AckKeepsDelivery(w);
    var cleared := w.(browser := w.browser.(pending := None), acked := w.acked + [w.browser.pending.value]);
    assert cleared.(browser := cleared.browser.(flush := Idle)) == Acked(w);
    SendKeepsDelivery(cleared, false, batchId);
  }

  lemma FailKeepsDelivery(w: World)
    requires DeliveryInv(w)
    ensures DeliveryInv(w.(browser := ReplyFailed(w.browser)))
  {
    assert Issued(w.(browser := ReplyFailed(w.browser))) == Issued(w);
  }

  lemma StepKeepsDelivery(w: World, step: Step)
    requires DeliveryInv(w) && Enabled(w, step)
    ensures DeliveryInv(Apply(w, step))
  {
    match step
    case EmitStep(kind, now, id) => EmitStepKeepsDelivery(w, kind, now, id);
    case ResumeStep(session, o) => ResumeKeepsDelivery(w, session, o);
    case FlushStep(keepalive, batchId) => FlushKeepsDelivery(w, keepalive, batchId);
    case ArriveStep(copy) => ArrivalKeepsDelivery(w, copy);
    case OkStep(batchId) =>
      if w.browser.flush.keepalive { OkStopsKeepsDelivery(w, batchId); } else { OkGoesOnKeepsDelivery(w, batchId); }
    case FailStep => FailKeepsDelivery(w);
  }

  lemma {:induction false} RunKeepsDelivery(w: World, steps: seq<Step>)
    requires DeliveryInv(w) && ValidRun(w, steps)
    ensures DeliveryInv(Run(w, steps))
    decreases |steps|
  {
    if steps != [] {
      StepKeepsDelivery(w, steps[0]);
      RunKeepsDelivery(Apply(w, steps[0]), steps[1..]);
    }
  }

  /** In every run the store holds a prefix of what was emitted, in order, without a gap; every
      copy in flight is of an acknowledged batch or of the one pending batch; every batch has
      one to a hundred events. */
  lemma StoreIsPrefixOfEmitted(steps: seq<Step>)
    requires ValidRun(Start, steps)
    ensures var w := Run(Start, steps);
            && Flat(w.store) <= w.emitted
            && (forall c <- w.network :: c in w.acked || w.browser.pending == Some(c))
            && (forall c <- w.network :: BatchOk(c))
  {
    assert DeliveryInv(Start);
    RunKeepsDelivery(Start, steps);
    DeliveredPrefix(Run(Start, steps));
  }

  lemma StoredFront(w: World)
    requires DeliveryInv(w)
    ensures Flat(w.store) <= w.emitted
  {
    var front, rest := Flat(w.acked), PendingEvents(w.browser);
    assert front <= front + rest <= w.emitted;
    if w.store != w.acked {
      FlatAppend(w.acked, w.browser.pending.value);
      assert Flat(w.store) == front + rest;
    }
  }

  lemma DeliveredPrefix(w: World)
    requires DeliveryInv(w)
    ensures Flat(w.store) <= w.emitted
    ensures forall c <- w.network :: (c in w.acked || w.browser.pending == Some(c)) && BatchOk(c)
  {
    StoredFront(w);
    forall c <- w.network ensures (c in w.acked || w.browser.pending == Some(c)) && BatchOk(c) {
      var i :| 0 <= i < |Issued(w)| && Issued(w)[i] == c;
      assert i < |w.acked| ==> Issued(w)[i] == w.acked[i];
    }
  }
}
