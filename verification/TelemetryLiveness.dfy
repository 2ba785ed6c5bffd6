/** When everything that was emitted can still reach the store. The store's table bounds the
    sequence numbers, so a long enough session ends in a batch that is refused for good. */
module TelemetryLiveness {
  import opened Options
  import opened Naturals
  import opened Telemetry

  /** Events that no acknowledgement covers yet. */
  function Undelivered(b: Browser): nat {
    |PendingEvents(b)| + |b.queue|
  }

  /** Sends, arrivals and replies that get back. */
  predicate Delivering(step: Step) { step.FlushStep? || step.ArriveStep? || step.OkStep? }

  predicate AllDelivering(steps: seq<Step>) { forall i | 0 <= i < |steps| :: Delivering(steps[i]) }

  predicate Within(limit: nat, q: seq<Queued>) { forall i | 0 <= i < |q| :: q[i].event.sequence <= limit }

  /** The batch that is being resent is one the store refuses. */
  predicate Blocked(w: World) { w.browser.pending.Some? && !Storable(w.limit, w.browser.pending.value) }

  // ----- Runs, one step more -----

  lemma RunPrepends(w: World, step: Step, rest: seq<Step>)
    requires Enabled(w, step) && ValidRun(Apply(w, step), rest)
    ensures ValidRun(w, [step] + rest) && Run(w, [step] + rest) == Run(Apply(w, step), rest)
  {
    assert ([step] + rest)[1..] == rest;
  }

  lemma {:induction false} RunsCompose(w: World, a: seq<Step>, b: seq<Step>)
    requires ValidRun(w, a) && ValidRun(Run(w, a), b)
    ensures ValidRun(w, a + b) && Run(w, a + b) == Run(Run(w, a), b)
    decreases |a|
  {
    if a == [] {
      assert a + b == b;
    } else {
      RunsCompose(Apply(w, a[0]), a[1..], b);
      assert (a + b)[1..] == a[1..] + b;
    }
  }

  // ----- A run that delivers everything, or blocks -----

  /** An acknowledged batch shrinks what is left. */
  lemma AckShrinks(b: Browser, batchId: nat)
    requires b.flush.Awaiting? && b.pending.Some? && BatchOk(b.pending.value)
    ensures Undelivered(ReplyOk(b, batchId)) < Undelivered(b)
  {
    var cleared := b.(pending := None);
    if !b.flush.keepalive {
      FormBatchSplitsQueue(cleared, batchId);
      var formed := FormBatch(cleared, batchId);
      assert |PendingEvents(formed) + formed.queue| == |PendingEvents(cleared) + cleared.queue|;
    }
  }

  lemma ArrivedCopyIsStored(w: World, p: Batch)
    requires DeliveryInv(w) && w.browser.pending == Some(p) && Storable(w.limit, p)
    ensures p in Keep(w.limit, w.store, p)
  {
    PendingNotAcked(w);
    assert Issued(w)[|w.acked|] == p;
    if w.store == w.acked {
      assert forall i | 0 <= i < |w.store| :: w.store[i] == Issued(w)[i] && w.store[i].id != Issued(w)[|w.acked|].id;
      assert Keep(w.limit, w.store, p)[|w.store|] == p;
    }
  }

  /** The copy of the pending batch arrives and its reply gets back. */
  lemma PendingGetsThrough(w: World) returns (arrive: Step, ok: Step)
    requires DeliveryInv(w) && w.browser.flush.Awaiting? && !Blocked(w)
    ensures arrive.ArriveStep? && ok.OkStep? && Enabled(w, arrive) && Enabled(Apply(w, arrive), ok)
    ensures DeliveryInv(Apply(Apply(w, arrive), ok)) && Apply(Apply(w, arrive), ok).emitted == w.emitted
    ensures Undelivered(Apply(Apply(w, arrive), ok).browser) < Undelivered(w.browser)
  {
    var p := w.browser.pending.value;
    arrive := ArriveStep(p);
    StepKeepsDelivery(w, arrive);
    ArrivedCopyIsStored(w, p);
    var id := FreshId(w.used);
    ok := OkStep(id);
    StepKeepsDelivery(Apply(w, arrive), ok);
    assert Issued(w)[|w.acked|] == p;
    AckShrinks(w.browser, id);
  }

  /** An idle browser with something left starts waiting for a reply, and nothing is lost. */
  lemma BatchGetsSent(w: World) returns (send: Step)
    requires DeliveryInv(w) && w.browser.flush.Idle? && (w.browser.pending.Some? || w.browser.queue != [])
    ensures send.FlushStep? && Enabled(w, send)
    ensures DeliveryInv(Apply(w, send)) && Apply(w, send).emitted == w.emitted
    ensures Apply(w, send).browser.flush.Awaiting? && Undelivered(Apply(w, send).browser) == Undelivered(w.browser)
  {
    var b := w.browser;
    var id := FreshId(w.used);
    send := FlushStep(false, id);
    StepKeepsDelivery(w, send);
    FormBatchSplitsQueue(b, id);
    var formed := FormBatch(b, id);
    assert |PendingEvents(formed) + formed.queue| == |PendingEvents(b) + b.queue|;
  }

  lemma NothingLeft(w: World)
    requires DeliveryInv(w) && w.browser.pending.None? && w.browser.queue == []
    ensures Flat(w.store) == w.emitted
  {
    assert Issued(w) == w.acked && Flat(w.acked) + [] + [] == Flat(w.acked);
  }

  lemma MoreDelivering(step: Step, rest: seq<Step>)
    requires Delivering(step) && AllDelivering(rest)
    ensures AllDelivering([step] + rest)
  {}

  /** A run of deliveries alone can always be continued until everything is stored or the browser
      is stuck with a batch that the store refuses. */
  lemma {:induction false} DeliverOrBlock(w: World) returns (steps: seq<Step>)
    requires DeliveryInv(w)
    ensures ValidRun(w, steps) && AllDelivering(steps) && Run(w, steps).emitted == w.emitted
    ensures Flat(Run(w, steps).store) == w.emitted || Blocked(Run(w, steps))
    decreases Undelivered(w.browser), if w.browser.flush.Idle? then 1 else 0
  {
    var b := w.browser;
    if Blocked(w) {
      steps := [];
    } else if b.flush.Awaiting? {
      var arrive, ok := PendingGetsThrough(w);
      var rest := DeliverOrBlock(Apply(Apply(w, arrive), ok));
      RunPrepends(Apply(w, arrive), ok, rest);
      RunPrepends(w, arrive, [ok] + rest);
      MoreDelivering(ok, rest);
      MoreDelivering(arrive, [ok] + rest);
      steps := [arrive] + ([ok] + rest);
    } else if b.pending.None? && b.queue == [] {
      steps := [];
      NothingLeft(w);
    } else {
      var send := BatchGetsSent(w);
      var rest := DeliverOrBlock(Apply(w, send));
      RunPrepends(w, send, rest);
      MoreDelivering(send, rest);
      steps := [send] + rest;
    }
  }

  // ----- Exactly when everything can be delivered -----

  ghost predicate Delivers(w: World, steps: seq<Step>) {
    ValidRun(w, steps) && AllDelivering(steps) && Flat(Run(w, steps).store) == w.emitted
  }

  lemma {:induction false} LimitStays(w: World, steps: seq<Step>)
    requires ValidRun(w, steps)
    ensures Run(w, steps).limit == w.limit
    decreases |steps|
  {
    if steps != [] { LimitStays(Apply(w, steps[0]), steps[1..]); }
  }

  lemma {:induction false} StoredIsWithin(limit: nat, store: seq<Batch>)
    requires forall i | 0 <= i < |store| :: Storable(limit, store[i])
    ensures Within(limit, Flat(store))
  {
    if store != [] {
      var n := |store| - 1;
      StoredIsWithin(limit, store[..n]);
      assert Storable(limit, store[n]);
      assert Within(limit, Tagged(store[n]));
    }
  }

  /** A blocked browser has emitted an event beyond the limit. */
  lemma BlockedIsBeyond(w: World)
    requires DeliveryInv(w) && Blocked(w)
    ensures !Within(w.limit, w.emitted)
  {
    var p := w.browser.pending.value;
    var i :| 0 <= i < |p.events| && p.events[i].sequence > w.limit;
    var k := |Flat(w.acked)| + i;
    assert Tagged(p)[i].event == p.events[i];
    assert w.emitted[k] == Tagged(p)[i];
  }

  /** From every state that the delivery invariant allows, some run of sends, arrivals and replies
      alone stores every emitted event exactly when no emitted sequence number is beyond the
      store's limit. */
  lemma DeliverableIffWithinLimit(w: World)
    requires DeliveryInv(w)
    ensures (exists steps :: Delivers(w, steps)) <==> Within(w.limit, w.emitted)
  {
    if steps :| Delivers(w, steps) {
      RunKeepsDelivery(w, steps);
      LimitStays(w, steps);
      StoredIsWithin(w.limit, Run(w, steps).store);
    }
    if Within(w.limit, w.emitted) {
      var steps := DeliverOrBlock(w);
      RunKeepsDelivery(w, steps);
      LimitStays(w, steps);
      if Blocked(Run(w, steps)) { BlockedIsBeyond(Run(w, steps)); }
      assert Delivers(w, steps);
    }
  }

  // ----- Blocked for good -----

  /** Nothing of a blocked browser's pending batch is stored. */
  lemma BlockedStoreIsAcked(w: World)
    requires DeliveryInv(w) && Blocked(w)
    ensures w.store == w.acked && w.browser.pending.value !in w.store
  {
    forall i | 0 <= i < |w.store| ensures w.store[i] != w.browser.pending.value {
      assert Storable(w.limit, w.store[i]);
    }
    assert Issued(w)[|w.acked|] == w.browser.pending.value;
  }

  lemma BlockedArrival(w: World, copy: Batch)
    requires DeliveryInv(w) && Blocked(w) && copy in w.network
    ensures Keep(w.limit, w.store, copy) == w.store
  {
    BlockedStoreIsAcked(w);
    var i :| 0 <= i < |Issued(w)| && Issued(w)[i] == copy;
    if i < |w.acked| { assert w.store[i].id == copy.id; }
  }

  lemma BlockedStep(w: World, step: Step)
    requires DeliveryInv(w) && Blocked(w) && Enabled(w, step)
    ensures Apply(w, step).browser.pending == w.browser.pending
    ensures Apply(w, step).store == w.store && Apply(w, step).limit == w.limit
  {
    BlockedStoreIsAcked(w);
    if step.ArriveStep? { BlockedArrival(w, step.copy); }
  }

  /** Whatever happens next, new sessions included, the same batch stays pending and the store
      never grows again. */
  lemma {:induction false} BlockedForGood(w: World, steps: seq<Step>)
    requires DeliveryInv(w) && Blocked(w) && ValidRun(w, steps)
    ensures Run(w, steps).browser.pending == w.browser.pending && Run(w, steps).store == w.store
    decreases |steps|
  {
    if steps != [] {
      BlockedStep(w, steps[0]);
      StepKeepsDelivery(w, steps[0]);
      BlockedForGood(Apply(w, steps[0]), steps[1..]);
    }
  }

  // ----- A run that blocks -----

  /** A session may have any number of events. */
  ghost predicate LongSession(w: World, n: nat) {
    && w.browser.session.Some? && !w.browser.disconnected && w.browser.sequence == n
    && w.emitted != [] && w.emitted[|w.emitted| - 1].event.sequence == n
  }

  lemma SessionOpens() returns (steps: seq<Step>)
    ensures ValidRun(Start, steps) && LongSession(Run(Start, steps), 3)
  {
    var open := ResumeStep(0, Opening(0.0, true, true, [1, 2, 3]));
    assert Enabled(Start, open) by {
      assert (set j | 0 <= j < 2 :: [1, 2, 3][j]) == {1, 2} && (set j | 0 <= j < 1 :: [1, 2, 3][j]) == {1};
    }
    RunPrepends(Start, open, []);
    steps := [open];
  }

  lemma {:induction false} SessionGrows(n: nat) returns (steps: seq<Step>)
    requires n >= 3
    ensures ValidRun(Start, steps) && LongSession(Run(Start, steps), n)
    decreases n
  {
    if n == 3 {
      steps := SessionOpens();
    } else {
      var before := SessionGrows(n - 1);
      var w := Run(Start, before);
      var id := FreshId(w.used);
      var beat := EmitStep(Heartbeat, w.clock, id);
      RunPrepends(w, beat, []);
      RunsCompose(Start, before, [beat]);
      steps := before + [beat];
    }
  }

  /** Some run of the recorder ends blocked: a session of 100,001 events, sent as far as it goes. */
  lemma SomeRunBlocks() returns (steps: seq<Step>)
    ensures ValidRun(Start, steps) && Blocked(Run(Start, steps)) && Start.limit == 100_000
  {
    var long := SessionGrows(MAX_SEQUENCE + 1);
    var w := Run(Start, long);
    RunKeepsDelivery(Start, long);
    LimitStays(Start, long);
    var deliver := DeliverOrBlock(w);
    RunKeepsDelivery(w, deliver);
    LimitStays(w, deliver);
    StoredIsWithin(w.limit, Run(w, deliver).store);
    assert !Within(w.limit, w.emitted);
    RunsCompose(Start, long, deliver);
    steps := long + deliver;
  }
}
