/** When every recorded snapshot can still reach the store. The table admits 64 snapshots of a
    session, so the snapshot after those stays at the head of the queue for good. */
module ContextLiveness {
  import opened ContextRecorder

  predicate Delivering(step: Step) { step.FlushStep? || step.ArriveStep? || step.OkStep? }

  predicate AllDelivering(steps: seq<Step>) { forall i | 0 <= i < |steps| :: Delivering(steps[i]) }

  /** The snapshot that is being resent is one the store refuses. */
  predicate Blocked(w: World) { w.context.queue != [] && w.context.queue[0].sequence > MAX_SEQUENCE }

  lemma RunPrepends(w: World, step: Step, rest: seq<Step>)
    requires Enabled(w, step) && ValidRun(Apply(w, step), rest)
    ensures ValidRun(w, [step] + rest) && Run(w, [step] + rest) == Run(Apply(w, step), rest)
  {
    assert ([step] + rest)[1..] == rest;
  }

  lemma {:induction false} RunsCompose(w: World, a: seq<Step>, b: seq<Step>)
    requires ValidRun(w, a) && ValidRun(Run(w, a), b)
    ensures ValidRun(w, a + b) && Run(w, a + b) == Run(Run(w, a), b)
    decreases |a|
  {
    if a == [] {
      assert a + b == b;
    } else {
      RunsCompose(Apply(w, a[0]), a[1..], b);
      assert (a + b)[1..] == a[1..] + b;
    }
  }

  /** The head of the queue is the first snapshot that is not acknowledged. */
  lemma HeadIsNext(w: World)
    requires Inv(w) && w.context.queue != []
    ensures w.context.queue[0] == w.emitted[|w.acked|] && w.context.queue[0].sequence == |w.acked| + 1
  {}

  /** Its copy arrives, and the reply gets back. */
  lemma HeadGetsThrough(w: World) returns (arrive: Step)
    requires Inv(w) && w.context.flush.Awaiting? && !Blocked(w)
    ensures arrive.ArriveStep? && Enabled(w, arrive) && Enabled(Apply(w, arrive), OkStep)
    ensures var w' := Apply(Apply(w, arrive), OkStep);
            Inv(w') && w'.emitted == w.emitted && |w'.context.queue| == |w.context.queue| - 1
  {
    HeadIsNext(w);
    var head := w.context.queue[0];
    arrive := ArriveStep(head);
    StepKeepsInv(w, arrive);
    ArrivedHeadIsStored(w);
    StepKeepsInv(Apply(w, arrive), OkStep);
  }

  lemma ArrivedHeadIsStored(w: World)
    requires Inv(w) && w.context.queue != [] && !Blocked(w)
    ensures w.context.queue[0] in Keep(w.store, w.context.queue[0])
  {
    HeadIsNext(w);
    var head := w.context.queue[0];
    if |w.store| > |w.acked| {
      assert w.store[|w.acked|] == head;
    } else {
      assert forall i | 0 <= i < |w.store| :: w.store[i] == w.emitted[i] && w.store[i].sequence == i + 1;
      assert Keep(w.store, head)[|w.store|] == head;
    }
  }

  /** A run of deliveries alone can always be continued until everything is stored or the head
      of the queue is refused. */
  lemma {:induction false} DeliverOrBlock(w: World) returns (steps: seq<Step>)
    requires Inv(w)
    ensures ValidRun(w, steps) && AllDelivering(steps) && Run(w, steps).emitted == w.emitted
    ensures Run(w, steps).store == w.emitted || Blocked(Run(w, steps))
    decreases |w.context.queue|, if w.context.flush.Idle? then 1 else 0
  {
    if Blocked(w) || w.context.queue == [] {
      steps := [];
    } else if w.context.flush.Awaiting? {
      var arrive := HeadGetsThrough(w);
      var rest := DeliverOrBlock(Apply(Apply(w, arrive), OkStep));
      RunPrepends(Apply(w, arrive), OkStep, rest);
      RunPrepends(w, arrive, [OkStep] + rest);
      steps := [arrive] + ([OkStep] + rest);
    } else {
      StepKeepsInv(w, FlushStep(false));
      var rest := DeliverOrBlock(Apply(w, FlushStep(false)));
      RunPrepends(w, FlushStep(false), rest);
      steps := [FlushStep(false)] + rest;
    }
  }

  ghost predicate Delivers(w: World, steps: seq<Step>) {
    ValidRun(w, steps) && AllDelivering(steps) && Run(w, steps).store == w.emitted
  }

  /** In every reachable state, some run of sends, arrivals and replies alone stores every recorded
      snapshot exactly when at most 64 were recorded. */
  lemma DeliverableIffWithinLimit(w: World)
    requires Inv(w)
    ensures (exists steps :: Delivers(w, steps)) <==> |w.emitted| <= 64
  {
    if steps :| Delivers(w, steps) { RunKeepsInv(w, steps); }
    if |w.emitted| <= MAX_SEQUENCE {
      var steps := DeliverOrBlock(w);
      RunKeepsInv(w, steps);
      if Blocked(Run(w, steps)) { HeadIsNext(Run(w, steps)); }
      assert Delivers(w, steps);
    }
  }

  // ----- Blocked for good -----

  lemma BlockedStep(w: World, step: Step)
    requires Inv(w) && Blocked(w) && Enabled(w, step)
    ensures Apply(w, step).context.queue != [] && Apply(w, step).context.queue[0] == w.context.queue[0]
    ensures Apply(w, step).store == w.store
  {
    HeadIsNext(w);
    assert forall i | 0 <= i < |w.store| :: w.store[i] == w.emitted[i] && w.store[i].sequence == i + 1;
    if step.ArriveStep? { BlockedArrival(w, step.copy); }
  }

  lemma BlockedArrival(w: World, copy: Snapshot)
    requires Inv(w) && Blocked(w) && copy in w.network
    ensures Keep(w.store, copy) == w.store
  {
    if copy in w.acked {
      var i :| 0 <= i < |w.acked| && w.acked[i] == copy;
      assert w.store[i] == copy;
    }
  }

  /** Whatever happens next, the same snapshot stays at the head of the queue and the store never
      grows again. */
  lemma {:induction false} BlockedForGood(w: World, steps: seq<Step>)
    requires Inv(w) && Blocked(w) && ValidRun(w, steps)
    ensures Run(w, steps).context.queue != [] && Run(w, steps).context.queue[0] == w.context.queue[0]
    ensures Run(w, steps).store == w.store
    decreases |steps|
  {
    if steps != [] {
      BlockedStep(w, steps[0]);
      StepKeepsInv(w, steps[0]);
      BlockedForGood(Apply(w, steps[0]), steps[1..]);
    }
  }

  // ----- A run that blocks -----

  /** One presentation and `n` saves. */
  lemma {:induction false} SavesRecorded(n: nat) returns (steps: seq<Step>)
    ensures ValidRun(Start, steps) && |Run(Start, steps).emitted| == n + 1 && Run(Start, steps).context.session.Some?
  {
    if n == 0 {
      var present := RecordStep(Presentation, 0.0, 0.0, 0);
      RunPrepends(Start, present, []);
      steps := [present];
    } else {
      var before := SavesRecorded(n - 1);
      var save := RecordStep(Save, 0.0, 0.0, 0);
      RunPrepends(Run(Start, before), save, []);
      RunsCompose(Start, before, [save]);
      steps := before + [save];
    }
  }

  /** Sixty-four saves after the presentation are one too many: some run of them ends blocked. */
  lemma SomeRunBlocks() returns (steps: seq<Step>)
    ensures ValidRun(Start, steps) && |Run(Start, steps).emitted| == 65 && Blocked(Run(Start, steps))
  {
    var saves := SavesRecorded(64);
    var w := Run(Start, saves);
    RunKeepsInv(Start, saves);
    var deliver := DeliverOrBlock(w);
    RunKeepsInv(w, deliver);
    RunsCompose(Start, saves, deliver);
    steps := saves + deliver;
  }
}
