/** What the advisory lock of a command is for: which states allow mail for a command after a
    caller was told that its delivery is unknown. */
module InvitationLocks {
  import opened Options
  import opened Naturals
  import opened Invitations

  /** Past the lock and not yet through the `finally` that releases it. */
  predicate InSection(phase: Phase) {
    !phase.Waiting? && !phase.Released? && !phase.Accepting? && phase.req.command.Some?
  }

  predicate InSectionOf(phase: Phase, c: nat) { InSection(phase) && phase.req.command == Some(c) }

  predicate Holds(w: World, p: nat, c: nat) { c in w.locks && w.locks[c] == p }

  /** A process whose next step is to send the mail of command `c`. */
  predicate Due(w: World, p: nat, c: nat) { p in w.procs && w.procs[p].Inserted? && w.procs[p].req.command == Some(c) }

  predicate SaysUnknown(req: Request, reply: Reply, c: nat) { reply.DeliveryUnknown? && req.command == Some(c) }

  predicate UnknownEntry(e: Entry, c: nat) { e.Replied? && SaysUnknown(e.req, e.reply, c) }

  predicate MailEntry(e: Entry, c: nat) { e.MailSent? && e.command == Some(c) }

  /** A caller was told that the delivery for `c` is unknown. */
  ghost predicate Told(w: World, c: nat) {
    exists i | 0 <= i < |w.log| :: UnknownEntry(w.log[i], c)
  }

  /** A process is about to say so. */
  ghost predicate Telling(w: World, c: nat) {
    exists p | p in w.procs :: TellsUnknown(w.procs[p], c)
  }

  predicate TellsUnknown(phase: Phase, c: nat) { Replying(phase) && SaysUnknown(phase.req, phase.reply, c) }

  // ----- While nobody in a command's section loses its lock -----

  /** Every process in the section of `c` holds its lock, so there is at most one. */
  ghost predicate LockInv(w: World, c: nat) {
    forall p | p in w.procs && InSectionOf(w.procs[p], c) :: Holds(w, p, c)
  }

  /** While mail for `c` is still due, nobody was told or is being told that it is unknown. */
  ghost predicate QuietInv(w: World, c: nat) {
    (exists p :: Due(w, p, c)) ==> !Told(w, c) && !Telling(w, c)
  }

  /** A process in the section of `c` loses its lock. */
  predicate LosesLockOf(w: World, step: Step, c: nat) {
    step.LoseLock? && step.p in w.procs && InSectionOf(w.procs[step.p], c)
  }

  predicate LostLockOf(w: World, steps: seq<Step>, c: nat)
    requires ValidRun(w, steps)
    decreases |steps|
  {
    steps != [] && (LosesLockOf(w, steps[0], c) || LostLockOf(Apply(w, steps[0]), steps[1..], c))
  }

  lemma StepKeepsLock(w: World, step: Step, c: nat)
    requires LockInv(w, c) && Enabled(w, step) && !LosesLockOf(w, step, c)
    ensures LockInv(Apply(w, step), c)
  {}

  /** An unknown outcome, told or being told, is bound to a row. */
  lemma UnknownIsBound(w: World, c: nat)
    requires Inv(w) && (Told(w, c) || Telling(w, c))
    ensures HasCommand(w.rows, c)
  {
    if Told(w, c) {
      var i :| 0 <= i < |w.log| && UnknownEntry(w.log[i], c);
      assert Bound(w.rows, w.log[i].req, w.log[i].reply);
    } else {
      var p :| p in w.procs && TellsUnknown(w.procs[p], c);
      assert Bound(w.rows, w.procs[p].req, w.procs[p].reply);
    }
  }

  /** Mail becomes due only by an insertion, which finds no row of its command. */
  lemma DueIsNew(w: World, step: Step, p: nat, c: nat)
    requires Enabled(w, step) && Due(Apply(w, step), p, c)
    ensures Due(w, p, c) || (step.Insert? && step.p == p && !HasCommand(w.rows, c))
  {}

  /** A reply of unknown is decided by reading a pending row, or by the process that sent. */
  lemma UnknownIsNew(w: World, step: Step, c: nat)
    requires Enabled(w, step) && (Told(Apply(w, step), c) || Telling(Apply(w, step), c))
    ensures || Told(w, c) || Telling(w, c)
            || ((step.ReadPrior? || step.Record?) && InSectionOf(w.procs[step.p], c) && TellsUnknown(Apply(w, step).procs[step.p], c))
  {
    var w' := Apply(w, step);
    if Told(w', c) {
      var i :| 0 <= i < |w'.log| && UnknownEntry(w'.log[i], c);
      if i < |w.log| {
        assert w'.log[i] == w.log[i];
      } else {
        assert step.Answer? && TellsUnknown(w.procs[step.p], c);
      }
    } else {
      var p :| p in w'.procs && TellsUnknown(w'.procs[p], c);
      if p in w.procs && w.procs[p] == w'.procs[p] {
        assert TellsUnknown(w.procs[p], c);
      } else if step.Release? {
        assert TellsUnknown(w.procs[p], c);
      }
    }
  }

  lemma StepKeepsQuiet(w: World, step: Step, c: nat)
    requires Inv(w) && LockInv(w, c) && QuietInv(w, c) && Enabled(w, step)
    ensures QuietInv(Apply(w, step), c)
  {
    var w' := Apply(w, step);
    if p :| Due(w', p, c) {
      DueIsNew(w, step, p, c);
      if Told(w', c) || Telling(w', c) {
        UnknownIsNew(w, step, c);
        if Told(w, c) || Telling(w, c) { UnknownIsBound(w, c); }
      }
    }
  }

  lemma {:induction false} RunKeepsQuiet(w: World, steps: seq<Step>, c: nat)
    requires Inv(w) && LockInv(w, c) && QuietInv(w, c) && ValidRun(w, steps) && !LostLockOf(w, steps, c)
    ensures LockInv(Run(w, steps), c) && QuietInv(Run(w, steps), c)
    decreases |steps|
  {
    if steps != [] {
      StepKeepsInv(w, steps[0]);
      StepKeepsLock(w, steps[0], c);
      StepKeepsQuiet(w, steps[0], c);
      RunKeepsQuiet(Apply(w, steps[0]), steps[1..], c);
    }
  }

  /** In the log no mail for `c` follows a reply of unknown for `c`. */
  ghost predicate LogQuiet(w: World, c: nat) {
    forall i, j | 0 <= i < j < |w.log| && UnknownEntry(w.log[i], c) :: !MailEntry(w.log[j], c)
  }

  lemma StepKeepsLogQuiet(w: World, step: Step, c: nat)
    requires QuietInv(w, c) && LogQuiet(w, c) && Enabled(w, step)
    ensures LogQuiet(Apply(w, step), c)
  {
    var w' := Apply(w, step);
    if step.Send? && w.procs[step.p].req.command == Some(c) {
      assert Due(w, step.p, c);
      forall i | 0 <= i < |w.log| ensures !UnknownEntry(w.log[i], c) { assert !Told(w, c); }
    }
    assert forall i | 0 <= i < |w.log| :: w'.log[i] == w.log[i];
  }

  lemma {:induction false} RunKeepsLogQuiet(w: World, steps: seq<Step>, c: nat)
    requires Inv(w) && LockInv(w, c) && QuietInv(w, c) && LogQuiet(w, c) && ValidRun(w, steps) && !LostLockOf(w, steps, c)
    ensures LogQuiet(Run(w, steps), c)
    decreases |steps|
  {
    if steps != [] {
      StepKeepsInv(w, steps[0]);
      StepKeepsLock(w, steps[0], c);
      StepKeepsQuiet(w, steps[0], c);
      StepKeepsLogQuiet(w, steps[0], c);
      RunKeepsLogQuiet(Apply(w, steps[0]), steps[1..], c);
    }
  }

  /** As the outside sees it: mail for a command goes out after a caller was told that its delivery
      is unknown only if some process in the section of that very command lost its lock in the run;
      lost locks of other commands, and crashes, do not matter. */
  lemma NoSendAfterUnknown(steps: seq<Step>, i: nat, j: nat, c: nat)
    requires ValidRun(Start, steps) && i < j < |Run(Start, steps).log|
    requires UnknownEntry(Run(Start, steps).log[i], c) && MailEntry(Run(Start, steps).log[j], c)
    ensures LostLockOf(Start, steps, c)
  {
    if !LostLockOf(Start, steps, c) { RunKeepsLogQuiet(Start, steps, c); }
  }

  /** Nor is mail for it even due then. */
  lemma NoMailDueAfterUnknown(steps: seq<Step>, p: nat, c: nat)
    requires ValidRun(Start, steps) && Due(Run(Start, steps), p, c) && Told(Run(Start, steps), c)
    ensures LostLockOf(Start, steps, c)
  {
    if !LostLockOf(Start, steps, c) { RunKeepsQuiet(Start, steps, c); }
  }

  // ----- Exactly which states allow it -----

  /** Locks are held by processes in the section. */
  ghost predicate LocksOk(w: World) {
    forall c | c in w.locks :: w.locks[c] in w.procs && InSection(w.procs[w.locks[c]])
  }

  lemma StepKeepsLocksOk(w: World, step: Step)
    requires LocksOk(w) && Enabled(w, step)
    ensures LocksOk(Apply(w, step))
  {}

  lemma {:induction false} RunKeepsLocksOk(w: World, steps: seq<Step>)
    requires LocksOk(w) && ValidRun(w, steps)
    ensures LocksOk(Run(w, steps))
    decreases |steps|
  {
    if steps != [] {
      StepKeepsLocksOk(w, steps[0]);
      RunKeepsLocksOk(Apply(w, steps[0]), steps[1..]);
    }
  }

  /** A process that has the lock behind it and is about to look up `c` for the same caller. */
  predicate MayReplay(w: World, r: nat, req: Request) {
    && r in w.procs && w.procs[r].Locked? && w.procs[r].req.command == req.command
    && w.procs[r].req.email == req.email && w.procs[r].req.actor == req.actor
  }

  /** Somebody was or is being told already; or the row can still be reported as unknown, because
      the process that is to send does not hold the lock or somebody else is past it. */
  ghost predicate Exposed(w: World, p: nat, c: nat)
    requires Inv(w) && Due(w, p, c)
  {
    || Told(w, c) || Telling(w, c)
    || (assert WorksOn(w.rows, w.procs[p]);
        !w.rows[w.procs[p].id].revoked && (!Holds(w, p, c) || exists r :: MayReplay(w, r, w.procs[p].req)))
  }

  predicate KeepsLocks(steps: seq<Step>) { forall i | 0 <= i < |steps| :: !steps[i].LoseLock? }

  /** A continuation without lost locks after which somebody was told that the delivery is unknown
      while `p` is still about to send. */
  ghost predicate Reveals(w: World, p: nat, c: nat, steps: seq<Step>)
    requires p in w.procs
  {
    && KeepsLocks(steps) && ValidRun(w, steps) && Told(Run(w, steps), c)
    && p in Run(w, steps).procs && Run(w, steps).procs[p] == w.procs[p]
  }

  // ----- Continuations -----

  lemma RunPrepends(w: World, step: Step, rest: seq<Step>)
    requires Enabled(w, step) && ValidRun(Apply(w, step), rest)
    ensures ValidRun(w, [step] + rest) && Run(w, [step] + rest) == Run(Apply(w, step), rest)
  {
    assert ([step] + rest)[1..] == rest;
  }

  /** One step more in front. */
  lemma RevealsLater(w: World, step: Step, p: nat, c: nat, rest: seq<Step>)
    requires p in w.procs && Enabled(w, step) && !step.LoseLock?
    requires p in Apply(w, step).procs && Apply(w, step).procs[p] == w.procs[p]
    requires Reveals(Apply(w, step), p, c, rest)
    ensures Reveals(w, p, c, [step] + rest)
  {
    RunPrepends(w, step, rest);
  }

  lemma AnswerTells(w: World, p: nat, c: nat, r: nat) returns (steps: seq<Step>)
    requires Due(w, p, c) && r in w.procs && w.procs[r].Released? && TellsUnknown(w.procs[r], c)
    ensures Reveals(w, p, c, steps)
  {
    var w' := Apply(w, Answer(r));
    assert UnknownEntry(w'.log[|w.log|], c);
    assert Told(w', c);
    assert Reveals(w', p, c, []);
    RevealsLater(w, Answer(r), p, c, []);
    steps := [Answer(r)] + [];
  }

  lemma TellingTells(w: World, p: nat, c: nat, r: nat) returns (steps: seq<Step>)
    requires Due(w, p, c) && r in w.procs && TellsUnknown(w.procs[r], c)
    ensures Reveals(w, p, c, steps)
  {
    if w.procs[r].Released? {
      steps := AnswerTells(w, p, c, r);
    } else {
      var rest := AnswerTells(Apply(w, Release(r)), p, c, r);
      RevealsLater(w, Release(r), p, c, rest);
      steps := [Release(r)] + rest;
    }
  }

  /** A process past the lock reads the pending row and reports it as unknown. */
  lemma ReplayTells(w: World, p: nat, c: nat, r: nat) returns (steps: seq<Step>)
    requires Inv(w) && Due(w, p, c) && MayReplay(w, r, w.procs[p].req)
    requires w.procs[p].id in w.rows && !w.rows[w.procs[p].id].revoked
    ensures Reveals(w, p, c, steps)
  {
    assert WorksOn(w.rows, w.procs[p]);
    var read := ReadPrior(r, Some(w.procs[p].id));
    assert TellsUnknown(Apply(w, read).procs[r], c);
    var rest := TellingTells(Apply(w, read), p, c, r);
    RevealsLater(w, read, p, c, rest);
    steps := [read] + rest;
  }

  /** With the lock free, a repeated request gets there. */
  lemma FreeLockTells(w: World, p: nat, c: nat) returns (steps: seq<Step>)
    requires Inv(w) && Due(w, p, c) && c !in w.locks
    requires w.procs[p].id in w.rows && !w.rows[w.procs[p].id].revoked
    ensures Reveals(w, p, c, steps)
  {
    var r := FreshId(w.procs.Keys);
    var req := w.procs[p].req;
    var w1 := Apply(w, Call(r, req));
    StepKeepsInv(w, Call(r, req));
    var w2 := Apply(w1, Acquire(r));
    StepKeepsInv(w1, Acquire(r));
    var rest := ReplayTells(w2, p, c, r);
    RevealsLater(w1, Acquire(r), p, c, rest);
    RevealsLater(w, Call(r, req), p, c, [Acquire(r)] + rest);
    steps := [Call(r, req)] + ([Acquire(r)] + rest);
  }

  /** With the lock held by another process, that one may crash. */
  lemma LostLockTells(w: World, p: nat, c: nat) returns (steps: seq<Step>)
    requires Inv(w) && LocksOk(w) && Due(w, p, c) && !Holds(w, p, c)
    requires w.procs[p].id in w.rows && !w.rows[w.procs[p].id].revoked
    ensures Reveals(w, p, c, steps)
  {
    if c in w.locks {
      var crash := Crash(w.locks[c]);
      StepKeepsInv(w, crash);
      var rest := FreeLockTells(Apply(w, crash), p, c);
      RevealsLater(w, crash, p, c, rest);
      steps := [crash] + rest;
    } else {
      steps := FreeLockTells(w, p, c);
    }
  }

  lemma ExposedReveals(w: World, p: nat, c: nat) returns (steps: seq<Step>)
    requires Inv(w) && LocksOk(w) && Due(w, p, c) && Exposed(w, p, c)
    ensures Reveals(w, p, c, steps)
  {
    assert WorksOn(w.rows, w.procs[p]);
    if Told(w, c) {
      steps := [];
    } else if Telling(w, c) {
      var r :| r in w.procs && TellsUnknown(w.procs[r], c);
      steps := TellingTells(w, p, c, r);
    } else if Holds(w, p, c) {
      var r :| MayReplay(w, r, w.procs[p].req);
      steps := ReplayTells(w, p, c, r);
    } else {
      steps := LostLockTells(w, p, c);
    }
  }

  // ----- And no other state does -----

  /** A row that is to be sent is the only row of its command, and nobody else works on it. */
  lemma NoOtherSender(w: World, p: nat, c: nat, r: nat)
    requires Inv(w) && Due(w, p, c) && r in w.procs
    ensures !(w.procs[r].Sent? && w.procs[r].req.command == Some(c))
  {
    assert WorksOn(w.rows, w.procs[p]) && WorksOn(w.rows, w.procs[r]);
    assert Owns(w.procs[p], w.procs[p].id);
  }

  /** What a look-up of `c` says while `p` is still to send. */
  lemma LookupOfDue(w: World, p: nat, c: nat, r: nat, prior: Option<nat>)
    requires Inv(w) && Due(w, p, c) && Enabled(w, ReadPrior(r, prior)) && w.procs[r].req.command == Some(c)
    requires TellsUnknown(Apply(w, ReadPrior(r, prior)).procs[r], c)
    ensures WorksOn(w.rows, w.procs[p]) && !w.rows[w.procs[p].id].revoked && MayReplay(w, r, w.procs[p].req)
  {
    assert WorksOn(w.rows, w.procs[p]);
    assert HasCommand(w.rows, c);
    assert prior == Some(w.procs[p].id);
  }

  lemma UnexposedLookup(w: World, p: nat, c: nat, r: nat, prior: Option<nat>)
    requires Inv(w) && Due(w, p, c) && !Exposed(w, p, c) && Enabled(w, ReadPrior(r, prior))
    ensures !TellsUnknown(Apply(w, ReadPrior(r, prior)).procs[r], c)
  {
    if TellsUnknown(Apply(w, ReadPrior(r, prior)).procs[r], c) { LookupOfDue(w, p, c, r, prior); }
  }

  lemma StaysUntold(w: World, step: Step, p: nat, c: nat)
    requires Inv(w) && Due(w, p, c) && !Exposed(w, p, c) && Enabled(w, step)
    requires p in Apply(w, step).procs && Apply(w, step).procs[p] == w.procs[p]
    ensures !Told(Apply(w, step), c) && !Telling(Apply(w, step), c)
  {
    if step.Record? {
      NoOtherSender(w, p, c, step.p);
    } else if step.ReadPrior? {
      UnexposedLookup(w, p, c, step.p, step.prior);
    }
    if Told(Apply(w, step), c) || Telling(Apply(w, step), c) { UnknownIsNew(w, step, c); }
  }

  /** Nobody gets past the lock while its holder keeps it. */
  lemma StaysLocked(w: World, step: Step, p: nat, c: nat)
    requires Due(w, p, c) && Holds(w, p, c) && Enabled(w, step) && !step.LoseLock?
    requires !exists r :: MayReplay(w, r, w.procs[p].req)
    requires p in Apply(w, step).procs && Apply(w, step).procs[p] == w.procs[p]
    ensures Holds(Apply(w, step), p, c) && !exists r :: MayReplay(Apply(w, step), r, w.procs[p].req)
  {
    var w' := Apply(w, step);
    if r :| MayReplay(w', r, w.procs[p].req) {
      if r in w.procs && w.procs[r] == w'.procs[r] { assert MayReplay(w, r, w.procs[p].req); }
    }
  }

  lemma StaysUnexposed(w: World, step: Step, p: nat, c: nat)
    requires Inv(w) && Due(w, p, c) && !Exposed(w, p, c) && Enabled(w, step) && !step.LoseLock?
    requires p in Apply(w, step).procs && Apply(w, step).procs[p] == w.procs[p]
    ensures Inv(Apply(w, step)) && Due(Apply(w, step), p, c) && !Exposed(Apply(w, step), p, c)
  {
    StepKeepsInv(w, step);
    StaysUntold(w, step, p, c);
    StepEvolves(w, step);
    assert WorksOn(w.rows, w.procs[p]);
    if !w.rows[w.procs[p].id].revoked { StaysLocked(w, step, p, c); }
  }

  /** A process that has left its row never comes back to it. */
  lemma GoneForGood(w: World, step: Step, p: nat, req: Request, id: nat)
    requires Enabled(w, step) && id in w.rows
    requires !(p in w.procs && w.procs[p] == Inserted(req, id))
    ensures id in Apply(w, step).rows
    ensures !(p in Apply(w, step).procs && Apply(w, step).procs[p] == Inserted(req, id))
  {}

  lemma {:induction false} RunStaysGone(w: World, steps: seq<Step>, p: nat, req: Request, id: nat)
    requires ValidRun(w, steps) && id in w.rows && !(p in w.procs && w.procs[p] == Inserted(req, id))
    ensures !(p in Run(w, steps).procs && Run(w, steps).procs[p] == Inserted(req, id))
    decreases |steps|
  {
    if steps != [] {
      GoneForGood(w, steps[0], p, req, id);
      RunStaysGone(Apply(w, steps[0]), steps[1..], p, req, id);
    }
  }

  lemma {:induction false} UnexposedNeverReveals(w: World, p: nat, c: nat, steps: seq<Step>)
    requires Inv(w) && Due(w, p, c) && !Exposed(w, p, c) && ValidRun(w, steps) && KeepsLocks(steps)
    ensures !Reveals(w, p, c, steps)
    decreases |steps|
  {
    if steps != [] {
      var w' := Apply(w, steps[0]);
      var Inserted(req, id) := w.procs[p];
      assert WorksOn(w.rows, w.procs[p]);
      assert !steps[0].LoseLock?;
      if p in w'.procs && w'.procs[p] == w.procs[p] {
        StaysUnexposed(w, steps[0], p, c);
        UnexposedNeverReveals(w', p, c, steps[1..]);
      } else {
        StepEvolves(w, steps[0]);
        RunStaysGone(w', steps[1..], p, req, id);
      }
    }
  }

  /** In every reachable state in which mail for a command is due: some continuation without lost
      locks lets a caller be told `delivery_unknown` before that mail goes out exactly when the
      state is exposed. */
  lemma RevealedIffExposed(steps: seq<Step>, p: nat, c: nat)
    requires ValidRun(Start, steps) && Due(Run(Start, steps), p, c)
    ensures Inv(Run(Start, steps))
    ensures (exists rest :: Reveals(Run(Start, steps), p, c, rest)) <==> Exposed(Run(Start, steps), p, c)
  {
    RunKeepsInv(Start, steps);
    RunKeepsLocksOk(Start, steps);
    var w := Run(Start, steps);
    if Exposed(w, p, c) {
      var rest := ExposedReveals(w, p, c);
    }
    if rest :| Reveals(w, p, c, rest) {
      if !Exposed(w, p, c) { UnexposedNeverReveals(w, p, c, rest); }
    }
  }

  /** So every lost lock of a process whose row is still live to a replay is one too many: from
      every reachable state, once the sender loses its lock, some continuation without further
      lost locks tells a caller `delivery_unknown` and then sends. */
  lemma LostLockSendsAfterUnknown(steps: seq<Step>, p: nat, c: nat) returns (rest: seq<Step>)
    requires ValidRun(Start, steps) && Due(Run(Start, steps), p, c)
    requires var w := Run(Start, steps); w.procs[p].id in w.rows && !w.rows[w.procs[p].id].revoked
    ensures var lost := Apply(Run(Start, steps), LoseLock(p));
            && Reveals(lost, p, c, rest) && Enabled(Run(lost, rest), Send(p, Accepted))
  {
    RunKeepsInv(Start, steps);
    RunKeepsLocksOk(Start, steps);
    var w := Run(Start, steps);
    StepKeepsInv(w, LoseLock(p));
    StepKeepsLocksOk(w, LoseLock(p));
    rest := LostLockTells(Apply(w, LoseLock(p)), p, c);
  }

  /** And without a lost lock in its section a command is never exposed. */
  lemma NeverExposedWithLocks(steps: seq<Step>, p: nat, c: nat)
    requires ValidRun(Start, steps) && Due(Run(Start, steps), p, c) && !LostLockOf(Start, steps, c)
    ensures Inv(Run(Start, steps)) && !Exposed(Run(Start, steps), p, c)
  {
    RunKeepsInv(Start, steps);
    RunKeepsQuiet(Start, steps, c);
    var w := Run(Start, steps);
    assert InSectionOf(w.procs[p], c);
    if r :| MayReplay(w, r, w.procs[p].req) { assert InSectionOf(w.procs[r], c); }
  }
}
