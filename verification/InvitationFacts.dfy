/** What the rows and the replies mean: why a row is revoked or accepted, what its delivery status
    says about the mail, and what each caller is told. */
module InvitationFacts {
  import opened Options
  import opened Invitations

  // ----- Revocation and acceptance -----

  /** A new invitation to the same address, or a mail of its own that was not delivered. */
  predicate Revokes(w: World, step: Step, id: nat)
    requires Enabled(w, step) && id in w.rows
  {
    || (step.Insert? && w.procs[step.p].req.email == w.rows[id].email)
    || (step.Record? && w.procs[step.p].id == id && w.procs[step.p].outcome == Refused && step.commits)
  }

  /** The holder of the link accepts in time. */
  predicate Accepts(w: World, step: Step, id: nat)
    requires Enabled(w, step) && id in w.rows
  {
    step.AcceptUpdate? && w.procs[step.p].id == id && !w.rows[id].revoked && w.clock < w.rows[id].expiresAt
  }

  predicate SomeStepRevokes(w: World, steps: seq<Step>, id: nat)
    requires ValidRun(w, steps) && id in w.rows
    decreases |steps|
  {
    steps != [] && (Revokes(w, steps[0], id) || (id in Apply(w, steps[0]).rows && SomeStepRevokes(Apply(w, steps[0]), steps[1..], id)))
  }

  predicate SomeStepAccepts(w: World, steps: seq<Step>, id: nat)
    requires ValidRun(w, steps) && id in w.rows
    decreases |steps|
  {
    steps != [] && (Accepts(w, steps[0], id) || (id in Apply(w, steps[0]).rows && SomeStepAccepts(Apply(w, steps[0]), steps[1..], id)))
  }

  lemma StepChangesRow(w: World, step: Step, id: nat)
    requires Enabled(w, step) && id in w.rows
    ensures id in Apply(w, step).rows
    ensures Apply(w, step).rows[id].revoked && !w.rows[id].revoked ==> Revokes(w, step, id)
    ensures Apply(w, step).rows[id].accepted && !w.rows[id].accepted ==> Accepts(w, step, id)
  {}

  /** In every run a row is revoked only by a new invitation to its own address or a failed delivery
      of its own, and accepted only by its own link, in time and while it was not revoked. */
  lemma {:induction false} RowsChangeForAReason(w: World, steps: seq<Step>, id: nat)
    requires ValidRun(w, steps) && id in w.rows
    ensures id in Run(w, steps).rows
    ensures Run(w, steps).rows[id].revoked && !w.rows[id].revoked ==> SomeStepRevokes(w, steps, id)
    ensures Run(w, steps).rows[id].accepted && !w.rows[id].accepted ==> SomeStepAccepts(w, steps, id)
    decreases |steps|
  {
    if steps != [] {
      StepChangesRow(w, steps[0], id);
      RowsChangeForAReason(Apply(w, steps[0]), steps[1..], id);
    }
  }

  // ----- The delivery status -----

  predicate Mailed(log: seq<Entry>, id: nat, outcome: Outcome) {
    exists i | 0 <= i < |log| :: log[i].MailSent? && log[i].id == id && log[i].outcome == outcome
  }

  /** `provider_accepted` says that the provider took the mail; `failed`, that it took none. */
  ghost predicate StatusTrue(rows: Rows, log: seq<Entry>) {
    forall id | id in rows ::
      && (rows[id].status == ProviderAccepted ==> Mailed(log, id, Accepted))
      && (rows[id].status == Failed ==> !Mailed(log, id, Accepted) && !Mailed(log, id, Unknown))
  }

  /** A process remembers the outcome of its mail. */
  predicate Remembers(log: seq<Entry>, phase: Phase) {
    phase.Sent? ==>
      && (phase.outcome == Refused ==> !Mailed(log, phase.id, Accepted) && !Mailed(log, phase.id, Unknown))
      && (phase.outcome != Refused ==> Mailed(log, phase.id, phase.outcome))
  }

  ghost predicate FactsInv(w: World) {
    && StatusTrue(w.rows, w.log)
    && (forall p | p in w.procs :: Remembers(w.log, w.procs[p]))
    && (forall p | p in w.procs && Replying(w.procs[p]) && w.procs[p].reply.ExistingAccount? :: w.procs[p].req.email in w.users)
    && (forall i | 0 <= i < |w.log| && w.log[i].Replied? && w.log[i].reply.ExistingAccount? :: w.log[i].req.email in w.users)
  }

  /** Entries that are no mail change nothing. */
  lemma MailedAppend(log: seq<Entry>, e: Entry, id: nat, outcome: Outcome)
    ensures Mailed(log + [e], id, outcome) <==> Mailed(log, id, outcome) || (e.MailSent? && e.id == id && e.outcome == outcome)
  {
    var grown := log + [e];
    if Mailed(log, id, outcome) {
      var i :| 0 <= i < |log| && log[i].MailSent? && log[i].id == id && log[i].outcome == outcome;
      assert grown[i] == log[i];
    }
    assert grown[|log|] == e;
  }

  lemma OtherEntryKeepsFacts(w: World, w': World, e: Entry)
    requires FactsInv(w) && !e.MailSent? && w'.log == w.log + [e] && w'.users == w.users
    requires StatusTrue(w'.rows, w.log) && w'.procs.Keys <= w.procs.Keys && forall p | p in w'.procs :: w'.procs[p] == w.procs[p]
    requires e.Replied? && e.reply.ExistingAccount? ==> e.req.email in w.users
    ensures FactsInv(w')
  {
    forall id: nat, o: Outcome ensures Mailed(w'.log, id, o) <==> Mailed(w.log, id, o) { MailedAppend(w.log, e, id, o); }
  }

  /** A row that is still to be sent has no mail. */
  lemma DueHasNoMail(w: World, p: nat, o: Outcome)
    requires Inv(w) && p in w.procs && w.procs[p].Inserted?
    ensures !Mailed(w.log, w.procs[p].id, o)
  {}

  lemma SendKeepsFacts(w: World, p: nat, outcome: Outcome)
    requires Inv(w) && FactsInv(w) && Enabled(w, Send(p, outcome))
    ensures FactsInv(Apply(w, Send(p, outcome)))
  {
    var Inserted(req, id) := w.procs[p];
    var w' := Apply(w, Send(p, outcome));
    var e := MailSent(id, req.command, outcome);
    assert WorksOn(w.rows, w.procs[p]) && Owns(w.procs[p], id);
    forall k: nat, o: Outcome ensures Mailed(w'.log, k, o) <==> Mailed(w.log, k, o) || (k == id && o == outcome) {
      MailedAppend(w.log, e, k, o);
    }
    forall o: Outcome ensures !Mailed(w.log, id, o) { DueHasNoMail(w, p, o); }
    forall q | q in w'.procs ensures Remembers(w'.log, w'.procs[q]) {
      if q != p { assert Remembers(w.log, w.procs[q]) && !Owns(w.procs[q], id); }
    }
  }

  lemma SkipKeepsFacts(w: World, p: nat)
    requires Inv(w) && FactsInv(w) && Enabled(w, SendNotReached(p))
    ensures FactsInv(Apply(w, SendNotReached(p)))
  {
    forall o: Outcome ensures !Mailed(w.log, w.procs[p].id, o) { DueHasNoMail(w, p, o); }
  }

  lemma RecordKeepsFacts(w: World, p: nat, commits: bool)
    requires Inv(w) && FactsInv(w) && Enabled(w, Record(p, commits))
    ensures FactsInv(Apply(w, Record(p, commits)))
  {
    assert Remembers(w.log, w.procs[p]);
  }

  /** A new row has no status to answer for. */
  lemma InsertKeepsFacts(w: World, p: nat, id: nat, tokenHash: nat)
    requires Inv(w) && FactsInv(w) && Enabled(w, Insert(p, id, tokenHash))
    ensures FactsInv(Apply(w, Insert(p, id, tokenHash)))
  {
    var w' := Apply(w, Insert(p, id, tokenHash));
    assert forall k | k in w.rows :: w'.rows[k].status == w.rows[k].status;
  }

  /** Steps that touch neither the log nor a delivery status. */
  lemma QuietStepKeepsFacts(w: World, step: Step)
    requires Inv(w) && FactsInv(w) && Enabled(w, step)
    requires !step.Send? && !step.SendNotReached? && !step.Record? && !step.Insert? && !step.Answer? && !step.AcceptUpdate?
    ensures FactsInv(Apply(w, step))
  {
    assert Apply(w, step).log == w.log && Apply(w, step).rows == w.rows;
  }

  lemma AcceptKeepsFacts(w: World, p: nat)
    requires Inv(w) && FactsInv(w) && Enabled(w, AcceptUpdate(p))
    ensures FactsInv(Apply(w, AcceptUpdate(p)))
  {
    var w' := Apply(w, AcceptUpdate(p));
    assert forall k | k in w'.rows :: k in w.rows && w'.rows[k].status == w.rows[k].status;
    if w'.log != w.log { OtherEntryKeepsFacts(w, w', w'.log[|w.log|]); }
  }

  lemma StepKeepsFacts(w: World, step: Step)
    requires Inv(w) && FactsInv(w) && Enabled(w, step)
    ensures FactsInv(Apply(w, step))
  {
    match step
    case Send(p, outcome) => SendKeepsFacts(w, p, outcome);
    case SendNotReached(p) => SkipKeepsFacts(w, p);
    case Record(p, commits) => RecordKeepsFacts(w, p, commits);
    case Insert(p, id, tokenHash) => InsertKeepsFacts(w, p, id, tokenHash);
    case Answer(p) => OtherEntryKeepsFacts(w, Apply(w, step), Replied(w.procs[p].req, w.procs[p].reply));
    case AcceptUpdate(p) => AcceptKeepsFacts(w, p);
    case _ => QuietStepKeepsFacts(w, step);
  }

  lemma {:induction false} RunKeepsFacts(w: World, steps: seq<Step>)
    requires Inv(w) && FactsInv(w) && ValidRun(w, steps)
    ensures FactsInv(Run(w, steps))
    decreases |steps|
  {
    if steps != [] {
      StepKeepsInv(w, steps[0]);
      StepKeepsFacts(w, steps[0]);
      RunKeepsFacts(Apply(w, steps[0]), steps[1..]);
    }
  }

  /** In every run a row says `provider_accepted` only if the provider accepted its mail, and `failed`
      only if no mail of it was accepted or left in doubt; and a caller is told that an account
      exists only if there is one. */
  lemma StatusAndRepliesAreTrue(steps: seq<Step>)
    requires ValidRun(Start, steps)
    ensures var w := Run(Start, steps);
            && StatusTrue(w.rows, w.log)
            && forall i | 0 <= i < |w.log| && w.log[i].Replied? && w.log[i].reply.ExistingAccount? :: w.log[i].req.email in w.users
  {
    RunKeepsFacts(Start, steps);
  }

  // ----- Who accepts -----

  /** The token and the address are those of the row. */
  predicate HolderOf(rows: Rows, id: nat, tokenHash: nat, email: string) {
    id in rows && rows[id].tokenHash == tokenHash && rows[id].email == email
  }

  ghost predicate HolderInv(w: World) {
    && (forall p | p in w.procs && w.procs[p].Accepting? :: HolderOf(w.rows, w.procs[p].id, w.procs[p].tokenHash, w.procs[p].email))
    && (forall i | 0 <= i < |w.log| && w.log[i].AcceptedOnce? ::
          HolderOf(w.rows, w.log[i].id, w.log[i].tokenHash, w.log[i].email) && w.log[i].at < w.rows[w.log[i].id].expiresAt)
  }

  lemma HolderStays(rows: Rows, rows': Rows)
    requires TableEvolves(rows, rows')
    ensures forall id: nat, t: nat, e: string | HolderOf(rows, id, t, e) :: HolderOf(rows', id, t, e) && rows'[id].expiresAt == rows[id].expiresAt
  {}

  lemma StepKeepsHolder(w: World, step: Step)
    requires HolderInv(w) && Enabled(w, step)
    ensures HolderInv(Apply(w, step))
  {
    var w' := Apply(w, step);
    StepEvolves(w, step);
    HolderStays(w.rows, w'.rows);
    forall i | 0 <= i < |w'.log| && w'.log[i].AcceptedOnce?
      ensures HolderOf(w'.rows, w'.log[i].id, w'.log[i].tokenHash, w'.log[i].email) && w'.log[i].at < w'.rows[w'.log[i].id].expiresAt
    {
      if i < |w.log| { assert w'.log[i] == w.log[i]; }
    }
  }

  lemma {:induction false} RunKeepsHolder(w: World, steps: seq<Step>)
    requires HolderInv(w) && ValidRun(w, steps)
    ensures HolderInv(Run(w, steps))
    decreases |steps|
  {
    if steps != [] {
      StepKeepsHolder(w, steps[0]);
      RunKeepsHolder(Apply(w, steps[0]), steps[1..]);
    }
  }

  /** In every run an invitation is accepted only by somebody with its token and its address, before
      it expires. */
  lemma AcceptedByHolder(steps: seq<Step>, i: nat)
    requires ValidRun(Start, steps) && i < |Run(Start, steps).log| && Run(Start, steps).log[i].AcceptedOnce?
    ensures var w := Run(Start, steps); var e := w.log[i];
            HolderOf(w.rows, e.id, e.tokenHash, e.email) && e.at < w.rows[e.id].expiresAt
  {
    RunKeepsHolder(Start, steps);
  }

  // ----- What callers are told -----

  /** After a send: success exactly when the provider accepted and the receipt was committed, failure
      exactly when it refused, and otherwise that the delivery is unknown. */
  lemma ToldAfterSend(w: World, p: nat, commits: bool)
    requires Inv(w) && Enabled(w, Record(p, commits))
    ensures var Sent(req, id, outcome) := w.procs[p]; var told := Apply(w, Record(p, commits)).procs[p];
            && id in w.rows
            && told == Done(req, if outcome == Refused then DeliveryFailed
                                 else if outcome == Accepted && commits then Created(id, w.rows[id].expiresAt)
                                 else DeliveryUnknown)
            && (outcome == Accepted && commits ==> Apply(w, Record(p, commits)).rows[id].status == ProviderAccepted)
            && (outcome == Refused && commits ==>
                  Apply(w, Record(p, commits)).rows[id].status == Failed && Apply(w, Record(p, commits)).rows[id].revoked)
            && (outcome == Unknown ==> Apply(w, Record(p, commits)).rows == w.rows)
  {
    assert WorksOn(w.rows, w.procs[p]);
  }

  /** A known address is turned away before anything is written; an unknown one goes on. */
  lemma ToldOfAccount(w: World, p: nat)
    requires Enabled(w, CheckAccount(p))
    ensures var w' := Apply(w, CheckAccount(p)); var req := w.procs[p].req;
            && (req.email in w.users ==> w'.procs[p] == Done(req, ExistingAccount))
            && (req.email !in w.users ==> w'.procs[p] == NoAccount(req))
            && w'.rows == w.rows && w'.log == w.log
  {}
}
