/** Removing sign-in methods of one user: disconnecting a connector
    (src/app/api/admin/users/[userId]/connectors/[provider]/route.ts) and disabling the manual
    password (src/app/api/admin/users/[userId]/route.ts), each with its audit command
    (src/lib/admin-audit.ts). Requests interleave freely and may crash between any two statements;
    the row locks of `select ... for update` are held until the transaction ends. */
module SignInMethods {
  import opened Options

  const CREDENTIAL := "credential"

  datatype Account = Account(provider: string, hasPassword: bool)

  /** The connectors the gateway knows, and those its settings configure. */
  datatype Settings = Settings(known: set<string>, configured: set<string>) {
    predicate Valid() { CREDENTIAL !in known }
  }

  predicate Usable(a: Account, s: Settings) {
    if a.provider == CREDENTIAL then a.hasPassword else a.provider in s.known && a.provider in s.configured
  }

  ghost predicate HasMethod(accounts: seq<Account>, s: Settings) {
    exists i | 0 <= i < |accounts| :: Usable(accounts[i], s)
  }

  predicate Linked(accounts: seq<Account>, provider: string) {
    exists i | 0 <= i < |accounts| :: accounts[i].provider == provider
  }

  /** `delete from account where providerId = ...`. */
  function Without(accounts: seq<Account>, provider: string): seq<Account> {
    if accounts == [] then []
    else (if accounts[0].provider == provider then [] else [accounts[0]]) + Without(accounts[1..], provider)
  }

  lemma {:induction false} WithoutKeepsOthers(accounts: seq<Account>, provider: string, a: Account)
    ensures a in Without(accounts, provider) <==> a in accounts && a.provider != provider
  {
    if accounts != [] { WithoutKeepsOthers(accounts[1..], provider, a); }
  }

  /** The methods that would remain, as the two routes filter them. */
  predicate Remains(a: Account, kind: Kind, s: Settings) {
    match kind
    case Disconnect(provider) =>
      if a.provider == CREDENTIAL then a.hasPassword
      else a.provider != provider && a.provider in s.known && a.provider in s.configured
    case DisablePassword => a.provider in s.known && a.provider in s.configured
  }

  ghost predicate SomeRemain(accounts: seq<Account>, kind: Kind, s: Settings) {
    exists i | 0 <= i < |accounts| :: Remains(accounts[i], kind, s)
  }

  /** A password is a method only if it is set, a connector only if it is known and configured. */
  lemma WhatIsUsable(provider: string, hasPassword: bool, s: Settings)
    ensures Usable(Account("credential", hasPassword), s) <==> hasPassword
    ensures provider != "credential" ==>
              (Usable(Account(provider, hasPassword), s) <==> provider in s.known && provider in s.configured)
  {}

  datatype Kind = Disconnect(provider: string) | DisablePassword

  function Removed(kind: Kind): string { if kind.Disconnect? then kind.provider else CREDENTIAL }

  /** What the unlocked preflight and the locked re-check both ask. */
  ghost predicate Allowed(accounts: seq<Account>, kind: Kind, s: Settings) {
    (kind.Disconnect? ==> Linked(accounts, kind.provider)) && SomeRemain(accounts, kind, s)
  }

  /** The heart of both transactions: whoever passes the locked check leaves a usable method. */
  lemma AllowedLeavesMethod(accounts: seq<Account>, kind: Kind, s: Settings)
    requires s.Valid() && Allowed(accounts, kind, s) && (kind.Disconnect? ==> kind.provider in s.known)
    ensures HasMethod(Without(accounts, Removed(kind)), s)
  {
    var i :| 0 <= i < |accounts| && Remains(accounts[i], kind, s);
    WithoutKeepsOthers(accounts, Removed(kind), accounts[i]);
    var rest := Without(accounts, Removed(kind));
    var j :| 0 <= j < |rest| && rest[j] == accounts[i];
    assert Usable(rest[j], s);
  }

  // ----- Audit commands -----

  /** The commands that have an event of each phase; the unique index admits one of each. */
  datatype Audit = Audit(started: set<nat>, succeeded: set<nat>, failed: set<nat>)

  /** `changed` is history: the commands whose change of the account rows was committed. */
  datatype User = User(accounts: seq<Account>, sessions: set<nat>, audit: Audit, changed: set<nat>)

  /** What an undisturbed transaction does. */
  function Commit(u: User, kind: Kind, command: nat): User {
    User(Without(u.accounts, Removed(kind)), {}, u.audit.(succeeded := u.audit.succeeded + {command}), u.changed + {command})
  }

  /** The rows of one user, as the statements of the transaction change them. */
  class UserRows {
    var accounts: seq<Account>
    var sessions: set<nat>
    var audit: Audit
    ghost var changed: set<nat>

    ghost function Value(): User
      reads this
    {
      User(accounts, sessions, audit, changed)
    }

    constructor (initial: seq<Account>)
      ensures Value() == User(initial, {}, Audit({}, {}, {}), {})
    {
      accounts, sessions, audit, changed := initial, {}, Audit({}, {}, {}), {};
    }

    /** Read under lock, re-check, delete, end the sessions, record success; or roll back. The
        unique index refuses a second `succeeded` event of the command. */
    method Transact(kind: Kind, s: Settings, command: nat, commitFails: bool) returns (committed: bool)
      modifies this
      ensures committed <==> !commitFails && Allowed(old(accounts), kind, s) && command !in old(audit).succeeded
      ensures Value() == if committed then Commit(old(Value()), kind, command) else old(Value())
    {
      var linked, remaining := false, false;
      for i := 0 to |accounts|
        invariant accounts == old(accounts) && sessions == old(sessions) && audit == old(audit) && changed == old(changed)
        invariant linked <==> exists j | 0 <= j < i :: kind.Disconnect? && accounts[j].provider == kind.provider
        invariant remaining <==> exists j | 0 <= j < i :: Remains(accounts[j], kind, s)
      {
        if kind.Disconnect? && accounts[i].provider == kind.provider { linked := true; }
        if Remains(accounts[i], kind, s) { remaining := true; }
      }
      if (kind.Disconnect? && !linked) || !remaining { return false; }
      var accountsBefore, sessionsBefore := accounts, sessions;
      accounts := Without(accounts, Removed(kind));
      sessions := {};
      if command in audit.succeeded || commitFails {
        accounts, sessions := accountsBefore, sessionsBefore;
        return false;
      }
      audit := audit.(succeeded := audit.succeeded + {command});
      changed := changed + {command};
      committed := true;
    }
  }

  // ----- Interleaved requests -----

  /** What a request needs to know of its own command. */
  datatype Job = Job(kind: Kind, settings: Settings, command: nat)

  datatype Progress =
    | Checking(kind: Kind, settings: Settings)
    | Cleared(kind: Kind, settings: Settings)
    | Begun(job: Job)
    | Locked(job: Job)
    | Deleted(job: Job)
    | SignedOut(job: Job)
    | Recorded(job: Job)
    | RolledBack(job: Job)

  predicate Commanding(at: Progress) { !at.Checking? && !at.Cleared? }

  predicate InTransaction(at: Progress) { at.Locked? || at.Deleted? || at.SignedOut? || at.Recorded? }

  /** The open transaction: who has it, what a commit would leave, and the sessions it ended. */
  datatype Tx = Tx(owner: nat, working: User, gone: set<nat>)

  /** `seen` is history: every session there ever was. */
  datatype World = World(user: User, tx: Option<Tx>, procs: map<nat, Progress>, seen: set<nat>)

  datatype Step =
    | Call(p: nat, kind: Kind, settings: Settings)
    | Preflight(p: nat)
    | Begin(p: nat, command: nat)
    | LockAndCheck(p: nat)
    | LockFails(p: nat)
    | DeleteAccounts(p: nat)
    | DeleteSessions(p: nat)
    | WriteSucceeded(p: nat)
    | CommitTx(p: nat)
    | Abort(p: nat)
    | RecordFailure(p: nat, fails: bool)
    | Crash(p: nat)
    | LinkAccount(account: Account)
    | SignIn(session: nat)

  /** Command ids are fresh. */
  predicate Unused(audit: Audit, command: nat) {
    command !in audit.started && command !in audit.succeeded && command !in audit.failed
  }

  ghost predicate Enabled(w: World, step: Step) {
    match step
    case Call(p, kind, s) => p !in w.procs && s.Valid() && (kind.Disconnect? ==> kind.provider in s.known)
    // The preflight reads without a lock; only the connector route has one.
    case Preflight(p) =>
      && p in w.procs && w.procs[p].Checking?
      && (w.procs[p].kind.Disconnect? ==> Allowed(w.user.accounts, w.procs[p].kind, w.procs[p].settings))
    case Begin(p, command) => p in w.procs && w.procs[p].Cleared? && Unused(w.user.audit, command)
    case LockAndCheck(p) => p in w.procs && w.procs[p].Begun? && w.tx == None
    // `begin` or the wait for the row locks fails.
    case LockFails(p) => p in w.procs && w.procs[p].Begun?
    case DeleteAccounts(p) => p in w.procs && w.procs[p].Locked? && w.tx.Some? && w.tx.value.owner == p
    case DeleteSessions(p) => p in w.procs && w.procs[p].Deleted? && w.tx.Some? && w.tx.value.owner == p
    // The unique index admits one `succeeded` event of a command.
    case WriteSucceeded(p) =>
      && p in w.procs && w.procs[p].SignedOut? && w.tx.Some? && w.tx.value.owner == p
      && w.procs[p].job.command !in w.tx.value.working.audit.succeeded
    case CommitTx(p) => p in w.procs && w.procs[p].Recorded? && w.tx.Some? && w.tx.value.owner == p
    case Abort(p) => p in w.procs && InTransaction(w.procs[p]) && w.tx.Some? && w.tx.value.owner == p
    case RecordFailure(p, fails) => p in w.procs && w.procs[p].RolledBack?
    case Crash(p) => p in w.procs
    case LinkAccount(account) => true
    case SignIn(session) => session !in w.seen
  }

  function Move(w: World, p: nat, at: Progress): World { w.(procs := w.procs[p := at]) }

  function Working(w: World, working: User): World
    requires w.tx.Some?
  {
    w.(tx := Some(w.tx.value.(working := working)))
  }

  /** Statements outside the transaction are committed at once, and a later commit keeps them. */
  function Audited(w: World, audit: Audit, inTx: Audit): World {
    w.(user := w.user.(audit := audit),
       tx := if w.tx.Some? then Some(w.tx.value.(working := w.tx.value.working.(audit := inTx))) else None)
  }

  function InTx(w: World): Audit { if w.tx.Some? then w.tx.value.working.audit else w.user.audit }

  function WithStarted(a: Audit, command: nat): Audit { a.(started := a.started + {command}) }
  function WithFailed(a: Audit, command: nat): Audit { a.(failed := a.failed + {command}) }
  function WithSucceeded(a: Audit, command: nat): Audit { a.(succeeded := a.succeeded + {command}) }

  ghost function Apply(w: World, step: Step): World
    requires Enabled(w, step)
  {
    match step
    case Call(p, kind, s) => Move(w, p, Checking(kind, s))
    case Preflight(p) => Move(w, p, Cleared(w.procs[p].kind, w.procs[p].settings))
    case Begin(p, command) =>
      Move(Audited(w, WithStarted(w.user.audit, command), WithStarted(InTx(w), command)), p,
           Begun(Job(w.procs[p].kind, w.procs[p].settings, command)))
    case LockAndCheck(p) =>
      var job := w.procs[p].job;
      if Allowed(w.user.accounts, job.kind, job.settings)
      then Move(w.(tx := Some(Tx(p, w.user, {}))), p, Locked(job))
      else Move(w, p, RolledBack(job))
    case LockFails(p) => Move(w, p, RolledBack(w.procs[p].job))
    case DeleteAccounts(p) =>
      var job, u := w.procs[p].job, w.tx.value.working;
      Move(Working(w, u.(accounts := Without(u.accounts, Removed(job.kind)), changed := u.changed + {job.command})), p, Deleted(job))
    case DeleteSessions(p) =>
      var u := w.tx.value.working;
      Move(w.(tx := Some(Tx(p, u.(sessions := {}), u.sessions))), p, SignedOut(w.procs[p].job))
    case WriteSucceeded(p) =>
      var job, u := w.procs[p].job, w.tx.value.working;
      Move(Working(w, u.(audit := WithSucceeded(u.audit, job.command))), p, Recorded(job))
    case CommitTx(p) => w.(user := w.tx.value.working, tx := None, procs := w.procs - {p})
    case Abort(p) => Move(w.(tx := None), p, RolledBack(w.procs[p].job))
    case RecordFailure(p, fails) =>
      var command := w.procs[p].job.command;
      var left := w.(procs := w.procs - {p});
      if fails || command in w.user.audit.failed then left
      else Audited(left, WithFailed(w.user.audit, command), WithFailed(InTx(w), command))
    case Crash(p) => w.(procs := w.procs - {p}, tx := if w.tx.Some? && w.tx.value.owner == p then None else w.tx)
    case LinkAccount(account) =>
      w.(user := w.user.(accounts := w.user.accounts + [account]),
         tx := if w.tx.Some? then
                 Some(w.tx.value.(working := w.tx.value.working.(accounts := w.tx.value.working.accounts + [account])))
               else None)
    case SignIn(session) =>
      w.(user := w.user.(sessions := w.user.sessions + {session}), seen := w.seen + {session},
         tx := if w.tx.Some? then
                 Some(w.tx.value.(working := w.tx.value.working.(sessions := w.tx.value.working.sessions + {session})))
               else None)
  }

  ghost predicate ValidRun(w: World, steps: seq<Step>)
    decreases |steps|
  {
    steps == [] || (Enabled(w, steps[0]) && ValidRun(Apply(w, steps[0]), steps[1..]))
  }

  ghost function Run(w: World, steps: seq<Step>): World
    requires ValidRun(w, steps)
    decreases |steps|
  {
    if steps == [] then w else Run(Apply(w, steps[0]), steps[1..])
  }

  // ----- The audit -----

  /** A command was started before it ended, and ended in one way only. */
  predicate AuditOk(audit: Audit) {
    audit.succeeded <= audit.started && audit.failed <= audit.started && audit.succeeded !! audit.failed
  }

  predicate Unfinished(audit: Audit, c: nat) {
    c in audit.started && c !in audit.succeeded && c !in audit.failed
  }

  /** A change is committed exactly with its `succeeded` event, and a command still being worked
      on belongs to one request and has no terminal event. */
  ghost predicate AuditInv(w: World) {
    && AuditOk(w.user.audit)
    && w.user.changed == w.user.audit.succeeded
    && (forall p | p in w.procs :: Commanding(w.procs[p]) ==> Unfinished(w.user.audit, w.procs[p].job.command))
    && (forall p, q | p in w.procs && q in w.procs && Commanding(w.procs[p]) && Commanding(w.procs[q]) ::
          w.procs[p].job.command == w.procs[q].job.command ==> p == q)
  }

  /** What the open transaction has done so far, statement by statement. */
  ghost predicate TxAudit(w: World) {
    w.tx.Some? ==>
      var t := w.tx.value;
      && t.owner in w.procs && InTransaction(w.procs[t.owner])
      && var at := w.procs[t.owner];
         && t.working.audit == (if at.Recorded? then WithSucceeded(w.user.audit, at.job.command) else w.user.audit)
         && t.working.changed == w.user.changed + (if at.Locked? then {} else {at.job.command})
  }

  /** Nobody is inside a transaction but its owner. */
  ghost predicate OneTx(w: World) {
    forall p | p in w.procs && InTransaction(w.procs[p]) :: w.tx.Some? && w.tx.value.owner == p
  }

  predicate JobOk(kind: Kind, s: Settings) { s.Valid() && (kind.Disconnect? ==> kind.provider in s.known) }

  ghost predicate JobsOk(w: World) {
    forall p | p in w.procs ::
      if Commanding(w.procs[p]) then JobOk(w.procs[p].job.kind, w.procs[p].job.settings)
      else JobOk(w.procs[p].kind, w.procs[p].settings)
  }

  ghost predicate Inv(w: World) { AuditInv(w) && TxAudit(w) && OneTx(w) && JobsOk(w) }

  lemma BeginKeepsInv(w: World, p: nat, command: nat)
    requires Inv(w) && Enabled(w, Begin(p, command))
    ensures Inv(Apply(w, Begin(p, command)))
  {}

  lemma LockKeepsInv(w: World, p: nat)
    requires Inv(w) && Enabled(w, LockAndCheck(p))
    ensures Inv(Apply(w, LockAndCheck(p)))
  {}

  /** A statement of the owner of the transaction. */
  lemma StatementKeepsInv(w: World, step: Step)
    requires Inv(w) && Enabled(w, step) && (step.DeleteAccounts? || step.DeleteSessions? || step.WriteSucceeded?)
    ensures Inv(Apply(w, step))
  {}

  /** The commit makes the change and its `succeeded` event visible together. */
  lemma CommitKeepsInv(w: World, p: nat)
    requires Inv(w) && Enabled(w, CommitTx(p))
    ensures Inv(Apply(w, CommitTx(p)))
  {
    assert Unfinished(w.user.audit, w.procs[p].job.command);
  }

  lemma FailureKeepsInv(w: World, p: nat, fails: bool)
    requires Inv(w) && Enabled(w, RecordFailure(p, fails))
    ensures Inv(Apply(w, RecordFailure(p, fails)))
  {
    assert Unfinished(w.user.audit, w.procs[p].job.command);
  }

  /** A request that stops leaves nothing of its transaction. */
  lemma GivingUpKeepsInv(w: World, step: Step)
    requires Inv(w) && Enabled(w, step) && (step.Abort? || step.Crash? || step.LockFails?)
    ensures Inv(Apply(w, step))
  {}

  lemma OutsideKeepsInv(w: World, step: Step)
    requires Inv(w) && Enabled(w, step) && (step.LinkAccount? || step.SignIn?)
    ensures Inv(Apply(w, step))
  {}

  lemma StepKeepsInv(w: World, step: Step)
    requires Inv(w) && Enabled(w, step)
    ensures Inv(Apply(w, step))
  {
    match step
    case Begin(p, command) => BeginKeepsInv(w, p, command);
    case LockAndCheck(p) => LockKeepsInv(w, p);
    case DeleteAccounts(p) => StatementKeepsInv(w, step);
    case DeleteSessions(p) => StatementKeepsInv(w, step);
    case WriteSucceeded(p) => StatementKeepsInv(w, step);
    case CommitTx(p) => CommitKeepsInv(w, p);
    case RecordFailure(p, fails) => FailureKeepsInv(w, p, fails);
    case Abort(p) => GivingUpKeepsInv(w, step);
    case Crash(p) => GivingUpKeepsInv(w, step);
    case LockFails(p) => GivingUpKeepsInv(w, step);
    case LinkAccount(account) => OutsideKeepsInv(w, step);
    case SignIn(session) => OutsideKeepsInv(w, step);
    case _ =>
  }

  // ----- The methods -----

  lemma {:induction false} HasMethodGrows(accounts: seq<Account>, a: Account, s: Settings)
    requires HasMethod(accounts, s)
    ensures HasMethod(accounts + [a], s)
  {
    var i :| 0 <= i < |accounts| && Usable(accounts[i], s);
    assert (accounts + [a])[i] == accounts[i];
  }

  lemma AllowedGrows(accounts: seq<Account>, a: Account, kind: Kind, s: Settings)
    requires Allowed(accounts, kind, s)
    ensures Allowed(accounts + [a], kind, s)
  {
    var i :| 0 <= i < |accounts| && Remains(accounts[i], kind, s);
    assert (accounts + [a])[i] == accounts[i];
    if kind.Disconnect? {
      var j :| 0 <= j < |accounts| && accounts[j].provider == kind.provider;
      assert (accounts + [a])[j] == accounts[j];
    }
  }

  /** From the locked check on, what a commit would leave has a usable method; and the sessions it
      ended stay ended. */
  ghost predicate TxLeaves(w: World) {
    w.tx.Some? && w.tx.value.owner in w.procs && InTransaction(w.procs[w.tx.value.owner]) ==>
      var t, at := w.tx.value, w.procs[w.tx.value.owner];
      && (at.Locked? ==> Allowed(t.working.accounts, at.job.kind, at.job.settings))
      && (!at.Locked? ==> HasMethod(t.working.accounts, at.job.settings))
      && t.working.sessions !! t.gone && t.gone <= w.seen && t.working.sessions <= w.seen
  }

  lemma LinkKeepsLeaves(w: World, a: Account)
    requires TxLeaves(w)
    ensures TxLeaves(Apply(w, LinkAccount(a)))
  {
    if w.tx.Some? && w.tx.value.owner in w.procs && InTransaction(w.procs[w.tx.value.owner]) {
      var t, at := w.tx.value, w.procs[w.tx.value.owner];
      if at.Locked? {
        AllowedGrows(t.working.accounts, a, at.job.kind, at.job.settings);
      } else {
        HasMethodGrows(t.working.accounts, a, at.job.settings);
      }
    }
  }

  lemma StepKeepsLeaves(w: World, step: Step)
    requires Inv(w) && TxLeaves(w) && w.user.sessions <= w.seen && Enabled(w, step)
    ensures TxLeaves(Apply(w, step)) && Apply(w, step).user.sessions <= Apply(w, step).seen
  {
    match step
    case LinkAccount(a) => LinkKeepsLeaves(w, a);
    case DeleteAccounts(p) =>
      AllowedLeavesMethod(w.tx.value.working.accounts, w.procs[p].job.kind, w.procs[p].job.settings);
    case _ =>
  }

  /** Whatever a request saw in its preflight, the commit of its transaction leaves a method that
      is usable under the settings it was decided with, and none of the sessions it ended. */
  lemma CommitLeavesMethod(w: World, p: nat)
    requires Inv(w) && TxLeaves(w) && Enabled(w, CommitTx(p))
    ensures HasMethod(Apply(w, CommitTx(p)).user.accounts, w.procs[p].job.settings)
    ensures Apply(w, CommitTx(p)).user.sessions !! w.tx.value.gone
  {}

  // ----- The sessions -----

  /** The sessions that these steps open. */
  function SignIns(steps: seq<Step>): set<nat> {
    if steps == [] then {} else (if steps[0].SignIn? then {steps[0].session} else {}) + SignIns(steps[1..])
  }

  lemma {:induction false} SignInsHolds(steps: seq<Step>, session: nat)
    ensures session in SignIns(steps) <==> SignIn(session) in steps
  {
    if steps != [] {
      SignInsHolds(steps[1..], session);
      assert steps == [steps[0]] + steps[1..];
    }
  }

  lemma {:induction false} NoSignIns(steps: seq<Step>)
    ensures SignIns(steps) == {} <==> forall i | 0 <= i < |steps| :: !steps[i].SignIn?
  {
    if steps != [] {
      NoSignIns(steps[1..]);
      assert forall i | 1 <= i < |steps| :: steps[i] == steps[1..][i - 1];
    }
  }

  /** The transaction of `p` is neither ended nor given up in these steps. */
  predicate StaysOpen(steps: seq<Step>, p: nat) {
    Crash(p) !in steps && Abort(p) !in steps && CommitTx(p) !in steps
  }

  /** `p` has ended the sessions in its transaction, and not committed yet. */
  predicate PastSignOut(w: World, p: nat) {
    && p in w.procs && (w.procs[p].SignedOut? || w.procs[p].Recorded?)
    && w.tx.Some? && w.tx.value.owner == p
  }

  /** In an open transaction past its sign-out only a sign-in changes the sessions. */
  lemma StepAddsSignIns(w: World, step: Step, p: nat)
    requires Inv(w) && PastSignOut(w, p) && Enabled(w, step) && StaysOpen([step], p)
    ensures PastSignOut(Apply(w, step), p)
    ensures Apply(w, step).tx.value.working.sessions == w.tx.value.working.sessions + if step.SignIn? then {step.session} else {}
  {
    assert step in [step];
  }

  lemma {:induction false} RunAddsSignIns(w: World, steps: seq<Step>, p: nat)
    requires Inv(w) && PastSignOut(w, p) && ValidRun(w, steps) && StaysOpen(steps, p)
    ensures PastSignOut(Run(w, steps), p)
    ensures Run(w, steps).tx.value.working.sessions == w.tx.value.working.sessions + SignIns(steps)
    decreases |steps|
  {
    if steps != [] {
      assert steps[0] in steps;
      StepKeepsInv(w, steps[0]);
      StepAddsSignIns(w, steps[0], p);
      RunAddsSignIns(Apply(w, steps[0]), steps[1..], p);
    }
  }

  /** Whatever happens between the delete of the sessions and the commit, the commit leaves exactly
      the sessions that were opened in between; so none is left exactly when nobody signed in. */
  lemma CommitLeavesExactlySignIns(w: World, p: nat, steps: seq<Step>)
    requires Inv(w) && Enabled(w, DeleteSessions(p))
    requires ValidRun(Apply(w, DeleteSessions(p)), steps) && StaysOpen(steps, p)
    requires Enabled(Run(Apply(w, DeleteSessions(p)), steps), CommitTx(p))
    ensures var left := Apply(Run(Apply(w, DeleteSessions(p)), steps), CommitTx(p)).user.sessions;
            left == SignIns(steps) && (left == {} <==> forall i | 0 <= i < |steps| :: !steps[i].SignIn?)
  {
    var out := SignedOutWorld(w, p);
    EndsWithSignIns(out, steps, p, Run(out, steps));
    NoSignIns(steps);
  }

  lemma EndsWithSignIns(out: World, steps: seq<Step>, p: nat, end: World)
    requires Inv(out) && PastSignOut(out, p) && out.tx.value.working.sessions == {}
    requires ValidRun(out, steps) && StaysOpen(steps, p) && end == Run(out, steps) && Enabled(end, CommitTx(p))
    ensures Apply(end, CommitTx(p)).user.sessions == SignIns(steps)
  {
    RunAddsSignIns(out, steps, p);
    assert {} + SignIns(steps) == SignIns(steps);
    CommitTakesWorking(end, p);
  }

  lemma SignedOutWorld(w: World, p: nat) returns (out: World)
    requires Inv(w) && Enabled(w, DeleteSessions(p))
    ensures out == Apply(w, DeleteSessions(p)) && Inv(out) && PastSignOut(out, p) && out.tx.value.working.sessions == {}
  {
    out := Apply(w, DeleteSessions(p));
    StepKeepsInv(w, DeleteSessions(p));
  }

  lemma CommitTakesWorking(w: World, p: nat)
    requires Enabled(w, CommitTx(p))
    ensures Apply(w, CommitTx(p)).user == w.tx.value.working
  {}

  /** In particular every sign-in in between survives. */
  lemma LateSignInSurvives(w: World, p: nat, steps: seq<Step>, session: nat)
    requires Inv(w) && Enabled(w, DeleteSessions(p))
    requires ValidRun(Apply(w, DeleteSessions(p)), steps) && StaysOpen(steps, p)
    requires Enabled(Run(Apply(w, DeleteSessions(p)), steps), CommitTx(p)) && SignIn(session) in steps
    ensures session in Apply(Run(Apply(w, DeleteSessions(p)), steps), CommitTx(p)).user.sessions
  {
    CommitLeavesExactlySignIns(w, p, steps);
    SignInsHolds(steps, session);
  }

  /** Undisturbed, the statements amount to the transaction as a whole. */
  lemma StatementsAmountToCommit(w: World, p: nat)
    requires p in w.procs && w.procs[p].Begun? && w.tx == None
    requires var job := w.procs[p].job;
             Allowed(w.user.accounts, job.kind, job.settings) && job.command !in w.user.audit.succeeded
    ensures var steps := [LockAndCheck(p), DeleteAccounts(p), DeleteSessions(p), WriteSucceeded(p), CommitTx(p)];
            && ValidRun(w, steps)
            && Run(w, steps).user == Commit(w.user, w.procs[p].job.kind, w.procs[p].job.command)
  {
    var steps := [LockAndCheck(p), DeleteAccounts(p), DeleteSessions(p), WriteSucceeded(p), CommitTx(p)];
    var w1 := Apply(w, steps[0]);
    var w2 := Apply(w1, steps[1]);
    var w3 := Apply(w2, steps[2]);
    var w4 := Apply(w3, steps[3]);
    var w5 := Apply(w4, steps[4]);
    RunUnrolls(w4, steps[4..], w5);
    RunUnrolls(w3, steps[3..], w5);
    RunUnrolls(w2, steps[2..], w5);
    RunUnrolls(w1, steps[1..], w5);
    RunUnrolls(w, steps, w5);
  }

  lemma RunUnrolls(w: World, steps: seq<Step>, end: World)
    requires steps != [] && Enabled(w, steps[0])
    requires ValidRun(Apply(w, steps[0]), steps[1..]) && Run(Apply(w, steps[0]), steps[1..]) == end
    ensures ValidRun(w, steps) && Run(w, steps) == end
  {}

  ghost predicate SameSettings(steps: seq<Step>, s: Settings) {
    forall i | 0 <= i < |steps| && steps[i].Call? :: steps[i].settings == s
  }

  ghost predicate Decides(w: World, s: Settings) {
    forall p | p in w.procs :: if Commanding(w.procs[p]) then w.procs[p].job.settings == s else w.procs[p].settings == s
  }

  lemma StepKeepsMethod(w: World, step: Step, s: Settings)
    requires Inv(w) && TxLeaves(w) && HasMethod(w.user.accounts, s) && Decides(w, s) && Enabled(w, step)
    requires step.Call? ==> step.settings == s
    ensures HasMethod(Apply(w, step).user.accounts, s) && Decides(Apply(w, step), s)
  {
    match step
    case CommitTx(p) => CommitLeavesMethod(w, p);
    case LinkAccount(a) => HasMethodGrows(w.user.accounts, a, s);
    case _ =>
  }

  /** In every interleaving decided under one set of settings, with crashes between any two
      statements, a user who has a usable method always keeps one, and changes are committed
      exactly with their `succeeded` events. */
  lemma {:induction false} UserAlwaysKeepsMethod(w: World, steps: seq<Step>, s: Settings)
    requires Inv(w) && TxLeaves(w) && w.user.sessions <= w.seen
    requires HasMethod(w.user.accounts, s) && Decides(w, s)
    requires ValidRun(w, steps) && SameSettings(steps, s)
    ensures HasMethod(Run(w, steps).user.accounts, s)
    ensures Inv(Run(w, steps))
    decreases |steps|
  {
    if steps != [] {
      StepKeepsInv(w, steps[0]);
      StepKeepsLeaves(w, steps[0]);
      StepKeepsMethod(w, steps[0], s);
      UserAlwaysKeepsMethod(Apply(w, steps[0]), steps[1..], s);
    }
  }

  // ----- Failed commands -----

  /** A request that was rolled back writes its `failed` event, unless that write fails as well; and
      it changes nothing else of the user. */
  lemma RolledBackIsRecorded(w: World, p: nat, fails: bool)
    requires Inv(w) && Enabled(w, RecordFailure(p, fails))
    ensures var w' := Apply(w, RecordFailure(p, fails)); var c := w.procs[p].job.command;
            && (c in w'.user.audit.failed <==> !fails) && c !in w'.user.audit.succeeded
            && w'.user.accounts == w.user.accounts && w'.user.sessions == w.user.sessions && w'.user.changed == w.user.changed
            && w'.user.audit == (if fails then w.user.audit else w.user.audit.(failed := w.user.audit.failed + {c}))
  {
    assert Unfinished(w.user.audit, w.procs[p].job.command);
  }

  /** Whoever gives up in a transaction leaves the user as it was. */
  lemma AbortLeavesNoTrace(w: World, p: nat)
    requires Enabled(w, Abort(p))
    ensures Apply(w, Abort(p)).user == w.user && Apply(w, Abort(p)).procs[p] == RolledBack(w.procs[p].job)
  {}

  // ----- From the beginning -----

  /** A user with accounts and sessions, and no request under way. */
  function Fresh(accounts: seq<Account>, sessions: set<nat>): World {
    World(User(accounts, sessions, Audit({}, {}, {}), {}), None, map[], sessions)
  }

  lemma {:induction false} RunKeepsInv(w: World, steps: seq<Step>)
    requires Inv(w) && TxLeaves(w) && w.user.sessions <= w.seen && ValidRun(w, steps)
    ensures Inv(Run(w, steps)) && TxLeaves(Run(w, steps))
    decreases |steps|
  {
    if steps != [] {
      StepKeepsInv(w, steps[0]);
      StepKeepsLeaves(w, steps[0]);
      RunKeepsInv(Apply(w, steps[0]), steps[1..]);
    }
  }

  /** In every run, each request under settings of its own: a change is committed exactly with its
      `succeeded` event, and whoever can commit leaves a method that is usable under the settings
      of that very request, and none of the sessions it ended. */
  lemma EveryCommitLeavesMethod(accounts: seq<Account>, sessions: set<nat>, steps: seq<Step>)
    requires ValidRun(Fresh(accounts, sessions), steps)
    ensures var w := Run(Fresh(accounts, sessions), steps);
            && AuditOk(w.user.audit) && w.user.changed == w.user.audit.succeeded
            && forall p | Enabled(w, CommitTx(p)) ::
                 && HasMethod(Apply(w, CommitTx(p)).user.accounts, w.procs[p].job.settings)
                 && Apply(w, CommitTx(p)).user.sessions !! w.tx.value.gone
  {
    RunKeepsInv(Fresh(accounts, sessions), steps);
    var w := Run(Fresh(accounts, sessions), steps);
    forall p | Enabled(w, CommitTx(p))
      ensures HasMethod(Apply(w, CommitTx(p)).user.accounts, w.procs[p].job.settings)
      ensures Apply(w, CommitTx(p)).user.sessions !! w.tx.value.gone
    {
      CommitLeavesMethod(w, p);
    }
  }

  /** And if all of them are decided under one set of settings, a user who starts with a usable
      method never is without one. */
  lemma NeverWithoutMethod(accounts: seq<Account>, sessions: set<nat>, steps: seq<Step>, s: Settings)
    requires HasMethod(accounts, s) && ValidRun(Fresh(accounts, sessions), steps) && SameSettings(steps, s)
    ensures HasMethod(Run(Fresh(accounts, sessions), steps).user.accounts, s)
  {
    UserAlwaysKeepsMethod(Fresh(accounts, sessions), steps, s);
  }

  /** What either route counts as remaining is what would be usable after its delete. */
  lemma RemainsIsUsableAfter(a: Account, kind: Kind, s: Settings)
    requires JobOk(kind, s)
    ensures Remains(a, kind, s) <==> Usable(a, s) && a.provider != Removed(kind)
  {}

  /** When a request is allowed: a connector must be linked, and some other usable method must stay. */
  lemma AllowedIff(accounts: seq<Account>, kind: Kind, s: Settings)
    requires JobOk(kind, s)
    ensures Allowed(accounts, kind, s) <==>
            && (kind.Disconnect? ==> exists a | a in accounts :: a.provider == kind.provider)
            && (exists a | a in accounts :: Usable(a, s) && a.provider != (if kind.Disconnect? then kind.provider else "credential"))
  {
    forall a ensures Remains(a, kind, s) <==> Usable(a, s) && a.provider != (if kind.Disconnect? then kind.provider else "credential") {
      RemainsIsUsableAfter(a, kind, s);
    }
    if SomeRemain(accounts, kind, s) {
      var i :| 0 <= i < |accounts| && Remains(accounts[i], kind, s);
      assert accounts[i] in accounts;
    }
    if kind.Disconnect? && Linked(accounts, kind.provider) {
      var i :| 0 <= i < |accounts| && accounts[i].provider == kind.provider;
      assert accounts[i] in accounts;
    }
  }

  lemma LinkedElsewhere(accounts: seq<Account>, removed: string, provider: string)
    requires removed != provider
    ensures Linked(Without(accounts, removed), provider) <==> Linked(accounts, provider)
  {
    if Linked(accounts, provider) {
      var i :| 0 <= i < |accounts| && accounts[i].provider == provider;
      WithoutKeepsOthers(accounts, removed, accounts[i]);
    }
    var rest := Without(accounts, removed);
    if Linked(rest, provider) {
      var i :| 0 <= i < |rest| && rest[i].provider == provider;
      WithoutKeepsOthers(accounts, removed, rest[i]);
    }
  }

  /** Of two requests for different methods that both passed their preflight, the second is refused
      by its own re-check after the first has committed exactly when every usable method is one of
      the two being removed. */
  lemma SecondRefusedExactlyWhen(accounts: seq<Account>, first: Kind, second: Kind, s: Settings)
    requires JobOk(first, s) && JobOk(second, s) && Removed(first) != Removed(second)
    requires Allowed(accounts, first, s) && Allowed(accounts, second, s)
    ensures !Allowed(Without(accounts, Removed(first)), second, s) <==>
            forall a | a in accounts && Usable(a, s) :: a.provider == Removed(first) || a.provider == Removed(second)
  {
    var rest := Without(accounts, Removed(first));
    if second.Disconnect? { LinkedElsewhere(accounts, Removed(first), second.provider); }
    if SomeRemain(rest, second, s) {
      var i :| 0 <= i < |rest| && Remains(rest[i], second, s);
      RemainsIsUsableAfter(rest[i], second, s);
      WithoutKeepsOthers(accounts, Removed(first), rest[i]);
    }
    forall a | a in accounts && Usable(a, s) && a.provider != Removed(first) && a.provider != Removed(second)
      ensures SomeRemain(rest, second, s)
    {
      WithoutKeepsOthers(accounts, Removed(first), a);
      var i :| 0 <= i < |rest| && rest[i] == a;
      RemainsIsUsableAfter(rest[i], second, s);
    }
  }

  /** The preflight alone would not do: two requests may both pass it on the same rows, and then
      the second one must be refused by its own locked re-check. */
  lemma PreflightsCanBothPass(s: Settings)
    requires s.Valid() && "google" in s.known && "google" in s.configured
    ensures var accounts := [Account("google", false), Account(CREDENTIAL, true)];
            && Allowed(accounts, Disconnect("google"), s) && Allowed(accounts, DisablePassword, s)
            && !Allowed(Without(accounts, "google"), DisablePassword, s)
            && !Allowed(Without(accounts, CREDENTIAL), Disconnect("google"), s)
  {
    var accounts := [Account("google", false), Account(CREDENTIAL, true)];
    assert Remains(accounts[1], Disconnect("google"), s) && Remains(accounts[0], DisablePassword, s);
    assert accounts[0].provider == "google";
    assert "google" != CREDENTIAL by { assert |"google"| != |CREDENTIAL|; }
    WithoutOfTwo(accounts[0], accounts[1], "google");
    WithoutOfTwo(accounts[0], accounts[1], CREDENTIAL);
  }

  lemma WithoutOfTwo(a: Account, b: Account, provider: string)
    ensures Without([a, b], provider) ==
            (if a.provider == provider then [] else [a]) + (if b.provider == provider then [] else [b])
  {
    assert [a, b][1..] == [b] && [b][1..] == [];
    assert Without([b], provider) == (if b.provider == provider then [] else [b]) + Without([], provider);
  }
}
