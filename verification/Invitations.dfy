/** Command-bound invitations (src/lib/invitations.ts, database/admin-schema.sql,
    database/invitation-provision-command.sql): any number of gateway processes interleave,
    each may crash between any two steps, and a transaction commits or leaves no trace. */
module Invitations {
  import opened Options

  const INVITATION_LIFETIME_MS := 7 * 24 * 60 * 60 * 1_000

  datatype Status = Pending | ProviderAccepted | Failed

  datatype Row = Row(
    email: string, tokenHash: nat, invitedBy: nat, expiresAt: int, command: Option<nat>,
    status: Status, accepted: bool, revoked: bool)

  type Rows = map<nat, Row>

  /** A call of `createInvitation`; the email is trimmed, lower-cased and valid. */
  datatype Request = Request(email: string, actor: nat, command: Option<nat>)

  datatype Reply =
    | Created(id: nat, expiresAt: int)
    | DeliveryFailed | DeliveryUnknown | ExistingAccount | SourceConflict | DatabaseError

  datatype Outcome = Accepted | Refused | Unknown

  predicate Live(row: Row) { !row.accepted && !row.revoked }

  // ----- The statements on the table -----

  predicate HasCommand(rows: Rows, command: nat) {
    exists id | id in rows :: rows[id].command == Some(command)
  }

  function RevokeLive(rows: Rows, email: string): (r: Rows)
    ensures r.Keys == rows.Keys
  {
    map id | id in rows :: if rows[id].email == email && Live(rows[id]) then rows[id].(revoked := true) else rows[id]
  }

  function NewRow(req: Request, tokenHash: nat, now: int): Row {
    Row(req.email, tokenHash, req.actor, now + INVITATION_LIFETIME_MS, req.command, Pending, false, false)
  }

  /** The transaction of `deliverInvitation`. */
  function InsertPending(rows: Rows, req: Request, id: nat, tokenHash: nat, now: int): Rows {
    RevokeLive(rows, req.email)[id := NewRow(req, tokenHash, now)]
  }

  /** Neither the primary key nor a unique index, on the token or on the command, is violated. */
  predicate Insertable(rows: Rows, req: Request, id: nat, tokenHash: nat) {
    id !in rows && !HasToken(rows, tokenHash) && (req.command.Some? ==> !HasCommand(rows, req.command.value))
  }

  predicate HasToken(rows: Rows, tokenHash: nat) { exists id | id in rows :: rows[id].tokenHash == tokenHash }

  /** The transaction of `recordInvitationDelivery`. */
  function RecordDelivery(rows: Rows, id: nat, status: Status): Rows
    requires id in rows
  {
    rows[id := rows[id].(status := status, revoked := rows[id].revoked || status == Failed)]
  }

  predicate Acceptable(rows: Rows, id: nat, now: int) {
    id in rows && Live(rows[id]) && rows[id].expiresAt > now
  }

  /** The transaction of `acceptInvitation`. */
  function Accept(rows: Rows, id: nat): Rows
    requires id in rows
  {
    rows[id := rows[id].(accepted := true)]
  }

  /** `replayInvitation`. */
  function Replay(id: nat, row: Row, req: Request): Reply {
    if row.email != req.email || row.invitedBy != req.actor then SourceConflict
    else if row.revoked || row.status == Failed then DeliveryFailed
    else if row.status != ProviderAccepted then DeliveryUnknown
    else Created(id, row.expiresAt)
  }

  /** Apart from the new row: live rows of this email are revoked and nothing else of them changes,
      and every other row is as it was. */
  ghost predicate Superseded(rows: Rows, rows': Rows, email: string, id: nat) {
    && rows'.Keys == rows.Keys + {id}
    && forall k | k in rows && k != id ::
         if rows[k].email == email && !rows[k].accepted && !rows[k].revoked
         then rows'[k] == rows[k].(revoked := true)
         else rows'[k] == rows[k]
  }

  lemma InsertSupersedes(rows: Rows, req: Request, id: nat, tokenHash: nat, now: int)
    ensures Superseded(rows, InsertPending(rows, req, id, tokenHash, now), req.email, id)
  {}

  /** The table as the statements change it, one at a time inside a transaction. */
  class InvitationTable {
    var rows: Rows

    constructor ()
      ensures rows == map[]
    {
      rows := map[];
    }

    method CreatePending(req: Request, id: nat, tokenHash: nat, now: int) returns (committed: bool)
      modifies this
      ensures committed <==> Insertable(old(rows), req, id, tokenHash)
      ensures committed <==>
                && id !in old(rows) && (forall k | k in old(rows) :: old(rows)[k].tokenHash != tokenHash)
                && (req.command.Some? ==> forall k | k in old(rows) :: old(rows)[k].command != req.command)
      ensures rows == if committed then InsertPending(old(rows), req, id, tokenHash, now) else old(rows)
      ensures committed ==> Superseded(old(rows), rows, req.email, id)
      ensures committed ==>
                rows[id] == Row(req.email, tokenHash, req.actor, now + 604_800_000, req.command, Pending, false, false)
    {
      var before := rows;
      rows := RevokeLive(rows, req.email);
      assert forall k | k in rows :: rows[k].command == before[k].command && rows[k].tokenHash == before[k].tokenHash;
      if id in rows || HasToken(rows, tokenHash) || (req.command.Some? && HasCommand(rows, req.command.value)) {
        rows := before;
        return false;
      }
      rows := rows[id := NewRow(req, tokenHash, now)];
      InsertSupersedes(before, req, id, tokenHash, now);
      committed := true;
    }

    method RecordOutcome(id: nat, delivered: bool) returns (committed: bool)
      modifies this
      ensures committed <==> id in old(rows) && old(rows)[id].status == Pending
      ensures rows == if committed then RecordDelivery(old(rows), id, if delivered then ProviderAccepted else Failed)
                      else old(rows)
      ensures committed ==>
                rows == old(rows)[id := if delivered then old(rows)[id].(status := ProviderAccepted)
                                        else old(rows)[id].(status := Failed, revoked := true)]
    {
      if id !in rows || rows[id].status != Pending { return false; }
      var row := rows[id].(status := if delivered then ProviderAccepted else Failed);
      if !delivered { row := row.(revoked := true); }
      rows := rows[id := row];
      committed := true;
    }

    method AcceptRow(id: nat, now: int) returns (committed: bool)
      modifies this
      ensures committed <==> id in old(rows) && !old(rows)[id].accepted && !old(rows)[id].revoked && now < old(rows)[id].expiresAt
      ensures committed <==> Acceptable(old(rows), id, now)
      ensures rows == if committed then Accept(old(rows), id) else old(rows)
      ensures committed ==> rows == old(rows)[id := old(rows)[id].(accepted := true)]
    {
      if id !in rows || rows[id].accepted || rows[id].revoked || rows[id].expiresAt <= now { return false; }
      rows := rows[id := rows[id].(accepted := true)];
      committed := true;
    }
  }

  // ----- Processes -----

  /** Where a process stands: the name says what it has just completed. */
  datatype Phase =
    | Waiting(req: Request)
    | Locked(req: Request)
    | NoPrior(req: Request)
    | NoAccount(req: Request)
    | Inserted(req: Request, id: nat)
    | Sent(req: Request, id: nat, outcome: Outcome)
    | Done(req: Request, reply: Reply)
    | Released(req: Request, reply: Reply)
    | Accepting(id: nat, tokenHash: nat, email: string)

  /** What the outside world can observe, in order. */
  datatype Entry =
    | MailSent(id: nat, command: Option<nat>, outcome: Outcome)
    | Replied(req: Request, reply: Reply)
    | AcceptedOnce(id: nat, tokenHash: nat, email: string, at: int)

  datatype World = World(
    rows: Rows, users: set<string>, clock: int, locks: map<nat, nat>, procs: map<nat, Phase>, log: seq<Entry>)

  const Start := World(map[], {}, 0, map[], map[], [])

  datatype Step =
    | Call(p: nat, req: Request)
    | Acquire(p: nat)
    | ReadPrior(p: nat, prior: Option<nat>)
    | CheckAccount(p: nat)
    | Insert(p: nat, id: nat, tokenHash: nat)
    | InsertFails(p: nat)
    | Send(p: nat, outcome: Outcome)
    | SendNotReached(p: nat)
    | Record(p: nat, commits: bool)
    | Release(p: nat)
    | Answer(p: nat)
    | Crash(p: nat)
    | LoseLock(p: nat)
    | OpenInvitation(p: nat, id: nat, tokenHash: nat, email: string)
    | AcceptUpdate(p: nat)
    | SignUp(email: string)
    | Tick(now: int)

  predicate At(w: World, p: nat) { p in w.procs }

  predicate Enabled(w: World, step: Step) {
    match step
    case Call(p, req) => p !in w.procs
    case Acquire(p) => At(w, p) && w.procs[p].Waiting? && (w.procs[p].req.command.Some? ==> w.procs[p].req.command.value !in w.locks)
    case ReadPrior(p, prior) => At(w, p) && w.procs[p].Locked? && IsPrior(w.rows, w.procs[p].req, prior)
    case CheckAccount(p) => At(w, p) && w.procs[p].NoPrior?
    case Insert(p, id, tokenHash) => At(w, p) && w.procs[p].NoAccount? && Insertable(w.rows, w.procs[p].req, id, tokenHash)
    case InsertFails(p) => At(w, p) && w.procs[p].NoAccount?
    case Send(p, outcome) => At(w, p) && w.procs[p].Inserted?
    case SendNotReached(p) => At(w, p) && w.procs[p].Inserted?
    case Record(p, commits) => At(w, p) && w.procs[p].Sent?
    case Release(p) => At(w, p) && w.procs[p].Done?
    case Answer(p) => At(w, p) && w.procs[p].Released?
    case Crash(p) => At(w, p)
    case LoseLock(p) => At(w, p)
    case OpenInvitation(p, id, tokenHash, email) =>
      && p !in w.procs && Acceptable(w.rows, id, w.clock)
      && w.rows[id].tokenHash == tokenHash && w.rows[id].email == email
    case AcceptUpdate(p) => At(w, p) && w.procs[p].Accepting?
    case SignUp(email) => true
    case Tick(now) => now >= w.clock
  }

  /** `prior` is what the lookup by command finds. */
  predicate IsPrior(rows: Rows, req: Request, prior: Option<nat>) {
    match prior
    case Some(id) => req.command.Some? && id in rows && rows[id].command == req.command
    case None => req.command.None? || !HasCommand(rows, req.command.value)
  }

  /** Release whatever `p` holds. */
  function Unlock(locks: map<nat, nat>, p: nat): map<nat, nat> {
    map c | c in locks && locks[c] != p :: locks[c]
  }

  function Move(w: World, p: nat, phase: Phase): World { w.(procs := w.procs[p := phase]) }

  function Apply(w: World, step: Step): World
    requires Enabled(w, step)
  {
    match step
    case Call(p, req) => Move(w, p, Waiting(req))
    case Acquire(p) =>
      var req := w.procs[p].req;
      Move(w.(locks := if req.command.Some? then w.locks[req.command.value := p] else w.locks), p, Locked(req))
    case ReadPrior(p, prior) =>
      var req := w.procs[p].req;
      Move(w, p, if prior.Some? then Done(req, Replay(prior.value, w.rows[prior.value], req)) else NoPrior(req))
    case CheckAccount(p) =>
      var req := w.procs[p].req;
      Move(w, p, if req.email in w.users then Done(req, ExistingAccount) else NoAccount(req))
    case Insert(p, id, tokenHash) =>
      var req := w.procs[p].req;
      Move(w.(rows := InsertPending(w.rows, req, id, tokenHash, w.clock)), p, Inserted(req, id))
    case InsertFails(p) => Move(w, p, Done(w.procs[p].req, DatabaseError))
    case Send(p, outcome) =>
      var Inserted(req, id) := w.procs[p];
      Move(w.(log := w.log + [MailSent(id, req.command, outcome)]), p, Sent(req, id, outcome))
    case SendNotReached(p) => Move(w, p, Sent(w.procs[p].req, w.procs[p].id, Refused))
    case Record(p, commits) =>
      var Sent(req, id, outcome) := w.procs[p];
      var recorded := commits && outcome != Unknown && id in w.rows && w.rows[id].status == Pending;
      var rows := if recorded then RecordDelivery(w.rows, id, if outcome == Accepted then ProviderAccepted else Failed)
                  else w.rows;
      var reply := if outcome == Refused then DeliveryFailed
                   else if recorded then Created(id, w.rows[id].expiresAt)
                   else DeliveryUnknown;
      Move(w.(rows := rows), p, Done(req, reply))
    case Release(p) =>
      Move(w.(locks := Unlock(w.locks, p)), p, Released(w.procs[p].req, w.procs[p].reply))
    case Answer(p) =>
      w.(procs := w.procs - {p}, log := w.log + [Replied(w.procs[p].req, w.procs[p].reply)])
    case Crash(p) => w.(locks := Unlock(w.locks, p), procs := w.procs - {p})
    case LoseLock(p) => w.(locks := Unlock(w.locks, p))
    case OpenInvitation(p, id, tokenHash, email) => Move(w, p, Accepting(id, tokenHash, email))
    case AcceptUpdate(p) =>
      var id := w.procs[p].id;
      if Acceptable(w.rows, id, w.clock)
      then w.(rows := Accept(w.rows, id), procs := w.procs - {p}, log := w.log + [AcceptedOnce(id, w.procs[p].tokenHash, w.procs[p].email, w.clock)])
      else w.(procs := w.procs - {p})
    case SignUp(email) => w.(users := w.users + {email})
    case Tick(now) => w.(clock := now)
  }

  predicate ValidRun(w: World, steps: seq<Step>)
    decreases |steps|
  {
    steps == [] || (Enabled(w, steps[0]) && ValidRun(Apply(w, steps[0]), steps[1..]))
  }

  function Run(w: World, steps: seq<Step>): World
    requires ValidRun(w, steps)
    decreases |steps|
  {
    if steps == [] then w else Run(Apply(w, steps[0]), steps[1..])
  }

  // ----- Invariants of the table -----

  /** One row per command, one live row per email, and a failed delivery is revoked. */
  ghost predicate TableOk(rows: Rows) {
    && (forall i, j | i in rows && j in rows && rows[i].command.Some? && rows[i].command == rows[j].command :: i == j)
    && (forall i, j | i in rows && j in rows && Live(rows[i]) && Live(rows[j]) && rows[i].email == rows[j].email :: i == j)
    && (forall i | i in rows :: rows[i].status == Failed ==> rows[i].revoked)
  }

  lemma InsertKeepsTable(rows: Rows, req: Request, id: nat, tokenHash: nat, now: int)
    requires TableOk(rows) && Insertable(rows, req, id, tokenHash)
    ensures TableOk(InsertPending(rows, req, id, tokenHash, now))
  {
    RevokeKeepsTable(rows, req.email);
    AddKeepsTable(RevokeLive(rows, req.email), id, NewRow(req, tokenHash, now));
  }

  lemma RevokeKeepsTable(rows: Rows, email: string)
    requires TableOk(rows)
    ensures TableOk(RevokeLive(rows, email))
    ensures forall i | i in rows :: !(RevokeLive(rows, email)[i].email == email && Live(RevokeLive(rows, email)[i]))
  {}

  lemma AddKeepsTable(rows: Rows, id: nat, row: Row)
    requires TableOk(rows) && id !in rows && row.status == Pending
    requires forall i | i in rows :: rows[i].command.Some? ==> rows[i].command != row.command
    requires forall i | i in rows :: !(rows[i].email == row.email && Live(rows[i]))
    ensures TableOk(rows[id := row])
  {}

  lemma RecordKeepsTable(rows: Rows, id: nat, status: Status)
    requires TableOk(rows) && id in rows
    ensures TableOk(RecordDelivery(rows, id, status))
  {}

  lemma AcceptKeepsTable(rows: Rows, id: nat)
    requires TableOk(rows) && id in rows
    ensures TableOk(Accept(rows, id))
  {}

  /** How a row may change: its identity never, its delivery status only away from pending,
      and acceptance and revocation are for good. */
  predicate Evolves(r: Row, r': Row) {
    && r'.email == r.email && r'.tokenHash == r.tokenHash && r'.invitedBy == r.invitedBy
    && r'.expiresAt == r.expiresAt && r'.command == r.command
    && (r.status != Pending ==> r'.status == r.status)
    && (r.accepted ==> r'.accepted) && (r.revoked ==> r'.revoked)
  }

  ghost predicate TableEvolves(rows: Rows, rows': Rows) {
    forall i | i in rows :: i in rows' && Evolves(rows[i], rows'[i])
  }

  lemma StepEvolves(w: World, step: Step)
    requires Enabled(w, step)
    ensures TableEvolves(w.rows, Apply(w, step).rows)
  {}

  /** In every run no row changes its identity, leaves a terminal delivery status, or comes back
      from acceptance or revocation. */
  lemma {:induction false} RunEvolves(w: World, steps: seq<Step>)
    requires ValidRun(w, steps)
    ensures TableEvolves(w.rows, Run(w, steps).rows)
    decreases |steps|
  {
    if steps != [] {
      StepEvolves(w, steps[0]);
      RunEvolves(Apply(w, steps[0]), steps[1..]);
    }
  }

  // ----- At most one send, with or without the lock -----

  /** Rows a process still has to send or to record. */
  predicate Owns(phase: Phase, id: nat) {
    (phase.Inserted? || phase.Sent?) && phase.id == id
  }

  /** The row a process works on is the pending row of its own request. */
  predicate WorksOn(rows: Rows, phase: Phase) {
    phase.Inserted? || phase.Sent? ==>
      && phase.id in rows && rows[phase.id].status == Pending
      && RowOf(rows[phase.id], phase.req)
  }

  predicate RowOf(row: Row, req: Request) {
    row.email == req.email && row.invitedBy == req.actor && row.command == req.command
  }

  /** A success that was, or is about to be, reported is backed by a delivered row. */
  predicate Backed(rows: Rows, req: Request, reply: Reply) {
    reply.Created? ==>
      && reply.id in rows && rows[reply.id].status == ProviderAccepted
      && rows[reply.id].expiresAt == reply.expiresAt && RowOf(rows[reply.id], req)
  }

  /** An unknown outcome is only ever reported for a command that has its row. */
  predicate Bound(rows: Rows, req: Request, reply: Reply) {
    reply.DeliveryUnknown? && req.command.Some? ==> HasCommand(rows, req.command.value)
  }

  /** The reply is decided, and not yet seen by the caller. */
  predicate Replying(phase: Phase) { phase.Done? || phase.Released? }

  ghost predicate ProcsOk(w: World) {
    && (forall p | p in w.procs :: WorksOn(w.rows, w.procs[p]))
    && (forall p, q, id | p in w.procs && q in w.procs && Owns(w.procs[p], id) && Owns(w.procs[q], id) :: p == q)
    && (forall p | p in w.procs && Replying(w.procs[p]) ::
          Backed(w.rows, w.procs[p].req, w.procs[p].reply) && Bound(w.rows, w.procs[p].req, w.procs[p].reply))
  }

  /** Mail went out for rows that exist and that no process still has to send; never twice. */
  ghost predicate LogOk(w: World) {
    && (forall i | 0 <= i < |w.log| && w.log[i].MailSent? ::
          && w.log[i].id in w.rows && w.rows[w.log[i].id].command == w.log[i].command
          && forall p | p in w.procs :: w.procs[p].Inserted? ==> w.procs[p].id != w.log[i].id)
    && (forall i, j | 0 <= i < j < |w.log| && w.log[i].MailSent? && w.log[j].MailSent? :: w.log[i].id != w.log[j].id)
    && (forall i | 0 <= i < |w.log| && w.log[i].Replied? ::
          Backed(w.rows, w.log[i].req, w.log[i].reply) && Bound(w.rows, w.log[i].req, w.log[i].reply))
    && (forall i | 0 <= i < |w.log| && w.log[i].AcceptedOnce? :: w.log[i].id in w.rows && w.rows[w.log[i].id].accepted)
    && (forall i, j | 0 <= i < j < |w.log| && w.log[i].AcceptedOnce? && w.log[j].AcceptedOnce? :: w.log[i].id != w.log[j].id)
  }

  ghost predicate Inv(w: World) { TableOk(w.rows) && ProcsOk(w) && LogOk(w) }

  /** Moving to a phase that owns no row. */
  lemma MoveKeepsInv(w: World, p: nat, phase: Phase)
    requires Inv(w) && !phase.Inserted? && !phase.Sent?
    requires Replying(phase) ==> Backed(w.rows, phase.req, phase.reply) && Bound(w.rows, phase.req, phase.reply)
    ensures Inv(Move(w, p, phase))
  {}

  lemma LeaveKeepsInv(w: World, p: nat)
    requires Inv(w)
    ensures Inv(w.(procs := w.procs - {p}))
  {}

  /** Facts about replies survive every change of the table. */
  lemma RepliesSurvive(rows: Rows, rows': Rows, req: Request, reply: Reply)
    requires TableEvolves(rows, rows')
    ensures Backed(rows, req, reply) ==> Backed(rows', req, reply)
    ensures Bound(rows, req, reply) ==> Bound(rows', req, reply)
  {
    if reply.DeliveryUnknown? && req.command.Some? && HasCommand(rows, req.command.value) {
      var id :| id in rows && rows[id].command == req.command;
      assert id in rows' && rows'[id].command == req.command;
    }
  }

  /** A change of the table that keeps the rows being worked on pending. */
  lemma TableChangeKeepsInv(w: World, rows': Rows)
    requires Inv(w) && TableOk(rows') && TableEvolves(w.rows, rows')
    requires forall p | p in w.procs && (w.procs[p].Inserted? || w.procs[p].Sent?) :: rows'[w.procs[p].id].status == Pending
    ensures Inv(w.(rows := rows'))
  {
    forall p | p in w.procs && Replying(w.procs[p])
      ensures Backed(rows', w.procs[p].req, w.procs[p].reply) && Bound(rows', w.procs[p].req, w.procs[p].reply)
    {
      RepliesSurvive(w.rows, rows', w.procs[p].req, w.procs[p].reply);
    }
    forall i | 0 <= i < |w.log| && w.log[i].Replied?
      ensures Backed(rows', w.log[i].req, w.log[i].reply) && Bound(rows', w.log[i].req, w.log[i].reply)
    {
      RepliesSurvive(w.rows, rows', w.log[i].req, w.log[i].reply);
    }
  }

  /** A process takes charge of a pending row that is nobody's and was never sent. */
  lemma TakeChargeKeepsInv(w: World, p: nat, req: Request, id: nat)
    requires Inv(w) && id in w.rows && w.rows[id].status == Pending && RowOf(w.rows[id], req)
    requires forall q | q in w.procs :: !Owns(w.procs[q], id)
    requires forall i | 0 <= i < |w.log| && w.log[i].MailSent? :: w.log[i].id != id
    ensures Inv(Move(w, p, Inserted(req, id)))
  {}

  lemma InsertKeepsInv(w: World, p: nat, id: nat, tokenHash: nat)
    requires Inv(w) && Enabled(w, Insert(p, id, tokenHash))
    ensures Inv(Apply(w, Insert(p, id, tokenHash)))
  {
    var req := w.procs[p].req;
    var rows' := InsertPending(w.rows, req, id, tokenHash, w.clock);
    assert forall q | q in w.procs :: WorksOn(w.rows, w.procs[q]) && !Owns(w.procs[q], id);
    assert Inv(w.(rows := rows')) by {
      InsertKeepsTable(w.rows, req, id, tokenHash, w.clock);
      StepEvolves(w, Insert(p, id, tokenHash));
      TableChangeKeepsInv(w, rows');
    }
    TakeChargeKeepsInv(w.(rows := rows'), p, req, id);
  }

  lemma SendKeepsInv(w: World, p: nat, outcome: Outcome)
    requires Inv(w) && Enabled(w, Send(p, outcome))
    ensures Inv(Apply(w, Send(p, outcome)))
  {
    var id := w.procs[p].id;
    assert Owns(w.procs[p], id);
    assert forall q | q in w.procs && q != p :: !Owns(w.procs[q], id);
    SendKeepsProcs(w, p, outcome);
    SendKeepsLog(w, p, outcome);
  }

  lemma SendKeepsProcs(w: World, p: nat, outcome: Outcome)
    requires ProcsOk(w) && Enabled(w, Send(p, outcome))
    ensures ProcsOk(Apply(w, Send(p, outcome)))
  {
    var w' := Apply(w, Send(p, outcome));
    assert forall q, id | q in w'.procs && Owns(w'.procs[q], id) :: q in w.procs && Owns(w.procs[q], id);
  }

  lemma SendKeepsLog(w: World, p: nat, outcome: Outcome)
    requires LogOk(w) && Enabled(w, Send(p, outcome)) && WorksOn(w.rows, w.procs[p])
    requires forall q | q in w.procs && q != p :: !Owns(w.procs[q], w.procs[p].id)
    ensures LogOk(Apply(w, Send(p, outcome)))
  {}

  /** Recording the outcome settles the row of the recording process and of nobody else. */
  lemma SettleKeepsInv(w: World, p: nat, id: nat, status: Status)
    requires Inv(w) && p in w.procs && Owns(w.procs[p], id) && status != Pending
    ensures Inv(w.(procs := w.procs - {p}, rows := RecordDelivery(w.rows, id, status)))
  {
    assert WorksOn(w.rows, w.procs[p]);
    var idle := w.(procs := w.procs - {p});
    LeaveKeepsInv(w, p);
    RecordKeepsTable(w.rows, id, status);
    assert forall q | q in idle.procs :: WorksOn(w.rows, idle.procs[q]) && !Owns(idle.procs[q], id);
    TableChangeKeepsInv(idle, RecordDelivery(w.rows, id, status));
  }

  lemma RecordKeepsInv(w: World, p: nat, commits: bool)
    requires Inv(w) && Enabled(w, Record(p, commits))
    ensures Inv(Apply(w, Record(p, commits)))
  {
    var w' := Apply(w, Record(p, commits));
    var settled := w.(procs := w.procs - {p}, rows := w'.rows);
    RecordSettles(w, p, commits);
    RecordedReply(w, p, commits);
    RecordIsMove(w, p, commits);
    MoveKeepsInv(settled, p, w'.procs[p]);
  }

  lemma RecordIsMove(w: World, p: nat, commits: bool)
    requires Enabled(w, Record(p, commits))
    ensures var w' := Apply(w, Record(p, commits));
            p in w'.procs && w'.procs[p].Done? && w' == Move(w.(procs := w.procs - {p}, rows := w'.rows), p, w'.procs[p])
  {
    var w' := Apply(w, Record(p, commits));
    assert w'.procs == (w.procs - {p})[p := w'.procs[p]];
  }

  lemma RecordSettles(w: World, p: nat, commits: bool)
    requires Inv(w) && Enabled(w, Record(p, commits))
    ensures Inv(w.(procs := w.procs - {p}, rows := Apply(w, Record(p, commits)).rows))
    ensures WorksOn(w.rows, w.procs[p])
  {
    var Sent(req, id, outcome) := w.procs[p];
    assert Owns(w.procs[p], id) && WorksOn(w.rows, w.procs[p]);
    if commits && outcome != Unknown {
      SettleKeepsInv(w, p, id, if outcome == Accepted then ProviderAccepted else Failed);
    } else {
      LeaveKeepsInv(w, p);
    }
  }

  lemma RecordedReply(w: World, p: nat, commits: bool)
    requires Enabled(w, Record(p, commits)) && WorksOn(w.rows, w.procs[p])
    ensures var w' := Apply(w, Record(p, commits)); var done := w'.procs[p];
            Backed(w'.rows, done.req, done.reply) && Bound(w'.rows, done.req, done.reply)
  {
    var w' := Apply(w, Record(p, commits));
    assert w'.rows[w.procs[p].id].command == w.procs[p].req.command;
  }

  lemma ReleaseKeepsInv(w: World, p: nat)
    requires Inv(w) && Enabled(w, Release(p))
    ensures Inv(Apply(w, Release(p)))
  {
    var unlocked := w.(locks := Unlock(w.locks, p));
    SameBooks(w, unlocked);
    MoveKeepsInv(unlocked, p, Released(w.procs[p].req, w.procs[p].reply));
  }

  lemma AnswerKeepsInv(w: World, p: nat)
    requires Inv(w) && Enabled(w, Answer(p))
    ensures Inv(Apply(w, Answer(p)))
  {
    LeaveKeepsInv(w, p);
    ReplyLogged(w.(procs := w.procs - {p}), w.procs[p].req, w.procs[p].reply);
  }

  lemma ReplyLogged(w: World, req: Request, reply: Reply)
    requires Inv(w) && Backed(w.rows, req, reply) && Bound(w.rows, req, reply)
    ensures Inv(w.(log := w.log + [Replied(req, reply)]))
  {}

  lemma AcceptKeepsInv(w: World, p: nat)
    requires Inv(w) && Enabled(w, AcceptUpdate(p))
    ensures Inv(Apply(w, AcceptUpdate(p)))
  {
    var id := w.procs[p].id;
    LeaveKeepsInv(w, p);
    if Acceptable(w.rows, id, w.clock) {
      var idle := w.(procs := w.procs - {p});
      AcceptedRowKeepsInv(idle, id);
      AcceptanceLogged(w, idle.(rows := Accept(w.rows, id)), AcceptedOnce(id, w.procs[p].tokenHash, w.procs[p].email, w.clock));
    }
  }

  lemma AcceptedRowKeepsInv(w: World, id: nat)
    requires Inv(w) && id in w.rows
    ensures Inv(w.(rows := Accept(w.rows, id)))
  {
    AcceptKeepsTable(w.rows, id);
    assert forall q | q in w.procs :: WorksOn(w.rows, w.procs[q]);
    TableChangeKeepsInv(w, Accept(w.rows, id));
  }

  lemma AcceptanceLogged(before: World, w: World, e: Entry)
    requires LogOk(before) && Inv(w) && w.log == before.log && e.AcceptedOnce?
    requires e.id in before.rows && !before.rows[e.id].accepted && e.id in w.rows && w.rows[e.id].accepted
    ensures Inv(w.(log := w.log + [e]))
  {
    assert ProcsOk(w.(log := w.log + [e]));
  }

  lemma SkipKeepsInv(w: World, p: nat)
    requires Inv(w) && Enabled(w, SendNotReached(p))
    ensures Inv(Apply(w, SendNotReached(p)))
  {
    assert Owns(w.procs[p], w.procs[p].id);
  }

  lemma AcquireKeepsInv(w: World, p: nat)
    requires Inv(w) && Enabled(w, Acquire(p))
    ensures Inv(Apply(w, Acquire(p)))
  {
    MoveKeepsInv(w, p, Locked(w.procs[p].req));
    SameBooks(Move(w, p, Locked(w.procs[p].req)), Apply(w, Acquire(p)));
  }

  /** The invariant is about the rows, the processes and the log. */
  lemma SameBooks(w: World, w': World)
    requires Inv(w) && w'.rows == w.rows && w'.procs == w.procs && w'.log == w.log
    ensures Inv(w')
  {}

  lemma CrashKeepsInv(w: World, p: nat)
    requires Inv(w)
    ensures Inv(w.(locks := Unlock(w.locks, p), procs := w.procs - {p}))
  {
    LeaveKeepsInv(w, p);
    SameBooks(w.(procs := w.procs - {p}), w.(locks := Unlock(w.locks, p), procs := w.procs - {p}));
  }

  lemma CheckKeepsInv(w: World, p: nat)
    requires Inv(w) && Enabled(w, CheckAccount(p))
    ensures Inv(Apply(w, CheckAccount(p)))
  {
    var req := w.procs[p].req;
    MoveKeepsInv(w, p, if req.email in w.users then Done(req, ExistingAccount) else NoAccount(req));
  }

  lemma ReadKeepsInv(w: World, p: nat, prior: Option<nat>)
    requires Inv(w) && Enabled(w, ReadPrior(p, prior))
    ensures Inv(Apply(w, ReadPrior(p, prior)))
  {
    var req := w.procs[p].req;
    if prior.Some? {
      MoveKeepsInv(w, p, Done(req, Replay(prior.value, w.rows[prior.value], req)));
    } else {
      MoveKeepsInv(w, p, NoPrior(req));
    }
  }

  lemma StepKeepsInv(w: World, step: Step)
    requires Inv(w) && Enabled(w, step)
    ensures Inv(Apply(w, step))
  {
    match step
    case Call(p, req) => MoveKeepsInv(w, p, Waiting(req));
    case Acquire(p) => AcquireKeepsInv(w, p);
    case ReadPrior(p, prior) => ReadKeepsInv(w, p, prior);
    case CheckAccount(p) => CheckKeepsInv(w, p);
    case Insert(p, id, tokenHash) => InsertKeepsInv(w, p, id, tokenHash);
    case InsertFails(p) => MoveKeepsInv(w, p, Done(w.procs[p].req, DatabaseError));
    case Send(p, outcome) => SendKeepsInv(w, p, outcome);
    case SendNotReached(p) => SkipKeepsInv(w, p);
    case Record(p, commits) => RecordKeepsInv(w, p, commits);
    case Release(p) => ReleaseKeepsInv(w, p);
    case Answer(p) => AnswerKeepsInv(w, p);
    case Crash(p) => CrashKeepsInv(w, p);
    case LoseLock(p) => SameBooks(w, Apply(w, step));
    case OpenInvitation(p, id, tokenHash, email) => MoveKeepsInv(w, p, Accepting(id, tokenHash, email));
    case AcceptUpdate(p) => AcceptKeepsInv(w, p);
    case SignUp(email) => SameBooks(w, Apply(w, step));
    case Tick(now) => SameBooks(w, Apply(w, step));
  }

  lemma {:induction false} RunKeepsInv(w: World, steps: seq<Step>)
    requires Inv(w) && ValidRun(w, steps)
    ensures Inv(Run(w, steps))
    decreases |steps|
  {
    if steps != [] {
      StepKeepsInv(w, steps[0]);
      RunKeepsInv(Apply(w, steps[0]), steps[1..]);
    }
  }

  /** In every run, crashes and lost locks included, the provider is called at most once for a
      row and at most once for a command. */
  lemma AtMostOneSend(steps: seq<Step>, i: nat, j: nat)
    requires ValidRun(Start, steps)
    requires i < j < |Run(Start, steps).log|
    requires Run(Start, steps).log[i].MailSent? && Run(Start, steps).log[j].MailSent?
    ensures var log := Run(Start, steps).log;
            log[i].id != log[j].id && (log[i].command.Some? ==> log[i].command != log[j].command)
  {
    assert Inv(Start);
    RunKeepsInv(Start, steps);
  }

  /** In every run there is at most one live invitation per email, a failed delivery is revoked,
      and no invitation is accepted twice. */
  lemma TableInEveryRun(steps: seq<Step>)
    requires ValidRun(Start, steps)
    ensures var w := Run(Start, steps);
            && TableOk(w.rows)
            && forall i, j | 0 <= i < j < |w.log| && w.log[i].AcceptedOnce? && w.log[j].AcceptedOnce? ::
                 w.log[i].id != w.log[j].id
  {
    RunKeepsInv(Start, steps);
  }

  /** After a reported success, repeating the request gives the same id and expiry until the row
      is revoked, and a delivery failure from then on. */
  lemma ReplayAfterSuccess(steps: seq<Step>, i: nat, prior: nat)
    requires ValidRun(Start, steps)
    requires i < |Run(Start, steps).log|
    requires var e := Run(Start, steps).log[i]; e.Replied? && e.reply.Created? && e.req.command.Some?
    requires IsPrior(Run(Start, steps).rows, Run(Start, steps).log[i].req, Some(prior))
    ensures var w := Run(Start, steps); var e := w.log[i];
            e.reply.id in w.rows &&
            Replay(prior, w.rows[prior], e.req) == if w.rows[e.reply.id].revoked then DeliveryFailed else e.reply
  {
    RunKeepsInv(Start, steps);
  }
}
