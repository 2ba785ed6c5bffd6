/** Retrying a company-provisioning submit (src/lib/company-provisioning-retry.ts,
    src/lib/company-provisioning.ts, src/components/admin/tenant-provisioning-panel.tsx). Unicode
    normalisation, lower-casing, SHA-256 and the email check are parameters. */
module CompanyRetry {
  import opened Options
  import opened Text
  import opened Json

  const RETRY_LIFETIME_MS := 24 * 60 * 60 * 1_000
  const CLOCK_SKEW_MS := 60_000

  datatype Draft = Draft(inviteOwner: bool, name: string, ownerEmail: string, slug: string)

  datatype Platform = Platform(
    nfc: string -> string, lower: string -> string, sha256: string -> string, isEmail: string -> bool)

  // ----- What client and server make of a draft -----

  function NormalName(p: Platform, s: string): string { Trim(p.nfc(s)) }
  function NormalToken(p: Platform, s: string): string { p.lower(Trim(p.nfc(s))) }

  /** The text the browser digests. */
  function CanonicalText(p: Platform, d: Draft): string {
    Compact(Obj([Member("inviteOwner", Bool(d.inviteOwner)), Member("name", Str(NormalName(p, d.name))),
                 Member("ownerEmail", Str(NormalToken(p, d.ownerEmail))), Member("slug", Str(NormalToken(p, d.slug)))]))
  }

  predicate IsFingerprint(s: string) {
    |s| == 64 && forall i | 0 <= i < |s| :: '0' <= s[i] <= '9' || 'a' <= s[i] <= 'f'
  }

  /** A digest that is missing or malformed leaves the fingerprint empty. */
  function Fingerprint(p: Platform, d: Draft): string {
    var candidate := p.lower(p.sha256(CanonicalText(p, d)));
    if IsFingerprint(candidate) then candidate else ""
  }

  datatype Input = Input(commandId: string, inviteOwner: bool, name: string, ownerEmail: string, slug: string)

  predicate SafeText(s: string, minimum: nat, maximum: nat) {
    minimum <= |s| <= maximum && forall i | 0 <= i < |s| :: !(s[i] <= '\U{001F}' || s[i] == '\U{007F}')
  }

  predicate SlugChar(c: char) { 'a' <= c <= 'z' || '0' <= c <= '9' }

  predicate IsSlug(s: string) {
    && 1 <= |s| <= 64 && SlugChar(s[0]) && SlugChar(s[|s| - 1])
    && forall i | 0 <= i < |s| :: SlugChar(s[i]) || s[i] == '-'
  }

  /** `validateCompanyProvisioningInput`, for a command id that passed its own check. */
  function Validate(p: Platform, commandId: string, d: Draft): Option<Input> {
    var name, rawSlug := NormalName(p, d.name), Trim(p.nfc(d.slug));
    var slug, ownerEmail := p.lower(rawSlug), NormalToken(p, d.ownerEmail);
    if !SafeText(name, 2, 160) || !SafeText(rawSlug, 2, 64) || !IsSlug(slug) then None
    else if !(3 <= |ownerEmail| <= 320 && p.isEmail(ownerEmail)) then None
    else Some(Input(commandId, d.inviteOwner, name, ownerEmail, slug))
  }

  /** The digest of the normalised form, if it is one. */
  lemma FingerprintIs(p: Platform, d: Draft)
    ensures var text := Compact(Obj([Member("inviteOwner", Bool(d.inviteOwner)), Member("name", Str(Trim(p.nfc(d.name)))),
                                     Member("ownerEmail", Str(p.lower(Trim(p.nfc(d.ownerEmail))))),
                                     Member("slug", Str(p.lower(Trim(p.nfc(d.slug)))))]));
            var digest := p.lower(p.sha256(text));
            Fingerprint(p, d) == if IsHex64(digest) then digest else ""
  {
    FingerprintIffHex(p.lower(p.sha256(CanonicalText(p, d))));
  }

  predicate IsHex64(s: string) { |s| == 64 && forall i | 0 <= i < 64 :: s[i] in "0123456789abcdef" }

  lemma HexLetter(c: char)
    ensures '0' <= c <= '9' || 'a' <= c <= 'f' <==> c in "0123456789abcdef"
  {}

  lemma FingerprintIffHex(s: string)
    ensures IsFingerprint(s) <==> IsHex64(s)
  {
    forall i | 0 <= i < |s| ensures '0' <= s[i] <= '9' || 'a' <= s[i] <= 'f' <==> s[i] in "0123456789abcdef" { HexLetter(s[i]); }
  }

  predicate HasControl(s: string) { exists i | 0 <= i < |s| :: s[i] <= '\U{001F}' || s[i] == '\U{007F}' }

  /** What the server accepts, and what it reads: the name and the two tokens normalised and trimmed,
      the tokens in small letters. */
  lemma ValidatedIff(p: Platform, id: string, d: Draft, input: Input)
    ensures Validate(p, id, d) == Some(input) <==>
            && input.commandId == id && input.inviteOwner == d.inviteOwner
            && input.name == Trim(p.nfc(d.name)) && 2 <= |input.name| <= 160 && !HasControl(input.name)
            && 2 <= |Trim(p.nfc(d.slug))| <= 64 && !HasControl(Trim(p.nfc(d.slug)))
            && input.slug == p.lower(Trim(p.nfc(d.slug))) && IsSlug(input.slug)
            && input.ownerEmail == p.lower(Trim(p.nfc(d.ownerEmail))) && 3 <= |input.ownerEmail| <= 320 && p.isEmail(input.ownerEmail)
  {}

  /** Two drafts that the server accepts have the same fingerprint exactly when it reads the same
      input from both, apart from the command id; otherwise they exhibit a collision. */
  lemma FingerprintIsServerIdentity(p: Platform, d: Draft, e: Draft, id: string) returns (x: string, y: string)
    requires Validate(p, id, d).Some? && Validate(p, id, e).Some?
    requires Fingerprint(p, d) != "" && Fingerprint(p, e) != ""
    ensures Validate(p, id, d) == Validate(p, id, e) ==> Fingerprint(p, d) == Fingerprint(p, e)
    ensures Fingerprint(p, d) == Fingerprint(p, e) ==>
              Validate(p, id, d) == Validate(p, id, e) || (x != y && p.lower(p.sha256(x)) == p.lower(p.sha256(y)))
  {
    x, y := CanonicalText(p, d), CanonicalText(p, e);
    if x == y {
      var a := [Member("inviteOwner", Bool(d.inviteOwner)), Member("name", Str(NormalName(p, d.name))),
                Member("ownerEmail", Str(NormalToken(p, d.ownerEmail))), Member("slug", Str(NormalToken(p, d.slug)))];
      var b := [Member("inviteOwner", Bool(e.inviteOwner)), Member("name", Str(NormalName(p, e.name))),
                Member("ownerEmail", Str(NormalToken(p, e.ownerEmail))), Member("slug", Str(NormalToken(p, e.slug)))];
      CompactIsInjective(Obj(a), Obj(b));
      assert a[0] == b[0] && a[1] == b[1] && a[2] == b[2] && a[3] == b[3];
    }
  }

  // ----- The retry record -----

  datatype Retry = Retry(commandId: string, createdAt: int, fingerprint: string)

  /** `retryValid`, for a command id that is a UUID. */
  predicate RetryValid(r: Retry, now: int) {
    && IsFingerprint(r.fingerprint) && r.createdAt >= 1
    && r.createdAt <= now + CLOCK_SKEW_MS && now - r.createdAt <= RETRY_LIFETIME_MS
  }

  /** `nextCompanyProvisioningCommand`. */
  function NextCommand(p: Platform, previous: Option<Retry>, d: Draft, now: int, newId: string): Retry {
    var f := Fingerprint(p, d);
    if f != "" && previous.Some? && RetryValid(previous.value, now) && previous.value.fingerprint == f
    then previous.value else Retry(newId, now, f)
  }

  predicate DefinitelyRejected(status: int) {
    400 <= status < 500 && status !in {408, 425, 429, 499}
  }

  /** The panel's ref and the browser's session storage. */
  datatype Panel = Panel(ref: Option<Retry>, storage: Option<Retry>)

  datatype Step =
    | Submit(draft: Draft, now: int, newId: string)
    | Reply(status: int)
    | NoReply
    | Reload

  predicate Success(status: int) { 200 <= status < 300 }

  function Load(storage: Option<Retry>, now: int): Option<Retry> {
    if storage.Some? && RetryValid(storage.value, now) then storage else None
  }

  function Previous(panel: Panel, now: int): Option<Retry> {
    if panel.ref.Some? then panel.ref else Load(panel.storage, now)
  }

  /** The command a submit sends. */
  function Sends(p: Platform, panel: Panel, step: Step): Retry
    requires step.Submit?
  {
    NextCommand(p, Previous(panel, step.now), step.draft, step.now, step.newId)
  }

  function Apply(p: Platform, panel: Panel, step: Step): Panel {
    match step
    case Submit(draft, now, newId) =>
      var command := Sends(p, panel, step);
      Panel(Some(command), if RetryValid(command, now) then Some(command) else None)
    case Reply(status) => if Success(status) || DefinitelyRejected(status) then Panel(None, None) else panel
    case NoReply => panel
    case Reload => panel.(ref := None)
  }

  /** The panel and the storage, changed in place. */
  class ProvisioningPanel {
    var retryCommand: Option<Retry>
    var storage: Option<Retry>

    function State(): Panel
      reads this
    {
      Panel(retryCommand, storage)
    }

    constructor ()
      ensures State() == Panel(None, None)
    {
      retryCommand, storage := None, None;
    }

    method SubmitDraft(p: Platform, draft: Draft, now: int, newId: string) returns (command: Retry)
      modifies this
      ensures command == Sends(p, old(State()), Submit(draft, now, newId))
      ensures State() == Apply(p, old(State()), Submit(draft, now, newId))
    {
      var previous := retryCommand;
      if previous.None? {
        if storage.Some? && !RetryValid(storage.value, now) { storage := None; }
        previous := storage;
      }
      command := NextCommand(p, previous, draft, now, newId);
      retryCommand := Some(command);
      storage := if RetryValid(command, now) then Some(command) else None;
    }

    method OnReply(p: Platform, status: int)
      modifies this
      ensures State() == Apply(p, old(State()), Reply(status))
    {
      if Success(status) || DefinitelyRejected(status) {
        retryCommand := None;
        storage := None;
      }
    }
  }

  // ----- Runs -----

  function Run(p: Platform, panel: Panel, steps: seq<Step>): Panel
    decreases |steps|
  {
    if steps == [] then panel else Run(p, Apply(p, panel, steps[0]), steps[1..])
  }

  /** A step that leaves the outcome open: a reload, no reply, an ambiguous status, or a submit of
      a form with the same fingerprint within a day. */
  predicate LeavesOpen(p: Platform, step: Step, r: Retry) {
    match step
    case Submit(draft, now, newId) =>
      Fingerprint(p, draft) == r.fingerprint && r.createdAt <= now <= r.createdAt + RETRY_LIFETIME_MS
    case Reply(status) => !Success(status) && !DefinitelyRejected(status)
    case NoReply => true
    case Reload => true
  }

  predicate Keeps(panel: Panel, r: Retry) {
    panel.storage == Some(r) && (panel.ref == None || panel.ref == Some(r))
  }

  /** Across any such run every submit sends the same command. */
  lemma {:induction false} OneCommandWhileOpen(p: Platform, panel: Panel, steps: seq<Step>, r: Retry)
    requires Keeps(panel, r) && IsFingerprint(r.fingerprint) && r.createdAt >= 1
    requires forall i | 0 <= i < |steps| :: LeavesOpen(p, steps[i], r)
    ensures Keeps(Run(p, panel, steps), r)
    ensures forall i | 0 <= i < |steps| && steps[i].Submit? :: Sends(p, Run(p, panel, steps[..i]), steps[i]) == r
    decreases |steps|
  {
    if steps != [] {
      var next := Apply(p, panel, steps[0]);
      OneCommandWhileOpen(p, next, steps[1..], r);
      forall i | 0 <= i < |steps| && steps[i].Submit? ensures Sends(p, Run(p, panel, steps[..i]), steps[i]) == r {
        if i > 0 {
          assert steps[1..][i - 1] == steps[i];
          assert steps[..i][1..] == steps[1..][..i - 1];
        }
      }
    }
  }

  /** The first submit of a form, with a working digest, starts such a run. */
  lemma SubmitOpensRun(p: Platform, panel: Panel, draft: Draft, now: int, newId: string)
    requires Fingerprint(p, draft) != "" && now >= 1
    ensures var r := Sends(p, panel, Submit(draft, now, newId));
            && Keeps(Apply(p, panel, Submit(draft, now, newId)), r)
            && (panel == Panel(None, None) ==> r == Retry(newId, now, Fingerprint(p, draft)))
            && IsFingerprint(r.fingerprint) && r.fingerprint == Fingerprint(p, draft) && r.createdAt >= 1
  {}

  /** Which replies settle the matter: every success, and every client error but 408, 425, 429 and
      499; a server error or any other status leaves it open. */
  lemma RepliesThatLeaveOpen(p: Platform, status: int, r: Retry)
    ensures LeavesOpen(p, Reply(status), r) <==>
            !(200 <= status <= 299) && (!(400 <= status <= 499) || status == 408 || status == 425 || status == 429 || status == 499)
  {}

  /** A stored command is used for a day, and not if it is dated more than a minute ahead. */
  lemma LoadedIff(storage: Option<Retry>, now: int, r: Retry)
    ensures Load(storage, now) == Some(r) <==>
            storage == Some(r) && IsHex64(r.fingerprint) && 1 <= r.createdAt <= now + 60_000 && now <= r.createdAt + 86_400_000
  {
    FingerprintIffHex(r.fingerprint);
  }

  /** A submit reads a clock that has not run backwards, and a new command id is a new one. */
  predicate Plausible(step: Step, r: Retry) { step.Submit? ==> r.createdAt <= step.now && step.newId != r.commandId }

  /** One step keeps a kept command exactly when it leaves the outcome open. */
  lemma StepKeepsIffOpen(p: Platform, panel: Panel, step: Step, r: Retry)
    requires Keeps(panel, r) && IsFingerprint(r.fingerprint) && r.createdAt >= 1 && Plausible(step, r)
    ensures Keeps(Apply(p, panel, step), r) <==> LeavesOpen(p, step, r)
  {}

  /** The command is kept to the end of a run, at every point of it, exactly when every step leaves
      the outcome open: until success, definite rejection, a changed form or the end of the day. */
  lemma {:induction false} KeptExactlyWhileOpen(p: Platform, panel: Panel, steps: seq<Step>, r: Retry)
    requires Keeps(panel, r) && IsFingerprint(r.fingerprint) && r.createdAt >= 1
    requires forall i | 0 <= i < |steps| :: Plausible(steps[i], r)
    ensures (forall i | 0 <= i <= |steps| :: Keeps(Run(p, panel, steps[..i]), r)) <==>
            (forall i | 0 <= i < |steps| :: LeavesOpen(p, steps[i], r))
    decreases |steps|
  {
    if steps != [] {
      var next := Apply(p, panel, steps[0]);
      StepKeepsIffOpen(p, panel, steps[0], r);
      forall i | 1 <= i <= |steps| ensures Run(p, panel, steps[..i]) == Run(p, next, steps[1..][..i - 1]) {
        assert steps[..i][1..] == steps[1..][..i - 1];
      }
      assert Run(p, panel, steps[..1]) == next by { assert steps[1..][..0] == []; }
      if LeavesOpen(p, steps[0], r) {
        KeptExactlyWhileOpen(p, next, steps[1..], r);
        ShiftedKeeps(p, panel, steps, r);
      }
    }
  }

  lemma ShiftedKeeps(p: Platform, panel: Panel, steps: seq<Step>, r: Retry)
    requires steps != [] && Keeps(panel, r)
    ensures (forall i | 0 <= i <= |steps| :: Keeps(Run(p, panel, steps[..i]), r)) <==>
            (forall i | 0 <= i <= |steps| - 1 :: Keeps(Run(p, Apply(p, panel, steps[0]), steps[1..][..i]), r))
  {
    var next := Apply(p, panel, steps[0]);
    forall i | 0 < i <= |steps| ensures Run(p, panel, steps[..i]) == Run(p, next, steps[1..][..i - 1]) {
      assert steps[..i][1..] == steps[1..][..i - 1];
    }
    if forall i | 0 <= i <= |steps| :: Keeps(Run(p, panel, steps[..i]), r) {
      forall i | 0 <= i <= |steps| - 1 ensures Keeps(Run(p, next, steps[1..][..i]), r) {
        assert Keeps(Run(p, panel, steps[..i + 1]), r);
      }
    }
    if forall i | 0 <= i <= |steps| - 1 :: Keeps(Run(p, next, steps[1..][..i]), r) {
      forall i | 0 <= i <= |steps| ensures Keeps(Run(p, panel, steps[..i]), r) {
        if i > 0 { assert Keeps(Run(p, next, steps[1..][..i - 1]), r); }
      }
    }
  }

  /** From a kept command, a submit sends a new one exactly when the form's fingerprint changed or
      the command is more than a day old. */
  lemma CommandChangesExactlyWhen(p: Platform, panel: Panel, r: Retry, draft: Draft, now: int, newId: string)
    requires Keeps(panel, r) && IsFingerprint(r.fingerprint) && r.createdAt >= 1 && r.createdAt <= now
    requires newId != r.commandId
    ensures Sends(p, panel, Submit(draft, now, newId)).commandId == newId <==>
            Fingerprint(p, draft) != r.fingerprint || now > r.createdAt + RETRY_LIFETIME_MS
  {}
}
