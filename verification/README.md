# VASI gateway: verified models of its protocols and codecs

VASI's gateway sits between browsers, an identity database and a private engine. This project
models the parts of it whose guarantees are stronger than any one branch, and proves those
guarantees for every input, every run or every reachable state.

| file | what it models |
|---|---|
| `Telemetry.dfy`, `TelemetryTrace.dfy`, `TelemetrySessions.dfy`, `TelemetryLiveness.dfy`, `MediaTelemetry.dfy`, `ContextRecorder.dfy`, `ContextLiveness.dfy` | the browser recorders: a queue, one pending batch resent until acknowledged, a network that loses replies and delivers stale copies, and a store that keeps one copy per batch id and bounds sequence numbers |
| `Invitations.dfy`, `InvitationLocks.dfy`, `InvitationFacts.dfy` | command-bound invitations: gateway processes that interleave and crash around an advisory lock, a row committed before the mail is sent, and the replay rule |
| `Ipv6.dfy`, `Cidr.dfy`, `ClientAddress.dfy`, `AddressText.dfy` | IPv6 text forms (RFC 4291 section 2.2, RFC 5952 section 4.2), CIDR networks by byte masks, the trusted-proxy walk and the rate-limit identity |
| `LookupSlots.dfy`, `RecommendationCache.dfy`, `RecommendationFacts.dfy`, `LookupService.dfy` | the MX lookup semaphore with its queue and timeouts, the coalescing cache in front of it, and the two together |
| `Json.dfy`, `JsonText.dfy`, `JsonPretty.dfy`, `JsonLayout.dfy`, `Manifest.dfy`, `ManifestPatterns.dfy`, `ManifestAcceptance.dfy` | canonical JSON and the offline verifier of pilot-gate manifests |
| `AuditChain.dfy`, `SignInMethods.dfy` | the hash-chained administrator audit, and the two routes that remove a sign-in method |
| `Artifacts.dfy` | the re-chunking upload and the streamed download |
| `RateLimit.dfy` | the fixed-window limiters |
| `CompanyRetry.dfy` | the browser's retry command for company provisioning |
| `Questions.dfy`, `QuestionsExact.dfy` | the owner console's text format for questions and choices |
| `Text.dfy`, `Bits.dfy`, `Naturals.dfy`, `Options.dfy` | splitting, joining, trimming, numerals; powers of two and bitwise `and`; fresh ids; `Option` |

How the model is put together:

- State that the source changes in place is a class (`ActivityRecorder`, `MediaRecorder`,
  `SnapshotRecorder`, `InvitationTable`, `Scheduler`, `Recommender`, `AuditTable`,
  `ArtifactStream`, `Limiter`, `UserRows`, `ProvisioningPanel`). Each method's contract ties the
  new state to a function of the old one, and the theorems about whole runs are about those
  functions.
- A protocol is a `Step` datatype with `Enabled` and `Apply`. A run is a sequence of steps, and
  a theorem about runs quantifies over every valid sequence. A browser step is the code between
  two `await`s; a database transaction is one step that commits or leaves no trace, except in
  `SignInMethods.dfy`, where it is one step per statement.
- What the platform supplies is a parameter, so the theorems hold whatever it does: SHA-256, the
  canonical JSON text of Postgres, `JSON.parse`, Unicode normalisation and lower-casing of form
  fields, Node's test for IPv6 text, JavaScript's coercion of a CIDR prefix, and the ISO timestamp
  test. Nothing is assumed of the digest but its length. Where the design relies on it, the lemma returns either
  the promised equality or two different texts with the same digest.
- UUIDs are values not used before, and clocks never run backwards.

What the proofs bring out:

- The recorders can be stuck for good. The activity table admits sequence numbers up to 100,000 and
  the context table up to 64; a batch beyond that is refused on every resend, is never dropped, and
  blocks everything behind it, later sessions included. `TelemetryLiveness.DeliverableIffWithinLimit`
  and `ContextLiveness.DeliverableIffWithinLimit` say exactly when everything can still be
  delivered, and `SomeRunBlocks` of either module gives a run that ends blocked.
- No second mail for a command holds even if a process loses its advisory lock: the row committed
  before the send and the unique index are enough. "No mail after `delivery_unknown`" does need the
  lock, but only that of the command itself. `InvitationLocks.NoSendAfterUnknown` says so, and
  `InvitationLocks.RevealedIffExposed` says exactly which reachable states can go wrong.
- A question or a choice survives its text form exactly when it is well formed
  (`QuestionsExact.QuestionsReadBackIffOk`, `QuestionsExact.ChoicesReadBackIffClean`). A colon in a
  label is what the format cannot hold: the label comes back cut at the colon.
- Ending a user's sessions is final exactly when nobody signs in before the commit: what a commit
  leaves is exactly the sessions opened since its delete statement
  (`SignInMethods.CommitLeavesExactlySignIns`).

## Model

| member | source | states |
|---|---|---|
| `Telemetry.StoreIsPrefixOfEmitted` | src/components/evidence/activity-interaction-recorder.tsx:56-118 | in every run with lost replies, aborted requests, late duplicates and retries, the store holds a prefix of the emitted events, in order, with no gap and no repetition; every copy in flight is of an acknowledged batch or of the one pending batch, and every batch has 1 to 100 events |
| `Telemetry.StepKeepsDelivery` | src/components/evidence/activity-interaction-recorder.tsx:56-157 | the inductive invariant behind it: emitted events are exactly acknowledged batches, then the pending batch, then the queue; the store is the acknowledged batches, with or without the pending one |
| `Telemetry.ArrivalKeepsDelivery` | database/engine-activity-interaction.sql:3-35 | a copy that arrives at any time, stale, repeated or refused by the table's check, leaves the store a prefix |
| `Telemetry.FormBatchSplitsQueue` | src/components/evidence/activity-interaction-recorder.tsx:67-79 | a formed batch is the front of the queue under the new id, nothing is dropped, and a pending batch is never replaced |
| `Telemetry.ActivityRecorder.SelectBatch` | src/components/evidence/activity-interaction-recorder.tsx:67-79 | the shifting loop takes the longest run of leading events of one session, up to a hundred |
| `Telemetry.ActivityRecorder.EmitEvent` | src/components/evidence/activity-interaction-recorder.tsx:122-144 | silent exactly without a session or after its `disconnect`; otherwise one event with the caller's kind and id, the next number and the time since the session opened |
| `TelemetryTrace.EmittedIsTrace` | src/components/evidence/activity-interaction-recorder.tsx:122-157 | in every run the emitted events are, told from the calls alone, three per resumed session (presented; visible or hidden; focus or blur) and one per accepted call, with their kinds, ids, sessions, numbers and times; the store holds a prefix of that |
| `TelemetryTrace.TimesAreRounded` | src/components/evidence/activity-interaction-recorder.tsx:124-127 | times are milliseconds rounded to the nearest, clamped to one week |
| `Telemetry.ActivityRecorder.ResumeSession` | src/components/evidence/activity-interaction-recorder.tsx:148-157 | a new session, and its three opening events at time 0: `presented`, `visible` or `hidden`, `focus` or `blur` |
| `Telemetry.ActivityRecorder.Flush` | src/components/evidence/activity-interaction-recorder.tsx:56-80 | one flush at a time; the pending batch is resent as it is, else a new one is formed; nothing is sent exactly when nothing is left |
| `Telemetry.ActivityRecorder.OnReply` | src/components/evidence/activity-interaction-recorder.tsx:81-118 | `ok` alone drops the pending batch and goes on to the next, unless `keepalive`; anything else keeps batch and queue |
| `TelemetrySessions.EverySessionWellFormed` | src/components/evidence/activity-interaction-recorder.tsx:122-162 | in every run each session starts with `presented` at sequence 1 and nowhere else, counts on by one, has nondecreasing times within a week and at most one `disconnect`, which is last; event ids are unique; what the store holds of a session is a prefix of it |
| `TelemetryLiveness.DeliverableIffWithinLimit` | database/engine-activity-interaction.sql:17-35 | from every state the delivery invariant allows, some run of sends, arrivals and replies alone stores every emitted event exactly when no emitted sequence number is beyond the table's bound |
| `TelemetryLiveness.DeliverOrBlock` | src/components/evidence/activity-interaction-recorder.tsx:56-118 | such a run can always be continued until everything is stored or the pending batch is one the store refuses |
| `TelemetryLiveness.BlockedForGood` | src/components/evidence/activity-interaction-recorder.tsx:100-104 | once the pending batch is refused, in every further run, new sessions included, it stays pending and the store never grows |
| `TelemetryLiveness.SomeRunBlocks` | database/engine-activity-interaction.sql:25-25 | a run of the recorder, one session of 100,001 events, ends blocked |
| `MediaTelemetry.MediaStoreIsPrefix` | src/components/evidence/external-media-activity.tsx:360-414 | in every run of the media recorder the store holds a prefix of what was emitted: one session, numbered from 1 without a gap, in order of time |
| `MediaTelemetry.MediaEmittedIsTrace` | src/components/evidence/external-media-activity.tsx:402-414 | in every run the emitted events are, told from the calls alone, one per call with its kind and id, numbered from 1 |
| `MediaTelemetry.MediaDeliverableIffWithinLimit` | database/engine-media-evidence.sql:70-84 | in every run of the media recorder everything emitted can still be stored exactly when the count fits the 32-bit column |
| `MediaTelemetry.SpliceIsLeading` | src/components/evidence/external-media-activity.tsx:365-367 | with one session, `splice(0, 100)` takes the batch the session-by-session selection would |
| `MediaTelemetry.MediaRecorder.TakeBatch` | src/components/evidence/external-media-activity.tsx:365-367 | the media recorder's batches refine those of the activity recorder |
| `MediaTelemetry.MediaRecorder.FlushQueue` | src/components/evidence/external-media-activity.tsx:360-382 | the `flushing` flag admits one flush; the pending batch goes first |
| `MediaTelemetry.MediaRecorder.OnReply` | src/components/evidence/external-media-activity.tsx:383-397 | as for the activity recorder |
| `ContextRecorder.SnapshotsArriveInOrder` | src/components/evidence/participant-context-recorder.tsx:74-144 | in every run the stored snapshots are a prefix of those recorded, of one session, numbered from 1, with exactly one presentation, at sequence 1 |
| `ContextRecorder.RecordedIsTrace` | src/components/evidence/participant-context-recorder.tsx:119-144 | in every run the snapshots are, told from the calls alone, those asked for: purposes, numbers and times, a presentation before a first response, and none for a repeated presentation |
| `ContextRecorder.ArrivalKeepsInv` | database/engine-participant-context.sql:3-21 | a late, repeated or refused snapshot leaves the store a prefix of at most 64 rows |
| `ContextLiveness.DeliverableIffWithinLimit` | database/engine-participant-context.sql:11-11 | in every reachable state, some run of sends, arrivals and replies alone stores every recorded snapshot exactly when at most 64 were recorded |
| `ContextLiveness.BlockedForGood` | src/components/evidence/participant-context-recorder.tsx:82-105 | once the head of the queue is refused it stays the head in every further run, and the store never grows |
| `ContextLiveness.SomeRunBlocks` | src/components/evidence/participant-context-recorder.tsx:119-144 | one presentation and 64 saves end blocked |
| `ContextRecorder.SnapshotRecorder.RecordSnapshot` | src/components/evidence/participant-context-recorder.tsx:119-144 | a repeated presentation records nothing; a session opened by a response records a presentation first |
| `ContextRecorder.SnapshotRecorder.OnReply` | src/components/evidence/participant-context-recorder.tsx:97-115 | only `ok` shifts the head of the queue |
| `Invitations.AtMostOneSend` | src/lib/invitations.ts:25-153 | for every interleaving of processes, retries, crashes and lost locks, the mail provider is called at most once per row and at most once per command |
| `InvitationLocks.NoSendAfterUnknown` | src/lib/invitations.ts:39-153 | as the outside sees it: mail for a command goes out after anyone was told `delivery_unknown` for it only if a process inside the section of that very command lost its lock in the run |
| `InvitationLocks.NoMailDueAfterUnknown` | src/lib/invitations.ts:39-153 | nor is such mail even due |
| `InvitationLocks.RevealedIffExposed` | src/lib/invitations.ts:39-195 | in every reachable state with mail due, some continuation without lost locks tells a caller `delivery_unknown` before that mail goes out exactly when somebody was or is being told already, or the row is not revoked and the sender does not hold the lock or the same request is already past it |
| `InvitationLocks.LostLockSendsAfterUnknown` | src/lib/invitations.ts:39-76 | from every reachable state, once a sender with a row that is not revoked loses its lock, some continuation without further lost locks tells `delivery_unknown` and then sends |
| `InvitationLocks.NeverExposedWithLocks` | src/lib/invitations.ts:39-76 | without a lost lock in its section no reachable state of a command is exposed |
| `Invitations.TableInEveryRun` | database/admin-schema.sql:23-25 | in every run at most one live invitation per email, one row per command, failed implies revoked, and no invitation is accepted twice |
| `Invitations.RunEvolves` | database/invitation-provision-command.sql:14-42 | in every run no row changes its identity, leaves a terminal delivery status, or comes back from acceptance or revocation |
| `Invitations.ReplayAfterSuccess` | src/lib/invitations.ts:168-195 | after a reported success, repeating the request gives the same id and expiry until the row is revoked, and a delivery failure from then on |
| `Invitations.StepKeepsInv` | src/lib/invitations.ts:25-295 | the inductive invariant: a process about to send owns a pending row of its own request that nobody else owns and no mail was sent for; every reported success is backed by a delivered row |
| `Invitations.InvitationTable.CreatePending` | src/lib/invitations.ts:84-107 | the live rows of that email are revoked and nothing else of them changes; every other row is as it was; the new row is pending, live and expires in 604,800,000 ms; nothing happens when an index is violated |
| `InvitationFacts.RowsChangeForAReason` | src/lib/invitations.ts:91-107 | in every run a row is revoked only by a new invitation to its own address or a failed delivery of its own, and accepted only through its own link, in time and while not revoked |
| `InvitationFacts.StatusAndRepliesAreTrue` | src/lib/invitations.ts:109-153 | in every run `provider_accepted` means that the provider accepted the mail of that row, `failed` that none of its mail was accepted or left in doubt, and `existing_account` that there is an account |
| `InvitationFacts.ToldAfterSend` | src/lib/invitations.ts:122-152 | success exactly when the provider accepted and the receipt was committed, failure exactly when it refused, else `delivery_unknown`; and what becomes of the row |
| `InvitationFacts.ToldOfAccount` | src/lib/invitations.ts:54-67 | an address that has an account is turned away before anything is written or sent |
| `InvitationFacts.AcceptedByHolder` | src/lib/invitations.ts:228-295 | in every run an invitation is accepted only with its own token and address, before it expires |
| `Invitations.InvitationTable.RecordOutcome` | src/lib/invitations.ts:197-226 | a pending row and no other is settled, as accepted or as failed and revoked, and nothing else changes |
| `Invitations.InvitationTable.AcceptRow` | src/lib/invitations.ts:254-295 | accepted exactly when neither accepted nor revoked nor expired, and nothing else changes |
| `Ipv6.ParseIffSpells` | src/lib/client-address.ts:122-157 | the parser returns an address exactly on the texts that spell it: eight groups, or two sides around one `::` for at least one zero word, with a dotted quad only at the end of a side |
| `Ipv6.ParseIPv6Bytes` | src/lib/client-address.ts:122-140 | the splitting, padding and byte buffer compute that parse |
| `Ipv6.ParseIPv6Side` | src/lib/client-address.ts:142-157 | the loop over groups, with its early exits |
| `Ipv6.PrintedFormParsesBack` | src/lib/client-address.ts:122-181 | for every 16-byte address the printed form parses to the same bytes |
| `Ipv6.PrinterInjective` | src/lib/client-address.ts:159-181 | two addresses print alike exactly when they are equal |
| `Ipv6.AtMostOneGap` | src/lib/client-address.ts:177-180 | the printed form holds at most one `::`, and holds one exactly when there is a run of two or more zero words |
| `Ipv6.FormatIPv6` | src/lib/client-address.ts:159-181 | the printer shortens the first longest run of two or more zero words and nothing else |
| `Ipv6.ScanRuns` | src/lib/client-address.ts:162-176 | the scan finds that run |
| `Ipv6.QuadRoundTrip` | src/lib/client-address.ts:103-106 | the dotted quad of four bytes is well formed and reads back |
| `Cidr.ContainsAddress` | src/lib/client-address.ts:183-193 | the byte-and-mask test holds exactly when the address, as a 32- or 128-bit integer, lies in the network's block |
| `Cidr.ZeroHostBitsIffCanonical` | src/lib/client-address.ts:195-204 | the host bits are zero exactly when the address is divisible by the block size |
| `Cidr.PrefixMaskCompares` | src/lib/client-address.ts:191-192 | equal under the shifted mask means equal leading bits |
| `Cidr.LeadingBitsAreQuotient` | src/lib/client-address.ts:185-192 | agreement of whole bytes and leading bits is agreement of the integers divided by the block size |
| `ClientAddress.NetworkAcceptedIffCanonical` | src/lib/client-address.ts:84-98 | a network text is accepted exactly when it is an address, meaning a block of one, or `address/prefix` within range, and the address is the first of its block |
| `AddressText.ReadAsV4Iff` | src/lib/client-address.ts:100-118 | a text is an IPv4 address exactly when, trimmed and in small letters, it is the dotted quad of those bytes or an IPv6 text that spells the IPv4-mapped address |
| `AddressText.ReadAsV6Iff` | src/lib/client-address.ts:107-119 | and an IPv6 address exactly when it is an IPv6 text that spells those bytes and they are not IPv4-mapped |
| `AddressText.QuadIffDotted` | src/lib/client-address.ts:103-106 | dotted quads are four decimal numbers in the order of the bytes |
| `AddressText.ResolvesToMeans` | src/lib/client-address.ts:37-73 | from the pieces of the header between its commas, in their own order: a header resolves to a piece exactly when every piece is an address and that one is the last that no configured network holds |
| `AddressText.IdentityOfV4` | src/lib/client-address.ts:76-80 | the bucket of an IPv4 or IPv4-mapped client is its dotted quad |
| `AddressText.IdentityOfV6` | src/lib/client-address.ts:78-81 | and of any other IPv6 client the first eight bytes in hexadecimal |
| `ClientAddress.NormalTextParsesBack` | src/lib/client-address.ts:100-120 | normalising is stable, IPv4-mapped addresses included |
| `ClientAddress.NormalTextInjective` | src/lib/client-address.ts:100-120 | all spellings of an address share one normal text, and different addresses never do |
| `ClientAddress.ResolveTrustedClientAddress` | src/lib/client-address.ts:33-74 | a result exactly when the whole chain is well formed and has an untrusted hop, and then the rightmost one; with no trusted networks only one-hop chains resolve |
| `ClientAddress.WalkProxies` | src/lib/client-address.ts:67-73 | the scan from the right finds the rightmost untrusted hop, or there is none |
| `ClientAddress.ForgedPrefixIgnored` | src/lib/client-address.ts:67-73 | two well-formed chains that agree from the resolved hop rightwards resolve to the same address |
| `ClientAddress.SharedBucket` | src/lib/client-address.ts:76-82 | two addresses share a rate-limit bucket exactly when they are the same IPv4 address or lie in the same IPv6 /64 |
| `LookupSlots.SchedulerInvariant` | src/lib/provider-recommendation.ts:221-266 | in every run, double releases and late timers included: active slots are the granted, unreleased ones and at most 16; at most 64 wait; nobody waits while a slot is free; every waiter leaves once, in order of arrival or by its own timeout |
| `LookupSlots.RefusedOnlyWhenFull` | src/lib/provider-recommendation.ts:230-256 | in every run a slot is granted exactly when fewer than 16 are in use, and a request turned away exactly when 16 are in use and 64 wait |
| `LookupSlots.OutcomesAreFinal` | src/lib/provider-recommendation.ts:238-256 | activation and timeout are never undone in the rest of a run |
| `LookupSlots.Scheduler.AcquireSlot` | src/lib/provider-recommendation.ts:230-256 | granted, queued or refused |
| `LookupSlots.Scheduler.ReleaseSlot` | src/lib/provider-recommendation.ts:258-266 | a second release does nothing; otherwise the slot passes to the oldest waiter |
| `LookupSlots.Scheduler.TimeoutWaiter` | src/lib/provider-recommendation.ts:248-252 | the timer takes out its own waiter, if it still waits |
| `RecommendationCache.LookupsAreShared` | src/lib/provider-recommendation.ts:96-119 | in every run at most one unsettled lookup per domain, everyone who joined a settled lookup has its answer, and at most 1,000 entries |
| `RecommendationCache.HitIsLatestAnswer` | src/lib/provider-recommendation.ts:106-110 | in every run an unexpired hit is the answer of the domain's latest authoritative lookup |
| `RecommendationFacts.RequestGetsNextAnswer` | src/lib/provider-recommendation.ts:112-159 | in every run a request that the cache does not answer gets the result of the first lookup of its domain to end after it: the provider of an answer, none after any other end, and no reply until then |
| `RecommendationFacts.HitTellsLastWord` | src/lib/provider-recommendation.ts:106-109 | in every run a request that the cache answers gets the provider of its domain's last answer, or none if the domain was last said not to exist, within 21,600,000 ms of a provider and 900,000 ms of none |
| `RecommendationCache.CacheChangesOnlyAuthoritatively` | src/lib/provider-recommendation.ts:96-171 | timeouts, refusals and malformed replies leave the cache alone; a request drops at most the expired entry of its own domain |
| `RecommendationCache.PutBoundsAndKeeps` | src/lib/provider-recommendation.ts:161-171 | caching drops the oldest entry when there is no room and nothing else, and adds the new one last |
| `RecommendationCache.Recommender.Recommend` | src/lib/provider-recommendation.ts:96-119 | a fresh entry answers; otherwise the stale entry goes and the caller joins or starts the domain's lookup |
| `RecommendationCache.Recommender.SettleLookup` | src/lib/provider-recommendation.ts:115-171 | the lookup leaves the in-flight map and writes to the cache only if authoritative |
| `LookupService.ResolversAreBounded` | src/lib/provider-recommendation.ts:121-132 | in every run of cache and semaphore together, the running resolvers are as many as the slots in use, at most 16; a settled lookup neither waits nor holds a slot; an unsettled one waits, runs or is about to settle |
| `LookupService.NoSlotLeaks` | src/lib/provider-recommendation.ts:221-228 | in every run, once no lookup is in flight every slot is free and nobody waits |
| `LookupService.StepKeepsInv` | src/lib/provider-recommendation.ts:221-266 | tickets in use belong each to exactly one lookup inside `withLookupSlot`, through refusals, timeouts, activations and releases |
| `LookupService.UnansweredIsRefusedOrTimedOut` | src/lib/provider-recommendation.ts:230-256 | in every run a lookup whose slot was never granted ends without an answer, only because the queue was full when it started or its place in the queue timed out, and its callers get no provider |
| `LookupService.SettledAsResolved` | src/lib/provider-recommendation.ts:121-159 | in every run a lookup whose slot was granted settles with the result of its own resolver |
| `Json.CanonicalIsIdempotent` | src/lib/pilot-gate-manifest-import.ts:246-255 | canonicalising twice is canonicalising once |
| `Json.CanonicalForgetsOrder` | src/lib/pilot-gate-manifest-import.ts:246-255 | objects with the same members in any order have one canonical form |
| `Json.CompactIsInjective` | src/lib/pilot-gate-manifest-import.ts:235-240 | different values have different compact texts, escapes included |
| `Json.CompactReads` | src/lib/pilot-gate-manifest-import.ts:235-240 | no compact text is confused with another whatever follows it |
| `JsonText.CompactIsJson` | src/lib/pilot-gate-manifest-import.ts:235-240 | names, decimal numbers, strings and comma-separated lists, as RFC 8259 writes them |
| `JsonText.QuotedIsReadBack` | src/lib/pilot-gate-manifest-import.ts:235-240 | a reader of the escapes of section 7 of RFC 8259 gets every string back |
| `JsonText.EscapeForms` | src/lib/pilot-gate-manifest-import.ts:235-240 | only quotes, backslashes and control characters are escaped, with the short form where there is one |
| `JsonText.CanonicalIs` | src/lib/pilot-gate-manifest-import.ts:246-255 | at every depth arrays keep their order, objects have the same members in order of their keys, and everything else is left alone |
| `JsonText.LessIsLexicographic` | src/lib/pilot-gate-manifest-import.ts:249-249 | keys are ordered by their first difference |
| `JsonLayout.PrettyIsLaidOut` | src/lib/pilot-gate-manifest-import.ts:242-244 | the indented text is the compact text laid out by a scanner: a line break after an opening bracket, after a comma and before a closing bracket, two blanks per open bracket, one blank after a colon, strings and empty lists untouched |
| `JsonLayout.SqueezedIsCompact` | src/lib/pilot-gate-manifest-import.ts:242-244 | dropping the blanks and line breaks outside strings gives the compact text back |
| `JsonPretty.PrettyReads` | src/lib/pilot-gate-manifest-import.ts:242-244 | nor is an indented one |
| `JsonPretty.ReadsWhatWasPrinted` | src/lib/pilot-gate-manifest-import.ts:242-244 | reading a printed text gives back the value it was printed from |
| `Manifest.SameDigestSameText` | src/lib/pilot-gate-manifest-import.ts:83-138 | two accepted texts with the same package digest are the same text, or exhibit a collision |
| `ManifestAcceptance.AcceptedIffPresented` | src/lib/pilot-gate-manifest-import.ts:83-138 | a text is accepted as a given manifest exactly when the manifest meets the contract, the digest is that of its canonical form, and the text is the one its canonical form prints to: no valid manifest is refused and none has a second text |
| `ManifestAcceptance.AcceptedIffLaidOut` | src/lib/pilot-gate-manifest-import.ts:83-138 | the same with the text given as the compact form of the sorted document laid out with two blanks per open bracket, and a line break at the end |
| `ManifestAcceptance.TextDeterminesManifest` | src/lib/pilot-gate-manifest-import.ts:107-119 | no text is printed from two manifests, or from one with two digests |
| `ManifestAcceptance.SomeParserReadsAll` | src/lib/pilot-gate-manifest-import.ts:91-119 | one parser reads back every printed manifest at once, so the characterisation's hypothesis can be met for all of them |
| `ManifestAcceptance.DocumentReadsBack` | src/lib/pilot-gate-manifest-import.ts:91-117 | normalising the printed document of a valid manifest gives back that manifest |
| `ManifestAcceptance.NormalizedIsValid` | src/lib/pilot-gate-manifest-import.ts:140-204 | whatever is normalised meets the contract: artifacts, checklist answers, references and order |
| `ManifestAcceptance.CountIffAllNamed` | src/lib/pilot-gate-manifest-import.ts:99-100 | comparing the number of names with the number of artifacts tests that some item names each artifact |
| `ManifestAcceptance.ArtifactFields` | src/lib/pilot-gate-manifest-import.ts:161-167 | which value stands under which key of an artifact |
| `Manifest.CanonicalDeterminesPresentation` | src/lib/pilot-gate-manifest-import.ts:107-119 | the digested document and its digest determine the one text that is accepted |
| `Manifest.NormalizeArtifacts` | src/lib/pilot-gate-manifest-import.ts:140-173 | the single pass accepts exactly the bounded lists of valid entries with strictly ascending ids and no path twice, and returns them |
| `Manifest.ScanArtifacts` | src/lib/pilot-gate-manifest-import.ts:142-168 | the pass with its id and path sets succeeds exactly when every entry is valid and no id or path repeats |
| `Manifest.VerifyText` | src/lib/pilot-gate-manifest-import.ts:83-138 | the verifier, run step by step with that pass, decides as the definition that the theorems are about |
| `Manifest.JoinedOrderTest` | src/lib/pilot-gate-manifest-import.ts:170-171 | comparing NUL-joined lists tests the order of NUL-free entries |
| `ManifestPatterns.ForbiddenIff` | src/lib/pilot-gate-manifest-import.ts:9-9 | a file name is refused exactly when it holds one of the seven words, in letters of any size, set off by its ends or by `.`, `_` or `-`, or holds `VASI.settings` |
| `ManifestPatterns.ExtensionOf` | src/lib/pilot-gate-manifest-import.ts:156-156 | the extension starts at the last dot, in small letters |
| `ManifestPatterns.IdentifierIff` | src/lib/pilot-gate-manifest-import.ts:6-6 | the letters of an identifier |
| `ManifestPatterns.FilenameIff` | src/lib/pilot-gate-manifest-import.ts:5-5 | the letters of a file name |
| `ManifestPatterns.ReferenceIff` | src/lib/pilot-gate-manifest-import.ts:7-7 | the letters of a reference |
| `AuditChain.ChainAfterEveryRun` | database/admin-audit-chain.sql:131-199 | after any mix of committed, aborted and refused appends the sequences are 1..n, every link is the previous hash, the head is the last row, each command has one row per phase, and committed history is never altered |
| `AuditChain.EqualHeadsEqualHistories` | database/admin-audit-chain.sql:131-177 | two valid chains with equal heads carry equal payload histories, or exhibit a collision |
| `AuditChain.EqualHashesEqualHistories` | database/admin-audit-chain.sql:131-177 | with only the last hash equal: equal histories, a collision, or a text whose digest is the 64 zeros of the start |
| `AuditChain.Backfill` | database/admin-audit-chain.sql:20-83 | the migration builds, row by row, the chain the trigger would have built |
| `AuditChain.ReplayIsValid` | database/admin-audit-chain.sql:36-83 | and that chain is valid |
| `AuditChain.AuditTable.InsertEvent` | database/admin-audit-chain.sql:131-177 | one row more, next in sequence and linked to the head, with the caller's columns; command, phase and request are the caller's, or the id, `event` and the id when omitted; or nothing when an index is violated |
| `AuditChain.InsertableIff` | database/admin-audit-chain.sql:118-126 | refused exactly for an id or a hash that is there already, or a second event of the same command and phase other than `event` |
| `AuditChain.GenesisIs` | database/admin-audit-chain.sql:34-41 | the chain starts from sixty-four zeros |
| `AuditChain.CommittedRowsAreInserts` | database/admin-audit-chain.sql:131-199 | in every run the committed rows are, in order, the inserts of the committed transactions and no others, each with what its caller gave |
| `SignInMethods.UserAlwaysKeepsMethod` | src/app/api/admin/users/[userId]/connectors/[provider]/route.ts:41-114 | in every interleaving decided under one set of settings, with a crash or an abort between any two statements, a user who has a usable method keeps one; a change is committed exactly with its `succeeded` event; a command ends at most one way |
| `SignInMethods.CommitLeavesMethod` | src/app/api/admin/users/[userId]/route.ts:187-225 | whatever the preflight saw, each commit leaves a method usable under the settings it was decided with, and none of the sessions it ended |
| `SignInMethods.CommitLeavesExactlySignIns` | src/app/api/admin/users/[userId]/route.ts:216-218 | whatever happens between the delete of the sessions and the commit, the commit leaves exactly the sessions opened in between, so none exactly when nobody signed in |
| `SignInMethods.LateSignInSurvives` | src/app/api/admin/users/[userId]/route.ts:216-218 | every sign-in anywhere between those two statements survives the commit |
| `SignInMethods.EveryCommitLeavesMethod` | src/app/api/admin/users/[userId]/connectors/[provider]/route.ts:77-114 | in every run from a user without requests under way, each request under settings of its own: a change is committed exactly with its `succeeded` event, and whoever can commit leaves a method usable under that request's settings and none of the sessions it ended |
| `SignInMethods.NeverWithoutMethod` | src/app/api/admin/users/[userId]/connectors/[provider]/route.ts:41-114 | if all are decided under one set of settings, a user who starts with a usable method never is without one |
| `SignInMethods.AllowedLeavesMethod` | src/app/api/admin/users/[userId]/connectors/[provider]/route.ts:86-102 | passing the locked check means that what the delete leaves contains a usable method |
| `SignInMethods.SecondRefusedExactlyWhen` | src/app/api/admin/users/[userId]/connectors/[provider]/route.ts:78-96 | of two requests for different methods that both passed the preflight, the second is refused by its locked re-check exactly when every usable method is one of the two being removed |
| `SignInMethods.PreflightsCanBothPass` | src/app/api/admin/users/[userId]/connectors/[provider]/route.ts:41-67 | a user for whom that happens, in either order |
| `SignInMethods.StepKeepsInv` | src/lib/admin-audit.ts:72-107 | statement by statement: a command is started before it ends, ends in one way and belongs to one request; the open transaction holds the account change before, and the `succeeded` event after, and no partial commit exists |
| `SignInMethods.RolledBackIsRecorded` | src/app/api/admin/users/[userId]/connectors/[provider]/route.ts:106-114 | a rolled-back command gets its `failed` event unless that write fails, and nothing else of the user changes |
| `SignInMethods.WhatIsUsable` | src/app/api/admin/users/[userId]/connectors/[provider]/route.ts:55-61 | a password is a method only if set, a connector only if known and configured |
| `SignInMethods.AllowedIff` | src/app/api/admin/users/[userId]/connectors/[provider]/route.ts:86-96 | a change is allowed exactly when the connector is linked and a usable method of another kind remains |
| `SignInMethods.StatementsAmountToCommit` | src/app/api/admin/users/[userId]/connectors/[provider]/route.ts:77-105 | undisturbed, the statements amount to the transaction as a whole |
| `SignInMethods.UserRows.Transact` | src/app/api/admin/users/[userId]/connectors/[provider]/route.ts:77-107 | re-check, delete, end the sessions and record success, or roll back all of it |
| `Artifacts.UploadBody` | src/app/api/owner/artifacts/upload/route.ts:26-86 | for every segmentation the chunks sent are those of the body, in order, at most 100; finalization exactly when the body was read to its end, its length is as declared and every chunk was acknowledged; otherwise which abort, and nothing after it: a refused chunk with its own status or 502, a read that fails with 502, too long with 413, too short with 422 |
| `Artifacts.SendPending` | src/app/api/owner/artifacts/upload/route.ts:57-68 | the inner loop sends full chunks, and the short one only at the end of the body |
| `Artifacts.ReceiveSegments` | src/app/api/owner/artifacts/upload/route.ts:50-70 | sent chunks and the remainder are what was received, until a refusal, an overrun or a read that fails |
| `Artifacts.ChunksPartitionBody` | src/app/api/owner/artifacts/upload/route.ts:57-68 | all chunks but the last have 262,144 bytes, none is empty, together they are the body, and a document within the limit has at most 100 |
| `Artifacts.ArtifactStream.Pull` | src/lib/artifact-stream.ts:46-78 | closes after the last chunk, otherwise enqueues an intact chunk in sequence or errors |
| `Artifacts.Download` | src/lib/artifact-stream.ts:46-78 | the stream completes exactly when every reply is intact and in sequence, and then the output is their data in order |
| `Artifacts.UploadThenDownload` | src/lib/artifact-stream.ts:46-78 | a document uploaded in any segmentation and streamed back is the document |
| `Artifacts.CompleteStreamIsIntact` | src/lib/artifact-stream.ts:64-73 | a completed stream is the document, or exhibits a collision |
| `RateLimit.RateBound` | src/lib/provider-recommendation-rate-limit.ts:36-121 | for every run in order of time, with any other buckets and any pruning, a bucket accepts at most its limit per window and at most twice its limit in any half-open minute |
| `RateLimit.RecommendationBounds` | src/lib/provider-recommendation-rate-limit.ts:8-10 | 30 per client and 600 overall in a window, 60 and 1,200 in any minute |
| `RateLimit.VerificationBounds` | src/lib/public-verification-rate-limit.ts:8-9 | exactly the first 20 of a client in a window are accepted, and at most 40 in any minute |
| `RateLimit.WindowBound` | src/lib/public-verification-rate-limit.ts:37-52 | one bucket: at most the limit per window |
| `RateLimit.WindowCountIsExact` | src/lib/public-verification-rate-limit.ts:37-52 | exactly the first `limit` requests of a window are within the limit |
| `RateLimit.SoleBucketIsExact` | src/lib/public-verification-rate-limit.ts:27-83 | where a request counts in one bucket only, exactly those are accepted |
| `RateLimit.WindowOpens` | src/lib/public-verification-rate-limit.ts:43-51 | a request opens a window when there is none or the last is sixty seconds old, and joins it otherwise |
| `RateLimit.IntervalBound` | src/lib/provider-recommendation-rate-limit.ts:47-62 | one bucket: at most twice the limit in any interval of one window's length |
| `RateLimit.PruningIsInvisible` | src/lib/provider-recommendation-rate-limit.ts:64-75 | pruning never changes a later count or decision |
| `RateLimit.WaitClearsDenials` | src/lib/provider-recommendation-rate-limit.ts:76-121 | after the returned wait, with no calls in between, no denying bucket denies again |
| `RateLimit.RetryAfter` | src/lib/public-verification-rate-limit.ts:66-69 | the wait is the least whole number of seconds, and at least one, that reaches the expiry |
| `RateLimit.Limiter.ConsumeRequest` | src/lib/provider-recommendation-rate-limit.ts:36-121 | every bucket counts the request; accepted when none is over; the wait is the longest of the denying buckets, or of all |
| `CompanyRetry.FingerprintIsServerIdentity` | src/lib/company-provisioning-retry.ts:28-40 | two drafts the server accepts share a fingerprint exactly when it reads the same input from both apart from the command id, or they exhibit a collision |
| `CompanyRetry.FingerprintIs` | src/lib/company-provisioning-retry.ts:28-40 | the lower-cased digest of the normalised draft when it is sixty-four hexadecimal digits, else nothing |
| `CompanyRetry.OneCommandWhileOpen` | src/components/admin/tenant-provisioning-panel.tsx:38-69 | across any run of submits of an unchanged form, reloads and ambiguous replies within a day, every submit sends the same command |
| `CompanyRetry.SubmitOpensRun` | src/lib/company-provisioning-retry.ts:19-45 | the first submit starts such a run, with the new id, the time and the form's fingerprint |
| `CompanyRetry.KeptExactlyWhileOpen` | src/components/admin/tenant-provisioning-panel.tsx:38-69 | a command is kept at every point of a run exactly when every step leaves the outcome open: until success, definite rejection, a changed form or the end of the day |
| `CompanyRetry.LoadedIff` | src/lib/company-provisioning-retry.ts:47-117 | a stored command is taken up exactly when its fingerprint is well formed and it is at most a day old and a minute ahead |
| `CompanyRetry.RepliesThatLeaveOpen` | src/lib/company-provisioning-retry.ts:98-100 | every success and every client error but 408, 425, 429 and 499 settles the matter; any other status leaves it open |
| `CompanyRetry.ValidatedIff` | src/lib/company-provisioning.ts:13-63 | what the server accepts and what it reads from a draft |
| `CompanyRetry.CommandChangesExactlyWhen` | src/lib/company-provisioning-retry.ts:41-117 | a submit uses a new command exactly when the form changed or a day has passed |
| `CompanyRetry.ProvisioningPanel.SubmitDraft` | src/components/admin/tenant-provisioning-panel.tsx:44-51 | the command sent, the ref and the session storage after a submit |
| `CompanyRetry.ProvisioningPanel.OnReply` | src/components/admin/tenant-provisioning-panel.tsx:60-69 | ref and storage are cleared together or not at all |
| `QuestionsExact.QuestionsReadBackIffOk` | src/components/owner/owner-console.tsx:580-593 | a list of questions is read back from its own text exactly when each has trimmed, non-empty fields without the separators of their level, at least one choice and one correct id, and positive points |
| `Questions.LabelsAreCutAtColons` | src/components/owner/owner-console.tsx:580-593 | a list that is well formed but for colons in its labels is read back with every label cut at its first colon, and otherwise unchanged |
| `Questions.QuestionsRoundTrip` | src/components/owner/owner-console.tsx:580-593 | every list of well-formed questions is read back: ids, prompts, types, choices, correct ids and points |
| `Questions.LineIs` | src/components/owner/owner-console.tsx:591-593 | the fields of a line, in order, and the separators between them |
| `QuestionsExact.ParsedIsShaped` | src/components/owner/owner-console.tsx:580-589 | whatever the text, every question read from it has trimmed fields free of their separators |
| `QuestionsExact.ChoicesReadBackIffClean` | src/components/owner/owner-console.tsx:572-578 | a list of choices is read back from its own text exactly when every id and label is trimmed, not empty and free of separators |
| `Questions.ChoiceLineIs` | src/components/owner/owner-console.tsx:576-578 | the two fields of a choice line |
| `QuestionsExact.ColonInLabelIsLost` | src/components/owner/owner-console.tsx:582-592 | no list with a colon in any label is read back from its own text |
| `QuestionsExact.LabelIsCutAtColon` | src/components/owner/owner-console.tsx:582-582 | for every id and label, an entry with label `x:y` is read back as `x`, trimmed, or dropped when nothing precedes the colon |

## Left out

- React rendering, browser event wiring, timers that decide when to flush, HTTP, TLS, JWT, mail composition, settings encryption and deployment: no state worth a theorem, or outside the gateway's own logic.
- The engine's own code: only its tables' keys are used, as a store that keeps one copy per batch id or per session and sequence; checks on other columns of those tables are met by construction or not modelled; `verifyAdminAuditChain` is not part of this model.
- Wall-clock fields of telemetry events and the media position, duration and rate: the queue never looks at them. Media event types are represented by the activity recorder's.
- `activityId` being empty, which switches every recorder off.
- Strings are sequences of Unicode scalar values: JavaScript's lengths and sort order count UTF-16 code units, which differ outside the basic plane. Lower-casing in addresses and file names is ASCII.
- ClientAddress.NormalTextParsesBack: asks that the platform's IPv6 test accept the printed text, because that test is a parameter.
- ClientAddress.NetworkAcceptedIffCanonical: JavaScript's `Number` coercion of the prefix is a parameter.
- The list of trusted networks as configured (duplicates, limits, lower-casing of the entries) would add easy members.
- Email trimming and validity in `createInvitation`, the `uuid` test, and the audit rows written beside an invitation; a call starts from a valid request.
- User deletion, which nulls `invitedBy`, and a commit whose success is reported as an error.
- MX record validation, provider classification and the list of consumer domains: pure case analysis. The end of a lookup and its removal from the in-flight map are one step.
- Pruning order: the model lets a request prune any rows the statement could, up to a hundred.
- RateLimit.Limiter.ConsumeRequest: takes the digests of its buckets as distinct, and leaves out the checks of malformed rows, which the statement cannot return.
- RateLimit.RateBound: takes the pruning clock to be less than a day after the observation in the same statement.
- ManifestAcceptance.AcceptedIffPresented: asks that `JSON.parse` read back what the printer wrote, because the parser is a parameter; `ManifestAcceptance.SomeParserReadsAll` shows that this can hold for all manifests at once.
- The checks of manifest files before decoding, and the summary counts returned beside the approval.
- AuditChain.Backfill: the rows are given in the order of the loop's `order by`; the check constraints on column lengths are not modelled.
- Row locks on a user's accounts are modelled as one lock per user, which is what overlapping `select ... for update` amount to.
- `externalMutation` and its `ambiguous` phase: an external call with no state of its own.
- CompanyRetry.OneCommandWhileOpen: the digest and the session storage work; the UUID test of a stored command and the JSON text of the stored record are left out.
- Base64 of chunks, and finalize and abort replies, which the route forwards.
- QuestionsExact.QuestionsReadBackIffOk: points are non-negative integers or unreadable; JavaScript prints and reads other numbers too.
