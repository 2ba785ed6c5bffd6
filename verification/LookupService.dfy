/** `withLookupSlot` (src/lib/provider-recommendation.ts): every lookup that the recommender starts
    takes a slot of the semaphore or waits for one, runs its resolver inside it, gives it back, and
    only then settles. A refused place in the queue and a queue timeout are what ends a lookup
    without an answer before its resolver ran. */
module LookupService {
  import opened Options
  import S = LookupSlots
  import R = RecommendationCache

  /** A lookup inside `withLookupSlot`, waiting or running; or past it, with its result. */
  datatype Lookup = Slotted(ticket: nat) | Ended(ticket: nat, result: R.Result)

  datatype World = World(slots: S.Slots, service: R.Service, lookups: map<nat, Lookup>)

  const Start := World(S.Start, R.Start, map[])

  datatype Step =
    | Ask(caller: nat, domain: string, now: int, lookup: nat)
    | QueueTimeout(lookup: nat)
    | ResolverEnds(lookup: nat, result: R.Result)
    | Settle(lookup: nat, now: int)

  /** The resolver of this lookup is running: its slot is granted and not released. */
  predicate Running(w: World, l: nat) {
    l in w.lookups && w.lookups[l].Slotted? && w.lookups[l].ticket in w.slots.granted - w.slots.released
  }

  predicate Waiting(w: World, l: nat) {
    l in w.lookups && w.lookups[l].Slotted? && w.lookups[l].ticket in w.slots.waiters
  }

  /** The request is neither answered from the cache nor joined to a lookup in flight. */
  predicate StartsLookup(s: R.Service, domain: string, now: int) {
    !R.Hit(s, domain, now) && domain !in s.inFlight
  }

  predicate Enabled(w: World, step: Step) {
    match step
    case Ask(caller, domain, now, lookup) => R.Enabled(w.service, R.AskStep(caller, domain, now, lookup))
    case QueueTimeout(l) => Waiting(w, l)
    case ResolverEnds(l, r) => Running(w, l)
    case Settle(l, now) =>
      && l in w.lookups && w.lookups[l].Ended? && l in w.service.started && l !in w.service.settled
      && w.service.started[l] in w.service.inFlight && now >= w.service.clock
  }

  function Apply(w: World, step: Step): World
    requires Enabled(w, step)
  {
    match step
    case Ask(caller, domain, now, l) =>
      var asked := w.(service := R.Ask(w.service, caller, domain, now, l));
      if StartsLookup(w.service, domain, now) then
        asked.(slots := S.Acquire(w.slots), lookups := w.lookups[l := Started(w.slots)])
      else asked
    case QueueTimeout(l) =>
      var t := w.lookups[l].ticket;
      w.(slots := S.Timeout(w.slots, t), lookups := w.lookups[l := Ended(t, R.NoAnswer)])
    case ResolverEnds(l, r) =>
      var t := w.lookups[l].ticket;
      w.(slots := S.Release(w.slots, t), lookups := w.lookups[l := Ended(t, r)])
    case Settle(l, now) =>
      w.(service := R.Settle(w.service, w.service.started[l], w.lookups[l].result, now))
  }

  predicate ValidRun(w: World, steps: seq<Step>)
    decreases |steps|
  {
    steps == [] || (Enabled(w, steps[0]) && ValidRun(Apply(w, steps[0]), steps[1..]))
  }

  function Run(w: World, steps: seq<Step>): World
    requires ValidRun(w, steps)
    decreases |steps|
  {
    if steps == [] then w else Run(Apply(w, steps[0]), steps[1..])
  }

  // ----- Tickets in use -----

  /** The ticket waits or holds a slot. */
  predicate IsLive(s: S.Slots, t: nat) { t in s.waiters || (t in s.granted && t !in s.released) }

  /** From `s` to `s'` exactly `t` goes out of use. */
  ghost predicate GivenBack(s: S.Slots, s': S.Slots, t: nat) {
    s'.next == s.next && forall u: nat :: IsLive(s', u) <==> IsLive(s, u) && u != t
  }

  lemma LiveAfterAcquire(s: S.Slots)
    requires S.LeavesOnce(s) && S.Counted(s)
    ensures forall u: nat | IsLive(s, u) :: u < s.next
    ensures forall u: nat :: IsLive(S.Acquire(s), u) <==> IsLive(s, u) || (u == s.next && S.AcquireOutcome(s) != S.Refused)
  {
    forall u: nat | IsLive(s, u) ensures u < s.next { assert u in s.waiters ==> u in s.enqueued; }
  }

  lemma LiveAfterRelease(s: S.Slots, t: nat)
    requires S.LeavesOnce(s) && S.Fifo(s) && S.Counted(s) && t in s.granted && t !in s.released
    ensures GivenBack(s, S.Release(s, t), t)
  {
    var s' := S.Release(s, t);
    if s.waiters != [] {
      var u := s.waiters[0];
      assert s.waiters == [u] + s'.waiters;
      assert u in s.waiters;
      forall i | 0 <= i < |s'.waiters| ensures s'.waiters[i] != u {
        assert (s.activated + s.waiters)[|s.activated|] < (s.activated + s.waiters)[|s.activated| + 1 + i];
      }
    }
  }

  lemma LiveAfterTimeout(s: S.Slots, t: nat)
    requires S.LeavesOnce(s) && S.Fifo(s) && t in s.waiters
    ensures GivenBack(s, S.Timeout(s, t), t)
  {
    assert S.Increasing(s.waiters) by {
      assert forall i | 0 <= i < |s.waiters| :: s.waiters[i] == (s.activated + s.waiters)[|s.activated| + i];
    }
    S.RemoveTakesOut(s.waiters, t);
  }

  // ----- The invariant that joins the two machines -----

  predicate HasTicket(lookups: map<nat, Lookup>, l: nat, t: nat) { l in lookups && lookups[l] == Slotted(t) }

  ghost predicate Owned(lookups: map<nat, Lookup>, t: nat) { exists l: nat :: HasTicket(lookups, l, t) }

  /** Tickets in use belong each to one lookup inside `withLookupSlot`, and to no other. */
  ghost predicate Matched(slots: S.Slots, lookups: map<nat, Lookup>) {
    && (forall t: nat :: IsLive(slots, t) <==> Owned(lookups, t))
    && (forall l: nat, m: nat, t: nat | HasTicket(lookups, l, t) && HasTicket(lookups, m, t) :: l == m)
    && (forall l | l in lookups :: lookups[l].ticket < slots.next)
    && (forall l | l in lookups && lookups[l].Ended? :: !IsLive(slots, lookups[l].ticket))
  }

  /** Every started lookup is accounted for, and a settled one is past its slot. */
  ghost predicate Accounted(service: R.Service, lookups: map<nat, Lookup>) {
    && lookups.Keys == service.started.Keys
    && (forall l | l in service.settled :: l in lookups && lookups[l].Ended? && service.settled[l] == R.Answered(lookups[l].result))
  }

  ghost predicate Inv(w: World) {
    S.Inv(w.slots) && R.Inv(w.service) && Matched(w.slots, w.lookups) && Accounted(w.service, w.lookups)
  }

  lemma OwnedAfterStart(lookups: map<nat, Lookup>, l: nat, x: Lookup, t: nat)
    requires l !in lookups
    ensures Owned(lookups[l := x], t) <==> Owned(lookups, t) || x == Slotted(t)
  {
    var after := lookups[l := x];
    if m: nat :| HasTicket(lookups, m, t) { assert HasTicket(after, m, t); }
    if x == Slotted(t) { assert HasTicket(after, l, t); }
    if m: nat :| HasTicket(after, m, t) { assert m == l || HasTicket(lookups, m, t); }
  }

  lemma OwnedAfterEnd(lookups: map<nat, Lookup>, l: nat, u: nat, r: R.Result, t: nat)
    requires HasTicket(lookups, l, u)
    requires forall m: nat | HasTicket(lookups, m, u) :: m == l
    ensures Owned(lookups[l := Ended(u, r)], t) <==> Owned(lookups, t) && t != u
  {
    var after := lookups[l := Ended(u, r)];
    if m: nat :| HasTicket(lookups, m, t) { assert t != u ==> HasTicket(after, m, t); }
    if m: nat :| HasTicket(after, m, t) { assert HasTicket(lookups, m, t); }
  }

  function Started(slots: S.Slots): Lookup {
    if S.AcquireOutcome(slots) == S.Refused then Ended(slots.next, R.NoAnswer) else Slotted(slots.next)
  }

  /** A lookup that starts takes a fresh ticket, or is refused. */
  lemma StartKeepsMatched(slots: S.Slots, lookups: map<nat, Lookup>, l: nat)
    requires S.LeavesOnce(slots) && S.Counted(slots) && Matched(slots, lookups) && l !in lookups
    ensures Matched(S.Acquire(slots), lookups[l := Started(slots)])
  {
    LiveAfterAcquire(slots);
    NewTicketMatched(slots, S.Acquire(slots), lookups, l, Started(slots));
  }

  lemma NewTicketMatched(slots: S.Slots, slots': S.Slots, lookups: map<nat, Lookup>, l: nat, x: Lookup)
    requires Matched(slots, lookups) && l !in lookups && x.ticket == slots.next && slots'.next == slots.next + 1
    requires !IsLive(slots, slots.next)
    requires forall u: nat :: IsLive(slots', u) <==> IsLive(slots, u) || x == Slotted(u)
    ensures Matched(slots', lookups[l := x])
  {
    var after := lookups[l := x];
    forall t: nat ensures IsLive(slots', t) <==> Owned(after, t) { OwnedAfterStart(lookups, l, x, t); }
    forall m: nat, n: nat, t: nat | HasTicket(after, m, t) && HasTicket(after, n, t) ensures m == n {
      if m != l && n != l {
        assert HasTicket(lookups, m, t) && HasTicket(lookups, n, t);
      } else {
        assert t == slots.next;
        assert !Owned(lookups, t);
        assert !HasTicket(lookups, m, t) && !HasTicket(lookups, n, t);
      }
    }
  }

  /** A lookup that leaves `withLookupSlot` gives its ticket back. */
  lemma EndKeepsMatched(slots: S.Slots, slots': S.Slots, lookups: map<nat, Lookup>, l: nat, u: nat, r: R.Result)
    requires Matched(slots, lookups) && HasTicket(lookups, l, u) && GivenBack(slots, slots', u)
    ensures Matched(slots', lookups[l := Ended(u, r)])
  {
    var after := lookups[l := Ended(u, r)];
    forall t: nat ensures IsLive(slots', t) <==> Owned(after, t) { OwnedAfterEnd(lookups, l, u, r, t); }
    forall m: nat, n: nat, t: nat | HasTicket(after, m, t) && HasTicket(after, n, t) ensures m == n {
      assert HasTicket(lookups, m, t) && HasTicket(lookups, n, t);
    }
  }

  // ----- Each step -----

  lemma AskKeepsSlots(w: World, caller: nat, domain: string, now: int, l: nat)
    requires Inv(w) && Enabled(w, Ask(caller, domain, now, l))
    ensures var w' := Apply(w, Ask(caller, domain, now, l)); S.Inv(w'.slots) && Matched(w'.slots, w'.lookups)
  {
    if StartsLookup(w.service, domain, now) {
      S.AcquireKeepsInv(w.slots);
      StartKeepsMatched(w.slots, w.lookups, l);
    }
  }

  lemma AskKeepsAccounted(s: R.Service, lookups: map<nat, Lookup>, caller: nat, domain: string, now: int, l: nat, x: Lookup)
    requires Accounted(s, lookups) && l !in s.settled
    ensures Accounted(R.Ask(s, caller, domain, now, l), if StartsLookup(s, domain, now) then lookups[l := x] else lookups)
  {
    AskHistory(s, caller, domain, now, l);
  }

  lemma AskHistory(s: R.Service, caller: nat, domain: string, now: int, l: nat)
    ensures var s' := R.Ask(s, caller, domain, now, l);
            && s'.settled == s.settled
            && s'.started == if StartsLookup(s, domain, now) then s.started[l := domain] else s.started
  {}

  lemma AskKeepsInv(w: World, caller: nat, domain: string, now: int, l: nat)
    requires Inv(w) && Enabled(w, Ask(caller, domain, now, l))
    ensures Inv(Apply(w, Ask(caller, domain, now, l)))
  {
    AskKeepsSlots(w, caller, domain, now, l);
    AskKeepsAccounted(w.service, w.lookups, caller, domain, now, l, Started(w.slots));
    R.StepKeepsInv(w.service, R.AskStep(caller, domain, now, l));
  }

  lemma EndKeepsAccounted(s: R.Service, lookups: map<nat, Lookup>, l: nat, e: Lookup)
    requires Accounted(s, lookups) && l in lookups && lookups[l].Slotted? && e.Ended?
    ensures Accounted(s, lookups[l := e])
  {}

  lemma TimeoutKeepsSlots(slots: S.Slots, lookups: map<nat, Lookup>, l: nat, t: nat)
    requires S.Inv(slots) && Matched(slots, lookups) && HasTicket(lookups, l, t) && t in slots.waiters
    ensures S.Inv(S.Timeout(slots, t)) && Matched(S.Timeout(slots, t), lookups[l := Ended(t, R.NoAnswer)])
  {
    S.TimeoutKeepsInv(slots, t);
    LiveAfterTimeout(slots, t);
    EndKeepsMatched(slots, S.Timeout(slots, t), lookups, l, t, R.NoAnswer);
  }

  lemma TimeoutKeepsInv(w: World, l: nat)
    requires Inv(w) && Enabled(w, QueueTimeout(l))
    ensures Inv(Apply(w, QueueTimeout(l)))
  {
    var t := w.lookups[l].ticket;
    TimeoutKeepsSlots(w.slots, w.lookups, l, t);
    EndKeepsAccounted(w.service, w.lookups, l, Ended(t, R.NoAnswer));
  }

  lemma ReleaseKeepsSlots(slots: S.Slots, lookups: map<nat, Lookup>, l: nat, t: nat, r: R.Result)
    requires S.Inv(slots) && Matched(slots, lookups) && HasTicket(lookups, l, t) && t in slots.granted && t !in slots.released
    ensures S.Inv(S.Release(slots, t)) && Matched(S.Release(slots, t), lookups[l := Ended(t, r)])
  {
    S.ReleaseKeepsInv(slots, t);
    LiveAfterRelease(slots, t);
    EndKeepsMatched(slots, S.Release(slots, t), lookups, l, t, r);
  }

  lemma ResolverKeepsInv(w: World, l: nat, r: R.Result)
    requires Inv(w) && Enabled(w, ResolverEnds(l, r))
    ensures Inv(Apply(w, ResolverEnds(l, r)))
  {
    var t := w.lookups[l].ticket;
    ReleaseKeepsSlots(w.slots, w.lookups, l, t, r);
    EndKeepsAccounted(w.service, w.lookups, l, Ended(t, r));
  }

  lemma SettleKeepsInv(w: World, l: nat, now: int)
    requires Inv(w) && Enabled(w, Settle(l, now))
    ensures Inv(Apply(w, Settle(l, now)))
  {
    var domain := w.service.started[l];
    assert w.service.inFlight[domain] == l;
    R.StepKeepsInv(w.service, R.SettleStep(domain, w.lookups[l].result, now));
  }

  lemma StepKeepsInv(w: World, step: Step)
    requires Inv(w) && Enabled(w, step)
    ensures Inv(Apply(w, step))
  {
    match step
    case Ask(caller, domain, now, l) => AskKeepsInv(w, caller, domain, now, l);
    case QueueTimeout(l) => TimeoutKeepsInv(w, l);
    case ResolverEnds(l, r) => ResolverKeepsInv(w, l, r);
    case Settle(l, now) => SettleKeepsInv(w, l, now);
  }

  lemma {:induction false} RunKeepsInv(w: World, steps: seq<Step>)
    requires Inv(w) && ValidRun(w, steps)
    ensures Inv(Run(w, steps))
    decreases |steps|
  {
    if steps != [] {
      StepKeepsInv(w, steps[0]);
      RunKeepsInv(Apply(w, steps[0]), steps[1..]);
    }
  }

  // ----- Resolvers and slots -----

  ghost function Runners(w: World): set<nat> { set l | l in w.lookups && Running(w, l) }

  /** An injective image is as large as the set. */
  lemma {:induction false} ImageSize(ls: set<nat>, lookups: map<nat, Lookup>)
    requires forall l | l in ls :: l in lookups
    requires forall l, m | l in ls && m in ls && lookups[l].ticket == lookups[m].ticket :: l == m
    ensures |set l | l in ls :: lookups[l].ticket| == |ls|
    decreases |ls|
  {
    var image := set l | l in ls :: lookups[l].ticket;
    if ls == {} {
      assert image == {};
    } else {
      var l :| l in ls;
      var rest := ls - {l};
      ImageSize(rest, lookups);
      var restImage := set m | m in rest :: lookups[m].ticket;
      assert image == restImage + {lookups[l].ticket};
      assert lookups[l].ticket !in restImage;
    }
  }

  /** A lookup inside `withLookupSlot` runs or waits. */
  lemma SlottedRunsOrWaits(w: World, l: nat)
    requires Matched(w.slots, w.lookups) && l in w.lookups && w.lookups[l].Slotted?
    ensures Running(w, l) || Waiting(w, l)
  {
    assert HasTicket(w.lookups, l, w.lookups[l].ticket);
    assert IsLive(w.slots, w.lookups[l].ticket);
  }

  lemma EndedIsOut(w: World, l: nat)
    requires Matched(w.slots, w.lookups) && l in w.lookups && w.lookups[l].Ended?
    ensures !Running(w, l) && !Waiting(w, l)
  {}

  /** The tickets of running resolvers are the slots in use. */
  lemma RunnersAreActive(w: World)
    requires S.Counted(w.slots) && Matched(w.slots, w.lookups)
    ensures |Runners(w)| == w.slots.active
  {
    var ls := Runners(w);
    var image := set l | l in ls :: w.lookups[l].ticket;
    forall t | t in w.slots.granted - w.slots.released ensures t in image {
      assert IsLive(w.slots, t);
      var l: nat :| HasTicket(w.lookups, l, t);
      assert Running(w, l) && l in ls;
    }
    assert image == w.slots.granted - w.slots.released;
    forall l, m | l in ls && m in ls && w.lookups[l].ticket == w.lookups[m].ticket ensures l == m {
      assert HasTicket(w.lookups, l, w.lookups[l].ticket) && HasTicket(w.lookups, m, w.lookups[l].ticket);
    }
    ImageSize(ls, w.lookups);
  }

  /** In every run: the running resolvers are as many as the slots in use, so at most sixteen; a
      settled lookup neither waits nor holds a slot; and a lookup that has not settled waits, runs,
      or is about to settle. */
  lemma ResolversAreBounded(steps: seq<Step>)
    requires ValidRun(Start, steps)
    ensures var w := Run(Start, steps);
            && |Runners(w)| == w.slots.active <= S.MAX_CONCURRENT
            && (forall l | l in w.service.settled :: !Running(w, l) && !Waiting(w, l))
            && (forall l | l in w.service.started && l !in w.service.settled ::
                  Running(w, l) || Waiting(w, l) || (l in w.lookups && w.lookups[l].Ended?))
  {
    StartIsOk();
    RunKeepsInv(Start, steps);
    var w := Run(Start, steps);
    RunnersAreActive(w);
    SettledAreOut(w);
  }

  lemma StartIsOk()
    ensures Inv(Start)
  {
    forall t: nat ensures IsLive(Start.slots, t) <==> Owned(Start.lookups, t) {}
  }

  lemma SettledAreOut(w: World)
    requires Matched(w.slots, w.lookups) && Accounted(w.service, w.lookups)
    ensures forall l | l in w.service.settled :: !Running(w, l) && !Waiting(w, l)
    ensures forall l | l in w.service.started && l !in w.service.settled ::
              Running(w, l) || Waiting(w, l) || (l in w.lookups && w.lookups[l].Ended?)
  {
    forall l | l in w.service.settled ensures !Running(w, l) && !Waiting(w, l) { EndedIsOut(w, l); }
    forall l | l in w.service.started && w.lookups[l].Slotted? ensures Running(w, l) || Waiting(w, l) {
      SlottedRunsOrWaits(w, l);
    }
  }

  /** In every run, once no lookup is in flight every slot is free and nobody waits: no slot leaks. */
  lemma NoSlotLeaks(steps: seq<Step>)
    requires ValidRun(Start, steps) && Run(Start, steps).service.inFlight == map[]
    ensures Run(Start, steps).slots.active == 0 && Run(Start, steps).slots.waiters == []
  {
    StartIsOk();
    RunKeepsInv(Start, steps);
    IdleHoldsNothing(Run(Start, steps));
  }

  lemma IdleHoldsNothing(w: World)
    requires S.Counted(w.slots) && Matched(w.slots, w.lookups) && Accounted(w.service, w.lookups)
    requires R.FlightInv(w.service) && w.service.inFlight == map[]
    ensures w.slots.active == 0 && w.slots.waiters == []
  {
    forall i | 0 <= i < |w.slots.waiters| ensures IsLive(w.slots, w.slots.waiters[i]) {}
    forall l | l in w.lookups ensures w.lookups[l].Ended? { assert l in w.service.settled; }
    forall t: nat ensures !IsLive(w.slots, t) { assert !Owned(w.lookups, t); }
    assert w.slots.granted - w.slots.released == {} by {
      forall t | t in w.slots.granted - w.slots.released ensures IsLive(w.slots, t) {}
    }
  }

  // ----- How lookups end -----

  /** A lookup that ended without ever being granted a slot has no answer, and either was never
      admitted to the queue or timed out in it. */
  ghost predicate Explained(slots: S.Slots, lookups: map<nat, Lookup>) {
    forall l | l in lookups && lookups[l].Ended? && lookups[l].ticket !in slots.granted ::
      && lookups[l].result == R.NoAnswer
      && (lookups[l].ticket in slots.timedOut || lookups[l].ticket !in slots.enqueued)
  }

  /** The history of a ticket that is out of use does not change. */
  lemma HistoryStands(w: World, step: Step, t: nat)
    requires Enabled(w, step) && t < w.slots.next && t !in w.slots.waiters
    ensures var s' := Apply(w, step).slots;
            && (t in s'.granted <==> t in w.slots.granted) && (t in s'.enqueued <==> t in w.slots.enqueued)
            && (t in w.slots.timedOut ==> t in s'.timedOut)
  {}

  lemma StepKeepsExplained(w: World, step: Step)
    requires Inv(w) && Explained(w.slots, w.lookups) && Enabled(w, step)
    ensures Explained(Apply(w, step).slots, Apply(w, step).lookups)
  {
    var w' := Apply(w, step);
    forall l | l in w'.lookups && w'.lookups[l].Ended? && w'.lookups[l].ticket !in w'.slots.granted
      ensures w'.lookups[l].result == R.NoAnswer
      ensures w'.lookups[l].ticket in w'.slots.timedOut || w'.lookups[l].ticket !in w'.slots.enqueued
    {
      if l in w.lookups && w.lookups[l] == w'.lookups[l] {
        HistoryStands(w, step, w.lookups[l].ticket);
      } else {
        NewlyEnded(w, step, l);
      }
    }
  }

  /** How a lookup ends in one step. */
  lemma NewlyEnded(w: World, step: Step, l: nat)
    requires S.LeavesOnce(w.slots) && Enabled(w, step)
    requires l in Apply(w, step).lookups && Apply(w, step).lookups[l].Ended?
    requires !(l in w.lookups && w.lookups[l] == Apply(w, step).lookups[l])
    ensures var w' := Apply(w, step); var t := w'.lookups[l].ticket;
            t in w'.slots.granted || (w'.lookups[l].result == R.NoAnswer && (t in w'.slots.timedOut || t !in w'.slots.enqueued))
  {}

  lemma {:induction false} RunKeepsExplained(w: World, steps: seq<Step>)
    requires Inv(w) && Explained(w.slots, w.lookups) && ValidRun(w, steps)
    ensures Explained(Run(w, steps).slots, Run(w, steps).lookups)
    decreases |steps|
  {
    if steps != [] {
      StepKeepsInv(w, steps[0]);
      StepKeepsExplained(w, steps[0]);
      RunKeepsExplained(Apply(w, steps[0]), steps[1..]);
    }
  }

  /** A lookup that was granted a slot ended with what its resolver gave. */
  ghost predicate ResultsGiven(w: World, given: seq<Step>) {
    forall l | l in w.lookups && w.lookups[l].Ended? && w.lookups[l].ticket in w.slots.granted ::
      ResolverEnds(l, w.lookups[l].result) in given
  }

  lemma StepGivesResults(w: World, step: Step, given: seq<Step>)
    requires Inv(w) && ResultsGiven(w, given) && Enabled(w, step) && step in given
    ensures ResultsGiven(Apply(w, step), given)
  {
    var w' := Apply(w, step);
    forall l | l in w'.lookups && w'.lookups[l].Ended? && w'.lookups[l].ticket in w'.slots.granted
      ensures ResolverEnds(l, w'.lookups[l].result) in given
    {
      if l in w.lookups && w.lookups[l] == w'.lookups[l] {
        HistoryStands(w, step, w.lookups[l].ticket);
        assert ResolverEnds(l, w.lookups[l].result) in given;
      } else {
        GrantedEndIsResolvers(w, step, l);
      }
    }
  }

  lemma GrantedEndIsResolvers(w: World, step: Step, l: nat)
    requires S.LeavesOnce(w.slots) && Enabled(w, step)
    requires l in Apply(w, step).lookups && Apply(w, step).lookups[l].Ended?
    requires !(l in w.lookups && w.lookups[l] == Apply(w, step).lookups[l])
    requires Apply(w, step).lookups[l].ticket in Apply(w, step).slots.granted
    ensures step == ResolverEnds(l, Apply(w, step).lookups[l].result)
  {}

  lemma {:induction false} RunGivesResults(w: World, steps: seq<Step>, given: seq<Step>)
    requires Inv(w) && ResultsGiven(w, given) && ValidRun(w, steps) && forall step | step in steps :: step in given
    ensures ResultsGiven(Run(w, steps), given)
    decreases |steps|
  {
    if steps != [] {
      StepKeepsInv(w, steps[0]);
      StepGivesResults(w, steps[0], given);
      RunGivesResults(Apply(w, steps[0]), steps[1..], given);
    }
  }

  /** In every run a lookup whose slot was granted settles with the result of its own resolver: the
      provider of an answer, and none after anything else. */
  lemma SettledAsResolved(steps: seq<Step>, l: nat)
    requires ValidRun(Start, steps) && l in Run(Start, steps).service.settled
    requires l in Run(Start, steps).lookups && Run(Start, steps).lookups[l].ticket in Run(Start, steps).slots.granted
    ensures exists r :: ResolverEnds(l, r) in steps && Run(Start, steps).service.settled[l] == if r.Answer? then r.provider else None
  {
    StartIsOk();
    RunKeepsInv(Start, steps);
    RunGivesResults(Start, steps, steps);
    assert ResolverEnds(l, Run(Start, steps).lookups[l].result) in steps;
  }

  /** In every run a lookup whose resolver never ran, because its slot was never granted, ends
      without an answer, and only because the queue was full when it started or because its place in
      the queue timed out; and once it is settled its callers get no provider. */
  lemma UnansweredIsRefusedOrTimedOut(steps: seq<Step>, l: nat)
    requires ValidRun(Start, steps) && l in Run(Start, steps).lookups && Run(Start, steps).lookups[l].Ended?
    requires Run(Start, steps).lookups[l].ticket !in Run(Start, steps).slots.granted
    ensures var w := Run(Start, steps);
            && w.lookups[l].result == R.NoAnswer
            && (w.lookups[l].ticket in w.slots.timedOut || w.lookups[l].ticket !in w.slots.enqueued)
            && (l in w.service.settled ==> w.service.settled[l] == None)
  {
    StartIsOk();
    RunKeepsInv(Start, steps);
    RunKeepsExplained(Start, steps);
  }
}
