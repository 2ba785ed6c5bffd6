/** The semaphore around MX lookups (src/lib/provider-recommendation.ts): sixteen slots, a
    first-in-first-out queue of sixty-four places with timeouts, and release handles that may
    be called twice. A ticket names one call of `acquireLookupSlot`. */
module LookupSlots {

  const MAX_CONCURRENT := 16
  const MAX_QUEUED := 64

  /** `granted` are the tickets that hold a release handle and `released` those whose handle was
      used; `enqueued`, `activated` and `timedOut` are history. */
  datatype Slots = Slots(
    active: int, waiters: seq<nat>, granted: set<nat>, released: set<nat>, next: nat,
    enqueued: set<nat>, activated: seq<nat>, timedOut: set<nat>)

  const Start := Slots(0, [], {}, {}, 0, {}, [], {})

  datatype Outcome = Granted | Queued | Refused

  function AcquireOutcome(s: Slots): Outcome {
    if s.active < MAX_CONCURRENT then Granted
    else if |s.waiters| >= MAX_QUEUED then Refused
    else Queued
  }

  function Acquire(s: Slots): Slots {
    var t := s.next;
    match AcquireOutcome(s)
    case Granted => s.(next := t + 1, active := s.active + 1, granted := s.granted + {t})
    case Queued => s.(next := t + 1, waiters := s.waiters + [t], enqueued := s.enqueued + {t})
    case Refused => s.(next := t + 1)
  }

  function Activate(s: Slots): Slots {
    if s.waiters == [] then s
    else
      var t := s.waiters[0];
      s.(waiters := s.waiters[1..], active := s.active + 1, granted := s.granted + {t}, activated := s.activated + [t])
  }

  /** A release handle: only its first call counts. */
  function Release(s: Slots, t: nat): Slots {
    if t in s.released then s
    else Activate(s.(released := s.released + {t}, active := s.active - 1))
  }

  function Remove(waiters: seq<nat>, t: nat): seq<nat> {
    if waiters == [] then []
    else if waiters[0] == t then waiters[1..]
    else [waiters[0]] + Remove(waiters[1..], t)
  }

  /** A waiter's timer; it finds nothing to do if the waiter has left. */
  function Timeout(s: Slots, t: nat): Slots {
    if t in s.waiters then s.(waiters := Remove(s.waiters, t), timedOut := s.timedOut + {t}) else s
  }

  // ----- The module's variables, changed in place -----

  class Scheduler {
    var active: int
    var waiters: seq<nat>
    var granted: set<nat>
    var released: set<nat>
    var next: nat
    ghost var enqueued: set<nat>
    ghost var activated: seq<nat>
    ghost var timedOut: set<nat>

    ghost function State(): Slots
      reads this
    {
      Slots(active, waiters, granted, released, next, enqueued, activated, timedOut)
    }

    constructor ()
      ensures State() == Start
    {
      active, waiters, granted, released, next := 0, [], {}, {}, 0;
      enqueued, activated, timedOut := {}, [], {};
    }

    method AcquireSlot() returns (ticket: nat, outcome: Outcome)
      modifies this
      ensures ticket == old(next) && outcome == AcquireOutcome(old(State()))
      ensures State() == Acquire(old(State()))
    {
      ticket := next;
      next := next + 1;
      if active < MAX_CONCURRENT {
        active := active + 1;
        granted := granted + {ticket};
        return ticket, Granted;
      }
      if |waiters| >= MAX_QUEUED { return ticket, Refused; }
      waiters := waiters + [ticket];
      enqueued := enqueued + {ticket};
      outcome := Queued;
    }

    method ReleaseSlot(ticket: nat)
      modifies this
      ensures State() == Release(old(State()), ticket)
    {
      if ticket in released { return; }
      released := released + {ticket};
      active := active - 1;
      if waiters == [] { return; }
      var waiter := waiters[0];
      waiters := waiters[1..];
      active := active + 1;
      granted := granted + {waiter};
      activated := activated + [waiter];
    }

    /** `indexOf` and `splice`. */
    method TimeoutWaiter(ticket: nat)
      modifies this
      ensures State() == Timeout(old(State()), ticket)
    {
      var index := 0;
      while index < |waiters| && waiters[index] != ticket
        invariant 0 <= index <= |waiters| && State() == old(State())
        invariant Remove(waiters, ticket) == waiters[..index] + Remove(waiters[index..], ticket)
        invariant ticket !in waiters[..index]
      {
        RemoveSkips(waiters, index, ticket);
        index := index + 1;
      }
      if index < |waiters| {
        RemoveHere(waiters, index, ticket);
        waiters := waiters[..index] + waiters[index + 1..];
        timedOut := timedOut + {ticket};
      } else {
        assert waiters[..index] == waiters;
      }
    }
  }

  lemma RemoveSkips(ts: seq<nat>, i: nat, t: nat)
    requires i < |ts| && ts[i] != t
    ensures ts[..i] + Remove(ts[i..], t) == ts[..i + 1] + Remove(ts[i + 1..], t)
    ensures t in ts[..i + 1] <==> t in ts[..i]
  {
    assert ts[i..][1..] == ts[i + 1..];
    assert ts[..i + 1] == ts[..i] + [ts[i]];
  }

  lemma RemoveHere(ts: seq<nat>, i: nat, t: nat)
    requires i < |ts| && ts[i] == t
    ensures Remove(ts[i..], t) == ts[i + 1..] && t in ts
  {
    assert ts[i..][0] == t && ts[i..][1..] == ts[i + 1..];
  }

  // ----- Runs -----

  datatype Step = AcquireStep | ReleaseStep(t: nat) | TimeoutStep(t: nat)

  /** A release handle exists only for a granted ticket, a timer only for an enqueued one; both
      may be used again and late. */
  predicate Enabled(s: Slots, step: Step) {
    match step
    case AcquireStep => true
    case ReleaseStep(t) => t in s.granted
    case TimeoutStep(t) => t in s.enqueued
  }

  function Apply(s: Slots, step: Step): Slots {
    match step
    case AcquireStep => Acquire(s)
    case ReleaseStep(t) => Release(s, t)
    case TimeoutStep(t) => Timeout(s, t)
  }

  predicate ValidRun(s: Slots, steps: seq<Step>)
    decreases |steps|
  {
    steps == [] || (Enabled(s, steps[0]) && ValidRun(Apply(s, steps[0]), steps[1..]))
  }

  function Run(s: Slots, steps: seq<Step>): Slots
    decreases |steps|
  {
    if steps == [] then s else Run(Apply(s, steps[0]), steps[1..])
  }

  // ----- The inductive invariant -----

  predicate Increasing(ts: seq<nat>) { forall i, j | 0 <= i < j < |ts| :: ts[i] < ts[j] }

  /** Slots in use are the granted, unreleased ones. */
  predicate Counted(s: Slots) {
    && s.released <= s.granted && s.active == |s.granted - s.released|
    && s.active <= MAX_CONCURRENT && |s.waiters| <= MAX_QUEUED
    && (s.waiters != [] ==> s.active == MAX_CONCURRENT)
  }

  /** The queue is in order of arrival, and everybody activated so far arrived before it. */
  predicate Fifo(s: Slots) {
    && Increasing(s.activated + s.waiters)
    && (forall i | 0 <= i < |s.waiters| :: s.waiters[i] < s.next)
    && (forall i | 0 <= i < |s.activated| :: s.activated[i] < s.next)
  }

  /** Every enqueued ticket is still waiting, was activated, or timed out: exactly one of these. */
  ghost predicate LeavesOnce(s: Slots) {
    && (forall t | t in s.enqueued :: t < s.next)
    && (forall t | t in s.granted :: t < s.next)
    && (forall t :: t in s.enqueued <==> t in s.waiters || t in s.activated || t in s.timedOut)
    && (forall t | t in s.timedOut :: t !in s.waiters && t !in s.activated)
    && (forall t | t in s.waiters :: t !in s.activated && t !in s.granted)
    && (forall t | t in s.activated :: t in s.granted)
    && (forall t | t in s.timedOut :: t !in s.granted)
  }

  ghost predicate Inv(s: Slots) { Counted(s) && Fifo(s) && LeavesOnce(s) }

  lemma GrantCounts(granted: set<nat>, released: set<nat>, t: nat)
    requires t !in granted && released <= granted
    ensures |granted + {t} - released| == |granted - released| + 1
  {
    assert granted + {t} - released == (granted - released) + {t};
  }

  lemma ReleaseCounts(granted: set<nat>, released: set<nat>, t: nat)
    requires t in granted && t !in released
    ensures |granted - (released + {t})| == |granted - released| - 1
  {
    assert granted - released == (granted - (released + {t})) + {t};
  }

  lemma AcquireKeepsInv(s: Slots)
    requires Inv(s)
    ensures Inv(Acquire(s))
  {
    var s' := Acquire(s);
    if AcquireOutcome(s) == Granted {
      GrantCounts(s.granted, s.released, s.next);
    }
    assert s'.activated + s'.waiters ==
           s.activated + s.waiters + if AcquireOutcome(s) == Queued then [s.next] else [];
  }

  lemma ActivateKeepsInv(s: Slots)
    requires s.released <= s.granted && s.active == |s.granted - s.released| && s.active < MAX_CONCURRENT
    requires |s.waiters| <= MAX_QUEUED && (s.waiters != [] ==> s.active == MAX_CONCURRENT - 1)
    requires Fifo(s) && LeavesOnce(s)
    ensures Inv(Activate(s))
  {
    if s.waiters != [] {
      var t := s.waiters[0];
      assert t in s.waiters;
      GrantCounts(s.granted, s.released, t);
      ActivateKeepsOrder(s);
      ActivateLeavesOnce(s);
    }
  }

  lemma ActivateKeepsOrder(s: Slots)
    requires s.waiters != [] && Fifo(s)
    ensures Fifo(Activate(s))
  {
    var s' := Activate(s);
    assert s'.activated + s'.waiters == s.activated + s.waiters;
    assert forall i | 0 <= i < |s'.waiters| :: s'.waiters[i] == s.waiters[i + 1];
  }

  lemma ActivateLeavesOnce(s: Slots)
    requires s.waiters != [] && Fifo(s) && LeavesOnce(s)
    ensures LeavesOnce(Activate(s))
  {
    var t, s' := s.waiters[0], Activate(s);
    assert s.waiters == [t] + s'.waiters;
    forall i | 0 <= i < |s'.waiters| ensures s'.waiters[i] != t {
      assert (s.activated + s.waiters)[|s.activated|] < (s.activated + s.waiters)[|s.activated| + 1 + i];
    }
  }

  lemma ReleaseKeepsInv(s: Slots, t: nat)
    requires Inv(s) && t in s.granted
    ensures Inv(Release(s, t))
  {
    if t !in s.released {
      ReleaseCounts(s.granted, s.released, t);
      ActivateKeepsInv(s.(released := s.released + {t}, active := s.active - 1));
    }
  }

  /** Removing a ticket from an ordered queue takes out exactly that one. */
  lemma {:induction false} RemoveTakesOut(ts: seq<nat>, t: nat)
    requires Increasing(ts)
    ensures Increasing(Remove(ts, t)) && |Remove(ts, t)| <= |ts|
    ensures forall u :: u in Remove(ts, t) <==> u in ts && u != t
  {
    if ts != [] {
      IncreasingTail(ts);
      RemoveTakesOut(ts[1..], t);
      if ts[0] != t { IncreasingCons(ts[0], Remove(ts[1..], t)); }
    }
  }

  lemma IncreasingTail(ts: seq<nat>)
    requires Increasing(ts) && ts != []
    ensures Increasing(ts[1..])
    ensures forall u | u in ts[1..] :: ts[0] < u
    ensures forall u :: u in ts <==> u == ts[0] || u in ts[1..]
  {
    assert ts == [ts[0]] + ts[1..];
  }

  lemma IncreasingCons(x: nat, r: seq<nat>)
    requires Increasing(r) && forall u | u in r :: x < u
    ensures Increasing([x] + r)
  {
    assert forall i | 0 <= i < |r| :: r[i] in r;
  }

  lemma {:induction false} RemoveFromBack(front: seq<nat>, ts: seq<nat>, t: nat)
    requires t !in front
    ensures Remove(front + ts, t) == front + Remove(ts, t)
  {
    if front == [] {
      assert front + ts == ts && front + Remove(ts, t) == Remove(ts, t);
    } else {
      RemoveFromBack(front[1..], ts, t);
      assert (front + ts)[1..] == front[1..] + ts;
      assert front == [front[0]] + front[1..];
    }
  }

  lemma TimeoutKeepsInv(s: Slots, t: nat)
    requires Inv(s)
    ensures Inv(Timeout(s, t))
  {
    if t in s.waiters {
      RemoveFromBack(s.activated, s.waiters, t);
      RemoveTakesOut(s.activated + s.waiters, t);
      assert Increasing(s.waiters) by {
        assert forall i | 0 <= i < |s.waiters| :: s.waiters[i] == (s.activated + s.waiters)[|s.activated| + i];
      }
      RemoveTakesOut(s.waiters, t);
      var w' := Remove(s.waiters, t);
      assert forall i | 0 <= i < |w'| :: w'[i] in w';
    }
  }

  lemma {:induction false} RunKeepsInv(s: Slots, steps: seq<Step>)
    requires Inv(s) && ValidRun(s, steps)
    ensures Inv(Run(s, steps))
    decreases |steps|
  {
    if steps != [] {
      match steps[0] {
        case AcquireStep => AcquireKeepsInv(s);
        case ReleaseStep(t) => ReleaseKeepsInv(s, t);
        case TimeoutStep(t) => TimeoutKeepsInv(s, t);
      }
      RunKeepsInv(Apply(s, steps[0]), steps[1..]);
    }
  }

  /** In every run, with handles released twice and timers firing late: the counter is the number
      of unreleased grants and at most sixteen, at most sixty-four wait, nobody waits while a
      slot is free, and every waiter leaves once, in order of arrival or by its own timeout. */
  lemma SchedulerInvariant(steps: seq<Step>)
    requires ValidRun(Start, steps)
    ensures var s := Run(Start, steps);
            && s.active == |s.granted - s.released| && 0 <= s.active <= MAX_CONCURRENT
            && |s.waiters| <= MAX_QUEUED
            && (s.waiters != [] ==> s.active == MAX_CONCURRENT)
            && Increasing(s.activated + s.waiters)
            && (forall t :: t in s.enqueued <==> t in s.waiters || t in s.activated || t in s.timedOut)
            && (forall t | t in s.timedOut :: t !in s.waiters && t !in s.activated && t !in s.granted)
  {
    RunKeepsInv(Start, steps);
  }

  /** A slot is granted exactly when fewer than sixteen are in use; a request is turned away exactly
      when sixteen are in use and sixty-four wait, and waits otherwise. */
  lemma RefusedOnlyWhenFull(steps: seq<Step>)
    requires ValidRun(Start, steps)
    ensures var s := Run(Start, steps); var s' := Acquire(s);
            && (s.active < 16 ==> s.next in s'.granted && s'.active == s.active + 1 && s'.waiters == s.waiters)
            && (s.active == 16 && |s.waiters| < 64 ==> s'.waiters == s.waiters + [s.next] && s'.active == 16)
            && (s.active == 16 && |s.waiters| == 64 ==> s'.waiters == s.waiters && s'.active == 16 && s.next !in s'.granted)
            && (AcquireOutcome(s) == Refused <==> s.active == 16 && |s.waiters| == 64)
            && (AcquireOutcome(s) == Granted <==> s.active < 16)
  {
    RunKeepsInv(Start, steps);
  }

  /** Leaving is for good: activation and timeout are never undone in the rest of a run. */
  lemma {:induction false} OutcomesAreFinal(s: Slots, steps: seq<Step>)
    ensures var s' := Run(s, steps);
            s.activated <= s'.activated && s.timedOut <= s'.timedOut && s.enqueued <= s'.enqueued
    decreases |steps|
  {
    if steps != [] { OutcomesAreFinal(Apply(s, steps[0]), steps[1..]); }
  }
}
