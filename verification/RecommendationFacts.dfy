/** What callers are told, from the requests and the ends of lookups alone. */
module RecommendationFacts {
  import opened Options
  import opened RecommendationCache

  // ----- The last word on a domain -----

  /** A lookup's end, and when. */
  datatype End = End(result: Result, at: int)

  /** The last lookup of a domain that ended with a valid reply or an authoritative negative one. */
  function LastWord(steps: seq<Step>, domain: string): Option<End> {
    if steps == [] then None
    else
      var last := steps[|steps| - 1];
      if last.SettleStep? && last.domain == domain && !last.r.NoAnswer? then Some(End(last.r, last.now))
      else LastWord(steps[..|steps| - 1], domain)
  }

  lemma {:induction false} RunAppends(s: Service, steps: seq<Step>, step: Step)
    requires ValidRun(s, steps + [step])
    ensures ValidRun(s, steps) && Enabled(Run(s, steps), step)
    ensures Run(s, steps + [step]) == Apply(Run(s, steps), step)
    decreases |steps|
  {
    if steps == [] {
      assert [] + [step] == [step] && [step][1..] == [];
    } else {
      assert (steps + [step])[1..] == steps[1..] + [step];
      RunAppends(Apply(s, steps[0]), steps[1..], step);
    }
  }

  /** The last entry of a domain carries what that lookup said: the provider of its answer, or none;
      for six hours with a provider and fifteen minutes without. */
  predicate Carries(e: Entry, end: End) {
    && (end.result.Answer? ==> e.provider == end.result.provider)
    && (end.result.NoSuchDomain? ==> e.provider == None)
    && e.expiresAt == end.at + if e.provider.Some? then 21_600_000 else 900_000
  }

  lemma StepLatest(s: Service, step: Step, domain: string)
    requires Enabled(s, step)
    ensures var s' := Apply(s, step);
            if step.SettleStep? && step.domain == domain && !step.r.NoAnswer?
            then domain in s'.latest && Carries(s'.latest[domain], End(step.r, step.now))
            else (domain in s'.latest <==> domain in s.latest) && (domain in s.latest ==> s'.latest[domain] == s.latest[domain])
  {}

  lemma {:induction false} LatestIsLastWord(steps: seq<Step>, domain: string)
    requires ValidRun(Start, steps)
    ensures domain in Run(Start, steps).latest <==> LastWord(steps, domain).Some?
    ensures domain in Run(Start, steps).latest ==> Carries(Run(Start, steps).latest[domain], LastWord(steps, domain).value)
  {
    if steps != [] {
      var front, last := steps[..|steps| - 1], steps[|steps| - 1];
      assert steps == front + [last];
      RunAppends(Start, front, last);
      LatestIsLastWord(front, domain);
      StepLatest(Run(Start, front), last, domain);
    }
  }

  // ----- Answers from the cache -----

  /** In every run a request that is answered from the cache gets the last word on its domain: the
      provider of its last answer, or none if the domain was said not to exist; within six hours of
      a provider and fifteen minutes of none. */
  lemma HitTellsLastWord(steps: seq<Step>, caller: nat, domain: string, now: int, lookup: nat)
    requires ValidRun(Start, steps) && Enabled(Run(Start, steps), AskStep(caller, domain, now, lookup))
    requires Hit(Run(Start, steps), domain, now)
    ensures LastWord(steps, domain).Some?
    ensures var end := LastWord(steps, domain).value; var s' := Apply(Run(Start, steps), AskStep(caller, domain, now, lookup));
            && caller in s'.replies
            && (end.result.Answer? ==> s'.replies[caller] == end.result.provider)
            && (end.result.NoSuchDomain? ==> s'.replies[caller] == None)
            && now < end.at + if s'.replies[caller].Some? then 21_600_000 else 900_000
  {
    HitIsLatestAnswer(steps, domain, now);
    LatestIsLastWord(steps, domain);
  }

  // ----- Answers from a lookup -----

  /** The first end of a lookup of this domain in these steps. */
  function FirstEnd(steps: seq<Step>, domain: string): Option<Result> {
    if steps == [] then None
    else if steps[0].SettleStep? && steps[0].domain == domain then Some(steps[0].r)
    else FirstEnd(steps[1..], domain)
  }

  predicate Awaits(s: Service, caller: nat, domain: string) {
    caller in s.joined && domain in s.inFlight && s.joined[caller] == s.inFlight[domain] && caller !in s.replies
  }

  /** The caller has this reply, and nothing is left that could change it. */
  predicate Got(s: Service, caller: nat, reply: Option<Provider>) {
    && caller in s.replies && s.replies[caller] == reply
    && (caller in s.joined ==> s.joined[caller] in s.settled)
  }

  lemma AskAwaits(s: Service, caller: nat, domain: string, now: int, lookup: nat)
    requires Enabled(s, AskStep(caller, domain, now, lookup)) && !Hit(s, domain, now)
    ensures Awaits(Apply(s, AskStep(caller, domain, now, lookup)), caller, domain)
  {}

  lemma SettleTells(s: Service, caller: nat, domain: string, r: Result, now: int)
    requires Awaits(s, caller, domain) && Enabled(s, SettleStep(domain, r, now))
    ensures var s' := Apply(s, SettleStep(domain, r, now));
            && (r.Answer? ==> Got(s', caller, r.provider))
            && (!r.Answer? ==> Got(s', caller, None))
  {}

  lemma OtherStepAwaits(s: Service, step: Step, caller: nat, domain: string)
    requires Inv(s) && Awaits(s, caller, domain) && Enabled(s, step) && !(step.SettleStep? && step.domain == domain)
    ensures Awaits(Apply(s, step), caller, domain)
  {
    if step.SettleStep? {
      assert s.started[s.inFlight[domain]] == domain && s.started[s.inFlight[step.domain]] == step.domain;
    }
  }

  lemma StepKeepsGot(s: Service, step: Step, caller: nat, reply: Option<Provider>)
    requires Inv(s) && Got(s, caller, reply) && Enabled(s, step)
    ensures Got(Apply(s, step), caller, reply)
  {
    if step.SettleStep? { assert s.inFlight[step.domain] !in s.settled; }
  }

  lemma {:induction false} RunKeepsGot(s: Service, steps: seq<Step>, caller: nat, reply: Option<Provider>)
    requires Inv(s) && Got(s, caller, reply) && ValidRun(s, steps)
    ensures Got(Run(s, steps), caller, reply)
    decreases |steps|
  {
    if steps != [] {
      StepKeepsInv(s, steps[0]);
      StepKeepsGot(s, steps[0], caller, reply);
      RunKeepsGot(Apply(s, steps[0]), steps[1..], caller, reply);
    }
  }

  lemma {:induction false} AwaitedAnswerComes(s: Service, steps: seq<Step>, caller: nat, domain: string)
    requires Inv(s) && Awaits(s, caller, domain) && ValidRun(s, steps)
    ensures var end := FirstEnd(steps, domain); var s' := Run(s, steps);
            && (end.None? ==> caller !in s'.replies)
            && (end.Some? && end.value.Answer? ==> caller in s'.replies && s'.replies[caller] == end.value.provider)
            && (end.Some? && !end.value.Answer? ==> caller in s'.replies && s'.replies[caller] == None)
    decreases |steps|
  {
    if steps != [] {
      var next := Apply(s, steps[0]);
      StepKeepsInv(s, steps[0]);
      if steps[0].SettleStep? && steps[0].domain == domain {
        var r := steps[0].r;
        SettleTells(s, caller, domain, r, steps[0].now);
        RunKeepsGot(next, steps[1..], caller, if r.Answer? then r.provider else None);
      } else {
        OtherStepAwaits(s, steps[0], caller, domain);
        AwaitedAnswerComes(next, steps[1..], caller, domain);
      }
    }
  }

  /** In every run a request that is not answered from the cache gets the result of the first lookup
      of its domain to end after it: the provider of an answer, none after any other end, and no
      reply while there is none. */
  lemma RequestGetsNextAnswer(before: seq<Step>, caller: nat, domain: string, now: int, lookup: nat, after: seq<Step>)
    requires ValidRun(Start, before) && Enabled(Run(Start, before), AskStep(caller, domain, now, lookup))
    requires !Hit(Run(Start, before), domain, now)
    requires ValidRun(Apply(Run(Start, before), AskStep(caller, domain, now, lookup)), after)
    ensures var end := FirstEnd(after, domain);
            var s' := Run(Apply(Run(Start, before), AskStep(caller, domain, now, lookup)), after);
            && (end.None? ==> caller !in s'.replies)
            && (end.Some? && end.value.Answer? ==> caller in s'.replies && s'.replies[caller] == end.value.provider)
            && (end.Some? && !end.value.Answer? ==> caller in s'.replies && s'.replies[caller] == None)
  {
    var s := Run(Start, before);
    RunKeepsInv(Start, before);
    StepKeepsInv(s, AskStep(caller, domain, now, lookup));
    AskAwaits(s, caller, domain, now, lookup);
    AwaitedAnswerComes(Apply(s, AskStep(caller, domain, now, lookup)), after, caller, domain);
  }
}
