/** Provider recommendations by MX lookup (src/lib/provider-recommendation.ts): one lookup per
    domain at a time, joined by later callers, and a bounded cache whose entries expire. The
    cache is a JavaScript `Map`, which keeps its entries in order of insertion. */
module RecommendationCache {
  import opened Options

  const POSITIVE_CACHE_DURATION_MS := 6 * 60 * 60 * 1_000
  const NEGATIVE_CACHE_DURATION_MS := 15 * 60 * 1_000
  const MAX_CACHE_ENTRIES := 1_000

  datatype Provider = Apple | Google | Microsoft | Yahoo | Zoho

  datatype Entry = Entry(domain: string, provider: Option<Provider>, expiresAt: int)

  // ----- The cache -----

  predicate Has(cache: seq<Entry>, domain: string) {
    exists i :: 0 <= i < |cache| && cache[i].domain == domain
  }

  function Get(cache: seq<Entry>, domain: string): (e: Entry)
    requires Has(cache, domain)
    ensures e in cache && e.domain == domain
  {
    if cache[0].domain == domain then cache[0]
    else
      assert Has(cache[1..], domain) by {
        var i :| 0 <= i < |cache| && cache[i].domain == domain;
        assert cache[1..][i - 1].domain == domain;
      }
      Get(cache[1..], domain)
  }

  function Delete(cache: seq<Entry>, domain: string): (c: seq<Entry>)
    ensures |c| <= |cache|
  {
    if cache == [] then []
    else if cache[0].domain == domain then cache[1..]
    else [cache[0]] + Delete(cache[1..], domain)
  }

  /** `Map.set`: an existing key keeps its place. */
  function Set(cache: seq<Entry>, e: Entry): seq<Entry> {
    if cache == [] then [e]
    else if cache[0].domain == e.domain then [e] + cache[1..]
    else [cache[0]] + Set(cache[1..], e)
  }

  function Expiry(provider: Option<Provider>, now: int): int {
    now + if provider.Some? then POSITIVE_CACHE_DURATION_MS else NEGATIVE_CACHE_DURATION_MS
  }

  /** `cacheRecommendation`. */
  function Put(cache: seq<Entry>, domain: string, provider: Option<Provider>, now: int): seq<Entry> {
    var room := if |cache| >= MAX_CACHE_ENTRIES then Delete(cache, cache[0].domain) else cache;
    Set(room, Entry(domain, provider, Expiry(provider, now)))
  }

  predicate Distinct(cache: seq<Entry>) {
    forall i, j | 0 <= i < j < |cache| :: cache[i].domain != cache[j].domain
  }

  lemma {:induction false} SetAppends(cache: seq<Entry>, e: Entry)
    requires !Has(cache, e.domain)
    ensures Set(cache, e) == cache + [e]
  {
    if cache != [] {
      assert cache[0].domain != e.domain;
      assert !Has(cache[1..], e.domain) by {
        assert forall i | 0 <= i < |cache[1..]| :: cache[1..][i] == cache[i + 1];
      }
      SetAppends(cache[1..], e);
      assert cache == [cache[0]] + cache[1..];
    }
  }

  /** Caching an absent domain keeps the bound, drops the oldest entry when there is no room and
      nothing else, and adds the new entry last. */
  lemma PutBoundsAndKeeps(cache: seq<Entry>, domain: string, provider: Option<Provider>, now: int)
    requires Distinct(cache) && |cache| <= MAX_CACHE_ENTRIES && !Has(cache, domain)
    ensures var c := Put(cache, domain, provider, now);
            && c == (if |cache| == 1_000 then cache[1..] else cache) + [Entry(domain, provider, Expiry(provider, now))]
            && Distinct(c) && |c| <= 1_000
  {
    var room := if |cache| >= MAX_CACHE_ENTRIES then Delete(cache, cache[0].domain) else cache;
    assert room == if |cache| == MAX_CACHE_ENTRIES then cache[1..] else cache;
    assert !Has(room, domain) by {
      assert forall i | 0 <= i < |room| :: room[i] == cache[if |cache| == MAX_CACHE_ENTRIES then i + 1 else i];
    }
    SetAppends(room, Entry(domain, provider, Expiry(provider, now)));
  }

  lemma DistinctTail(cache: seq<Entry>)
    requires Distinct(cache) && cache != []
    ensures Distinct(cache[1..])
    ensures forall e | e in cache[1..] :: e.domain != cache[0].domain
    ensures forall e :: e in cache <==> e == cache[0] || e in cache[1..]
  {
    assert cache == [cache[0]] + cache[1..];
  }

  lemma DistinctCons(e: Entry, cache: seq<Entry>)
    requires Distinct(cache) && forall x | x in cache :: x.domain != e.domain
    ensures Distinct([e] + cache)
  {
    assert forall i | 0 <= i < |cache| :: cache[i] in cache;
  }

  /** Deleting takes out the entries of that domain and keeps the rest as they are. */
  lemma {:induction false} DeleteTakesOut(cache: seq<Entry>, domain: string)
    requires Distinct(cache)
    ensures Distinct(Delete(cache, domain))
    ensures forall e :: e in Delete(cache, domain) <==> e in cache && e.domain != domain
  {
    if cache != [] {
      DistinctTail(cache);
      DeleteTakesOut(cache[1..], domain);
      if cache[0].domain != domain { DistinctCons(cache[0], Delete(cache[1..], domain)); }
    }
  }

  // ----- Requests and lookups -----

  /** How a lookup ends: a valid reply, an authoritative negative one, or anything else (a
      timeout, a refused place in the queue, a malformed reply). */
  datatype Result = Answer(provider: Option<Provider>) | NoSuchDomain | NoAnswer

  predicate Authoritative(r: Result) { r.Answer? || r.NoSuchDomain? }

  function Answered(r: Result): Option<Provider> { if r.Answer? then r.provider else None }

  /** `inFlight` maps a domain to its unsettled lookup. The rest is history: which lookup is for
      which domain, what each settled with, which lookup each caller joined and what each
      caller got, and the entry of each domain's latest authoritative lookup. */
  datatype Service = Service(
    cache: seq<Entry>, inFlight: map<string, nat>, clock: int,
    started: map<nat, string>, settled: map<nat, Option<Provider>>,
    joined: map<nat, nat>, replies: map<nat, Option<Provider>>, latest: map<string, Entry>)

  const Start := Service([], map[], 0, map[], map[], map[], map[], map[])

  predicate Fresh(cache: seq<Entry>, domain: string, now: int) {
    Has(cache, domain) && Get(cache, domain).expiresAt > now
  }

  predicate Hit(s: Service, domain: string, now: int) { Fresh(s.cache, domain, now) }

  /** A stale entry is deleted when it is met. */
  function Dropped(cache: seq<Entry>, domain: string): seq<Entry> {
    if Has(cache, domain) then Delete(cache, domain) else cache
  }

  /** The lookup a caller waits for: the one in flight, or else the new one. */
  function Awaited(inFlight: map<string, nat>, domain: string, lookup: nat): nat {
    if domain in inFlight then inFlight[domain] else lookup
  }

  /** `recommendProviderForEmail` for a domain without an obvious provider. */
  function Ask(s: Service, caller: nat, domain: string, now: int, lookup: nat): Service {
    if Hit(s, domain, now) then s.(clock := now, replies := s.replies[caller := Get(s.cache, domain).provider])
    else
      var awaited := Awaited(s.inFlight, domain, lookup);
      s.(clock := now, cache := Dropped(s.cache, domain), inFlight := s.inFlight[domain := awaited],
         started := if domain in s.inFlight then s.started else s.started[lookup := domain],
         joined := s.joined[caller := awaited])
  }

  function CacheAfter(cache: seq<Entry>, domain: string, r: Result, now: int): seq<Entry> {
    if Authoritative(r) then Put(cache, domain, Answered(r), now) else cache
  }

  /** The end of `resolveProviderForDomain`, which settles the promise all callers share. */
  function Settle(s: Service, domain: string, r: Result, now: int): Service
    requires domain in s.inFlight
  {
    var lookup := s.inFlight[domain];
    var waiting := set c | c in s.joined && s.joined[c] == lookup;
    s.(clock := now, inFlight := s.inFlight - {domain},
       cache := CacheAfter(s.cache, domain, r, now),
       latest := if Authoritative(r) then s.latest[domain := Entry(domain, Answered(r), Expiry(Answered(r), now))] else s.latest,
       settled := s.settled[lookup := Answered(r)],
       replies := s.replies + map c | c in waiting :: Answered(r))
  }

  // ----- The module's two maps, changed in place -----

  class Recommender {
    var cache: seq<Entry>
    var inFlight: map<string, nat>

    constructor ()
      ensures cache == [] && inFlight == map[]
    {
      cache, inFlight := [], map[];
    }

    /** Answer from the cache, or name the lookup whose promise the caller awaits. */
    method Recommend(domain: string, now: int, lookup: nat) returns (cached: Option<Option<Provider>>, awaited: Option<nat>)
      modifies this
      ensures Fresh(old(cache), domain, now) ==>
                && cached == Some(Get(old(cache), domain).provider) && awaited == None
                && cache == old(cache) && inFlight == old(inFlight)
      ensures !Fresh(old(cache), domain, now) ==>
                && cached == None && awaited == Some(Awaited(old(inFlight), domain, lookup))
                && cache == Dropped(old(cache), domain) && inFlight == old(inFlight)[domain := awaited.value]
    {
      awaited := None;
      cached := None;
      if Has(cache, domain) {
        var entry := Get(cache, domain);
        if entry.expiresAt > now { return Some(entry.provider), None; }
        cache := Delete(cache, domain);
      }
      if domain in inFlight {
        assert inFlight == inFlight[domain := inFlight[domain]];
        return None, Some(inFlight[domain]);
      }
      inFlight := inFlight[domain := lookup];
      awaited := Some(lookup);
    }

    method SettleLookup(domain: string, r: Result, now: int)
      requires domain in inFlight
      modifies this
      ensures cache == CacheAfter(old(cache), domain, r, now) && inFlight == old(inFlight) - {domain}
      ensures r.Answer? ==> cache == Put(old(cache), domain, r.provider, now)
      ensures r.NoSuchDomain? ==> cache == Put(old(cache), domain, None, now)
      ensures r.NoAnswer? ==> cache == old(cache)
    {
      if Authoritative(r) {
        if |cache| >= MAX_CACHE_ENTRIES { cache := Delete(cache, cache[0].domain); }
        cache := Set(cache, Entry(domain, Answered(r), Expiry(Answered(r), now)));
      }
      inFlight := inFlight - {domain};
    }
  }

  // ----- Runs -----

  datatype Step =
    | AskStep(caller: nat, domain: string, now: int, lookup: nat)
    | SettleStep(domain: string, r: Result, now: int)

  predicate Enabled(s: Service, step: Step) {
    match step
    case AskStep(caller, domain, now, lookup) =>
      now >= s.clock && lookup !in s.started && caller !in s.joined && caller !in s.replies
    case SettleStep(domain, r, now) => now >= s.clock && domain in s.inFlight
  }

  function Apply(s: Service, step: Step): Service
    requires Enabled(s, step)
  {
    match step
    case AskStep(caller, domain, now, lookup) => Ask(s, caller, domain, now, lookup)
    case SettleStep(domain, r, now) => Settle(s, domain, r, now)
  }

  predicate ValidRun(s: Service, steps: seq<Step>)
    decreases |steps|
  {
    steps == [] || (Enabled(s, steps[0]) && ValidRun(Apply(s, steps[0]), steps[1..]))
  }

  function Run(s: Service, steps: seq<Step>): Service
    requires ValidRun(s, steps)
    decreases |steps|
  {
    if steps == [] then s else Run(Apply(s, steps[0]), steps[1..])
  }

  // ----- The inductive invariant -----

  /** The cache is bounded, has no domain that is being looked up, and holds for each domain
      the entry of its latest authoritative lookup. */
  ghost predicate CacheInv(s: Service) {
    && Distinct(s.cache) && |s.cache| <= MAX_CACHE_ENTRIES
    && (forall d | d in s.inFlight :: !Has(s.cache, d))
    && Latest(s.cache, s.latest)
  }

  predicate Latest(cache: seq<Entry>, latest: map<string, Entry>) {
    forall i | 0 <= i < |cache| :: cache[i].domain in latest && latest[cache[i].domain] == cache[i]
  }

  lemma LatestAppend(kept: seq<Entry>, latest: map<string, Entry>, e: Entry)
    requires Latest(kept, latest) && !Has(kept, e.domain)
    ensures Latest(kept + [e], latest[e.domain := e])
  {}

  /** The unsettled lookups are exactly those in flight, so there is one per domain. */
  ghost predicate FlightInv(s: Service) {
    && (forall d | d in s.inFlight :: s.inFlight[d] in s.started && s.started[s.inFlight[d]] == d && s.inFlight[d] !in s.settled)
    && (forall l | l in s.started && l !in s.settled :: s.started[l] in s.inFlight && s.inFlight[s.started[l]] == l)
    && (forall l | l in s.settled :: l in s.started)
  }

  /** Whoever joined a lookup has its answer once it is settled. */
  ghost predicate JoinInv(s: Service) {
    forall c | c in s.joined ::
      && s.joined[c] in s.started
      && (s.joined[c] in s.settled ==> c in s.replies && s.replies[c] == s.settled[s.joined[c]])
  }

  ghost predicate Inv(s: Service) { CacheInv(s) && FlightInv(s) && JoinInv(s) }

  lemma DeleteKeepsCacheInv(s: Service, domain: string)
    requires CacheInv(s)
    ensures CacheInv(s.(cache := Delete(s.cache, domain))) && !Has(Delete(s.cache, domain), domain)
  {
    DeleteTakesOut(s.cache, domain);
    var c := Delete(s.cache, domain);
    assert forall i | 0 <= i < |c| :: c[i] in c && c[i] in s.cache && c[i].domain != domain;
    forall d | d in s.inFlight ensures !Has(c, d) {
      assert !Has(s.cache, d);
    }
  }

  lemma AskKeepsCacheInv(s: Service, caller: nat, domain: string, now: int, lookup: nat)
    requires CacheInv(s)
    ensures CacheInv(Ask(s, caller, domain, now, lookup))
  {
    if !Hit(s, domain, now) {
      if Has(s.cache, domain) { DeleteKeepsCacheInv(s, domain); }
      var s' := Ask(s, caller, domain, now, lookup);
      assert forall d | d in s'.inFlight :: d == domain || d in s.inFlight;
    }
  }

  lemma AskKeepsFlightInv(s: Service, caller: nat, domain: string, now: int, lookup: nat)
    requires FlightInv(s) && Enabled(s, AskStep(caller, domain, now, lookup))
    ensures FlightInv(Ask(s, caller, domain, now, lookup))
  {}

  lemma AskKeepsJoinInv(s: Service, caller: nat, domain: string, now: int, lookup: nat)
    requires FlightInv(s) && JoinInv(s) && Enabled(s, AskStep(caller, domain, now, lookup))
    ensures JoinInv(Ask(s, caller, domain, now, lookup))
  {}

  lemma StillAbsent(cache: seq<Entry>, kept: seq<Entry>, e: Entry, d: string)
    requires !Has(cache, d) && d != e.domain && forall i | 0 <= i < |kept| :: kept[i] in cache
    ensures !Has(kept + [e], d)
  {}

  lemma SettleKeepsHistory(s: Service, domain: string, r: Result, now: int)
    requires FlightInv(s) && JoinInv(s) && domain in s.inFlight
    ensures FlightInv(Settle(s, domain, r, now)) && JoinInv(Settle(s, domain, r, now))
  {}

  lemma SettleKeepsCacheInv(s: Service, domain: string, r: Result, now: int)
    requires CacheInv(s) && domain in s.inFlight
    ensures CacheInv(Settle(s, domain, r, now))
  {
    if Authoritative(r) {
      var e := Entry(domain, Answered(r), Expiry(Answered(r), now));
      var kept := if |s.cache| == MAX_CACHE_ENTRIES then s.cache[1..] else s.cache;
      PutBoundsAndKeeps(s.cache, domain, Answered(r), now);
      assert forall i | 0 <= i < |kept| :: kept[i] in s.cache;
      LatestAppend(kept, s.latest, e);
      forall d | d in s.inFlight && d != domain ensures !Has(kept + [e], d) {
        StillAbsent(s.cache, kept, e, d);
      }
    }
  }

  lemma StepKeepsInv(s: Service, step: Step)
    requires Inv(s) && Enabled(s, step)
    ensures Inv(Apply(s, step))
  {
    match step
    case AskStep(caller, domain, now, lookup) =>
      AskKeepsCacheInv(s, caller, domain, now, lookup);
      AskKeepsFlightInv(s, caller, domain, now, lookup);
      AskKeepsJoinInv(s, caller, domain, now, lookup);
    case SettleStep(domain, r, now) =>
      SettleKeepsCacheInv(s, domain, r, now);
      SettleKeepsHistory(s, domain, r, now);
  }

  lemma {:induction false} RunKeepsInv(s: Service, steps: seq<Step>)
    requires Inv(s) && ValidRun(s, steps)
    ensures Inv(Run(s, steps))
    decreases |steps|
  {
    if steps != [] {
      StepKeepsInv(s, steps[0]);
      RunKeepsInv(Apply(s, steps[0]), steps[1..]);
    }
  }

  /** In every run: at most one unsettled lookup per domain; everyone who joined a settled lookup
      has its answer; and the cache holds at most a thousand entries. */
  lemma LookupsAreShared(steps: seq<Step>)
    requires ValidRun(Start, steps)
    ensures var s := Run(Start, steps);
            && (forall l, m | l in s.started && m in s.started && l !in s.settled && m !in s.settled ::
                  s.started[l] == s.started[m] ==> l == m)
            && (forall c | c in s.joined && s.joined[c] in s.settled ::
                  c in s.replies && s.replies[c] == s.settled[s.joined[c]])
            && |s.cache| <= MAX_CACHE_ENTRIES
  {
    RunKeepsInv(Start, steps);
  }

  /** In every run an unexpired hit is the answer of the domain's latest authoritative lookup. */
  lemma HitIsLatestAnswer(steps: seq<Step>, domain: string, now: int)
    requires ValidRun(Start, steps) && Hit(Run(Start, steps), domain, now)
    ensures var s := Run(Start, steps);
            domain in s.latest && Get(s.cache, domain) == s.latest[domain] && s.latest[domain].expiresAt > now
  {
    RunKeepsInv(Start, steps);
    var s := Run(Start, steps);
    var i :| 0 <= i < |s.cache| && s.cache[i] == Get(s.cache, domain);
  }

  /** Only a settled, authoritative lookup writes to the cache; a request may drop one expired
      entry and nothing else. */
  lemma CacheChangesOnlyAuthoritatively(s: Service, step: Step, e: Entry)
    requires Inv(s) && Enabled(s, step)
    ensures step.SettleStep? && !Authoritative(step.r) ==> Apply(s, step).cache == s.cache
    ensures step.AskStep? ==>
              (e in Apply(s, step).cache <==> e in s.cache && !(e.domain == step.domain && e.expiresAt <= step.now))
  {
    if step.AskStep? {
      DeleteTakesOut(s.cache, step.domain);
      if e in s.cache && e.domain == step.domain { OnlyEntryOfDomain(s.cache, e); }
    }
  }

  lemma OnlyEntryOfDomain(cache: seq<Entry>, e: Entry)
    requires Distinct(cache) && e in cache
    ensures Has(cache, e.domain) && Get(cache, e.domain) == e
  {
    var i :| 0 <= i < |cache| && cache[i] == e;
    assert Has(cache, e.domain);
    var g := Get(cache, e.domain);
    var j :| 0 <= j < |cache| && cache[j] == g;
    assert cache[i].domain == cache[j].domain;
  }
}
