/** The fixed-window rate limiters (src/lib/provider-recommendation-rate-limit.ts with a client
    and a global bucket, src/lib/public-verification-rate-limit.ts with one bucket). Times are
    microseconds of the database clock; keys are HMAC digests. */
module RateLimit {
  import opened Options

  const SECOND := 1_000_000
  const WINDOW := 60 * SECOND
  const DAY := 24 * 60 * 60 * SECOND
  const MAX_COUNT := 2_147_483_647

  const CLIENT_LIMIT := 30
  const GLOBAL_LIMIT := 600
  const PUBLIC_VERIFICATION_LIMIT := 20

  datatype Bucket = Bucket(count: nat, startedAt: int, expiresAt: int)

  // ----- One bucket -----

  /** The `insert ... on conflict do update` for one key. */
  function Upsert(b: Option<Bucket>, now: int): Bucket {
    if b.None? || b.value.expiresAt <= now then Bucket(1, now, now + WINDOW)
    else b.value.(count := if b.value.count == MAX_COUNT then b.value.count else b.value.count + 1)
  }

  /** The row after requests at these times. */
  function After(ts: seq<int>): Option<Bucket> {
    if ts == [] then None else Some(Upsert(After(ts[..|ts| - 1]), ts[|ts| - 1]))
  }

  predicate Nondecreasing(ts: seq<int>) { forall i, j | 0 <= i < j < |ts| :: ts[i] <= ts[j] }

  lemma {:induction false} WindowShape(ts: seq<int>)
    requires ts != [] && Nondecreasing(ts)
    ensures var b := After(ts).value;
            b.expiresAt == b.startedAt + WINDOW && b.startedAt <= ts[|ts| - 1] < b.expiresAt && b.count >= 1
  {
    if |ts| > 1 { WindowShape(ts[..|ts| - 1]); }
  }

  predicate WithinLimit(ts: seq<int>, limit: nat) { After(ts).Some? && After(ts).value.count <= limit }

  /** Requests within the limit whose window starts at `s`. */
  function CountWindow(ts: seq<int>, limit: nat, s: int): nat {
    if ts == [] then 0
    else CountWindow(ts[..|ts| - 1], limit, s) + if WithinLimit(ts, limit) && After(ts).value.startedAt == s then 1 else 0
  }

  /** Requests within the limit at times in `[a, a + WINDOW)`. */
  function CountInterval(ts: seq<int>, limit: nat, a: int): nat {
    if ts == [] then 0
    else CountInterval(ts[..|ts| - 1], limit, a) + if WithinLimit(ts, limit) && a <= ts[|ts| - 1] < a + WINDOW then 1 else 0
  }

  function Min(x: int, y: int): int { if x < y then x else y }

  /** In each window at most `limit` requests are within the limit. */
  lemma {:induction false} WindowBound(ts: seq<int>, limit: nat, s: int)
    requires Nondecreasing(ts) && limit < MAX_COUNT
    ensures CountWindow(ts, limit, s) <= limit
    ensures ts != [] && After(ts).value.startedAt == s ==> CountWindow(ts, limit, s) <= After(ts).value.count
    ensures ts != [] && After(ts).value.startedAt < s ==> CountWindow(ts, limit, s) == 0
  {
    if ts != [] {
      var front := ts[..|ts| - 1];
      WindowBound(front, limit, s);
      WindowShape(ts);
      if front != [] { WindowShape(front); }
    }
  }

  /** In any half-open interval of one window's length at most twice the limit. */
  lemma {:induction false} IntervalBound(ts: seq<int>, limit: nat, a: int)
    requires Nondecreasing(ts) && 1 <= limit < MAX_COUNT
    ensures CountInterval(ts, limit, a) <= 2 * limit
    ensures ts != [] && ts[|ts| - 1] < a ==> CountInterval(ts, limit, a) == 0
    ensures ts != [] && After(ts).value.startedAt < a ==> CountInterval(ts, limit, a) <= Min(After(ts).value.count, limit)
    ensures ts != [] && ts[|ts| - 1] < a + WINDOW ==> CountInterval(ts, limit, a) <= limit + Min(After(ts).value.count, limit)
  {
    if ts != [] {
      var front := ts[..|ts| - 1];
      IntervalBound(front, limit, a);
      WindowShape(ts);
      if front != [] { WindowShape(front); }
    }
  }

  // ----- Exactly how many -----

  /** Requests whose window starts at `s`. */
  function InWindow(ts: seq<int>, s: int): nat {
    if ts == [] then 0
    else InWindow(ts[..|ts| - 1], s) + if After(ts).value.startedAt == s then 1 else 0
  }

  /** A request opens a window when there is none or the last one is sixty seconds old, and joins it
      otherwise. */
  lemma WindowOpens(ts: seq<int>, t: int)
    requires Nondecreasing(ts + [t])
    ensures After(ts + [t]).value.startedAt ==
            if ts == [] || t >= After(ts).value.startedAt + 60_000_000 then t else After(ts).value.startedAt
  {
    assert (ts + [t])[..|ts|] == ts;
    if ts != [] {
      assert forall i | 0 <= i < |ts| :: (ts + [t])[i] == ts[i];
      WindowShape(ts);
    }
  }

  /** The counter of the current window is the number of its requests, up to the largest integer. */
  lemma {:induction false} CounterIsExact(ts: seq<int>)
    requires ts != [] && Nondecreasing(ts)
    ensures var b := After(ts).value; b.count == Min(InWindow(ts, b.startedAt), MAX_COUNT)
    ensures forall s | s > After(ts).value.startedAt :: InWindow(ts, s) == 0
  {
    var front := ts[..|ts| - 1];
    if front != [] {
      CounterIsExact(front);
      WindowShape(front);
    }
    WindowShape(ts);
  }

  /** Exactly the first `limit` requests of a window are within the limit: as many as there are, up
      to the limit. */
  lemma {:induction false} WindowCountIsExact(ts: seq<int>, limit: nat, s: int)
    requires Nondecreasing(ts) && limit < MAX_COUNT
    ensures CountWindow(ts, limit, s) == Min(InWindow(ts, s), limit)
  {
    if ts != [] {
      var front := ts[..|ts| - 1];
      WindowCountIsExact(front, limit, s);
      CounterIsExact(ts);
    }
  }

  // ----- The wait -----

  /** `greatest(1, ceil(seconds until expiry))`. */
  function RetryAfter(b: Bucket, now: int): (seconds: int)
    ensures seconds >= 1 && now + seconds * SECOND >= b.expiresAt
    ensures seconds == 1 || now + (seconds - 1) * SECOND < b.expiresAt
  {
    var left := b.expiresAt - now;
    var ceiling := if left <= 0 then 0 else (left + SECOND - 1) / SECOND;
    if ceiling < 1 then 1 else ceiling
  }

  // ----- The table -----

  type Key = string
  type Table = map<Key, Bucket>

  function Get(t: Table, k: Key): Option<Bucket> { if k in t then Some(t[k]) else None }

  /** One request: the maximum of each bucket it uses, the observed time, and the rows it prunes
      at the statement's later clock reading. */
  datatype Request = Request(limits: map<Key, nat>, now: int, clock: int, prune: set<Key>)

  function UpsertKeys(t: Table, keys: set<Key>, now: int): Table {
    t + map k | k in keys :: Upsert(Get(t, k), now)
  }

  function UpsertAll(t: Table, r: Request): Table { UpsertKeys(t, r.limits.Keys, r.now) }

  lemma UpsertOneMore(t: Table, keys: set<Key>, k: Key, now: int)
    requires k !in keys
    ensures Get(UpsertKeys(t, keys, now), k) == Get(t, k)
    ensures UpsertKeys(t, keys + {k}, now) == UpsertKeys(t, keys, now)[k := Upsert(Get(t, k), now)]
  {}

  function Consume(t: Table, r: Request): Table { UpsertAll(t, r) - r.prune }

  /** Pruned rows are of other keys and expired a day before the clock reading; the statement
      takes less than a day. */
  predicate PruneOk(t: Table, r: Request) {
    && r.now <= r.clock <= r.now + DAY && |r.prune| <= 100
    && forall k | k in r.prune :: k in t && k !in r.limits && t[k].expiresAt < r.clock - DAY
  }

  predicate Denies(t: Table, r: Request, k: Key) {
    k in r.limits && Upsert(Get(t, k), r.now).count > r.limits[k]
  }

  /** Accepted when no bucket denies. */
  predicate Accepted(t: Table, r: Request) {
    forall k | k in r.limits :: !Denies(t, r, k)
  }

  /** Waiting this long outlasts the bucket's window. */
  predicate ClearedBy(t: Table, r: Request, k: Key, seconds: int) {
    r.now + seconds * SECOND >= Upsert(Get(t, k), r.now).expiresAt
  }

  function WaitOf(t: Table, r: Request, k: Key): (seconds: int)
    ensures seconds >= 1 && ClearedBy(t, r, k, seconds)
  {
    RetryAfter(Upsert(Get(t, k), r.now), r.now)
  }

  /** The longest wait of these buckets, or zero when there are none. */
  ghost predicate Longest(t: Table, r: Request, keys: set<Key>, wait: int) {
    && (forall k | k in keys :: WaitOf(t, r, k) <= wait)
    && (if keys == {} then wait == 0 else exists k | k in keys :: WaitOf(t, r, k) == wait)
  }

  lemma LongestGrows(t: Table, r: Request, keys: set<Key>, k: Key, wait: int)
    requires Longest(t, r, keys, wait)
    ensures Longest(t, r, keys + {k}, if WaitOf(t, r, k) > wait then WaitOf(t, r, k) else wait)
  {
    if keys != {} {
      var j :| j in keys && WaitOf(t, r, j) == wait;
      assert j in keys + {k};
    }
    assert k in keys + {k};
  }

  function Denying(t: Table, r: Request, keys: set<Key>): set<Key> { set k | k in keys && Denies(t, r, k) }

  lemma DenyingGrows(t: Table, r: Request, keys: set<Key>, k: Key)
    ensures Denying(t, r, keys + {k}) == Denying(t, r, keys) + (if Denies(t, r, k) then {k} else {})
  {}

  lemma AcceptedIffNoneDenies(t: Table, r: Request)
    ensures Accepted(t, r) <==> Denying(t, r, r.limits.Keys) == {}
  {
    if !Accepted(t, r) {
      var k :| k in r.limits && Denies(t, r, k);
      assert k in Denying(t, r, r.limits.Keys);
    }
  }

  /** Where the pass over the buckets stands after those in `done`. */
  ghost predicate Tally(t: Table, r: Request, done: set<Key>, rows: Table, accepted: bool, denied: int, longest: int) {
    && rows == UpsertKeys(t, done, r.now)
    && (accepted <==> Denying(t, r, done) == {})
    && Longest(t, r, Denying(t, r, done), denied)
    && Longest(t, r, done, longest)
  }

  lemma TallyOneMore(t: Table, r: Request, done: set<Key>, k: Key, rows: Table, accepted: bool, denied: int, longest: int)
    requires Tally(t, r, done, rows, accepted, denied, longest) && k !in done && k in r.limits
    ensures var row := Upsert(Get(rows, k), r.now);
            var wait, over := RetryAfter(row, r.now), row.count > r.limits[k];
            Tally(t, r, done + {k}, rows[k := row], accepted && !over,
                  if over && wait > denied then wait else denied, if wait > longest then wait else longest)
  {
    UpsertOneMore(t, done, k, r.now);
    DenyingGrows(t, r, done, k);
    LongestGrows(t, r, Denying(t, r, done), k, denied);
    LongestGrows(t, r, done, k, longest);
    if !Denies(t, r, k) { assert Denying(t, r, done) + {} == Denying(t, r, done); }
  }

  function KeySet(keys: seq<Key>, n: nat): set<Key>
    requires n <= |keys|
  {
    set i | 0 <= i < n :: keys[i]
  }

  lemma KeySetGrows(keys: seq<Key>, n: nat)
    requires n < |keys| && forall i, j | 0 <= i < j < |keys| :: keys[i] != keys[j]
    ensures keys[n] !in KeySet(keys, n) && KeySet(keys, n + 1) == KeySet(keys, n) + {keys[n]}
  {}

  lemma TallyStarts(t: Table, r: Request, keys: seq<Key>)
    ensures Tally(t, r, KeySet(keys, 0), t, true, 0, 0)
  {
    assert KeySet(keys, 0) == {};
    assert UpsertKeys(t, {}, r.now) == t && Denying(t, r, {}) == {};
  }

  lemma TallyDecides(t: Table, r: Request, keys: seq<Key>, rows: Table, accepted: bool, denied: int, longest: int)
    requires Tally(t, r, KeySet(keys, |keys|), rows, accepted, denied, longest)
    requires forall k :: k in r.limits <==> k in keys
    ensures rows == UpsertAll(t, r) && (accepted <==> Accepted(t, r))
    ensures Longest(t, r, if accepted then r.limits.Keys else Denying(t, r, r.limits.Keys), if accepted then longest else denied)
  {
    assert KeySet(keys, |keys|) == r.limits.Keys;
    AcceptedIffNoneDenies(t, r);
  }

  // ----- The statement and the decision, bucket by bucket -----

  class Limiter {
    var rows: Table

    constructor ()
      ensures rows == map[]
    {
      rows := map[];
    }

    /** `consumeProviderRecommendationRateLimit` and `consumePublicVerificationRateLimit`: count
        the request in each bucket, then decide. The wait is the longest of the denying buckets,
        or of all of them when none denies. */
    method ConsumeRequest(keys: seq<Key>, r: Request) returns (accepted: bool, retryAfterSeconds: int)
      requires keys != [] && (forall i, j | 0 <= i < j < |keys| :: keys[i] != keys[j])
      requires forall k :: k in r.limits <==> k in keys
      requires forall k | k in r.prune :: k !in r.limits
      modifies this
      ensures rows == Consume(old(rows), r)
      ensures accepted <==> Accepted(old(rows), r)
      ensures Longest(old(rows), r, if accepted then r.limits.Keys else Denying(old(rows), r, r.limits.Keys), retryAfterSeconds)
    {
      ghost var before := rows;
      var table := rows;
      var denied, longest := 0, 0;
      accepted := true;
      TallyStarts(before, r, keys);
      for i := 0 to |keys|
        invariant Tally(before, r, KeySet(keys, i), table, accepted, denied, longest)
      {
        var k := keys[i];
        assert k in keys;
        KeySetGrows(keys, i);
        TallyOneMore(before, r, KeySet(keys, i), k, table, accepted, denied, longest);
        var row := Upsert(Get(table, k), r.now);
        table := table[k := row];
        var wait, over := RetryAfter(row, r.now), row.count > r.limits[k];
        accepted := accepted && !over;
        denied := if over && wait > denied then wait else denied;
        longest := if wait > longest then wait else longest;
      }
      TallyDecides(before, r, keys, table, accepted, denied, longest);
      rows := table - r.prune;
      retryAfterSeconds := if accepted then longest else denied;
    }
  }

  // ----- Runs -----

  predicate InOrder(reqs: seq<Request>) {
    forall i, j | 0 <= i < j < |reqs| :: reqs[i].now <= reqs[j].now
  }

  /** The table after a run, with pruning. */
  function Pruned(reqs: seq<Request>): Table {
    if reqs == [] then map[] else Consume(Pruned(reqs[..|reqs| - 1]), reqs[|reqs| - 1])
  }

  /** The table after the same run had nothing ever been pruned. */
  function Unpruned(reqs: seq<Request>): Table {
    if reqs == [] then map[] else UpsertAll(Unpruned(reqs[..|reqs| - 1]), reqs[|reqs| - 1])
  }

  predicate PrunesOk(reqs: seq<Request>) {
    reqs == [] || (PrunesOk(reqs[..|reqs| - 1]) && PruneOk(Pruned(reqs[..|reqs| - 1]), reqs[|reqs| - 1]))
  }

  /** The pruned table lacks only rows that have expired by `now`. */
  ghost predicate Covers(pruned: Table, full: Table, now: int) {
    && (forall k | k in pruned :: k in full && full[k] == pruned[k])
    && (forall k | k in full && k !in pruned :: full[k].expiresAt <= now)
  }

  lemma {:induction false} PrunedCovers(reqs: seq<Request>)
    requires reqs != [] && InOrder(reqs) && PrunesOk(reqs)
    ensures Covers(Pruned(reqs), Unpruned(reqs), reqs[|reqs| - 1].now)
  {
    var front, last := reqs[..|reqs| - 1], reqs[|reqs| - 1];
    if front != [] {
      PrunedCovers(front);
      assert front[|front| - 1].now <= last.now;
    }
    CoverStep(Pruned(front), Unpruned(front), last);
  }

  lemma CoverStep(t: Table, u: Table, r: Request)
    requires Covers(t, u, r.now) && PruneOk(t, r)
    ensures Covers(Consume(t, r), UpsertAll(u, r), r.now)
  {
    assert forall k | k in r.limits :: Upsert(Get(t, k), r.now) == Upsert(Get(u, k), r.now);
  }

  /** Pruning never changes a decision: the next request is accepted after the pruned run exactly
      when it is after the unpruned one, and each bucket counts the same. */
  lemma PruningIsInvisible(reqs: seq<Request>, next: Request)
    requires InOrder(reqs + [next]) && PrunesOk(reqs)
    ensures Accepted(Pruned(reqs), next) <==> Accepted(Unpruned(reqs), next)
    ensures forall k | k in next.limits ::
              Upsert(Get(Pruned(reqs), k), next.now) == Upsert(Get(Unpruned(reqs), k), next.now)
  {
    if reqs != [] {
      var all := reqs + [next];
      assert forall i | 0 <= i < |reqs| :: all[i] == reqs[i];
      assert all[|reqs| - 1].now <= all[|reqs|].now;
      PrunedCovers(reqs);
    }
  }

  /** The times of the requests that use a bucket. */
  function Times(reqs: seq<Request>, k: Key): seq<int> {
    if reqs == [] then []
    else
      var last := reqs[|reqs| - 1];
      Times(reqs[..|reqs| - 1], k) + if k in last.limits then [last.now] else []
  }

  /** Without pruning each bucket is the history of its own requests. */
  lemma {:induction false} BucketIsItsHistory(reqs: seq<Request>, k: Key)
    ensures Get(Unpruned(reqs), k) == After(Times(reqs, k))
  {
    if reqs != [] {
      var front, last := reqs[..|reqs| - 1], reqs[|reqs| - 1];
      BucketIsItsHistory(front, k);
      if k in last.limits {
        assert Times(reqs, k)[..|Times(reqs, k)| - 1] == Times(front, k);
      } else {
        assert Times(reqs, k) == Times(front, k);
      }
    }
  }

  lemma {:induction false} TimesInOrder(reqs: seq<Request>, k: Key)
    requires InOrder(reqs)
    ensures Nondecreasing(Times(reqs, k))
    ensures forall i | 0 <= i < |Times(reqs, k)| :: Times(reqs, k)[i] <= reqs[|reqs| - 1].now
  {
    if reqs != [] {
      var front := reqs[..|reqs| - 1];
      TimesInOrder(front, k);
    }
  }

  /** Accepted requests that use bucket `k` with maximum `limit`, at times in `[a, a + WINDOW)`. */
  function AcceptedInInterval(reqs: seq<Request>, k: Key, a: int): nat {
    if reqs == [] then 0
    else
      var front, last := reqs[..|reqs| - 1], reqs[|reqs| - 1];
      AcceptedInInterval(front, k, a)
      + if k in last.limits && Accepted(Pruned(front), last) && a <= last.now < a + WINDOW then 1 else 0
  }

  /** Accepted requests that fall in the window of bucket `k` that starts at `s`. */
  function AcceptedInWindow(reqs: seq<Request>, k: Key, s: int): nat {
    if reqs == [] then 0
    else
      var front, last := reqs[..|reqs| - 1], reqs[|reqs| - 1];
      AcceptedInWindow(front, k, s)
      + if k in last.limits && Accepted(Pruned(front), last) && Upsert(Get(Pruned(front), k), last.now).startedAt == s then 1 else 0
  }

  predicate LimitIs(reqs: seq<Request>, k: Key, limit: nat) {
    forall i | 0 <= i < |reqs| && k in reqs[i].limits :: reqs[i].limits[k] == limit && k !in reqs[i].prune
  }

  /** The bucket of the last request is the one its own history gives. */
  lemma LastRequestInHistory(front: seq<Request>, last: Request, k: Key)
    requires InOrder(front + [last]) && PrunesOk(front) && k in last.limits
    ensures Times(front + [last], k) == Times(front, k) + [last.now]
    ensures After(Times(front, k) + [last.now]) == Some(Upsert(Get(Pruned(front), k), last.now))
  {
    PruningIsInvisible(front, last);
    BucketIsItsHistory(front, k);
    assert (front + [last])[..|front|] == front;
    var ts := Times(front, k) + [last.now];
    assert ts[..|ts| - 1] == Times(front, k);
  }

  lemma {:induction false} AcceptedAreWithinLimit(reqs: seq<Request>, k: Key, limit: nat, a: int)
    requires InOrder(reqs) && PrunesOk(reqs) && LimitIs(reqs, k, limit)
    ensures AcceptedInInterval(reqs, k, a) <= CountInterval(Times(reqs, k), limit, a)
    ensures AcceptedInWindow(reqs, k, a) <= CountWindow(Times(reqs, k), limit, a)
  {
    if reqs != [] {
      var front, last := reqs[..|reqs| - 1], reqs[|reqs| - 1];
      AcceptedAreWithinLimit(front, k, limit, a);
      if k in last.limits {
        assert front + [last] == reqs;
        LastRequestInHistory(front, last, k);
        CountsGrow(Times(front, k), last.now, limit, a);
        assert Accepted(Pruned(front), last) ==> !Denies(Pruned(front), last, k);
      } else {
        assert Times(reqs, k) == Times(front, k);
      }
    }
  }

  lemma CountsGrow(ts: seq<int>, t: int, limit: nat, a: int)
    ensures var us := ts + [t];
            && CountInterval(us, limit, a) == CountInterval(ts, limit, a) + (if WithinLimit(us, limit) && a <= t < a + WINDOW then 1 else 0)
            && CountWindow(us, limit, a) == CountWindow(ts, limit, a) + (if WithinLimit(us, limit) && After(us).value.startedAt == a then 1 else 0)
  {
    assert (ts + [t])[..|ts|] == ts;
  }

  /** For every run of requests in order of time, with any other buckets and any pruning: a bucket
      lets at most its limit through in each of its windows, and at most twice its limit in any
      half-open interval of sixty seconds. */
  lemma RateBound(reqs: seq<Request>, k: Key, limit: nat, a: int)
    requires InOrder(reqs) && PrunesOk(reqs) && LimitIs(reqs, k, limit) && 1 <= limit < MAX_COUNT
    ensures AcceptedInWindow(reqs, k, a) <= limit
    ensures AcceptedInInterval(reqs, k, a) <= 2 * limit
  {
    AcceptedAreWithinLimit(reqs, k, limit, a);
    TimesInOrder(reqs, k);
    WindowBound(Times(reqs, k), limit, a);
    IntervalBound(Times(reqs, k), limit, a);
  }

  /** Where a request counts in one bucket only, exactly the first `limit` requests of each window
      are accepted. */
  lemma SoleBucketIsExact(reqs: seq<Request>, k: Key, limit: nat, s: int)
    requires InOrder(reqs) && PrunesOk(reqs) && LimitIs(reqs, k, limit) && limit < MAX_COUNT
    requires forall i | 0 <= i < |reqs| && k in reqs[i].limits :: reqs[i].limits.Keys == {k}
    ensures AcceptedInWindow(reqs, k, s) == Min(InWindow(Times(reqs, k), s), limit)
  {
    TimesInOrder(reqs, k);
    SoleBucketAccepts(reqs, k, limit, s);
    WindowCountIsExact(Times(reqs, k), limit, s);
  }

  lemma {:induction false} SoleBucketAccepts(reqs: seq<Request>, k: Key, limit: nat, s: int)
    requires InOrder(reqs) && PrunesOk(reqs) && LimitIs(reqs, k, limit)
    requires forall i | 0 <= i < |reqs| && k in reqs[i].limits :: reqs[i].limits.Keys == {k}
    ensures AcceptedInWindow(reqs, k, s) == CountWindow(Times(reqs, k), limit, s)
  {
    if reqs != [] {
      var front, last := reqs[..|reqs| - 1], reqs[|reqs| - 1];
      SoleBucketAccepts(front, k, limit, s);
      assert front + [last] == reqs;
      if k in last.limits {
        LastRequestInHistory(front, last, k);
        CountsGrow(Times(front, k), last.now, limit, s);
        SoleBucketDecides(Pruned(front), last, k);
      } else {
        assert Times(reqs, k) == Times(front, k);
      }
    }
  }

  lemma SoleBucketDecides(t: Table, r: Request, k: Key)
    requires r.limits.Keys == {k}
    ensures Accepted(t, r) <==> Upsert(Get(t, k), r.now).count <= r.limits[k]
  {
    assert k in r.limits.Keys;
  }

  /** The recommendation endpoint: every request counts in the installation's bucket and in its
      client's. Thirty per client and six hundred overall pass in a window, twice as many in any
      minute. */
  lemma RecommendationBounds(reqs: seq<Request>, global: Key, client: Key, a: int)
    requires InOrder(reqs) && PrunesOk(reqs) && client != global
    requires forall i | 0 <= i < |reqs| :: CountsClientAndGlobal(reqs[i], global)
    ensures AcceptedInWindow(reqs, global, a) <= 600 && AcceptedInInterval(reqs, global, a) <= 1_200
    ensures AcceptedInWindow(reqs, client, a) <= 30 && AcceptedInInterval(reqs, client, a) <= 60
  {
    PrunesAvoidLimits(reqs);
    assert GLOBAL_LIMIT == 600 && CLIENT_LIMIT == 30;
    RateBound(reqs, global, GLOBAL_LIMIT, a);
    RateBound(reqs, client, CLIENT_LIMIT, a);
  }

  /** Two buckets: the installation's, and one client's. */
  predicate CountsClientAndGlobal(r: Request, global: Key) {
    && global in r.limits && |r.limits| == 2
    && forall k | k in r.limits :: r.limits[k] == if k == global then 600 else 30
  }

  /** The verification endpoint: twenty per client in a window, forty in any minute. */
  lemma VerificationBounds(reqs: seq<Request>, client: Key, a: int)
    requires InOrder(reqs) && PrunesOk(reqs)
    requires forall i | 0 <= i < |reqs| :: |reqs[i].limits| == 1 && forall k | k in reqs[i].limits :: reqs[i].limits[k] == PUBLIC_VERIFICATION_LIMIT
    ensures AcceptedInWindow(reqs, client, a) == Min(InWindow(Times(reqs, client), a), 20)
    ensures AcceptedInWindow(reqs, client, a) <= PUBLIC_VERIFICATION_LIMIT
    ensures AcceptedInInterval(reqs, client, a) <= 2 * PUBLIC_VERIFICATION_LIMIT
  {
    PrunesAvoidLimits(reqs);
    RateBound(reqs, client, PUBLIC_VERIFICATION_LIMIT, a);
    forall i | 0 <= i < |reqs| && client in reqs[i].limits ensures reqs[i].limits.Keys == {client} {
      OnlyKey(reqs[i].limits.Keys, client);
    }
    SoleBucketIsExact(reqs, client, PUBLIC_VERIFICATION_LIMIT, a);
  }

  lemma OnlyKey(keys: set<Key>, k: Key)
    requires k in keys && |keys| == 1
    ensures keys == {k}
  {
    var rest := keys - {k};
    assert keys == rest + {k};
    assert |rest| == 0;
  }

  lemma {:induction false} PrunesAvoidLimits(reqs: seq<Request>)
    requires PrunesOk(reqs)
    ensures forall i, k | 0 <= i < |reqs| && k in reqs[i].limits :: k !in reqs[i].prune
  {
    if reqs != [] { PrunesAvoidLimits(reqs[..|reqs| - 1]); }
  }

  /** After the returned wait, with no calls in between, no bucket that denied denies again. */
  lemma WaitClearsDenials(t: Table, r: Request, retryAfterSeconds: int, later: Request, k: Key)
    requires Denies(t, r, k) && k !in r.prune
    requires Longest(t, r, Denying(t, r, r.limits.Keys), retryAfterSeconds)
    requires later.now >= r.now + retryAfterSeconds * SECOND && k in later.limits && later.limits[k] >= 1
    ensures !Denies(Consume(t, r), later, k)
  {
    assert k in Denying(t, r, r.limits.Keys);
    assert WaitOf(t, r, k) <= retryAfterSeconds && ClearedBy(t, r, k, WaitOf(t, r, k));
  }
}
