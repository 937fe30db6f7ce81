/**
 * Fixed-window rate limits: one counter kept in process, in a Mongo pipeline and in a Redis script
 * (apps/api/src/cache.ts, repository.ts), and the limiter over a cache with a fallback (application.ts).
 */
module RateLimits {
  import opened Numbers
  import opened Options

  datatype Window = Window(count: nat, resetAt: nat)

  // ---- The in-process window ----------------------------------------------------------------------

  /** Counting one call: an expired or missing window starts over at this call. */
  function Incremented(w: Option<Window>, now: nat, windowMs: nat): Window {
    if w.None? || w.value.resetAt <= now then Window(1, now + windowMs)
    else Window(w.value.count + 1, w.value.resetAt)
  }

  function At(windows: map<string, Window>, key: string): (w: Option<Window>)
    ensures w.Some? <==> key in windows
    ensures w.Some? ==> w.value == windows[key]
  {
    if key in windows then Some(windows[key]) else None
  }

  /** MemoryCache and MemoryRepository count the same way. */
  class MemoryWindows {
    var windows: map<string, Window>

    constructor ()
      ensures windows == map[]
    {
      windows := map[];
    }

    method IncrementWindow(key: string, windowMs: nat, now: nat) returns (entry: Window)
      modifies this
      ensures entry == Incremented(At(old(windows), key), now, windowMs)
      ensures windows == old(windows)[key := entry]
    {
      entry := if key !in windows || windows[key].resetAt <= now then Window(0, now + windowMs) else windows[key];
      entry := entry.(count := entry.count + 1);
      windows := windows[key := entry];
    }
  }

  // ---- The Mongo pipeline -------------------------------------------------------------------------

  datatype Document = Document(count: Option<nat>, resetAt: Option<nat>)

  /** `$lte` against a date: a missing field sorts before every date. */
  predicate Lte(resetAt: Option<nat>, now: nat) {
    resetAt.None? || resetAt.value <= now
  }

  function OrElse(x: Option<nat>, default: nat): nat {
    if x.Some? then x.value else default
  }

  /** The update pipeline of incrementRateLimit, on an upserted document when there was none. */
  function Pipeline(found: Option<Document>, now: nat, windowMs: nat): Document {
    var d := if found.Some? then found.value else Document(None, None);
    Document(
      Some(if Lte(d.resetAt, now) then 1 else OrElse(d.count, 0) + 1),
      Some(if Lte(d.resetAt, now) then now + windowMs else OrElse(d.resetAt, now + windowMs)))
  }

  // ---- The Redis script ---------------------------------------------------------------------------

  /** A counter with the time Redis drops it; a lost PEXPIRE leaves none. */
  datatype Counter = Counter(count: nat, expireAt: Option<nat>)

  /** Redis has a key until its expiry time. */
  function Held(c: Option<Counter>, now: nat): Option<Counter> {
    if c.Some? && c.value.expireAt.Some? && c.value.expireAt.value <= now then None else c
  }

  /** INCR at one time and PTTL at a later one, with PEXPIRE when no expiry is reported. */
  function Script(c: Option<Counter>, incr: nat, pttl: nat, windowMs: nat): (Option<Counter>, nat, nat) {
    var before := Held(c, incr);
    var counted := if before.Some? then before.value.(count := before.value.count + 1) else Counter(1, None);
    match Held(Some(counted), pttl)
    case None => (None, counted.count, windowMs)
    case Some(kept) =>
      if kept.expireAt.None? then (Some(kept.(expireAt := Some(pttl + windowMs))), kept.count, windowMs)
      else (Some(kept), kept.count, if kept.expireAt.value >= pttl then kept.expireAt.value - pttl else 0)
  }

  /** The reply as incrementWindow reports it, on one clock and with the script taking no time. */
  function RedisReply(c: Option<Counter>, now: nat, windowMs: nat): Window {
    var (_, count, ttl) := Script(c, now, now, windowMs);
    Window(count, now + ttl)
  }

  /**
   * From any state, even a counter that would never expire or one that expires between the two commands,
   * one run leaves no counter or one that will end.
   */
  lemma ScriptAlwaysEnds(c: Option<Counter>, incr: nat, pttl: nat, windowMs: nat)
    requires incr <= pttl && windowMs > 0
    ensures var (after, count, ttl) := Script(c, incr, pttl, windowMs);
      && (after.Some? ==> after.value.expireAt.Some? && after.value.expireAt.value == pttl + ttl && ttl > 0
                          && after.value.count == count)
      && Held(after, pttl + ttl).None?
  {
  }

  // ---- The three agree ----------------------------------------------------------------------------

  /** A call, or the store dropping a bucket that has expired by itself. */
  datatype Op = Call(now: nat, windowMs: nat) | Purge(now: nat, document: bool, counter: bool)

  predicate InOrder(ops: seq<Op>, from: nat) {
    ops == [] || (from <= ops[0].now && (ops[0].Call? ==> ops[0].windowMs > 0) && InOrder(ops[1..], ops[0].now))
  }

  function MemoryReplies(w: Option<Window>, ops: seq<Op>): seq<Window>
    decreases |ops|
  {
    if ops == [] then []
    else match ops[0]
      case Call(now, windowMs) =>
        var entry := Incremented(w, now, windowMs);
        [entry] + MemoryReplies(Some(entry), ops[1..])
      case Purge(_, _, _) => MemoryReplies(w, ops[1..])
  }

  function MongoReplies(d: Option<Document>, ops: seq<Op>): seq<Window>
    decreases |ops|
  {
    if ops == [] then []
    else match ops[0]
      case Call(now, windowMs) =>
        var after := Pipeline(d, now, windowMs);
        [Window(after.count.value, after.resetAt.value)] + MongoReplies(Some(after), ops[1..])
      case Purge(now, drop, _) =>
        MongoReplies(if drop && d.Some? && Lte(d.value.resetAt, now) then None else d, ops[1..])
  }

  function RedisReplies(c: Option<Counter>, ops: seq<Op>): seq<Window>
    decreases |ops|
  {
    if ops == [] then []
    else match ops[0]
      case Call(now, windowMs) =>
        [RedisReply(c, now, windowMs)] + RedisReplies(Script(c, now, now, windowMs).0, ops[1..])
      case Purge(now, _, drop) => RedisReplies(if drop then Held(c, now) else c, ops[1..])
  }

  function LiveWindow(w: Option<Window>, now: nat): Option<Window> {
    if w.Some? && w.value.resetAt <= now then None else w
  }

  function LiveDocument(d: Option<Document>, now: nat): Option<Window> {
    if d.None? || Lte(d.value.resetAt, now) then None
    else Some(Window(OrElse(d.value.count, 0), d.value.resetAt.value))
  }

  function LiveCounter(c: Option<Counter>, now: nat): Option<Window> {
    match Held(c, now)
    case None => None
    case Some(held) => Some(Window(held.count, OrElse(held.expireAt, 0)))
  }

  /** Nothing but the live window matters, and it is the same in all three. */
  predicate Agree(w: Option<Window>, d: Option<Document>, c: Option<Counter>, now: nat) {
    && LiveWindow(w, now) == LiveDocument(d, now) == LiveCounter(c, now)
    && (c.Some? ==> c.value.expireAt.Some?)
  }

  /** For every call sequence the three report the same counts and reset times, whatever vanishes once expired. */
  lemma {:induction false} ImplementationsAgree(
      w: Option<Window>, d: Option<Document>, c: Option<Counter>, ops: seq<Op>, from: nat)
    requires Agree(w, d, c, from) && InOrder(ops, from)
    ensures MemoryReplies(w, ops) == MongoReplies(d, ops) == RedisReplies(c, ops)
    decreases |ops|
  {
    if ops != [] {
      match ops[0]
      case Call(now, windowMs) =>
        ImplementationsAgree(Some(Incremented(w, now, windowMs)), Some(Pipeline(d, now, windowMs)),
                             Script(c, now, now, windowMs).0, ops[1..], now);
      case Purge(now, dropDocument, dropCounter) =>
        ImplementationsAgree(w, if dropDocument && d.Some? && Lte(d.value.resetAt, now) then None else d,
                             if dropCounter then Held(c, now) else c, ops[1..], now);
    }
  }

  // ---- The limiter --------------------------------------------------------------------------------

  /** What became of the cache's part of a call: served, counted but lost on the way back, or not reached. */
  datatype CacheOutcome = Served | Lost | Down

  datatype Buckets = Buckets(cache: Option<Window>, repository: Option<Window>)

  /** rateLimitBucket: the cache's count if it answers, the repository's otherwise. */
  function Counted(b: Buckets, now: nat, windowMs: nat, cache: CacheOutcome): Buckets {
    Buckets(
      if cache.Down? then b.cache else Some(Incremented(b.cache, now, windowMs)),
      if cache.Served? then b.repository else Some(Incremented(b.repository, now, windowMs)))
  }

  function Deciding(b: Buckets, cache: CacheOutcome): Option<Window> {
    if cache.Served? then b.cache else b.repository
  }

  predicate Admits(b: Buckets, cache: CacheOutcome, limit: nat) {
    Deciding(b, cache).Some? && Deciding(b, cache).value.count <= limit
  }

  class RateLimiter {
    var cache: map<string, Window>
    var repository: map<string, Window>

    constructor ()
      ensures cache == map[] && repository == map[]
    {
      cache, repository := map[], map[];
    }

    ghost function BucketsOf(key: string): Buckets
      reads this
    {
      Buckets(At(cache, key), At(repository, key))
    }

    /** A refused call is told to come back in at least one second. */
    method Admit(key: string, limit: nat, windowMs: nat, now: nat, outcome: CacheOutcome, repliedAt: nat)
      returns (admitted: bool, retryAfterSeconds: nat)
      modifies this
      ensures BucketsOf(key) == Counted(old(BucketsOf(key)), now, windowMs, outcome)
      ensures forall other :: other != key ==> BucketsOf(other) == old(BucketsOf(other))
      ensures admitted == Admits(BucketsOf(key), outcome, limit)
      ensures !admitted ==> var resetAt := Deciding(BucketsOf(key), outcome).value.resetAt;
        && retryAfterSeconds >= 1
        && repliedAt + 1000 * retryAfterSeconds >= resetAt
        && (retryAfterSeconds == 1 || repliedAt + 1000 * (retryAfterSeconds - 1) < resetAt)
    {
      var bucket := Window(0, 0);
      if !outcome.Down? {
        bucket := Incremented(At(cache, key), now, windowMs);
        cache := cache[key := bucket];
      }
      if !outcome.Served? {
        bucket := Incremented(At(repository, key), now, windowMs);
        repository := repository[key := bucket];
      }
      admitted, retryAfterSeconds := true, 0;
      if bucket.count > limit {
        admitted := false;
        var seconds := if bucket.resetAt <= repliedAt then 0 else (bucket.resetAt - repliedAt + 999) / 1000;
        retryAfterSeconds := if seconds > 1 then seconds else 1;
      }
    }
  }

  // ---- Bounds over every run ----------------------------------------------------------------------

  datatype Request = Request(now: nat, cache: CacheOutcome)

  predicate Ordered(requests: seq<Request>, from: nat) {
    requests == [] || (from <= requests[0].now && Ordered(requests[1..], requests[0].now))
  }

  /** How many requests made from `a` to `a + windowMs`, both included, the cache (or the repository) admits. */
  function Admitted(b: Buckets, requests: seq<Request>, limit: nat, windowMs: nat, a: nat, byCache: bool): nat
    decreases |requests|
  {
    if requests == [] then 0
    else
      var r := requests[0];
      var after := Counted(b, r.now, windowMs, r.cache);
      Admitted(after, requests[1..], limit, windowMs, a, byCache)
      + if a <= r.now <= a + windowMs && r.cache.Served? == byCache && Admits(after, r.cache, limit) then 1 else 0
  }

  /**
   * `n` admissions in the interval so far: they all fell into the present window, or into it and the one
   * before, in which case the present one outlasts the interval.
   */
  predicate Fits(w: Option<Window>, n: nat, limit: nat, windowMs: nat, a: nat) {
    n == 0 ||
    (w.Some? && w.value.resetAt > a
     && (n <= Min(w.value.count, limit)
         || (n <= limit + Min(w.value.count, limit) && w.value.resetAt > a + windowMs)))
  }

  /** One more call to a store, whether or not its count decides the request. */
  lemma FitsAfterCall(w: Option<Window>, n: nat, limit: nat, windowMs: nat, a: nat, now: nat, decides: bool)
    requires windowMs > 0 && Fits(w, n, limit, windowMs, a) && now <= a + windowMs && (now < a ==> n == 0)
    ensures var w' := Incremented(w, now, windowMs);
      Fits(Some(w'), n + if a <= now && decides && w'.count <= limit then 1 else 0, limit, windowMs, a)
  {
  }

  lemma {:induction false} AdmittedAfter(
      b: Buckets, requests: seq<Request>, limit: nat, windowMs: nat, a: nat, byCache: bool)
    requires requests != [] ==> a + windowMs < requests[0].now
    requires Ordered(requests, if requests == [] then 0 else requests[0].now)
    ensures Admitted(b, requests, limit, windowMs, a, byCache) == 0
    decreases |requests|
  {
    if requests != [] {
      var r := requests[0];
      AdmittedAfter(Counted(b, r.now, windowMs, r.cache), requests[1..], limit, windowMs, a, byCache);
    }
  }

  lemma {:induction false} AdmittedFits(
      b: Buckets, requests: seq<Request>, limit: nat, windowMs: nat, a: nat, byCache: bool, n: nat, from: nat)
    requires windowMs > 0 && Ordered(requests, from) && (from < a ==> n == 0)
    requires Fits(if byCache then b.cache else b.repository, n, limit, windowMs, a)
    ensures n + Admitted(b, requests, limit, windowMs, a, byCache) <= 2 * limit
    decreases |requests|
  {
    if requests != [] {
      var r := requests[0];
      var after := Counted(b, r.now, windowMs, r.cache);
      if a + windowMs < r.now {
        AdmittedAfter(b, requests, limit, windowMs, a, byCache);
      } else {
        var store := if byCache then b.cache else b.repository;
        FitsAfterCall(store, n, limit, windowMs, a, r.now, r.cache.Served? == byCache);
        var here := Admitted(b, requests, limit, windowMs, a, byCache)
                    - Admitted(after, requests[1..], limit, windowMs, a, byCache);
        AdmittedFits(after, requests[1..], limit, windowMs, a, byCache, n + here, r.now);
      }
    }
  }

  /**
   * On a clock that never goes back, in any interval one window long each store admits at most twice the
   * limit, and however the cache fails and comes back the two admit at most four times the limit together.
   */
  lemma IntervalsAreBounded(requests: seq<Request>, limit: nat, windowMs: nat, a: nat)
    requires windowMs > 0 && Ordered(requests, 0)
    ensures var b := Buckets(None, None);
      && Admitted(b, requests, limit, windowMs, a, true) <= 2 * limit
      && Admitted(b, requests, limit, windowMs, a, false) <= 2 * limit
      && Admitted(b, requests, limit, windowMs, a, true)
         + Admitted(b, requests, limit, windowMs, a, false) <= 4 * limit
  {
    AdmittedFits(Buckets(None, None), requests, limit, windowMs, a, true, 0, 0);
    AdmittedFits(Buckets(None, None), requests, limit, windowMs, a, false, 0, 0);
  }

  lemma OneMoreRequest(b: Buckets, r: Request, rest: seq<Request>, limit: nat, windowMs: nat, a: nat, byCache: bool)
    ensures var after := Counted(b, r.now, windowMs, r.cache);
      Admitted(b, [r] + rest, limit, windowMs, a, byCache) ==
        Admitted(after, rest, limit, windowMs, a, byCache)
        + if a <= r.now <= a + windowMs && r.cache.Served? == byCache && Admits(after, r.cache, limit) then 1 else 0
    ensures forall from: nat :: Ordered([r] + rest, from) <==> from <= r.now && Ordered(rest, r.now)
  {
    assert ([r] + rest)[1..] == rest;
  }

  /** n requests at one time. */
  function Burst(now: nat, cache: CacheOutcome, n: nat): seq<Request> {
    if n == 0 then [] else [Request(now, cache)] + Burst(now, cache, n - 1)
  }

  predicate IsOver(w: Option<Window>, now: nat) {
    w.None? || w.value.resetAt <= now
  }

  /** A window that was over, after k calls at one time. */
  function Filled(w: Option<Window>, now: nat, windowMs: nat, k: nat): Option<Window> {
    if k == 0 then w else Some(Window(k, now + windowMs))
  }

  function WithStore(cache: CacheOutcome, w: Option<Window>, other: Option<Window>): Buckets {
    if cache.Served? then Buckets(w, other) else Buckets(other, w)
  }

  /** A burst within the limit is admitted whole by the store it goes to. */
  lemma {:induction false} BurstIsAdmitted(
      w: Option<Window>, other: Option<Window>, k: nat, n: nat, r: Request, rest: seq<Request>,
      limit: nat, windowMs: nat, a: nat, byCache: bool)
    requires windowMs > 0 && IsOver(w, r.now) && !r.cache.Lost? && k + n <= limit && a <= r.now <= a + windowMs
    ensures
      Admitted(WithStore(r.cache, Filled(w, r.now, windowMs, k), other), Burst(r.now, r.cache, n) + rest,
        limit, windowMs, a, byCache)
      == Admitted(WithStore(r.cache, Filled(w, r.now, windowMs, k + n), other), rest, limit, windowMs, a, byCache)
        + if r.cache.Served? == byCache then n else 0
    decreases n
  {
    if n == 0 {
      assert Burst(r.now, r.cache, n) + rest == rest;
    } else {
      var b := WithStore(r.cache, Filled(w, r.now, windowMs, k), other);
      var later := Burst(r.now, r.cache, n - 1) + rest;
      assert Burst(r.now, r.cache, n) + rest == [r] + later;
      OneMoreRequest(b, r, later, limit, windowMs, a, byCache);
      assert Counted(b, r.now, windowMs, r.cache) == WithStore(r.cache, Filled(w, r.now, windowMs, k + 1), other);
      BurstIsAdmitted(w, other, k + 1, n - 1, r, rest, limit, windowMs, a, byCache);
    }
  }

  lemma {:induction false} BurstIsOrdered(now: nat, cache: CacheOutcome, n: nat, rest: seq<Request>, from: nat)
    requires from <= now && Ordered(rest, now)
    ensures Ordered(Burst(now, cache, n) + rest, from)
    decreases n
  {
    if n == 0 {
      assert Burst(now, cache, n) + rest == rest;
    } else {
      BurstIsOrdered(now, cache, n - 1, rest, now);
      var later := Burst(now, cache, n - 1) + rest;
      assert Burst(now, cache, n) + rest == [Request(now, cache)] + later;
      OneMoreRequest(Buckets(None, None), Request(now, cache), later, 0, 0, 0, true);
    }
  }

  /** As many calls to each store as the limit allows, at both ends of an interval. */
  function BothEnds(limit: nat, windowMs: nat): seq<Request> {
    Burst(0, Served, limit) + (Burst(0, Down, limit)
    + (Burst(windowMs, Served, limit) + (Burst(windowMs, Down, limit) + [])))
  }

  /** The bounds are reached for every limit and window, by a cache that fails and comes back. */
  lemma BoundsAreReached(limit: nat, windowMs: nat, byCache: bool)
    requires limit > 0 && windowMs > 0
    ensures Ordered(BothEnds(limit, windowMs), 0)
    ensures Admitted(Buckets(None, None), BothEnds(limit, windowMs), limit, windowMs, 0, byCache) == 2 * limit
  {
    var fourth := Burst(windowMs, Down, limit) + [];
    var third := Burst(windowMs, Served, limit) + fourth;
    var second := Burst(0, Down, limit) + third;
    var w, w' := Some(Window(limit, windowMs)), Some(Window(limit, windowMs + windowMs));
    BurstIsOrdered(windowMs, Down, limit, [], windowMs);
    BurstIsOrdered(windowMs, Served, limit, fourth, 0);
    BurstIsOrdered(0, Down, limit, third, 0);
    BurstIsOrdered(0, Served, limit, second, 0);
    BurstIsAdmitted(None, None, 0, limit, Request(0, Served), second, limit, windowMs, 0, byCache);
    BurstIsAdmitted(None, w, 0, limit, Request(0, Down), third, limit, windowMs, 0, byCache);
    BurstIsAdmitted(w, w, 0, limit, Request(windowMs, Served), fourth, limit, windowMs, 0, byCache);
    BurstIsAdmitted(w, w', 0, limit, Request(windowMs, Down), [], limit, windowMs, 0, byCache);
  }

  predicate IsIn(r: Request, a: nat, windowMs: nat) {
    a <= r.now <= a + windowMs
  }

  lemma {:induction false} NothingByTheOther(
      b: Buckets, requests: seq<Request>, limit: nat, windowMs: nat, a: nat, byCache: bool)
    requires forall r <- requests :: IsIn(r, a, windowMs) ==> r.cache.Served? != byCache
    ensures Admitted(b, requests, limit, windowMs, a, byCache) == 0
    decreases |requests|
  {
    if requests != [] {
      var r := requests[0];
      assert r in requests && (IsIn(r, a, windowMs) ==> r.cache.Served? != byCache);
      NothingByTheOther(Counted(b, r.now, windowMs, r.cache), requests[1..], limit, windowMs, a, byCache);
    }
  }

  /**
   * If the requests of an interval all get the cache's answer, or all fall back, at most twice the limit is
   * admitted in it: more takes a cache that fails or comes back within the interval.
   */
  lemma OneStoreAdmitsTwice(requests: seq<Request>, limit: nat, windowMs: nat, a: nat)
    requires windowMs > 0 && Ordered(requests, 0)
    requires
      || (forall r <- requests :: IsIn(r, a, windowMs) ==> r.cache.Served?)
      || (forall r <- requests :: IsIn(r, a, windowMs) ==> !r.cache.Served?)
    ensures var b := Buckets(None, None);
      Admitted(b, requests, limit, windowMs, a, true) + Admitted(b, requests, limit, windowMs, a, false) <= 2 * limit
  {
    IntervalsAreBounded(requests, limit, windowMs, a);
    if forall r <- requests :: IsIn(r, a, windowMs) ==> r.cache.Served? {
      NothingByTheOther(Buckets(None, None), requests, limit, windowMs, a, false);
    } else {
      NothingByTheOther(Buckets(None, None), requests, limit, windowMs, a, true);
    }
  }

  /** How many calls to one store are admitted in the window that ends at `resetAt`. */
  function AdmittedInWindow(w: Option<Window>, calls: seq<nat>, limit: nat, windowMs: nat, resetAt: nat): nat
    decreases |calls|
  {
    if calls == [] then 0
    else
      var after := Incremented(w, calls[0], windowMs);
      AdmittedInWindow(Some(after), calls[1..], limit, windowMs, resetAt)
      + if after.resetAt == resetAt && after.count <= limit then 1 else 0
  }

  predicate NonDecreasing(calls: seq<nat>, from: nat) {
    calls == [] || (from <= calls[0] && NonDecreasing(calls[1..], calls[0]))
  }

  lemma {:induction false} WindowsFit(
      w: Option<Window>, calls: seq<nat>, limit: nat, windowMs: nat, resetAt: nat, n: nat, from: nat)
    requires windowMs > 0 && NonDecreasing(calls, from)
    requires n == 0 || (w.Some? && resetAt <= w.value.resetAt)
    requires n <= limit && (w.Some? && w.value.resetAt == resetAt ==> n <= w.value.count)
    ensures n + AdmittedInWindow(w, calls, limit, windowMs, resetAt) <= limit
    decreases |calls|
  {
    if calls != [] {
      var after := Incremented(w, calls[0], windowMs);
      var here := if after.resetAt == resetAt && after.count <= limit then 1 else 0;
      WindowsFit(Some(after), calls[1..], limit, windowMs, resetAt, n + here, calls[0]);
    }
  }

  /** One store admits at most the limit in one window. */
  lemma WindowsAreBounded(calls: seq<nat>, limit: nat, windowMs: nat, resetAt: nat)
    requires windowMs > 0 && NonDecreasing(calls, 0)
    ensures AdmittedInWindow(None, calls, limit, windowMs, resetAt) <= limit
  {
    WindowsFit(None, calls, limit, windowMs, resetAt, 0, 0);
  }
}
