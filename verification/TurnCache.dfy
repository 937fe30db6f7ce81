/** The per-user cache of TURN credentials and of the requests for them (apps/api/src/turn.ts). */
module TurnCache {
  import opened Options
  import opened Sequences

  const CREDENTIAL_CACHE_MS: nat := 12_600_000
  const MAX_CACHED_USERS: nat := 1_000

  /** A cached promise, identified by the request it stands for. */
  datatype Entry = Entry(user: string, expiresAt: nat, request: nat)

  /** A JavaScript Map with users as keys, in insertion order. */
  type Cache = seq<Entry>

  function Find(cache: Cache, user: string): (found: Option<Entry>)
    ensures found.Some? ==> found.value in cache && found.value.user == user
    ensures found.None? ==> forall e <- cache :: e.user != user
  {
    if cache == [] then None
    else if cache[0].user == user then Some(cache[0])
    else Find(cache[1..], user)
  }

  function WithoutUser(cache: Cache, user: string): Cache {
    Filter(cache, (e: Entry) => e.user != user)
  }

  function Unexpired(cache: Cache, now: nat): Cache {
    Filter(cache, (e: Entry) => e.expiresAt > now)
  }

  predicate IsLive(e: Option<Entry>, now: nat) {
    e.Some? && e.value.expiresAt > now
  }

  /** What is kept when a new entry has to be made: other users' live entries, less the first if there are too many. */
  function MadeRoom(cache: Cache, user: string, now: nat): Cache {
    var kept := Unexpired(WithoutUser(cache, user), now);
    if |kept| >= MAX_CACHED_USERS then kept[1..] else kept
  }

  function Called(cache: Cache, user: string, now: nat, request: nat): Cache {
    if IsLive(Find(cache, user), now) then cache
    else MadeRoom(cache, user, now) + [Entry(user, now + CREDENTIAL_CACHE_MS, request)]
  }

  /** The request whose promise a call returns. */
  function Answer(cache: Cache, user: string, now: nat, request: nat): nat {
    var found := Find(cache, user);
    if IsLive(found, now) then found.value.request else request
  }

  /** A failed request removes its own entry and no other. */
  function Failed(cache: Cache, user: string, request: nat): Cache {
    var found := Find(cache, user);
    if found.Some? && found.value.request == request then WithoutUser(cache, user) else cache
  }

  class IceServerProvider {
    var cache: Cache

    constructor ()
      ensures cache == []
    {
      cache := [];
    }

    /** The part of a call before its await. */
    method Request(user: string, now: nat, nextRequest: nat) returns (request: nat)
      modifies this
      ensures cache == Called(old(cache), user, now, nextRequest)
      ensures request == Answer(old(cache), user, now, nextRequest)
    {
      var cached := Find(cache, user);
      if cached.Some? && cached.value.expiresAt > now { return cached.value.request; }
      if cached.Some? {
        Delete(user);
      } else {
        FilterAll(cache, (e: Entry) => e.user != user);
      }
      DropExpired(now);
      if |cache| >= MAX_CACHED_USERS { cache := cache[1..]; }
      cache := cache + [Entry(user, now + CREDENTIAL_CACHE_MS, nextRequest)];
      return nextRequest;
    }

    method Delete(user: string)
      modifies this
      ensures cache == WithoutUser(old(cache), user)
    {
      var kept := [];
      for i := 0 to |cache|
        invariant cache == old(cache) && kept == WithoutUser(cache[..i], user)
      {
        assert cache[..i + 1][..i] == cache[..i];
        if cache[i].user != user { kept := kept + [cache[i]]; }
      }
      assert cache[..|cache|] == cache;
      cache := kept;
    }

    method DropExpired(now: nat)
      modifies this
      ensures cache == Unexpired(old(cache), now)
    {
      var kept := [];
      for i := 0 to |cache|
        invariant cache == old(cache) && kept == Unexpired(cache[..i], now)
      {
        assert cache[..i + 1][..i] == cache[..i];
        if cache[i].expiresAt > now { kept := kept + [cache[i]]; }
      }
      assert cache[..|cache|] == cache;
      cache := kept;
    }

    /** The part of a call after its await failed. */
    method Fail(user: string, request: nat)
      modifies this
      ensures cache == Failed(old(cache), user, request)
    {
      var current := Find(cache, user);
      if current.Some? && current.value.request == request { Delete(user); }
    }
  }

  // ---- What the steps do to the entries -----------------------------------------------------------

  predicate Sorted(cache: Cache) {
    Pairwise(cache, (a: Entry, b: Entry) => a.expiresAt <= b.expiresAt)
  }

  predicate OnePerUser(cache: Cache) {
    Pairwise(cache, (a: Entry, b: Entry) => a.user != b.user)
  }

  lemma WithoutUserKeeps(cache: Cache, user: string)
    ensures forall e :: e in WithoutUser(cache, user) <==> e in cache && e.user != user
    ensures Sorted(cache) ==> Sorted(WithoutUser(cache, user))
    ensures OnePerUser(cache) ==> OnePerUser(WithoutUser(cache, user))
  {
    var keep := (e: Entry) => e.user != user;
    FilterIsExact(cache, keep);
    if Sorted(cache) { FilterKeepsPairwise(cache, keep, (a: Entry, b: Entry) => a.expiresAt <= b.expiresAt); }
    if OnePerUser(cache) { FilterKeepsPairwise(cache, keep, (a: Entry, b: Entry) => a.user != b.user); }
  }

  lemma UnexpiredKeeps(cache: Cache, now: nat)
    ensures forall e :: e in Unexpired(cache, now) <==> e in cache && e.expiresAt > now
    ensures Sorted(cache) ==> Sorted(Unexpired(cache, now))
    ensures OnePerUser(cache) ==> OnePerUser(Unexpired(cache, now))
  {
    var keep := (e: Entry) => e.expiresAt > now;
    FilterIsExact(cache, keep);
    if Sorted(cache) { FilterKeepsPairwise(cache, keep, (a: Entry, b: Entry) => a.expiresAt <= b.expiresAt); }
    if OnePerUser(cache) { FilterKeepsPairwise(cache, keep, (a: Entry, b: Entry) => a.user != b.user); }
  }

  // ---- Runs on a clock that never goes back -------------------------------------------------------

  /** `started` records for every request who made it and when. */
  datatype Started = Started(user: string, at: nat)

  datatype World = World(cache: Cache, now: nat, started: seq<Started>)

  datatype Step = Call(user: string, now: nat) | Failure(user: string, request: nat)

  const Empty := World([], 0, [])

  /** A request fails at most as the one it is. */
  predicate Enabled(w: World, s: Step) {
    match s
    case Call(_, now) => w.now <= now
    case Failure(user, request) => request < |w.started| && w.started[request].user == user
  }

  function Next(w: World, s: Step): World
    requires Enabled(w, s)
  {
    match s
    case Call(user, now) =>
      World(Called(w.cache, user, now, |w.started|), now,
            if IsLive(Find(w.cache, user), now) then w.started else w.started + [Started(user, now)])
    case Failure(user, request) => w.(cache := Failed(w.cache, user, request))
  }

  ghost predicate Run(w: World, steps: seq<Step>)
    decreases |steps|
  {
    steps == [] || (Enabled(w, steps[0]) && Run(Next(w, steps[0]), steps[1..]))
  }

  ghost function Result(w: World, steps: seq<Step>): World
    requires Run(w, steps)
    decreases |steps|
  {
    if steps == [] then w else Result(Next(w, steps[0]), steps[1..])
  }

  /** Every entry stands for a request of its user, and expires three and a half hours after that was made. */
  predicate IsStarted(w: World, e: Entry) {
    && e.request < |w.started|
    && w.started[e.request].user == e.user
    && e.expiresAt == w.started[e.request].at + CREDENTIAL_CACHE_MS
    && w.started[e.request].at <= w.now
  }

  ghost predicate Inv(w: World) {
    && |w.cache| <= MAX_CACHED_USERS
    && Sorted(w.cache) && OnePerUser(w.cache)
    && (forall e <- w.cache :: IsStarted(w, e))
  }

  lemma MadeRoomKeeps(cache: Cache, user: string, now: nat)
    requires Sorted(cache) && OnePerUser(cache) && |cache| <= MAX_CACHED_USERS
    ensures var room := MadeRoom(cache, user, now);
      && |room| < MAX_CACHED_USERS && Sorted(room) && OnePerUser(room)
      && (forall e <- room :: e in cache && e.user != user && e.expiresAt > now)
  {
    var others := WithoutUser(cache, user);
    WithoutUserKeeps(cache, user);
    UnexpiredKeeps(others, now);
    var kept := Unexpired(others, now);
    assert |kept| > 0 ==> forall e <- kept[1..] :: e in kept;
  }

  lemma CallKeeps(w: World, user: string, now: nat)
    requires Inv(w) && w.now <= now
    ensures Inv(Next(w, Call(user, now)))
  {
    if !IsLive(Find(w.cache, user), now) {
      MadeRoomKeeps(w.cache, user, now);
      NewestKeepsOrder(MadeRoom(w.cache, user, now), Entry(user, now + CREDENTIAL_CACHE_MS, |w.started|));
      forall e <- Next(w, Call(user, now)).cache
        ensures IsStarted(Next(w, Call(user, now)), e)
      {
        EntriesAreStarted(w, user, now, e);
      }
    }
  }

  lemma NewestKeepsOrder(room: Cache, e: Entry)
    requires Sorted(room) && OnePerUser(room)
    requires forall other <- room :: other.user != e.user && other.expiresAt <= e.expiresAt
    ensures Sorted(room + [e]) && OnePerUser(room + [e])
  {
  }

  lemma EntriesAreStarted(w: World, user: string, now: nat, e: Entry)
    requires w.now <= now && (forall other <- w.cache :: IsStarted(w, other))
    requires !IsLive(Find(w.cache, user), now)
    requires forall other <- MadeRoom(w.cache, user, now) :: other in w.cache
    requires e in Next(w, Call(user, now)).cache
    ensures IsStarted(Next(w, Call(user, now)), e)
  {
    if e in MadeRoom(w.cache, user, now) { assert IsStarted(w, e); }
  }

  lemma StepKeeps(w: World, s: Step)
    requires Inv(w) && Enabled(w, s)
    ensures Inv(Next(w, s))
  {
    match s
    case Call(user, now) => CallKeeps(w, user, now);
    case Failure(user, _) => WithoutUserKeeps(w.cache, user);
  }

  lemma {:induction false} RunKeeps(w: World, steps: seq<Step>)
    requires Inv(w) && Run(w, steps)
    ensures Inv(Result(w, steps))
    decreases |steps|
  {
    if steps != [] {
      StepKeeps(w, steps[0]);
      RunKeeps(Next(w, steps[0]), steps[1..]);
    }
  }

  /** After any run at most a thousand users have an entry, each has one, and the Map's order is expiry order. */
  lemma CacheIsBoundedAndOrdered(steps: seq<Step>, i: nat, j: nat)
    requires Run(Empty, steps)
    ensures var cache := Result(Empty, steps).cache;
      && |cache| <= 1_000
      && (i < j < |cache| ==> cache[i].user != cache[j].user && cache[i].expiresAt <= cache[j].expiresAt)
  {
    RunKeeps(Empty, steps);
  }

  /** Whatever a call is answered with is this user's own request, good for another half hour at least. */
  lemma AnswersStayValid(steps: seq<Step>, user: string, now: nat)
    requires Run(Empty, steps) && Result(Empty, steps).now <= now
    ensures var w := Result(Empty, steps); var w' := Next(w, Call(user, now));
      var request := Answer(w.cache, user, now, |w.started|);
      && request < |w'.started| && w'.started[request].user == user
      && w'.started[request].at <= now < w'.started[request].at + 12_600_000
      && w'.started[request].at + 14_400_000 >= now + 1_800_000
  {
    RunKeeps(Empty, steps);
    AnswerIsValid(Result(Empty, steps), user, now);
  }

  lemma AnswerIsValid(w: World, user: string, now: nat)
    requires Inv(w) && w.now <= now
    ensures var w' := Next(w, Call(user, now)); var request := Answer(w.cache, user, now, |w.started|);
      && request < |w'.started| && w'.started[request].user == user
      && w'.started[request].at <= now < w'.started[request].at + CREDENTIAL_CACHE_MS
  {
    var found := Find(w.cache, user);
    if found.Some? { assert IsStarted(w, found.value); }
  }

  // ---- Calls that share a request -----------------------------------------------------------------

  /** The step takes an entry away: as the first of a cache too full for a new one, or because its request failed. */
  predicate Drops(w: World, s: Step, e: Entry) {
    match s
    case Call(user, now) =>
      var kept := Unexpired(WithoutUser(w.cache, user), now);
      !IsLive(Find(w.cache, user), now) && |kept| >= 1_000 && kept[0] == e
    case Failure(_, request) => request == e.request
  }

  ghost predicate NeverDrops(w: World, steps: seq<Step>, e: Entry)
    requires Run(w, steps)
    decreases |steps|
  {
    steps == [] || (!Drops(w, steps[0], e) && NeverDrops(Next(w, steps[0]), steps[1..], e))
  }

  lemma KeptForOthers(cache: Cache, user: string, now: nat, e: Entry)
    requires OnePerUser(cache) && e in cache && e.user != user && e.expiresAt > now
    ensures var kept := Unexpired(WithoutUser(cache, user), now);
      e in kept && (e in kept[1..] <==> kept[0] != e)
  {
    var others := WithoutUser(cache, user);
    WithoutUserKeeps(cache, user);
    UnexpiredKeeps(others, now);
    InRestIff(Unexpired(others, now), e);
  }

  lemma InRestIff(cache: Cache, e: Entry)
    requires OnePerUser(cache) && e in cache
    ensures e in cache[1..] <==> cache[0] != e
  {
    var i :| 0 <= i < |cache| && cache[i] == e;
    if i > 0 { assert cache[1..][i - 1] == e && cache[0].user != cache[i].user; }
    if e in cache[1..] {
      var j :| 0 <= j < |cache[1..]| && cache[1..][j] == e;
      assert cache[0].user != cache[j + 1].user;
    }
  }

  lemma CallDropsIff(w: World, user: string, now: nat, e: Entry)
    requires Inv(w) && w.now <= now < e.expiresAt && e in w.cache
    ensures e in Next(w, Call(user, now)).cache <==> !Drops(w, Call(user, now), e)
  {
    if !IsLive(Find(w.cache, user), now) {
      FindIsExact(w.cache, e);
      KeptForOthers(w.cache, user, now, e);
    }
  }

  lemma StepDropsIff(w: World, s: Step, e: Entry)
    requires Inv(w) && Enabled(w, s) && e in w.cache && Next(w, s).now < e.expiresAt
    ensures e in Next(w, s).cache <==> !Drops(w, s, e)
  {
    match s
    case Call(user, now) => CallDropsIff(w, user, now, e);
    case Failure(user, request) => FailedIsExact(w, user, request, e);
  }

  /** What is gone stays gone: a new entry stands for a new request. */
  lemma GoneIsGone(w: World, s: Step, e: Entry)
    requires Inv(w) && Enabled(w, s) && e !in w.cache && e.request < |w.started|
    ensures e !in Next(w, s).cache
  {
    match s
    case Call(user, now) => MadeRoomKeeps(w.cache, user, now);
    case Failure(user, request) => WithoutUserKeeps(w.cache, user);
  }

  lemma {:induction false} RunGrows(w: World, steps: seq<Step>)
    requires Run(w, steps)
    ensures w.now <= Result(w, steps).now && w.started <= Result(w, steps).started
    decreases |steps|
  {
    if steps != [] { RunGrows(Next(w, steps[0]), steps[1..]); }
  }

  /** Before it expires, an entry is still there exactly if no step dropped it. */
  lemma {:induction false} EntryStaysIff(w: World, steps: seq<Step>, e: Entry)
    requires Inv(w) && Run(w, steps) && e.request < |w.started| && Result(w, steps).now < e.expiresAt
    ensures e in Result(w, steps).cache <==> e in w.cache && NeverDrops(w, steps, e)
    decreases |steps|
  {
    if steps != [] {
      var s := steps[0];
      StepKeeps(w, s);
      RunGrows(Next(w, s), steps[1..]);
      EntryStaysIff(Next(w, s), steps[1..], e);
      if e in w.cache {
        StepDropsIff(w, s, e);
      } else {
        GoneIsGone(w, s, e);
      }
    }
  }

  /** The entry a call leaves for its user stands for the request it is answered with. */
  lemma CallLeavesItsEntry(w: World, user: string, now: nat)
    requires Inv(w) && w.now <= now
    ensures var w' := Next(w, Call(user, now)); var request := Answer(w.cache, user, now, |w.started|);
      && request < |w'.started|
      && Entry(user, w'.started[request].at + CREDENTIAL_CACHE_MS, request) in w'.cache
  {
    if IsLive(Find(w.cache, user), now) { assert IsStarted(w, Find(w.cache, user).value); }
  }

  /** A user's call is answered with a request exactly if the entry for that request is there. */
  lemma AnswerIsTheEntry(w: World, e: Entry, at: nat)
    requires Inv(w) && w.now <= at < e.expiresAt && e.request < |w.started|
    requires w.started[e.request].user == e.user && e.expiresAt == w.started[e.request].at + CREDENTIAL_CACHE_MS
    ensures Answer(w.cache, e.user, at, |w.started|) == e.request <==> e in w.cache
    ensures e in w.cache ==> Next(w, Call(e.user, at)) == w.(now := at)
  {
    if e in w.cache {
      FindIsExact(w.cache, e);
    } else if Find(w.cache, e.user).Some? {
      assert IsStarted(w, Find(w.cache, e.user).value);
    }
  }

  /** Until its entry expires, calls share the request if and only if no step dropped the entry. */
  ghost predicate SharesUnlessDropped(w: World, later: seq<Step>, e: Entry, at: nat)
    requires Run(w, later)
  {
    var w' := Result(w, later);
    w'.now <= at < e.expiresAt ==>
      && (Answer(w'.cache, e.user, at, |w'.started|) == e.request <==> NeverDrops(w, later, e))
      && (NeverDrops(w, later, e) ==> Next(w', Call(e.user, at)) == w'.(now := at))
  }

  lemma EntryIsShared(w: World, later: seq<Step>, e: Entry, at: nat)
    requires Inv(w) && e in w.cache && Run(w, later)
    ensures SharesUnlessDropped(w, later, e, at)
  {
    var w' := Result(w, later);
    assert IsStarted(w, e);
    RunKeeps(w, later);
    RunGrows(w, later);
    if w'.now <= at < e.expiresAt {
      EntryStaysIff(w, later, e);
      AnswerIsTheEntry(w', e, at);
    }
  }

  /**
   * After a call, whatever users call and whatever fails: until its entry expires, a further call of the user
   * shares its request, and changes nothing, if and only if no step in between dropped the entry, by evicting
   * it as the first of a full cache or because that very request failed.
   */
  lemma CallsShareOneRequest(steps: seq<Step>, user: string, now: nat, later: seq<Step>, at: nat)
    requires Run(Empty, steps) && Result(Empty, steps).now <= now
    requires Run(Next(Result(Empty, steps), Call(user, now)), later)
    ensures var w := Result(Empty, steps); var w' := Next(w, Call(user, now));
      var request := Answer(w.cache, user, now, |w.started|);
      && request < |w'.started|
      && SharesUnlessDropped(w', later, Entry(user, w'.started[request].at + 12_600_000, request), at)
  {
    var w := Result(Empty, steps);
    var w', request := Next(w, Call(user, now)), Answer(w.cache, user, now, |w.started|);
    RunKeeps(Empty, steps);
    CallKeeps(w, user, now);
    CallLeavesItsEntry(w, user, now);
    EntryIsShared(w', later, Entry(user, w'.started[request].at + CREDENTIAL_CACHE_MS, request), at);
  }

  /**
   * A new entry costs the user's stale one, the expired ones and, in a full cache, exactly the live entry
   * that would have expired first; every other entry stays.
   */
  lemma EvictionIsSoonestFirst(steps: seq<Step>, user: string, now: nat, e: Entry, other: Entry)
    requires Run(Empty, steps) && Result(Empty, steps).now <= now
    ensures var w := Result(Empty, steps); var cache' := Next(w, Call(user, now)).cache;
      IsOtherLive(w.cache, user, now, e) && IsOtherLive(w.cache, user, now, other) && e !in cache' ==>
        && |cache'| == 1_000
        && e.expiresAt <= other.expiresAt
        && (other == e || other in cache')
  {
    RunKeeps(Empty, steps);
    CallCostsTheFirst(Result(Empty, steps), user, now, e, other);
  }

  lemma CallCostsTheFirst(w: World, user: string, now: nat, e: Entry, other: Entry)
    requires Sorted(w.cache) && |w.cache| <= MAX_CACHED_USERS && w.now <= now
    ensures var cache' := Next(w, Call(user, now)).cache;
      IsOtherLive(w.cache, user, now, e) && IsOtherLive(w.cache, user, now, other) && e !in cache' ==>
        && |cache'| == MAX_CACHED_USERS
        && e.expiresAt <= other.expiresAt
        && (other == e || other in cache')
  {
    var live := IsOtherLive(w.cache, user, now, e) && IsOtherLive(w.cache, user, now, other);
    if live && e !in Next(w, Call(user, now)).cache { RoomCostsTheFirst(w.cache, user, now, e, other); }
  }

  predicate IsOtherLive(cache: Cache, user: string, now: nat, e: Entry) {
    e in cache && e.user != user && e.expiresAt > now
  }

  lemma RoomCostsTheFirst(cache: Cache, user: string, now: nat, e: Entry, other: Entry)
    requires Sorted(cache) && |cache| <= MAX_CACHED_USERS
    requires e in cache && e.user != user && e.expiresAt > now && e !in MadeRoom(cache, user, now)
    requires other in cache && other.user != user && other.expiresAt > now
    ensures |MadeRoom(cache, user, now)| == MAX_CACHED_USERS - 1
    ensures e.expiresAt <= other.expiresAt && (other == e || other in MadeRoom(cache, user, now))
  {
    var others := WithoutUser(cache, user);
    WithoutUserKeeps(cache, user);
    UnexpiredKeeps(others, now);
    var kept := Unexpired(others, now);
    assert e in kept && other in kept;
    assert kept == [kept[0]] + kept[1..];
  }

  /** The cleanup of a failed request removes its entry if it is still there, and never a newer one. */
  lemma FailureRemovesItsOwn(steps: seq<Step>, user: string, request: nat, e: Entry)
    requires Run(Empty, steps) && Enabled(Result(Empty, steps), Failure(user, request))
    ensures var w := Result(Empty, steps);
      e in Next(w, Failure(user, request)).cache <==> e in w.cache && e.request != request
  {
    RunKeeps(Empty, steps);
    FailedIsExact(Result(Empty, steps), user, request, e);
  }

  lemma FailedIsExact(w: World, user: string, request: nat, e: Entry)
    requires Inv(w) && Enabled(w, Failure(user, request))
    ensures e in Failed(w.cache, user, request) <==> e in w.cache && e.request != request
  {
    WithoutUserKeeps(w.cache, user);
    if e in w.cache {
      assert IsStarted(w, e);
      if e.user == user { FindIsExact(w.cache, e); }
    }
  }

  lemma {:induction false} FindIsExact(cache: Cache, e: Entry)
    requires OnePerUser(cache) && e in cache
    ensures Find(cache, e.user) == Some(e)
  {
    if cache[0] != e {
      assert e in cache[1..];
      var i :| 0 <= i < |cache[1..]| && cache[1..][i] == e;
      assert cache[i + 1] == e && cache[0].user != e.user;
      assert OnePerUser(cache[1..]);
      FindIsExact(cache[1..], e);
    }
  }
}
