/** Paging backwards through a room's event log (apps/api/src/repository.ts, application.ts). */
module RoomHistory {
  import opened Options
  import opened Sequences

  datatype Event = Event(id: string, room: string, at: nat)

  // ---- Sorting by time, as a stable sort ----------------------------------------------------------

  /** Puts an event after everything that is not later. */
  function Insert(sorted: seq<Event>, e: Event): seq<Event> {
    if sorted == [] then [e]
    else
      var n := |sorted| - 1;
      if sorted[n].at <= e.at then sorted + [e] else Insert(sorted[..n], e) + [sorted[n]]
  }

  function Sort(events: seq<Event>): seq<Event> {
    if events == [] then [] else Insert(Sort(events[..|events| - 1]), events[|events| - 1])
  }

  predicate IsSorted(events: seq<Event>) {
    forall i, j :: 0 <= i < j < |events| ==> events[i].at <= events[j].at
  }

  lemma InsertAppend(sorted: seq<Event>, last: Event, e: Event)
    ensures Insert(sorted + [last], e) ==
      if last.at <= e.at then sorted + [last] + [e] else Insert(sorted, e) + [last]
  {
    assert (sorted + [last])[..|sorted|] == sorted;
  }

  lemma SortAppend(events: seq<Event>, e: Event)
    ensures Sort(events + [e]) == Insert(Sort(events), e)
  {
    assert (events + [e])[..|events|] == events;
  }

  lemma {:induction false} InsertKeepsAll(sorted: seq<Event>, e: Event)
    ensures multiset(Insert(sorted, e)) == multiset(sorted) + multiset{e}
  {
    if sorted != [] {
      var n := |sorted| - 1;
      InsertKeepsAll(sorted[..n], e);
      assert sorted == sorted[..n] + [sorted[n]];
    }
  }

  lemma MembersAfterInsert(sorted: seq<Event>, e: Event, x: Event)
    requires x in Insert(sorted, e)
    ensures x in sorted || x == e
  {
    InsertKeepsAll(sorted, e);
    assert x in multiset(Insert(sorted, e));
  }

  lemma {:induction false} InsertSorts(sorted: seq<Event>, e: Event)
    requires IsSorted(sorted)
    ensures IsSorted(Insert(sorted, e))
  {
    if sorted != [] && sorted[|sorted| - 1].at > e.at {
      var n := |sorted| - 1;
      var front := Insert(sorted[..n], e);
      InsertSorts(sorted[..n], e);
      forall i | 0 <= i < |front|
        ensures front[i].at <= sorted[n].at
      {
        MembersAfterInsert(sorted[..n], e, front[i]);
      }
    }
  }

  lemma SortSortsAppend(events: seq<Event>, e: Event)
    requires IsSorted(Sort(events)) && multiset(Sort(events)) == multiset(events)
    ensures IsSorted(Sort(events + [e])) && multiset(Sort(events + [e])) == multiset(events + [e])
  {
    SortAppend(events, e);
    InsertSorts(Sort(events), e);
    InsertKeepsAll(Sort(events), e);
  }

  lemma {:induction false} SortSorts(events: seq<Event>)
    ensures IsSorted(Sort(events)) && multiset(Sort(events)) == multiset(events)
  {
    if events != [] {
      var n := |events| - 1;
      assert events == events[..n] + [events[n]];
      SortSorts(events[..n]);
      SortSortsAppend(events[..n], events[n]);
    }
  }

  /** An event no earlier than all that is kept goes to the end. */
  lemma InsertAtEnd(kept: seq<Event>, e: Event)
    requires forall x <- kept :: x.at <= e.at
    ensures Insert(kept, e) == kept + [e]
  {
    if kept != [] { assert kept[|kept| - 1] in kept; }
  }

  lemma FilterInsertAtEnd(sorted: seq<Event>, e: Event, keep: Event -> bool)
    requires forall x <- sorted :: x.at <= e.at
    ensures Filter(Insert(sorted, e), keep) ==
      if keep(e) then Insert(Filter(sorted, keep), e) else Filter(sorted, keep)
  {
    InsertAtEnd(sorted, e);
    FilterAppend(sorted, e, keep);
    FilterIsExact(sorted, keep);
    InsertAtEnd(Filter(sorted, keep), e);
  }

  lemma FilterInsertBefore(front: seq<Event>, last: Event, e: Event, keep: Event -> bool)
    requires last.at > e.at
    requires Filter(Insert(front, e), keep) ==
      if keep(e) then Insert(Filter(front, keep), e) else Filter(front, keep)
    ensures var sorted := front + [last];
      Filter(Insert(sorted, e), keep) == if keep(e) then Insert(Filter(sorted, keep), e) else Filter(sorted, keep)
  {
    InsertAppend(front, last, e);
    FilterAppend(Insert(front, e), last, keep);
    FilterAppend(front, last, keep);
    InsertAppend(Filter(front, keep), last, e);
  }

  lemma {:induction false} FilterInsert(sorted: seq<Event>, e: Event, keep: Event -> bool)
    requires IsSorted(sorted)
    ensures Filter(Insert(sorted, e), keep) ==
      if keep(e) then Insert(Filter(sorted, keep), e) else Filter(sorted, keep)
  {
    if sorted == [] || sorted[|sorted| - 1].at <= e.at {
      FilterInsertAtEnd(sorted, e, keep);
    } else {
      var n := |sorted| - 1;
      FilterInsert(sorted[..n], e, keep);
      FilterInsertBefore(sorted[..n], sorted[n], e, keep);
      assert sorted == sorted[..n] + [sorted[n]];
    }
  }

  lemma SortFilterAppend(events: seq<Event>, e: Event, keep: Event -> bool)
    requires Sort(Filter(events, keep)) == Filter(Sort(events), keep)
    ensures Sort(Filter(events + [e], keep)) == Filter(Sort(events + [e]), keep)
  {
    FilterAppend(events, e, keep);
    SortAppend(events, e);
    SortAppend(Filter(events, keep), e);
    SortSorts(events);
    FilterInsert(Sort(events), e, keep);
  }

  /** Selecting before sorting comes to the same as selecting after it. */
  lemma {:induction false} SortFilter(events: seq<Event>, keep: Event -> bool)
    ensures Sort(Filter(events, keep)) == Filter(Sort(events), keep)
  {
    if events != [] {
      var n := |events| - 1;
      SortFilter(events[..n], keep);
      SortFilterAppend(events[..n], events[n], keep);
      assert events == events[..n] + [events[n]];
    }
  }

  // ---- One page -----------------------------------------------------------------------------------

  predicate IsBefore(e: Event, before: Option<nat>) {
    before.None? || e.at < before.value
  }

  function InRoom(room: string): Event -> bool {
    (e: Event) => e.room == room
  }

  function Before(before: Option<nat>): Event -> bool {
    (e: Event) => IsBefore(e, before)
  }

  function InRoomBefore(room: string, before: Option<nat>): Event -> bool {
    (e: Event) => e.room == room && IsBefore(e, before)
  }

  /** listRoomEvents with a limit; the slice it takes is never of length 0. */
  function ListRoomEvents(log: seq<Event>, room: string, limit: nat, before: Option<nat>): seq<Event> {
    Last(Sort(Filter(log, InRoomBefore(room, before))), limit)
  }

  datatype Page = Page(events: seq<Event>, hasMore: bool, nextBefore: Option<nat>)

  /** The history route asks for one event more than it returns. */
  function GetPage(log: seq<Event>, room: string, limit: nat, before: Option<nat>): Page {
    var page := ListRoomEvents(log, room, limit + 1, before);
    var events := if |page| > limit then page[|page| - limit..] else page;
    Page(events, |page| > limit, if events != [] then Some(events[0].at) else None)
  }

  /** A room's whole log, oldest first. */
  function RoomLog(log: seq<Event>, room: string): seq<Event> {
    Sort(Filter(log, InRoom(room)))
  }

  /** How many events at the front of a sorted log are before a time. */
  function CountBefore(sorted: seq<Event>, before: Option<nat>): (k: nat)
    ensures k <= |sorted|
  {
    if sorted == [] then 0
    else if IsBefore(sorted[|sorted| - 1], before) then |sorted|
    else CountBefore(sorted[..|sorted| - 1], before)
  }

  lemma {:induction false} FilterBefore(sorted: seq<Event>, before: Option<nat>)
    requires IsSorted(sorted)
    ensures var k := CountBefore(sorted, before);
      && Filter(sorted, Before(before)) == sorted[..k]
      && (forall i :: 0 <= i < k ==> IsBefore(sorted[i], before))
      && (forall i :: k <= i < |sorted| ==> !IsBefore(sorted[i], before))
  {
    var keep := Before(before);
    if sorted != [] {
      var n := |sorted| - 1;
      if IsBefore(sorted[n], before) {
        FilterAll(sorted, keep);
      } else {
        FilterBefore(sorted[..n], before);
        assert Filter(sorted, keep) == Filter(sorted[..n], keep);
      }
    }
  }

  lemma FilterTwiceAppend(log: seq<Event>, e: Event, room: string, before: Option<nat>)
    requires Filter(log, InRoomBefore(room, before)) == Filter(Filter(log, InRoom(room)), Before(before))
    ensures Filter(log + [e], InRoomBefore(room, before)) == Filter(Filter(log + [e], InRoom(room)), Before(before))
  {
    FilterAppend(log, e, InRoom(room));
    FilterAppend(log, e, InRoomBefore(room, before));
    FilterAppend(Filter(log, InRoom(room)), e, Before(before));
  }

  lemma {:induction false} FilterTwice(log: seq<Event>, room: string, before: Option<nat>)
    ensures Filter(log, InRoomBefore(room, before)) == Filter(Filter(log, InRoom(room)), Before(before))
  {
    if log != [] {
      var n := |log| - 1;
      FilterTwice(log[..n], room, before);
      FilterTwiceAppend(log[..n], log[n], room, before);
      assert log == log[..n] + [log[n]];
    }
  }

  lemma ListIsASlice(log: seq<Event>, room: string, limit: nat, before: Option<nat>)
    ensures var all := RoomLog(log, room);
      ListRoomEvents(log, room, limit, before) == Last(all[..CountBefore(all, before)], limit)
  {
    var ofRoom := Filter(log, InRoom(room));
    FilterTwice(log, room, before);
    SortFilter(ofRoom, Before(before));
    SortSorts(ofRoom);
    FilterBefore(RoomLog(log, room), before);
  }

  lemma TrimmedPage(s: seq<Event>, limit: nat)
    ensures var page := Last(s, limit + 1);
      && (|page| > limit <==> |s| > limit)
      && (if |page| > limit then page[|page| - limit..] else page) == Last(s, limit)
  {
  }

  /** The page in front of a position of a sorted log. */
  function PageOf(all: seq<Event>, k: nat, limit: nat): Page
    requires k <= |all|
  {
    var events := Last(all[..k], limit);
    Page(events, k > limit, if events == [] then None else Some(events[0].at))
  }

  /** A page is the newest `limit` events before its cursor, and says rightly whether there are older ones. */
  lemma PageIsASlice(log: seq<Event>, room: string, limit: nat, before: Option<nat>)
    ensures var all := RoomLog(log, room);
      IsSorted(all) && GetPage(log, room, limit, before) == PageOf(all, CountBefore(all, before), limit)
  {
    var all := RoomLog(log, room);
    SortSorts(Filter(log, InRoom(room)));
    ListIsASlice(log, room, limit + 1, before);
    TrimmedPage(all[..CountBefore(all, before)], limit);
  }

  // ---- The walk back through a room's history -----------------------------------------------------

  /** A position's cursor leaves no more than what is before it in a sorted log, and all of that if nothing ties. */
  lemma CountBeforePosition(all: seq<Event>, m: nat)
    requires IsSorted(all) && 0 < m < |all|
    ensures var rest := CountBefore(all, Some(all[m].at));
      rest <= m && (rest == m <==> all[m - 1].at < all[m].at)
  {
    FilterBefore(all, Some(all[m].at));
  }

  /** The next cursor leaves at most the events before this page. */
  lemma CursorGoesBack(all: seq<Event>, k: nat, limit: nat)
    requires IsSorted(all) && limit < k <= |all| && limit > 0
    ensures PageOf(all, k, limit).nextBefore == Some(all[k - limit].at)
    ensures PageOf(all, k, limit).events == all[k - limit..k]
    ensures CountBefore(all, Some(all[k - limit].at)) <= k - limit
  {
    CountBeforePosition(all, k - limit);
  }

  /** Following `nextBefore` while there is more: it ends, because every cursor leaves fewer events. */
  ghost function Walk(log: seq<Event>, room: string, limit: nat, before: Option<nat>): (pages: seq<seq<Event>>)
    requires limit > 0
    decreases CountBefore(RoomLog(log, room), before)
  {
    var page := GetPage(log, room, limit, before);
    PageIsASlice(log, room, limit, before);
    if page.hasMore then
      CursorGoesBack(RoomLog(log, room), CountBefore(RoomLog(log, room), before), limit);
      [page.events] + Walk(log, room, limit, page.nextBefore)
    else [page.events]
  }

  /** The pages of a walk, put back in order. */
  function Rejoined(pages: seq<seq<Event>>): seq<Event> {
    if pages == [] then [] else Rejoined(pages[1..]) + pages[0]
  }

  /** The walk on a sorted log, from a position instead of a cursor. */
  function WalkFrom(all: seq<Event>, k: nat, limit: nat): seq<seq<Event>>
    requires IsSorted(all) && k <= |all| && limit > 0
    decreases k
  {
    if k <= limit then [all[..k]]
    else
      CountBeforePosition(all, k - limit);
      [all[k - limit..k]] + WalkFrom(all, CountBefore(all, Some(all[k - limit].at)), limit)
  }

  lemma WalkUnfolds(log: seq<Event>, room: string, limit: nat, before: Option<nat>, all: seq<Event>, k: nat)
    requires limit > 0 && all == RoomLog(log, room) && k == CountBefore(all, before)
    ensures k <= limit ==> Walk(log, room, limit, before) == [all[..k]]
    ensures k > limit ==>
      Walk(log, room, limit, before) == [all[k - limit..k]] + Walk(log, room, limit, Some(all[k - limit].at))
  {
    PageIsASlice(log, room, limit, before);
    if k > limit { CursorGoesBack(all, k, limit); }
  }

  lemma WalkFromUnfolds(all: seq<Event>, k: nat, limit: nat)
    requires IsSorted(all) && k <= |all| && limit > 0
    ensures k <= limit ==> WalkFrom(all, k, limit) == [all[..k]]
    ensures k > limit ==>
      var rest := CountBefore(all, Some(all[k - limit].at));
      rest < k && WalkFrom(all, k, limit) == [all[k - limit..k]] + WalkFrom(all, rest, limit)
  {
    if k > limit { CountBeforePosition(all, k - limit); }
  }

  lemma {:induction false} WalkIsWalkFrom(
      log: seq<Event>, room: string, limit: nat, before: Option<nat>, all: seq<Event>, k: nat)
    requires limit > 0 && all == RoomLog(log, room) && k == CountBefore(all, before)
    requires IsSorted(all)
    ensures Walk(log, room, limit, before) == WalkFrom(all, k, limit)
    decreases k
  {
    WalkUnfolds(log, room, limit, before, all, k);
    WalkFromUnfolds(all, k, limit);
    if k > limit {
      var next := Some(all[k - limit].at);
      WalkIsWalkFrom(log, room, limit, next, all, CountBefore(all, next));
    }
  }

  /** No two events on the two sides of a page boundary happened at the same time. */
  predicate NoTieAtBoundaries(all: seq<Event>, k: nat, limit: nat)
    requires k <= |all| && limit > 0
  {
    k > limit ==> all[k - limit - 1].at < all[k - limit].at && NoTieAtBoundaries(all, k - limit, limit)
  }

  lemma {:induction false} RejoinedIsNoLonger(all: seq<Event>, k: nat, limit: nat)
    requires IsSorted(all) && k <= |all| && limit > 0
    ensures |Rejoined(WalkFrom(all, k, limit))| <= k
    decreases k
  {
    var pages := WalkFrom(all, k, limit);
    if k <= limit {
      assert pages[1..] == [];
    } else {
      CountBeforePosition(all, k - limit);
      var rest := CountBefore(all, Some(all[k - limit].at));
      RejoinedIsNoLonger(all, rest, limit);
      assert pages[1..] == WalkFrom(all, rest, limit);
    }
  }

  /** The pages give back everything before the position exactly if no tie falls on a page boundary. */
  lemma {:induction false} RejoinedIsComplete(all: seq<Event>, k: nat, limit: nat)
    requires IsSorted(all) && k <= |all| && limit > 0
    ensures Rejoined(WalkFrom(all, k, limit)) == all[..k] <==> NoTieAtBoundaries(all, k, limit)
    decreases k
  {
    var pages := WalkFrom(all, k, limit);
    if k <= limit {
      assert pages[1..] == [] && Rejoined(pages) == Rejoined([]) + all[..k] == all[..k];
    } else {
      var m := k - limit;
      CountBeforePosition(all, m);
      var rest := CountBefore(all, Some(all[m].at));
      assert pages[1..] == WalkFrom(all, rest, limit) && Rejoined(pages) == Rejoined(pages[1..]) + all[m..k];
      RejoinedIsNoLonger(all, rest, limit);
      if rest == m {
        RejoinedIsComplete(all, m, limit);
        SplitAt(Rejoined(pages[1..]), all, m, k);
      }
    }
  }

  lemma SplitAt(front: seq<Event>, all: seq<Event>, m: nat, k: nat)
    requires m <= k <= |all|
    ensures front + all[m..k] == all[..k] <==> front == all[..m]
  {
    assert all[..k] == all[..m] + all[m..k];
    if front + all[m..k] == all[..k] {
      assert |front| == m && front == (front + all[m..k])[..m];
    }
  }

  /**
   * Walking back through a room rejoins to exactly its log if and only if no page boundary, counted from
   * the newest event, separates two events of the same time.
   */
  lemma WalkIsCompleteIff(log: seq<Event>, room: string, limit: nat)
    requires limit > 0
    ensures var all := RoomLog(log, room);
      && IsSorted(all) && multiset(all) == multiset(Filter(log, InRoom(room)))
      && (Rejoined(Walk(log, room, limit, None)) == all <==> NoTieAtBoundaries(all, |all|, limit))
  {
    var all := RoomLog(log, room);
    SortSorts(Filter(log, InRoom(room)));
    assert CountBefore(all, None) == |all|;
    WalkIsWalkFrom(log, room, limit, None, all, |all|);
    RejoinedIsComplete(all, |all|, limit);
    assert all[..|all|] == all;
  }

  lemma {:induction false} DistinctTimesDoNotTie(all: seq<Event>, k: nat, limit: nat)
    requires k <= |all| && limit > 0
    requires forall i :: 0 < i < |all| ==> all[i - 1].at < all[i].at
    ensures NoTieAtBoundaries(all, k, limit)
  {
    if k > limit { DistinctTimesDoNotTie(all, k - limit, limit); }
  }

  /** With pairwise distinct times nothing is ever skipped, whatever the page size. */
  lemma DistinctTimesAreEnough(log: seq<Event>, room: string, limit: nat)
    requires limit > 0
    requires var all := RoomLog(log, room); forall i, j :: 0 <= i < j < |all| ==> all[i].at != all[j].at
    ensures Rejoined(Walk(log, room, limit, None)) == RoomLog(log, room)
  {
    WalkIsCompleteIff(log, room, limit);
    DistinctTimesDoNotTie(RoomLog(log, room), |RoomLog(log, room)|, limit);
  }

  /** Two events of one time across a boundary: the older one is never shown. */
  lemma TiesAreSkipped()
    ensures var e, f := Event("e", "r", 5), Event("f", "r", 5);
      && RoomLog([e, f], "r") == [e, f]
      && Rejoined(Walk([e, f], "r", 1, None)) != [e, f]
  {
    var e, f := Event("e", "r", 5), Event("f", "r", 5);
    FilterAll([e, f], InRoom("r"));
    assert [e, f][..1] == [e] && [e][..0] == [];
    assert Sort([e]) == [e] && Sort([e, f]) == [e, f];
    WalkIsCompleteIff([e, f], "r", 1);
  }

  /** All events of a page are older than all events of the pages before it in the walk. */
  predicate AllOlder(page: seq<Event>, time: nat) {
    forall e <- page :: e.at < time
  }

  /** Every page is sorted, no longer than asked for, and strictly older than the page before it. */
  predicate IsOrderedWalk(pages: seq<seq<Event>>, limit: nat) {
    pages != [] ==>
      && |pages[0]| <= limit && IsSorted(pages[0])
      && (pages[0] != [] ==> forall older <- pages[1..] :: AllOlder(older, pages[0][0].at))
      && IsOrderedWalk(pages[1..], limit)
  }

  lemma OlderThanThePosition(all: seq<Event>, k: nat, time: nat, page: seq<Event>)
    requires IsSorted(all) && k <= |all|
    requires CountBefore(all, Some(time)) <= k
    requires forall e: Event | e in page :: e in all[..CountBefore(all, Some(time))]
    ensures AllOlder(page, time) && forall e: Event | e in page :: e in all[..k]
  {
    FilterBefore(all, Some(time));
    forall e: Event | e in page
      ensures e.at < time && e in all[..k]
    {
      var i :| 0 <= i < CountBefore(all, Some(time)) && all[i] == e;
      assert IsBefore(all[i], Some(time)) && all[..k][i] == e;
    }
  }

  lemma {:induction false} WalkFromIsOrdered(all: seq<Event>, k: nat, limit: nat)
    requires IsSorted(all) && k <= |all| && limit > 0
    ensures IsOrderedWalk(WalkFrom(all, k, limit), limit)
    ensures forall page: seq<Event>, e: Event | page in WalkFrom(all, k, limit) && e in page :: e in all[..k]
    decreases k
  {
    var pages := WalkFrom(all, k, limit);
    if k <= limit {
      assert pages == [all[..k]] && pages[1..] == [];
    } else {
      var m := k - limit;
      var time := all[m].at;
      CountBeforePosition(all, m);
      var rest := CountBefore(all, Some(time));
      WalkFromIsOrdered(all, rest, limit);
      assert pages[0] == all[m..k] && pages[1..] == WalkFrom(all, rest, limit);
      forall page: seq<Event> | page in pages[1..]
        ensures AllOlder(page, time) && forall e: Event | e in page :: e in all[..k]
      {
        OlderThanThePosition(all, k, time, page);
      }
    }
  }

  /** A walk ends with pages of at most `limit` events, each sorted and strictly older than the one before. */
  lemma WalksAreOrdered(log: seq<Event>, room: string, limit: nat)
    requires limit > 0
    ensures IsOrderedWalk(Walk(log, room, limit, None), limit)
    ensures forall page: seq<Event>, e: Event | page in Walk(log, room, limit, None) && e in page ::
      e in log && e.room == room
  {
    var all := RoomLog(log, room);
    SortSorts(Filter(log, InRoom(room)));
    assert CountBefore(all, None) == |all|;
    WalkIsWalkFrom(log, room, limit, None, all, |all|);
    WalkFromIsOrdered(all, |all|, limit);
    FilterIsExact(log, InRoom(room));
    forall page: seq<Event>, e: Event | page in Walk(log, room, limit, None) && e in page
      ensures e in log && e.room == room
    {
      assert e in all;
      assert e in multiset(all);
    }
  }
}
