/**
 * Memberships as the memory repository keeps them: a Map from id to membership, in insertion order, searched
 * by place and user (apps/api/src/repository.ts). A place is an organization or a room.
 */
module Memberships {
  import opened Options

  datatype Seat = Seat(place: nat, user: string)

  datatype Member<S> = Member(id: nat, seat: Seat, standing: S)

  // ---- The Map's operations -----------------------------------------------------------------------

  /** The first entry for a seat. */
  function Find<S>(s: seq<Member<S>>, seat: Seat): Option<Member<S>> {
    if s == [] then None
    else if s[0].seat == seat then Some(s[0])
    else Find(s[1..], seat)
  }

  /** Setting an entry: in place if its id is there, at the end otherwise. */
  function Put<S>(s: seq<Member<S>>, m: Member<S>): seq<Member<S>> {
    if s == [] then [m]
    else if s[0].id == m.id then [m] + s[1..]
    else [s[0]] + Put(s[1..], m)
  }

  /** Deleting the entry with an id. */
  function Without<S>(s: seq<Member<S>>, id: nat): seq<Member<S>> {
    if s == [] then []
    else if s[0].id == id then s[1..]
    else [s[0]] + Without(s[1..], id)
  }

  // ---- What they come to --------------------------------------------------------------------------

  function Ids<S>(s: seq<Member<S>>): set<nat> {
    if s == [] then {} else Ids(s[1..]) + {s[0].id}
  }

  /** Who stands where. */
  function Standings<S>(s: seq<Member<S>>): map<Seat, S> {
    if s == [] then map[] else Standings(s[1..])[s[0].seat := s[0].standing]
  }

  /** No id and no seat is there twice, and all ids were handed out before `next`. */
  predicate IsDistinct<S>(s: seq<Member<S>>, next: nat) {
    s != [] ==>
      && s[0].id < next && s[0].id !in Ids(s[1..])
      && s[0].seat !in Standings(s[1..])
      && IsDistinct(s[1..], next)
  }

  lemma {:induction false} IdsAndSeats<S>(s: seq<Member<S>>, i: nat)
    requires i < |s|
    ensures s[i].id in Ids(s) && s[i].seat in Standings(s)
  {
    if i > 0 { IdsAndSeats(s[1..], i - 1); }
  }

  lemma {:induction false} DistinctMeansUnique<S>(s: seq<Member<S>>, next: nat, i: nat, j: nat)
    requires IsDistinct(s, next) && i < j < |s|
    ensures s[i].id != s[j].id && s[i].seat != s[j].seat
  {
    if i == 0 {
      IdsAndSeats(s[1..], j - 1);
    } else {
      DistinctMeansUnique(s[1..], next, i - 1, j - 1);
    }
  }

  lemma {:induction false} IdsAreOld<S>(s: seq<Member<S>>, next: nat)
    requires IsDistinct(s, next)
    ensures forall id <- Ids(s) :: id < next
    ensures IsDistinct(s, next + 1)
  {
    if s != [] { IdsAreOld(s[1..], next); }
  }

  /** Searching finds an entry of a seat exactly if somebody stands there, with that standing. */
  lemma {:induction false} FindIsExact<S>(s: seq<Member<S>>, seat: Seat)
    ensures Find(s, seat).Some? <==> seat in Standings(s)
    ensures Find(s, seat).Some? ==>
      var m := Find(s, seat).value;
      m.id in Ids(s) && m.seat == seat && m.standing == Standings(s)[seat]
  {
    if s != [] && s[0].seat != seat { FindIsExact(s[1..], seat); }
  }

  lemma {:induction false} PutFresh<S>(s: seq<Member<S>>, next: nat, m: Member<S>)
    requires IsDistinct(s, next) && m.id !in Ids(s) && m.seat !in Standings(s) && m.id < next
    ensures Put(s, m) == s + [m] && Ids(Put(s, m)) == Ids(s) + {m.id}
    ensures IsDistinct(Put(s, m), next) && Standings(Put(s, m)) == Standings(s)[m.seat := m.standing]
  {
    if s != [] {
      PutFresh(s[1..], next, m);
      assert Put(s, m)[1..] == Put(s[1..], m);
    }
  }

  /** Setting a new id for a free seat takes that seat, and changes nothing else. */
  lemma CreateIsExact<S>(s: seq<Member<S>>, next: nat, seat: Seat, standing: S)
    requires IsDistinct(s, next) && seat !in Standings(s)
    ensures var s' := Put(s, Member(next, seat, standing));
      IsDistinct(s', next + 1) && Standings(s') == Standings(s)[seat := standing]
  {
    IdsAreOld(s, next);
    PutFresh(s, next + 1, Member(next, seat, standing));
  }

  /** Setting what was found changes the standing of that seat, and nothing else. */
  lemma {:induction false} UpdateIsExact<S>(s: seq<Member<S>>, next: nat, seat: Seat, standing: S)
    requires IsDistinct(s, next) && Find(s, seat).Some?
    ensures var s' := Put(s, Find(s, seat).value.(standing := standing));
      IsDistinct(s', next) && Ids(s') == Ids(s) && Standings(s') == Standings(s)[seat := standing]
  {
    var m := Find(s, seat).value.(standing := standing);
    if s[0].seat == seat {
      assert Put(s, m)[1..] == s[1..];
    } else {
      UpdateIsExact(s[1..], next, seat, standing);
      FindIsExact(s[1..], seat);
      assert Put(s, m)[1..] == Put(s[1..], m);
    }
  }

  /** Deleting what was found frees that seat, and changes nothing else. */
  lemma {:induction false} DeleteIsExact<S>(s: seq<Member<S>>, next: nat, seat: Seat)
    requires IsDistinct(s, next) && Find(s, seat).Some?
    ensures var s' := Without(s, Find(s, seat).value.id);
      IsDistinct(s', next) && Ids(s') <= Ids(s) && Standings(s') == Standings(s) - {seat}
  {
    if s[0].seat != seat {
      DeleteIsExact(s[1..], next, seat);
      FindIsExact(s[1..], seat);
      var id := Find(s, seat).value.id;
      assert Without(s, id)[1..] == Without(s[1..], id);
    }
  }
}
