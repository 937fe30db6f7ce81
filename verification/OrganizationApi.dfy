/** The membership routes step by step, over the memory repository (apps/api/src/application.ts, repository.ts). */
module OrganizationApi {
  import opened Options
  import opened Memberships
  import opened Policy
  import opened Roles

  lemma ParticipantsAppend(roles: map<Seat, RoomRole>, room: nat, users: seq<string>, user: string)
    ensures WithParticipants(roles, room, users + [user]) ==
      WithParticipants(roles, room, users)[Seat(room, user) := Participant]
  {
    assert (users + [user])[..|users|] == users;
  }

  lemma InitialAppend(memberIds: seq<string>, id: string, caller: string)
    ensures InitialMembers(memberIds + [id], caller) ==
      var front := InitialMembers(memberIds, caller);
      if id in front || id == caller then front else front + [id]
  {
    assert (memberIds + [id])[..|memberIds|] == memberIds;
  }

  class Api {
    var organizations: seq<string>
    var memberships: seq<Member<Standing>>
    var rooms: seq<Room>
    var roomMemberships: seq<Member<RoomRole>>
    /** The next fresh id. */
    var next: nat

    ghost predicate Valid()
      reads this
    {
      IsDistinct(memberships, next) && IsDistinct(roomMemberships, next) && Inv(Value())
    }

    ghost function Value(): Directory
      reads this
    {
      Directory(organizations, Standings(memberships), rooms, Standings(roomMemberships))
    }

    constructor ()
      ensures Valid() && Value() == EMPTY
    {
      organizations, memberships, rooms, roomMemberships, next := [], [], [], [], 0;
    }

    // ---- The repository ---------------------------------------------------------------------------

    method GetMembership(org: nat, user: string) returns (m: Option<Member<Standing>>)
      ensures m == Find(memberships, Seat(org, user))
      ensures (if m.Some? then Some(m.value.standing) else None) == StandingOf(Value(), org, user)
    {
      m := Find(memberships, Seat(org, user));
      FindIsExact(memberships, Seat(org, user));
    }

    method GetRoomMembership(room: nat, user: string) returns (m: Option<Member<RoomRole>>)
      ensures m == Find(roomMemberships, Seat(room, user))
      ensures (if m.Some? then Some(m.value.standing) else None) == RoomRoleOf(Value(), room, user)
    {
      m := Find(roomMemberships, Seat(room, user));
      FindIsExact(roomMemberships, Seat(room, user));
    }

    /** createMembership, with a fresh id. */
    method CreateMembership(org: nat, user: string, standing: Standing)
      requires IsDistinct(memberships, next) && IsDistinct(roomMemberships, next)
      requires Seat(org, user) !in Standings(memberships)
      modifies this`memberships, this`next
      ensures IsDistinct(memberships, next) && IsDistinct(roomMemberships, next)
      ensures Value() == WithStanding(old(Value()), org, user, standing)
    {
      CreateIsExact(memberships, next, Seat(org, user), standing);
      IdsAreOld(roomMemberships, next);
      memberships := Put(memberships, Member(next, Seat(org, user), standing));
      next := next + 1;
    }

    /** createRoomMembership, with a fresh id. */
    method CreateRoomMembership(room: nat, user: string, role: RoomRole)
      requires IsDistinct(memberships, next) && IsDistinct(roomMemberships, next)
      requires Seat(room, user) !in Standings(roomMemberships)
      modifies this`roomMemberships, this`next
      ensures IsDistinct(memberships, next) && IsDistinct(roomMemberships, next)
      ensures Standings(roomMemberships) == old(Standings(roomMemberships))[Seat(room, user) := role]
    {
      CreateIsExact(roomMemberships, next, Seat(room, user), role);
      IdsAreOld(memberships, next);
      roomMemberships := Put(roomMemberships, Member(next, Seat(room, user), role));
      next := next + 1;
    }

    // ---- The routes -------------------------------------------------------------------------------

    method CreateOrganization(caller: string, code: string) returns (outcome: Outcome)
      requires Valid()
      modifies this
      ensures Valid() && Reply(Value(), outcome) == Organized(old(Value()), caller, code)
    {
      OrganizedKeeps(Value(), caller, code);
      ghost var seat := Seat(|organizations|, caller);
      assert seat !in Value().standings;
      CreateMembership(|organizations|, caller, Standing(OrgOwner, NO_ATTRIBUTES));
      organizations := organizations + [code];
      return Done;
    }

    method Join(caller: string, code: string) returns (outcome: Outcome)
      requires Valid()
      modifies this
      ensures Valid() && Reply(Value(), outcome) == Joined(old(Value()), caller, code)
    {
      JoinedKeeps(Value(), caller, code);
      var org := FindCode(organizations, code);
      if org.None? { return Refused(404, "invalid_code"); }
      var existing := GetMembership(org.value, caller);
      if existing.Some? { return Refused(409, "already_member"); }
      CreateMembership(org.value, caller, Standing(OrgMember, NO_ATTRIBUTES));
      return Done;
    }

    method AddMember(caller: string, org: nat, account: Option<string>, asAdmin: bool, attributes: Attributes)
      returns (outcome: Outcome)
      requires Valid()
      modifies this
      ensures Valid()
      ensures Reply(Value(), outcome) == MemberAdded(old(Value()), caller, org, account, asAdmin, attributes)
    {
      MemberAddedKeeps(Value(), caller, org, account, asAdmin, attributes);
      var membership := GetMembership(org, caller);
      var standing := if membership.Some? then Some(membership.value.standing) else None;
      if !CanOrganization(standing, ManageMembers) { return Refused(403, "forbidden"); }
      if asAdmin && !standing.value.role.OrgOwner? { return Refused(403, "forbidden"); }
      if account.None? { return Refused(404, "not_found"); }
      var existing := GetMembership(org, account.value);
      if existing.Some? { return Refused(409, "already_member"); }
      CreateMembership(org, account.value, Standing(GivenRole(asAdmin), attributes));
      return Done;
    }

    /** How many administrators an organization has besides one user. */
    method CountOtherAdmins(org: nat, user: string) returns (count: nat)
      requires IsDistinct(memberships, next)
      ensures count > 0 <==> HasOtherAdmin(Value(), org, user)
    {
      count := 0;
      for i := 0 to |memberships|
        invariant count > 0 <==> exists j :: 0 <= j < i && IsOtherAdmin(memberships[j], org, user)
      {
        if IsOtherAdmin(memberships[i], org, user) { count := count + 1; }
      }
      OtherAdminsAreMembers(memberships, next, org, user);
    }

    method ChangeRole(caller: string, org: nat, target: string, toAdmin: bool) returns (outcome: Outcome)
      requires Valid()
      modifies this
      ensures Valid() && Reply(Value(), outcome) == RoleChanged(old(Value()), caller, org, target, toAdmin)
    {
      RoleChangedKeeps(Value(), caller, org, target, toAdmin);
      var membership := GetMembership(org, caller);
      var standing := if membership.Some? then Some(membership.value.standing) else None;
      if !CanOrganization(standing, ManageMembers) { return Refused(403, "forbidden"); }
      var found := GetMembership(org, target);
      if found.None? { return Refused(404, "not_found"); }
      if found.value.standing.role.OrgOwner? { return Refused(400, "cannot_change_owner"); }
      if toAdmin && !standing.value.role.OrgOwner? { return Refused(403, "forbidden"); }
      if caller == target && found.value.standing.role.OrgAdmin? && !toAdmin {
        var otherAdmins := CountOtherAdmins(org, target);
        if otherAdmins == 0 { return Refused(400, "last_admin"); }
      }
      var changed := found.value.standing.(role := GivenRole(toAdmin));
      UpdateIsExact(memberships, next, Seat(org, target), changed);
      memberships := Put(memberships, found.value.(standing := changed));
      return Done;
    }

    /** The members a new room starts with, or none of them if somebody does not belong. */
    method GetInitialMembers(caller: string, org: nat, memberIds: seq<string>) returns (initial: seq<string>, all: bool)
      ensures initial == InitialMembers(memberIds, caller)
      ensures all <==> AllBelong(Value(), org, initial)
    {
      initial := [];
      for i := 0 to |memberIds|
        invariant initial == InitialMembers(memberIds[..i], caller)
      {
        InitialAppend(memberIds[..i], memberIds[i], caller);
        assert memberIds[..i + 1] == memberIds[..i] + [memberIds[i]];
        if memberIds[i] !in initial && memberIds[i] != caller { initial := initial + [memberIds[i]]; }
      }
      assert memberIds[..|memberIds|] == memberIds;
      all := true;
      for i := 0 to |initial|
        invariant all <==> forall j :: 0 <= j < i ==> Seat(org, initial[j]) in Value().standings
      {
        var membership := GetMembership(org, initial[i]);
        all := all && membership.Some?;
      }
    }

    method CreateRoom(caller: string, org: nat, visibility: Visibility, classification: Classification,
        memberIds: seq<string>)
      returns (outcome: Outcome)
      requires Valid()
      modifies this
      ensures Valid()
      ensures Reply(Value(), outcome) ==
        RoomCreated(old(Value()), caller, Room(org, visibility, classification), memberIds)
    {
      var room := Room(org, visibility, classification);
      ghost var before := Value();
      RoomCreatedKeeps(before, caller, room, memberIds);
      var membership := GetMembership(org, caller);
      var standing := if membership.Some? then Some(membership.value.standing) else None;
      if !CanOrganization(standing, CreateRooms) { return Refused(403, "forbidden"); }
      var initial, all := GetInitialMembers(caller, org, memberIds);
      if !all { return Refused(400, "invalid_room_members"); }
      InitialMembersAreDistinct(memberIds, caller);
      OpenRoom(caller, room, initial);
      return Done;
    }

    /** createRoom with its owner, and then the other members one by one. */
    method OpenRoom(caller: string, room: Room, others: seq<string>)
      requires IsDistinct(memberships, next) && IsDistinct(roomMemberships, next)
      requires forall seat <- Standings(roomMemberships) :: seat.place < |rooms|
      requires caller !in others && forall i, j :: 0 <= i < j < |others| ==> others[i] != others[j]
      modifies this
      ensures IsDistinct(memberships, next) && IsDistinct(roomMemberships, next)
      ensures Value() == old(Value()).(
        rooms := old(rooms) + [room],
        roomRoles := WithParticipants(
          old(Standings(roomMemberships))[Seat(|old(rooms)|, caller) := RoomOwner], |old(rooms)|, others))
    {
      var id := |rooms|;
      CreateRoomMembership(id, caller, RoomOwner);
      AddParticipants(id, others);
      rooms := rooms + [room];
    }

    method AddParticipants(room: nat, users: seq<string>)
      requires IsDistinct(memberships, next) && IsDistinct(roomMemberships, next)
      requires forall i, j :: 0 <= i < j < |users| ==> users[i] != users[j]
      requires forall user <- users :: Seat(room, user) !in Standings(roomMemberships)
      modifies this`roomMemberships, this`next
      ensures IsDistinct(memberships, next) && IsDistinct(roomMemberships, next)
      ensures Standings(roomMemberships) == WithParticipants(old(Standings(roomMemberships)), room, users)
    {
      for i := 0 to |users|
        invariant IsDistinct(memberships, next) && IsDistinct(roomMemberships, next)
        invariant Standings(roomMemberships) == WithParticipants(old(Standings(roomMemberships)), room, users[..i])
      {
        ParticipantsAreExact(old(Standings(roomMemberships)), room, users[..i]);
        assert users[i] !in users[..i];
        CreateRoomMembership(room, users[i], Participant);
        ParticipantsAppend(old(Standings(roomMemberships)), room, users[..i], users[i]);
        assert users[..i + 1] == users[..i] + [users[i]];
      }
      assert users[..|users|] == users;
    }

    /** roomAccess and canRoom for "manage" for a caller. */
    method CheckManage(caller: string, room: nat) returns (allowed: bool)
      requires room < |rooms|
      ensures allowed <==> MayManage(Value(), room, caller)
    {
      var membership := GetMembership(rooms[room].org, caller);
      var roomMembership := GetRoomMembership(room, caller);
      allowed := CanRoom(
        if membership.Some? then Some(membership.value.standing) else None, rooms[room],
        if roomMembership.Some? then Some(roomMembership.value.standing) else None, Manage);
    }

    method AddRoomMember(caller: string, room: nat, target: string, role: RoomRole) returns (outcome: Outcome)
      requires Valid() && !role.RoomOwner?
      modifies this
      ensures Valid() && Reply(Value(), outcome) == RoomMemberAdded(old(Value()), caller, room, target, role)
    {
      RoomMemberAddedKeeps(Value(), caller, room, target, role);
      if room >= |rooms| { return Refused(404, "not_found"); }
      var allowed := CheckManage(caller, room);
      if !allowed { return Refused(403, "forbidden"); }
      var membership := GetMembership(rooms[room].org, target);
      if membership.None? { return Refused(403, "forbidden"); }
      var existing := GetRoomMembership(room, target);
      if existing.Some? { return Refused(409, "already_member"); }
      CreateRoomMembership(room, target, role);
      return Done;
    }

    method RemoveRoomMember(caller: string, room: nat, target: string) returns (outcome: Outcome)
      requires Valid()
      modifies this
      ensures Valid() && Reply(Value(), outcome) == RoomMemberRemoved(old(Value()), caller, room, target)
    {
      RoomMemberRemovedKeeps(Value(), caller, room, target);
      if room >= |rooms| { return Refused(404, "not_found"); }
      var allowed := CheckManage(caller, room);
      if !allowed { return Refused(403, "forbidden"); }
      var found := GetRoomMembership(room, target);
      if found.None? { return Refused(404, "not_found"); }
      if found.value.standing.RoomOwner? { return Refused(400, "cannot_remove_owner"); }
      DeleteIsExact(roomMemberships, next, Seat(room, target));
      roomMemberships := Without(roomMemberships, found.value.id);
      return Done;
    }
  }

  predicate IsOtherAdmin(m: Member<Standing>, org: nat, user: string) {
    m.seat.place == org && m.seat.user != user && m.standing.role.OrgAdmin?
  }

  lemma {:induction false} SeatedMembers(s: seq<Member<Standing>>, seat: Seat) returns (i: nat)
    requires seat in Standings(s)
    ensures i < |s| && s[i].seat == seat && s[i].standing == Standings(s)[seat]
  {
    if s[0].seat == seat {
      i := 0;
    } else {
      var later := SeatedMembers(s[1..], seat);
      i := later + 1;
    }
  }

  lemma {:induction false} MembersAreSeated(s: seq<Member<Standing>>, next: nat, i: nat)
    requires IsDistinct(s, next) && i < |s|
    ensures s[i].seat in Standings(s) && Standings(s)[s[i].seat] == s[i].standing
  {
    if i > 0 {
      MembersAreSeated(s[1..], next, i - 1);
      DistinctMeansUnique(s, next, 0, i);
    }
  }

  lemma OtherAdminsAreMembers(s: seq<Member<Standing>>, next: nat, org: nat, user: string)
    requires IsDistinct(s, next)
    ensures (exists j :: 0 <= j < |s| && IsOtherAdmin(s[j], org, user)) <==>
      (exists seat <- Standings(s) :: seat.place == org && seat.user != user && Standings(s)[seat].role.OrgAdmin?)
  {
    if j :| 0 <= j < |s| && IsOtherAdmin(s[j], org, user) {
      MembersAreSeated(s, next, j);
    }
    if seat :| seat in Standings(s) && seat.place == org && seat.user != user && Standings(s)[seat].role.OrgAdmin? {
      var j := SeatedMembers(s, seat);
      assert IsOtherAdmin(s[j], org, user);
    }
  }
}
