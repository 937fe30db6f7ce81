/** The membership routes as atomic steps, and what every run of them keeps (apps/api/src/application.ts). */
module Roles {
  import opened Options
  import opened Memberships
  import opened Policy

  /** Organizations by their join codes, and rooms; the ids of both are their positions. */
  datatype Directory = Directory(
    codes: seq<string>,
    standings: map<Seat, Standing>,
    rooms: seq<Room>,
    roomRoles: map<Seat, RoomRole>)

  const EMPTY := Directory([], map[], [], map[])

  datatype Request =
    | CreateOrganization(caller: string, code: string)
    | Join(caller: string, code: string)
      // `account` is whoever the given e-mail address belongs to.
    | AddMember(caller: string, org: nat, account: Option<string>, asAdmin: bool, attributes: Attributes)
    | ChangeRole(caller: string, org: nat, target: string, toAdmin: bool)
    | CreateRoom(caller: string, org: nat, visibility: Visibility, classification: Classification,
        memberIds: seq<string>)
    | AddRoomMember(caller: string, room: nat, target: string, role: RoomRole)
    | RemoveRoomMember(caller: string, room: nat, target: string)

  datatype Outcome = Done | Refused(status: nat, code: string)

  datatype Reply = Reply(directory: Directory, outcome: Outcome)

  // ---- The routes ---------------------------------------------------------------------------------

  function StandingOf(d: Directory, org: nat, user: string): Option<Standing> {
    if Seat(org, user) in d.standings then Some(d.standings[Seat(org, user)]) else None
  }

  function RoomRoleOf(d: Directory, room: nat, user: string): Option<RoomRole> {
    if Seat(room, user) in d.roomRoles then Some(d.roomRoles[Seat(room, user)]) else None
  }

  /** The first organization with a join code. */
  function FindCode(codes: seq<string>, code: string): (org: Option<nat>)
    ensures org.Some? ==> org.value < |codes| && codes[org.value] == code && code !in codes[..org.value]
    ensures org.None? ==> code !in codes
  {
    if codes == [] then None
    else
      var found := FindCode(codes[..|codes| - 1], code);
      if found.Some? then found
      else if codes[|codes| - 1] == code then Some(|codes| - 1 as nat)
      else None
  }

  function WithStanding(d: Directory, org: nat, user: string, standing: Standing): Directory {
    d.(standings := d.standings[Seat(org, user) := standing])
  }

  function GivenRole(admin: bool): OrgRole {
    if admin then OrgAdmin else OrgMember
  }

  predicate IsOwner(d: Directory, org: nat, user: string) {
    Seat(org, user) in d.standings && d.standings[Seat(org, user)].role.OrgOwner?
  }

  predicate IsAdmin(d: Directory, org: nat, user: string) {
    Seat(org, user) in d.standings && d.standings[Seat(org, user)].role.OrgAdmin?
  }

  predicate HasOtherAdmin(d: Directory, org: nat, user: string) {
    exists seat <- d.standings :: seat.place == org && seat.user != user && d.standings[seat].role.OrgAdmin?
  }

  function Organized(d: Directory, caller: string, code: string): Reply {
    var org := |d.codes|;
    Reply(WithStanding(d, org, caller, Standing(OrgOwner, NO_ATTRIBUTES)).(codes := d.codes + [code]), Done)
  }

  function Joined(d: Directory, caller: string, code: string): Reply {
    var org := FindCode(d.codes, code);
    if org.None? then Reply(d, Refused(404, "invalid_code"))
    else if StandingOf(d, org.value, caller).Some? then Reply(d, Refused(409, "already_member"))
    else Reply(WithStanding(d, org.value, caller, Standing(OrgMember, NO_ATTRIBUTES)), Done)
  }

  function MemberAdded(d: Directory, caller: string, org: nat, account: Option<string>, asAdmin: bool,
      attributes: Attributes): Reply
  {
    if !CanOrganization(StandingOf(d, org, caller), ManageMembers) then Reply(d, Refused(403, "forbidden"))
    else if asAdmin && !IsOwner(d, org, caller) then Reply(d, Refused(403, "forbidden"))
    else if account.None? then Reply(d, Refused(404, "not_found"))
    else if StandingOf(d, org, account.value).Some? then Reply(d, Refused(409, "already_member"))
    else Reply(WithStanding(d, org, account.value, Standing(GivenRole(asAdmin), attributes)), Done)
  }

  function RoleChanged(d: Directory, caller: string, org: nat, target: string, toAdmin: bool): Reply {
    var standing := StandingOf(d, org, target);
    if !CanOrganization(StandingOf(d, org, caller), ManageMembers) then Reply(d, Refused(403, "forbidden"))
    else if standing.None? then Reply(d, Refused(404, "not_found"))
    else if standing.value.role.OrgOwner? then Reply(d, Refused(400, "cannot_change_owner"))
    else if toAdmin && !IsOwner(d, org, caller) then Reply(d, Refused(403, "forbidden"))
    else if caller == target && standing.value.role.OrgAdmin? && !toAdmin && !HasOtherAdmin(d, org, target) then
      Reply(d, Refused(400, "last_admin"))
    else Reply(WithStanding(d, org, target, standing.value.(role := GivenRole(toAdmin))), Done)
  }

  /** The ids a new room starts with: each once, and not the caller's. */
  function InitialMembers(memberIds: seq<string>, caller: string): seq<string> {
    if memberIds == [] then []
    else
      var front, last := InitialMembers(memberIds[..|memberIds| - 1], caller), memberIds[|memberIds| - 1];
      if last in front || last == caller then front else front + [last]
  }

  function WithParticipants(roles: map<Seat, RoomRole>, room: nat, users: seq<string>): map<Seat, RoomRole> {
    if users == [] then roles
    else WithParticipants(roles, room, users[..|users| - 1])[Seat(room, users[|users| - 1]) := Participant]
  }

  predicate AllBelong(d: Directory, org: nat, users: seq<string>) {
    forall user <- users :: Seat(org, user) in d.standings
  }

  function RoomCreated(d: Directory, caller: string, room: Room, memberIds: seq<string>): Reply {
    var initial := InitialMembers(memberIds, caller);
    if !CanOrganization(StandingOf(d, room.org, caller), CreateRooms) then Reply(d, Refused(403, "forbidden"))
    else if !AllBelong(d, room.org, initial) then Reply(d, Refused(400, "invalid_room_members"))
    else
      var roles := WithParticipants(d.roomRoles[Seat(|d.rooms|, caller) := RoomOwner], |d.rooms|, initial);
      Reply(d.(rooms := d.rooms + [room], roomRoles := roles), Done)
  }

  predicate MayManage(d: Directory, room: nat, user: string)
    requires room < |d.rooms|
  {
    CanRoom(StandingOf(d, d.rooms[room].org, user), d.rooms[room], RoomRoleOf(d, room, user), Manage)
  }

  function RoomMemberAdded(d: Directory, caller: string, room: nat, target: string, role: RoomRole): Reply {
    if room >= |d.rooms| then Reply(d, Refused(404, "not_found"))
    else if !MayManage(d, room, caller) then Reply(d, Refused(403, "forbidden"))
    else if StandingOf(d, d.rooms[room].org, target).None? then Reply(d, Refused(403, "forbidden"))
    else if RoomRoleOf(d, room, target).Some? then Reply(d, Refused(409, "already_member"))
    else Reply(d.(roomRoles := d.roomRoles[Seat(room, target) := role]), Done)
  }

  function RoomMemberRemoved(d: Directory, caller: string, room: nat, target: string): Reply {
    if room >= |d.rooms| then Reply(d, Refused(404, "not_found"))
    else if !MayManage(d, room, caller) then Reply(d, Refused(403, "forbidden"))
    else if RoomRoleOf(d, room, target).None? then Reply(d, Refused(404, "not_found"))
    else if RoomRoleOf(d, room, target) == Some(RoomOwner) then Reply(d, Refused(400, "cannot_remove_owner"))
    else Reply(d.(roomRoles := d.roomRoles - {Seat(room, target)}), Done)
  }

  /** The one thing request validation adds to the types: nobody is added to a room as its owner. */
  predicate IsValid(q: Request) {
    q.AddRoomMember? ==> !q.role.RoomOwner?
  }

  function Handle(d: Directory, q: Request): Reply {
    match q
    case CreateOrganization(caller, code) => Organized(d, caller, code)
    case Join(caller, code) => Joined(d, caller, code)
    case AddMember(caller, org, account, asAdmin, attributes) =>
      MemberAdded(d, caller, org, account, asAdmin, attributes)
    case ChangeRole(caller, org, target, toAdmin) => RoleChanged(d, caller, org, target, toAdmin)
    case CreateRoom(caller, org, visibility, classification, memberIds) =>
      RoomCreated(d, caller, Room(org, visibility, classification), memberIds)
    case AddRoomMember(caller, room, target, role) => RoomMemberAdded(d, caller, room, target, role)
    case RemoveRoomMember(caller, room, target) => RoomMemberRemoved(d, caller, room, target)
  }

  function Handled(d: Directory, requests: seq<Request>): Directory {
    if requests == [] then d
    else Handle(Handled(d, requests[..|requests| - 1]), requests[|requests| - 1]).directory
  }

  // ---- Who may do what, by role and attribute -----------------------------------------------------

  /** The owner, an administrator, or somebody to whom managing members was delegated. */
  predicate Manages(d: Directory, org: nat, user: string) {
    Seat(org, user) in d.standings &&
    var s := d.standings[Seat(org, user)];
    s.role.OrgOwner? || s.role.OrgAdmin? || s.attributes.canManageMembers
  }

  predicate OpensRooms(d: Directory, org: nat, user: string) {
    Seat(org, user) in d.standings &&
    var s := d.standings[Seat(org, user)];
    s.role.OrgOwner? || s.role.OrgAdmin? || s.attributes.canCreateRooms
  }

  /** Rooms for the whole organization, unless they are confidential. */
  predicate IsOpenRoom(room: Room) {
    room.visibility.Organization? && room.classification.Internal?
  }

  /** Somebody of the organization with a role in the room, or an administrator, or anybody if the room is open. */
  predicate MayEnter(d: Directory, room: nat, user: string)
    requires room < |d.rooms|
  {
    var seat := Seat(d.rooms[room].org, user);
    && seat in d.standings
    && (|| Seat(room, user) in d.roomRoles
        || d.standings[seat].role.OrgOwner? || d.standings[seat].role.OrgAdmin?
        || IsOpenRoom(d.rooms[room]))
  }

  /** Of those who may enter: the room's owner, administrators, and those to whom managing members was delegated. */
  predicate ManagesRoom(d: Directory, room: nat, user: string)
    requires room < |d.rooms|
  {
    && MayEnter(d, room, user)
    && (Manages(d, d.rooms[room].org, user) || IsRoomOwner(d, room, user))
  }

  lemma PolicyIsByRole(d: Directory, org: nat, user: string)
    ensures CanOrganization(StandingOf(d, org, user), ManageMembers) <==> Manages(d, org, user)
    ensures CanOrganization(StandingOf(d, org, user), CreateRooms) <==> OpensRooms(d, org, user)
    ensures CanOrganization(StandingOf(d, org, user), ReadOrg) <==> Seat(org, user) in d.standings
    ensures CanOrganization(StandingOf(d, org, user), Schedule) <==>
      IsOwner(d, org, user) || IsAdmin(d, org, user)
      || (Seat(org, user) in d.standings && d.standings[Seat(org, user)].attributes.canSchedule)
  {
  }

  /** What the policy allows whom in a room, for each of its actions. */
  lemma RoomPolicyIsByRole(d: Directory, room: nat, user: string)
    requires room < |d.rooms|
    ensures var standing, role := StandingOf(d, d.rooms[room].org, user), RoomRoleOf(d, room, user);
      && (CanRoom(standing, d.rooms[room], role, Read) <==> MayEnter(d, room, user))
      && (CanRoom(standing, d.rooms[room], role, JoinLive) <==> MayEnter(d, room, user))
      && (CanRoom(standing, d.rooms[room], role, Write) <==> MayEnter(d, room, user) && role != Some(Viewer))
      && (MayManage(d, room, user) <==> ManagesRoom(d, room, user))
  {
  }

  // ---- What every step keeps ----------------------------------------------------------------------

  predicate IsRoomOwner(d: Directory, room: nat, user: string) {
    Seat(room, user) in d.roomRoles && d.roomRoles[Seat(room, user)].RoomOwner?
  }

  ghost predicate HasOneOwner(d: Directory, org: nat) {
    exists user :: IsOwner(d, org, user) && forall other :: IsOwner(d, org, other) ==> other == user
  }

  ghost predicate HasOneRoomOwner(d: Directory, room: nat) {
    exists user :: IsRoomOwner(d, room, user) && forall other :: IsRoomOwner(d, room, other) ==> other == user
  }

  ghost predicate OrganizationsHaveOneOwner(d: Directory) {
    && (forall seat <- d.standings :: seat.place < |d.codes|)
    && (forall org: nat | org < |d.codes| :: HasOneOwner(d, org))
  }

  ghost predicate RoomsHaveOneOwner(d: Directory) {
    && (forall seat <- d.roomRoles :: seat.place < |d.rooms|)
    && (forall room: nat | room < |d.rooms| :: HasOneRoomOwner(d, room))
  }

  predicate RoomMembersBelong(d: Directory) {
    && (forall seat <- d.roomRoles :: seat.place < |d.rooms|)
    && (forall seat <- d.roomRoles :: Seat(d.rooms[seat.place].org, seat.user) in d.standings)
  }

  ghost predicate Inv(d: Directory) {
    OrganizationsHaveOneOwner(d) && RoomsHaveOneOwner(d) && RoomMembersBelong(d)
  }

  /** A change that leaves every owner of what exists in place, and nobody else promoted to owner. */
  ghost predicate KeepsOwners(d: Directory, d': Directory) {
    && (forall org: nat, user | org < |d.codes| :: IsOwner(d', org, user) <==> IsOwner(d, org, user))
    && (forall room: nat, user | room < |d.rooms| :: IsRoomOwner(d', room, user) <==> IsRoomOwner(d, room, user))
  }

  /** The invariant, kept together with all owners; nothing that exists goes away but room memberships. */
  ghost predicate Kept(d: Directory, d': Directory) {
    && Inv(d') && KeepsOwners(d, d')
    && d.codes <= d'.codes && d.rooms <= d'.rooms && d.standings.Keys <= d'.standings.Keys
  }

  lemma OrganizedKeeps(d: Directory, caller: string, code: string)
    requires Inv(d)
    ensures var d' := Organized(d, caller, code).directory; Kept(d, d')
  {
    var d' := Organized(d, caller, code).directory;
    var org := |d.codes|;
    assert Seat(org, caller) !in d.standings;
    assert IsOwner(d', org, caller);
    SameOwners(d, d');
    forall other | IsOwner(d', org, other)
      ensures other == caller
    {
      assert Seat(org, other) !in d.standings;
    }
  }

  /** Carrying the owners of what was there over to a directory where nothing about them changed. */
  lemma SameOwners(d: Directory, d': Directory)
    requires KeepsOwners(d, d')
    ensures forall org: nat | org < |d.codes| && HasOneOwner(d, org) :: HasOneOwner(d', org)
    ensures forall room: nat | room < |d.rooms| && HasOneRoomOwner(d, room) :: HasOneRoomOwner(d', room)
  {
    forall org: nat | org < |d.codes| && HasOneOwner(d, org)
      ensures HasOneOwner(d', org)
    {
      var user :| IsOwner(d, org, user) && forall other :: IsOwner(d, org, other) ==> other == user;
      assert IsOwner(d', org, user);
    }
    forall room: nat | room < |d.rooms| && HasOneRoomOwner(d, room)
      ensures HasOneRoomOwner(d', room)
    {
      var user :| IsRoomOwner(d, room, user) && forall other :: IsRoomOwner(d, room, other) ==> other == user;
      assert IsRoomOwner(d', room, user);
    }
  }

  /** Giving a standing to somebody who was not the owner. */
  lemma StandingKeeps(d: Directory, org: nat, user: string, standing: Standing)
    requires Inv(d) && org < |d.codes| && !IsOwner(d, org, user) && !standing.role.OrgOwner?
    ensures Kept(d, WithStanding(d, org, user, standing))
  {
    SameOwners(d, WithStanding(d, org, user, standing));
  }

  predicate MayBeSeated(d: Directory, seat: Seat) {
    seat.place < |d.rooms| && Seat(d.rooms[seat.place].org, seat.user) in d.standings
  }

  lemma RoomRoleKeeps(d: Directory, roles: map<Seat, RoomRole>)
    requires Inv(d)
    requires forall seat <- roles :: seat in d.roomRoles || MayBeSeated(d, seat)
    requires forall room: nat, user :: IsRoomOwner(d.(roomRoles := roles), room, user) <==> IsRoomOwner(d, room, user)
    ensures Kept(d, d.(roomRoles := roles))
  {
    SameOwners(d, d.(roomRoles := roles));
  }

  lemma {:induction false} InitialMembersAreDistinct(memberIds: seq<string>, caller: string)
    ensures var users := InitialMembers(memberIds, caller);
      && caller !in users
      && (forall i, j :: 0 <= i < j < |users| ==> users[i] != users[j])
      && (forall user :: user in users <==> user in memberIds && user != caller)
  {
    if memberIds != [] {
      InitialMembersAreDistinct(memberIds[..|memberIds| - 1], caller);
      assert memberIds == memberIds[..|memberIds| - 1] + [memberIds[|memberIds| - 1]];
    }
  }

  lemma {:induction false} ParticipantsAreExact(roles: map<Seat, RoomRole>, room: nat, users: seq<string>)
    ensures var all := WithParticipants(roles, room, users);
      && (forall seat :: seat in all <==> seat in roles || (seat.place == room && seat.user in users))
      && (forall seat <- all :: all[seat] ==
           if seat.place == room && seat.user in users then Participant else roles[seat])
  {
    if users != [] {
      ParticipantsAreExact(roles, room, users[..|users| - 1]);
      assert users == users[..|users| - 1] + [users[|users| - 1]];
    }
  }

  predicate IsNewSeat(d: Directory, caller: string, room: Room, seat: Seat, role: RoomRole) {
    && seat.place == |d.rooms| && Seat(room.org, seat.user) in d.standings
    && (role.RoomOwner? <==> seat.user == caller)
  }

  /** A room's memberships from its creation on: the caller as owner, and others of the organization. */
  predicate IsSeatedFor(d: Directory, caller: string, room: Room, roles: map<Seat, RoomRole>) {
    && Seat(|d.rooms|, caller) in roles
    && (forall seat <- d.roomRoles :: seat in roles && roles[seat] == d.roomRoles[seat])
    && (forall seat <- roles :: seat in d.roomRoles || IsNewSeat(d, caller, room, seat, roles[seat]))
  }

  lemma NewRoomHasOneOwner(d: Directory, caller: string, room: Room, roles: map<Seat, RoomRole>)
    requires RoomMembersBelong(d) && IsSeatedFor(d, caller, room, roles)
    ensures HasOneRoomOwner(d.(rooms := d.rooms + [room], roomRoles := roles), |d.rooms|)
  {
    var d', n := d.(rooms := d.rooms + [room], roomRoles := roles), |d.rooms|;
    assert Seat(n, caller) !in d.roomRoles;
    assert IsRoomOwner(d', n, caller);
    forall other | IsRoomOwner(d', n, other)
      ensures other == caller
    {
      assert Seat(n, other) !in d.roomRoles;
    }
  }

  lemma NewRoomMembersBelong(d: Directory, caller: string, room: Room, roles: map<Seat, RoomRole>)
    requires RoomMembersBelong(d) && IsSeatedFor(d, caller, room, roles)
    ensures RoomMembersBelong(d.(rooms := d.rooms + [room], roomRoles := roles))
  {
  }

  lemma NewRoomKeepsOwners(d: Directory, caller: string, room: Room, roles: map<Seat, RoomRole>)
    requires IsSeatedFor(d, caller, room, roles)
    ensures KeepsOwners(d, d.(rooms := d.rooms + [room], roomRoles := roles))
  {
  }

  lemma NewRoomKeeps(d: Directory, caller: string, room: Room, roles: map<Seat, RoomRole>)
    requires Inv(d) && IsSeatedFor(d, caller, room, roles)
    ensures Kept(d, d.(rooms := d.rooms + [room], roomRoles := roles))
  {
    var d' := d.(rooms := d.rooms + [room], roomRoles := roles);
    NewRoomHasOneOwner(d, caller, room, roles);
    NewRoomMembersBelong(d, caller, room, roles);
    NewRoomKeepsOwners(d, caller, room, roles);
    SameOwners(d, d');
  }

  lemma RoomCreatedKeeps(d: Directory, caller: string, room: Room, memberIds: seq<string>)
    requires Inv(d)
    ensures Kept(d, RoomCreated(d, caller, room, memberIds).directory)
  {
    var initial, n := InitialMembers(memberIds, caller), |d.rooms|;
    if RoomCreated(d, caller, room, memberIds).outcome.Done? {
      InitialMembersAreDistinct(memberIds, caller);
      ParticipantsAreExact(d.roomRoles[Seat(n, caller) := RoomOwner], n, initial);
      NewRoomKeeps(d, caller, room, WithParticipants(d.roomRoles[Seat(n, caller) := RoomOwner], n, initial));
    }
  }

  lemma JoinedKeeps(d: Directory, caller: string, code: string)
    requires Inv(d)
    ensures Kept(d, Joined(d, caller, code).directory)
  {
    var org := FindCode(d.codes, code);
    if org.Some? && StandingOf(d, org.value, caller).None? {
      StandingKeeps(d, org.value, caller, Standing(OrgMember, NO_ATTRIBUTES));
    }
  }

  lemma MemberAddedKeeps(d: Directory, caller: string, org: nat, account: Option<string>, asAdmin: bool,
      attributes: Attributes)
    requires Inv(d)
    ensures Kept(d, MemberAdded(d, caller, org, account, asAdmin, attributes).directory)
  {
    if MemberAdded(d, caller, org, account, asAdmin, attributes).outcome.Done? {
      StandingKeeps(d, org, account.value, Standing(GivenRole(asAdmin), attributes));
    }
  }

  lemma RoleChangedKeeps(d: Directory, caller: string, org: nat, target: string, toAdmin: bool)
    requires Inv(d)
    ensures Kept(d, RoleChanged(d, caller, org, target, toAdmin).directory)
  {
    if RoleChanged(d, caller, org, target, toAdmin).outcome.Done? {
      StandingKeeps(d, org, target, d.standings[Seat(org, target)].(role := GivenRole(toAdmin)));
    }
  }

  lemma RoomMemberAddedKeeps(d: Directory, caller: string, room: nat, target: string, role: RoomRole)
    requires Inv(d) && !role.RoomOwner?
    ensures Kept(d, RoomMemberAdded(d, caller, room, target, role).directory)
  {
    if RoomMemberAdded(d, caller, room, target, role).outcome.Done? {
      RoomRoleKeeps(d, d.roomRoles[Seat(room, target) := role]);
    }
  }

  lemma RoomMemberRemovedKeeps(d: Directory, caller: string, room: nat, target: string)
    requires Inv(d)
    ensures Kept(d, RoomMemberRemoved(d, caller, room, target).directory)
  {
    if RoomMemberRemoved(d, caller, room, target).outcome.Done? {
      RoomRoleKeeps(d, d.roomRoles - {Seat(room, target)});
    }
  }

  lemma StepKeeps(d: Directory, q: Request)
    requires Inv(d) && IsValid(q)
    ensures Kept(d, Handle(d, q).directory)
    ensures Handle(d, q).outcome != Done ==> Handle(d, q).directory == d
  {
    match q
    case CreateOrganization(caller, code) => OrganizedKeeps(d, caller, code);
    case Join(caller, code) => JoinedKeeps(d, caller, code);
    case AddMember(caller, org, account, asAdmin, attributes) =>
      MemberAddedKeeps(d, caller, org, account, asAdmin, attributes);
    case ChangeRole(caller, org, target, toAdmin) => RoleChangedKeeps(d, caller, org, target, toAdmin);
    case CreateRoom(caller, org, visibility, classification, memberIds) =>
      RoomCreatedKeeps(d, caller, Room(org, visibility, classification), memberIds);
    case AddRoomMember(caller, room, target, role) => RoomMemberAddedKeeps(d, caller, room, target, role);
    case RemoveRoomMember(caller, room, target) => RoomMemberRemovedKeeps(d, caller, room, target);
  }

  // ---- What every run keeps -----------------------------------------------------------------------

  predicate AreValid(requests: seq<Request>) {
    forall q <- requests :: IsValid(q)
  }

  lemma {:induction false} RunKeeps(d: Directory, requests: seq<Request>)
    requires Inv(d) && AreValid(requests)
    ensures Kept(d, Handled(d, requests))
  {
    if requests != [] {
      var front, last := requests[..|requests| - 1], requests[|requests| - 1];
      RunKeeps(d, front);
      StepKeeps(Handled(d, front), last);
    }
  }

  /**
   * After any requests at all, every organization and every room has exactly one owner, everybody in a room
   * belongs to its organization, and a room's owner can manage the room.
   */
  lemma OneOwnerEach(requests: seq<Request>)
    requires AreValid(requests)
    ensures var d := Handled(EMPTY, requests);
      && (forall org: nat | org < |d.codes| :: HasOneOwner(d, org))
      && (forall room: nat | room < |d.rooms| :: HasOneRoomOwner(d, room))
      && RoomMembersBelong(d)
      && (forall room: nat, user | room < |d.rooms| && IsRoomOwner(d, room, user) :: ManagesRoom(d, room, user))
  {
    RunKeeps(EMPTY, requests);
    var d := Handled(EMPTY, requests);
    forall room: nat, user | room < |d.rooms| && IsRoomOwner(d, room, user)
      ensures ManagesRoom(d, room, user)
    {
      assert Seat(room, user) in d.roomRoles;
      assert Seat(d.rooms[Seat(room, user).place].org, Seat(room, user).user) in d.standings;
    }
  }

  lemma HandledOneMore(d: Directory, requests: seq<Request>, q: Request)
    ensures Handled(d, requests + [q]) == Handle(Handled(d, requests), q).directory
  {
    assert (requests + [q])[..|requests|] == requests;
  }

  lemma ConcatOneMore(d: Directory, a: seq<Request>, b: seq<Request>, q: Request)
    requires Handled(d, a + b) == Handled(Handled(d, a), b)
    ensures Handled(d, a + (b + [q])) == Handled(Handled(d, a), b + [q])
  {
    HandledOneMore(d, a + b, q);
    HandledOneMore(Handled(d, a), b, q);
    assert a + (b + [q]) == a + b + [q];
  }

  lemma {:induction false} HandledConcat(d: Directory, a: seq<Request>, b: seq<Request>)
    ensures Handled(d, a + b) == Handled(Handled(d, a), b)
  {
    if b == [] {
      assert a + b == a;
    } else {
      var front, last := b[..|b| - 1], b[|b| - 1];
      assert b == front + [last];
      HandledConcat(d, a, front);
      ConcatOneMore(d, a, front, last);
    }
  }

  /** Who owns an organization or a room is settled when it is created, whatever is requested later. */
  lemma OwnersNeverChange(earlier: seq<Request>, later: seq<Request>, place: nat, user: string)
    requires AreValid(earlier) && AreValid(later)
    ensures var d, d' := Handled(EMPTY, earlier), Handled(EMPTY, earlier + later);
      && (place < |d.codes| ==> (IsOwner(d', place, user) <==> IsOwner(d, place, user)))
      && (place < |d.rooms| ==> (IsRoomOwner(d', place, user) <==> IsRoomOwner(d, place, user)))
  {
    RunKeeps(EMPTY, earlier);
    RunKeeps(Handled(EMPTY, earlier), later);
    HandledConcat(EMPTY, earlier, later);
  }

  // ---- What requests bring about and take back ----------------------------------------------------

  predicate Occurs(requests: seq<Request>, i: nat, what: (Directory, Request) -> bool) {
    i < |requests| && what(Handled(EMPTY, requests[..i]), requests[i])
  }

  ghost predicate LastsFrom(
      requests: seq<Request>, i: nat, gain: (Directory, Request) -> bool, loss: (Directory, Request) -> bool)
  {
    Occurs(requests, i, gain) && forall j :: i < j ==> !Occurs(requests, j, loss)
  }

  /** Some request brought it about, and none after that took it back. */
  ghost predicate Lasts(
      requests: seq<Request>, gain: (Directory, Request) -> bool, loss: (Directory, Request) -> bool)
  {
    exists i :: LastsFrom(requests, i, gain, loss)
  }

  lemma OccursOneMore(d: Directory, requests: seq<Request>, q: Request, what: (Directory, Request) -> bool, i: nat)
    requires d == Handled(EMPTY, requests)
    ensures Occurs(requests + [q], i, what) <==> Occurs(requests, i, what) || (i == |requests| && what(d, q))
  {
    var all := requests + [q];
    if i < |requests| { assert all[..i] == requests[..i]; }
    if i == |requests| { assert all[..i] == requests; }
  }

  lemma LastsFromOneMore(d: Directory, requests: seq<Request>, q: Request, i: nat,
      gain: (Directory, Request) -> bool, loss: (Directory, Request) -> bool)
    requires d == Handled(EMPTY, requests)
    ensures LastsFrom(requests + [q], i, gain, loss) <==>
      if i == |requests| then gain(d, q) else LastsFrom(requests, i, gain, loss) && !loss(d, q)
  {
    var all, n := requests + [q], |requests|;
    OccursOneMore(d, requests, q, gain, i);
    forall j: nat
      ensures Occurs(all, j, loss) <==> Occurs(requests, j, loss) || (j == n && loss(d, q))
    {
      OccursOneMore(d, requests, q, loss, j);
    }
    assert Occurs(all, n, loss) <==> loss(d, q);
    assert Occurs(requests, i, gain) ==> i < n;
  }

  lemma LastsOneMore(d: Directory, requests: seq<Request>, q: Request,
      gain: (Directory, Request) -> bool, loss: (Directory, Request) -> bool)
    requires d == Handled(EMPTY, requests)
    ensures Lasts(requests + [q], gain, loss) <==> gain(d, q) || (Lasts(requests, gain, loss) && !loss(d, q))
  {
    var all, n := requests + [q], |requests|;
    forall i: nat
      ensures LastsFrom(all, i, gain, loss) <==>
        if i == n then gain(d, q) else LastsFrom(requests, i, gain, loss) && !loss(d, q)
    {
      LastsFromOneMore(d, requests, q, i, gain, loss);
    }
    if gain(d, q) { assert LastsFrom(all, n, gain, loss); }
    if Lasts(requests, gain, loss) && !loss(d, q) {
      var i :| LastsFrom(requests, i, gain, loss);
      assert i != n && LastsFrom(all, i, gain, loss);
    }
  }

  // ---- Administrators -----------------------------------------------------------------------------

  /** The owner's request that a user be an administrator. */
  predicate Promotes(d: Directory, q: Request, org: nat, user: string) {
    && IsOwner(d, org, q.caller)
    && (|| (q.AddMember? && q.org == org && q.account == Some(user) && q.asAdmin && Seat(org, user) !in d.standings)
        || (q.ChangeRole? && q.org == org && q.target == user && q.toAdmin && Seat(org, user) in d.standings
            && !IsOwner(d, org, user)))
  }

  /** The request of somebody who manages members that a user be none - of another, or not of the only one. */
  predicate Demotes(d: Directory, q: Request, org: nat, user: string) {
    && q.ChangeRole? && q.org == org && q.target == user && !q.toAdmin
    && Manages(d, org, q.caller)
    && (q.caller == user ==> HasOtherAdmin(d, org, user))
  }

  lemma OnlyOwnersMakeAdmins(d: Directory, q: Request, org: nat, user: string)
    requires Inv(d) && !IsAdmin(d, org, user)
    ensures IsAdmin(Handle(d, q).directory, org, user) <==> Promotes(d, q, org, user)
  {
  }

  lemma OnlyDemotionsTakeAway(d: Directory, q: Request, org: nat, user: string)
    requires Inv(d) && IsAdmin(d, org, user)
    ensures IsAdmin(Handle(d, q).directory, org, user) <==> !Demotes(d, q, org, user)
  {
  }

  lemma PromotedAndDemoted(d: Directory, q: Request, org: nat, user: string)
    requires Inv(d)
    ensures IsAdmin(Handle(d, q).directory, org, user) <==>
      Promotes(d, q, org, user) || (IsAdmin(d, org, user) && !Demotes(d, q, org, user))
  {
    if IsAdmin(d, org, user) {
      OnlyDemotionsTakeAway(d, q, org, user);
    } else {
      OnlyOwnersMakeAdmins(d, q, org, user);
    }
  }

  function Promotion(org: nat, user: string): (Directory, Request) -> bool {
    (d: Directory, q: Request) => Promotes(d, q, org, user)
  }

  function Demotion(org: nat, user: string): (Directory, Request) -> bool {
    (d: Directory, q: Request) => Demotes(d, q, org, user)
  }

  lemma PromotedOneMore(requests: seq<Request>, q: Request, org: nat, user: string)
    requires Inv(Handled(EMPTY, requests))
    requires IsAdmin(Handled(EMPTY, requests), org, user) <==>
      Lasts(requests, Promotion(org, user), Demotion(org, user))
    ensures IsAdmin(Handled(EMPTY, requests + [q]), org, user) <==>
      Lasts(requests + [q], Promotion(org, user), Demotion(org, user))
  {
    HandledOneMore(EMPTY, requests, q);
    PromotedAndDemoted(Handled(EMPTY, requests), q, org, user);
    LastsOneMore(Handled(EMPTY, requests), requests, q, Promotion(org, user), Demotion(org, user));
  }

  /**
   * After any requests, the administrators of an organization are exactly those its owner once asked to be
   * one and nobody entitled to has demoted since.
   */
  lemma {:induction false} AdminsAreThePromoted(requests: seq<Request>, org: nat, user: string)
    requires AreValid(requests)
    ensures IsAdmin(Handled(EMPTY, requests), org, user) <==>
      Lasts(requests, Promotion(org, user), Demotion(org, user))
  {
    if requests != [] {
      var front, last := requests[..|requests| - 1], requests[|requests| - 1];
      assert requests == front + [last];
      AdminsAreThePromoted(front, org, user);
      RunKeeps(EMPTY, front);
      PromotedOneMore(front, last, org, user);
    }
  }

  ghost predicate HasAdmin(d: Directory, org: nat) {
    exists user :: IsAdmin(d, org, user)
  }

  ghost predicate IsOnlyAdmin(d: Directory, org: nat, user: string) {
    IsAdmin(d, org, user) && forall other :: IsAdmin(d, org, other) ==> other == user
  }

  lemma OtherAdmins(d: Directory, org: nat, user: string)
    requires IsAdmin(d, org, user)
    ensures HasOtherAdmin(d, org, user) <==> !IsOnlyAdmin(d, org, user)
  {
    if HasOtherAdmin(d, org, user) {
      var seat :| seat in d.standings && seat.place == org && seat.user != user && d.standings[seat].role.OrgAdmin?;
      assert seat == Seat(org, seat.user) && IsAdmin(d, org, seat.user);
    }
    if !IsOnlyAdmin(d, org, user) {
      var other :| IsAdmin(d, org, other) && other != user;
      assert Seat(org, other) in d.standings;
    }
  }

  /**
   * An organization loses its last administrator exactly when somebody else who manages members, an owner or
   * a delegate, demotes the only one.
   */
  lemma LastAdminIsLostIff(d: Directory, q: Request, org: nat)
    requires Inv(d) && HasAdmin(d, org)
    ensures !HasAdmin(Handle(d, q).directory, org) <==>
      && q.ChangeRole? && q.org == org && !q.toAdmin && q.caller != q.target && IsOnlyAdmin(d, org, q.target)
      && Manages(d, org, q.caller)
  {
    var d' := Handle(d, q).directory;
    var user :| IsAdmin(d, org, user);
    OnlyDemotionsTakeAway(d, q, org, user);
    OtherAdmins(d, org, user);
    if q.ChangeRole? && q.org == org && q.target == user && !q.toAdmin && !IsAdmin(d', org, user) {
      if IsOnlyAdmin(d, org, user) {
        forall other
          ensures !IsAdmin(d', org, other)
        {
          if !IsAdmin(d, org, other) { OnlyOwnersMakeAdmins(d, q, org, other); }
        }
      } else {
        var other :| IsAdmin(d, org, other) && other != user;
        OnlyDemotionsTakeAway(d, q, org, other);
      }
    }
  }

  /** No request of an administrator leaves the organization without one. */
  lemma AdminsLeaveAnAdmin(d: Directory, q: Request, org: nat)
    requires Inv(d) && IsAdmin(d, org, q.caller)
    ensures HasAdmin(Handle(d, q).directory, org)
  {
    LastAdminIsLostIff(d, q, org);
  }

  /** An organization with one administrator and one delegate. */
  function Delegated(owner: string, admin: string, delegate: string): seq<Request> {
    [] + [CreateOrganization(owner, "code")]
    + [AddMember(owner, 0, Some(admin), true, NO_ATTRIBUTES)]
    + [AddMember(owner, 0, Some(delegate), false, NO_ATTRIBUTES.(canManageMembers := true))]
  }

  lemma DelegatedStandings(owner: string, admin: string, delegate: string)
    requires owner != admin && owner != delegate && admin != delegate
    ensures Handled(EMPTY, Delegated(owner, admin, delegate)).standings ==
      map[Seat(0, owner) := Standing(OrgOwner, NO_ATTRIBUTES), Seat(0, admin) := Standing(OrgAdmin, NO_ATTRIBUTES),
          Seat(0, delegate) := Standing(OrgMember, NO_ATTRIBUTES.(canManageMembers := true))]
  {
    var all := Delegated(owner, admin, delegate);
    HandledOneMore(EMPTY, [], all[0]);
    HandledOneMore(EMPTY, [] + [all[0]], all[1]);
    HandledOneMore(EMPTY, [] + [all[0]] + [all[1]], all[2]);
  }

  /** A delegate who is no administrator can leave an organization without one. */
  lemma DelegatesCanRemoveTheLastAdmin(owner: string, admin: string, delegate: string)
    requires owner != admin && owner != delegate && admin != delegate
    ensures var d, q := Handled(EMPTY, Delegated(owner, admin, delegate)), ChangeRole(delegate, 0, admin, false);
      && HasAdmin(d, 0) && !HasAdmin(Handle(d, q).directory, 0)
      && !IsAdmin(d, 0, delegate) && !IsOwner(d, 0, delegate)
  {
    var d, q := Handled(EMPTY, Delegated(owner, admin, delegate)), ChangeRole(delegate, 0, admin, false);
    DelegatedStandings(owner, admin, delegate);
    RunKeeps(EMPTY, Delegated(owner, admin, delegate));
    assert IsOnlyAdmin(d, 0, admin);
    LastAdminIsLostIff(d, q, 0);
  }

  // ---- Coming and going ---------------------------------------------------------------------------

  /** Creating the organization, using its join code, or a request of somebody who manages its members. */
  predicate Admits(d: Directory, q: Request, org: nat, user: string) {
    || (q.CreateOrganization? && org == |d.codes| && q.caller == user)
    || (q.Join? && FindCode(d.codes, q.code) == Some(org) && q.caller == user)
    || (q.AddMember? && q.org == org && q.account == Some(user)
        && Manages(d, org, q.caller) && (q.asAdmin ==> IsOwner(d, org, q.caller)))
  }

  lemma MembersComeBy(d: Directory, q: Request, org: nat, user: string)
    requires Inv(d) && Seat(org, user) !in d.standings
    ensures Seat(org, user) in Handle(d, q).directory.standings <==> Admits(d, q, org, user)
  {
  }

  predicate KeepsDelegation(d: Directory, d': Directory, seat: Seat) {
    seat in d.standings ==> seat in d'.standings && d'.standings[seat].attributes == d.standings[seat].attributes
  }

  /** Once somebody belongs, the standing stays and no request changes what was delegated. */
  lemma DelegationsStay(d: Directory, q: Request, seat: Seat)
    requires Inv(d) && seat in d.standings
    ensures KeepsDelegation(d, Handle(d, q).directory, seat)
  {
    match q
    case CreateOrganization(_, _) => assert seat.place < |d.codes|;
    case Join(_, _) =>
    case AddMember(_, _, _, _, _) =>
    case ChangeRole(_, _, _, _) =>
    case _ => assert Handle(d, q).directory.standings == d.standings;
  }

  lemma BelongingStays(d: Directory, q: Request, org: nat, user: string)
    requires Inv(d) && IsValid(q)
    ensures Seat(org, user) in Handle(d, q).directory.standings <==>
      Seat(org, user) in d.standings || Admits(d, q, org, user)
  {
    if Seat(org, user) in d.standings {
      StepKeeps(d, q);
    } else {
      MembersComeBy(d, q, org, user);
    }
  }

  function Admission(org: nat, user: string): (Directory, Request) -> bool {
    (d: Directory, q: Request) => Admits(d, q, org, user)
  }

  function Nothing(): (Directory, Request) -> bool {
    (d: Directory, q: Request) => false
  }

  lemma AdmittedOneMore(requests: seq<Request>, q: Request, org: nat, user: string)
    requires Inv(Handled(EMPTY, requests)) && IsValid(q)
    requires Seat(org, user) in Handled(EMPTY, requests).standings <==>
      Lasts(requests, Admission(org, user), Nothing())
    ensures Seat(org, user) in Handled(EMPTY, requests + [q]).standings <==>
      Lasts(requests + [q], Admission(org, user), Nothing())
  {
    HandledOneMore(EMPTY, requests, q);
    LastsOneMore(Handled(EMPTY, requests), requests, q, Admission(org, user), Nothing());
    BelongingStays(Handled(EMPTY, requests), q, org, user);
  }

  /** After any requests, those who belong to an organization are exactly those who were once admitted to it. */
  lemma {:induction false} MembersAreTheAdmitted(requests: seq<Request>, org: nat, user: string)
    requires AreValid(requests)
    ensures Seat(org, user) in Handled(EMPTY, requests).standings <==>
      Lasts(requests, Admission(org, user), Nothing())
  {
    if requests != [] {
      var front, last := requests[..|requests| - 1], requests[|requests| - 1];
      assert requests == front + [last];
      MembersAreTheAdmitted(front, org, user);
      RunKeeps(EMPTY, front);
      AdmittedOneMore(front, last, org, user);
    }
  }

  lemma DelegationStays(d: Directory, d': Directory, q: Request, seat: Seat)
    requires Inv(d') && KeepsDelegation(d, d', seat)
    ensures KeepsDelegation(d, Handle(d', q).directory, seat)
  {
    if seat in d'.standings { DelegationsStay(d', q, seat); }
  }

  lemma {:induction false} RunKeepsDelegation(d: Directory, requests: seq<Request>, seat: Seat)
    requires Inv(d) && AreValid(requests)
    ensures KeepsDelegation(d, Handled(d, requests), seat)
  {
    if requests != [] {
      var front := requests[..|requests| - 1];
      RunKeepsDelegation(d, front, seat);
      RunKeeps(d, front);
      DelegationStays(d, Handled(d, front), requests[|requests| - 1], seat);
    }
  }

  /** What was delegated to somebody is settled on admission, whatever is requested later. */
  lemma DelegationsNeverChange(earlier: seq<Request>, later: seq<Request>, seat: Seat)
    requires AreValid(earlier) && AreValid(later)
    ensures KeepsDelegation(Handled(EMPTY, earlier), Handled(EMPTY, earlier + later), seat)
  {
    RunKeeps(EMPTY, earlier);
    RunKeepsDelegation(Handled(EMPTY, earlier), later, seat);
    HandledConcat(EMPTY, earlier, later);
  }

  predicate MayCreateRoom(d: Directory, caller: string, org: nat, memberIds: seq<string>) {
    && OpensRooms(d, org, caller)
    && forall id <- memberIds :: id == caller || Seat(org, id) in d.standings
  }

  lemma MayCreateRoomIff(d: Directory, caller: string, room: Room, memberIds: seq<string>)
    ensures RoomCreated(d, caller, room, memberIds).outcome == Done <==> MayCreateRoom(d, caller, room.org, memberIds)
  {
    InitialMembersAreDistinct(memberIds, caller);
  }

  /** Who is in a new room, and as what: the caller as its owner, and everybody else named as a member. */
  lemma NewRoomsHold(d: Directory, q: Request, user: string)
    requires Inv(d) && q.CreateRoom?
    ensures var d' := Handle(d, q).directory;
      if MayCreateRoom(d, q.caller, q.org, q.memberIds) then
        && d'.rooms == d.rooms + [Room(q.org, q.visibility, q.classification)]
        && RoomRoleOf(d', |d.rooms|, user) ==
             if user == q.caller then Some(RoomOwner) else if user in q.memberIds then Some(Participant) else None
      else d' == d
  {
    var room, n := Room(q.org, q.visibility, q.classification), |d.rooms|;
    MayCreateRoomIff(d, q.caller, room, q.memberIds);
    InitialMembersAreDistinct(q.memberIds, q.caller);
    ParticipantsAreExact(d.roomRoles[Seat(n, q.caller) := RoomOwner], n, InitialMembers(q.memberIds, q.caller));
    assert Seat(n, user) !in d.roomRoles;
  }

  lemma CreatingKeepsOtherRooms(d: Directory, q: Request, room: nat, user: string)
    requires Inv(d) && q.CreateRoom? && room < |d.rooms|
    ensures RoomRoleOf(Handle(d, q).directory, room, user) == RoomRoleOf(d, room, user)
  {
    var n := |d.rooms|;
    ParticipantsAreExact(d.roomRoles[Seat(n, q.caller) := RoomOwner], n, InitialMembers(q.memberIds, q.caller));
  }

  /**
   * What any request does to anybody's role in an existing room: somebody who manages the room gives a role
   * to an organization member who has none, or takes one that is not the owner's; nothing else does anything.
   */
  lemma RoomRolesChangeBy(d: Directory, q: Request, room: nat, user: string)
    requires Inv(d) && room < |d.rooms|
    ensures var role := RoomRoleOf(d, room, user);
      RoomRoleOf(Handle(d, q).directory, room, user) ==
        if q.AddRoomMember? && q.room == room && q.target == user && role.None?
          && ManagesRoom(d, room, q.caller) && Seat(d.rooms[room].org, user) in d.standings then Some(q.role)
        else if q.RemoveRoomMember? && q.room == room && q.target == user && role != Some(RoomOwner)
          && ManagesRoom(d, room, q.caller) then None
        else role
  {
    if q.CreateRoom? { CreatingKeepsOtherRooms(d, q, room, user); }
  }

  /** Creating the room with a user in it, or adding the user as somebody who manages the room. */
  predicate LetsIn(d: Directory, q: Request, room: nat, user: string) {
    || (q.CreateRoom? && room == |d.rooms| && MayCreateRoom(d, q.caller, q.org, q.memberIds)
        && (user == q.caller || user in q.memberIds))
    || (q.AddRoomMember? && q.room == room < |d.rooms| && q.target == user
        && ManagesRoom(d, room, q.caller) && Seat(d.rooms[room].org, user) in d.standings)
  }

  predicate Removes(d: Directory, q: Request, room: nat, user: string) {
    && q.RemoveRoomMember? && q.room == room < |d.rooms| && q.target == user
    && ManagesRoom(d, room, q.caller) && RoomRoleOf(d, room, user) != Some(RoomOwner)
  }

  lemma NobodyIsInNoRoom(d: Directory, q: Request, room: nat, user: string)
    requires Inv(d) && room >= |d.rooms| && (room == |d.rooms| ==> !q.CreateRoom?)
    ensures !LetsIn(d, q, room, user) && RoomRoleOf(d, room, user).None?
    ensures RoomRoleOf(Handle(d, q).directory, room, user).None?
  {
    if q.CreateRoom? {
      var n := |d.rooms|;
      ParticipantsAreExact(d.roomRoles[Seat(n, q.caller) := RoomOwner], n, InitialMembers(q.memberIds, q.caller));
    }
  }

  lemma LetInOrStays(d: Directory, q: Request, room: nat, user: string)
    requires Inv(d)
    ensures RoomRoleOf(Handle(d, q).directory, room, user).Some? <==>
      LetsIn(d, q, room, user) || (RoomRoleOf(d, room, user).Some? && !Removes(d, q, room, user))
  {
    if room < |d.rooms| {
      RoomRolesChangeBy(d, q, room, user);
    } else if room == |d.rooms| && q.CreateRoom? {
      NewRoomsHold(d, q, user);
    } else {
      NobodyIsInNoRoom(d, q, room, user);
    }
  }

  function LettingIn(room: nat, user: string): (Directory, Request) -> bool {
    (d: Directory, q: Request) => LetsIn(d, q, room, user)
  }

  function Removal(room: nat, user: string): (Directory, Request) -> bool {
    (d: Directory, q: Request) => Removes(d, q, room, user)
  }

  lemma LetInOneMore(requests: seq<Request>, q: Request, room: nat, user: string)
    requires Inv(Handled(EMPTY, requests))
    requires RoomRoleOf(Handled(EMPTY, requests), room, user).Some? <==>
      Lasts(requests, LettingIn(room, user), Removal(room, user))
    ensures RoomRoleOf(Handled(EMPTY, requests + [q]), room, user).Some? <==>
      Lasts(requests + [q], LettingIn(room, user), Removal(room, user))
  {
    HandledOneMore(EMPTY, requests, q);
    LastsOneMore(Handled(EMPTY, requests), requests, q, LettingIn(room, user), Removal(room, user));
    LetInOrStays(Handled(EMPTY, requests), q, room, user);
  }

  /**
   * After any requests, those with a role in a room are exactly those it was created with or somebody who
   * managed it added, and nobody who managed it has removed since.
   */
  lemma {:induction false} RoomMembersAreThoseLetIn(requests: seq<Request>, room: nat, user: string)
    requires AreValid(requests)
    ensures RoomRoleOf(Handled(EMPTY, requests), room, user).Some? <==>
      Lasts(requests, LettingIn(room, user), Removal(room, user))
  {
    if requests != [] {
      var front, last := requests[..|requests| - 1], requests[|requests| - 1];
      assert requests == front + [last];
      RoomMembersAreThoseLetIn(front, room, user);
      RunKeeps(EMPTY, front);
      LetInOneMore(front, last, room, user);
    }
  }

  // ---- Who changes what ---------------------------------------------------------------------------

  lemma StandingsChangeBy(d: Directory, q: Request, org: nat, user: string)
    requires Inv(d) && StandingOf(Handle(d, q).directory, org, user) != StandingOf(d, org, user)
    ensures
      || (q.CreateOrganization? && org == |d.codes| && q.caller == user)
      || (q.Join? && q.caller == user)
      || ((q.AddMember? || q.ChangeRole?) && q.org == org && Manages(d, org, q.caller))
  {
    PolicyIsByRole(d, org, q.caller);
  }

  /**
   * After any requests, a request changes somebody's standing only as the creation of the organization, as
   * the person's own use of the join code, or if it comes from somebody who then is the owner, an
   * administrator, or a delegate.
   */
  lemma OnlyManagersChangeStandings(requests: seq<Request>, q: Request, org: nat, user: string)
    requires AreValid(requests)
    ensures var d := Handled(EMPTY, requests);
      StandingOf(Handle(d, q).directory, org, user) != StandingOf(d, org, user) ==>
        || (q.CreateOrganization? && org == |d.codes| && q.caller == user)
        || (q.Join? && q.caller == user)
        || ((q.AddMember? || q.ChangeRole?) && q.org == org && Manages(d, org, q.caller))
  {
    RunKeeps(EMPTY, requests);
    var d := Handled(EMPTY, requests);
    if StandingOf(Handle(d, q).directory, org, user) != StandingOf(d, org, user) { StandingsChangeBy(d, q, org, user); }
  }

  lemma RoomsComeBy(d: Directory, q: Request)
    requires Inv(d)
    ensures Handle(d, q).directory.rooms != d.rooms ==> q.CreateRoom? && OpensRooms(d, q.org, q.caller)
  {
    if q.CreateRoom? { NewRoomsHold(d, q, q.caller); }
  }

  /** And a room comes from somebody who opens rooms, a change of its members from somebody who manages it. */
  lemma OnlyManagersChangeRooms(requests: seq<Request>, q: Request, room: nat, user: string)
    requires AreValid(requests)
    ensures var d := Handled(EMPTY, requests); var d' := Handle(d, q).directory;
      && (d'.rooms != d.rooms ==> q.CreateRoom? && OpensRooms(d, q.org, q.caller))
      && (room < |d.rooms| && RoomRoleOf(d', room, user) != RoomRoleOf(d, room, user) ==>
            (q.AddRoomMember? || q.RemoveRoomMember?) && q.room == room && ManagesRoom(d, room, q.caller))
  {
    RunKeeps(EMPTY, requests);
    var d := Handled(EMPTY, requests);
    RoomsComeBy(d, q);
    if room < |d.rooms| { RoomRolesChangeBy(d, q, room, user); }
  }

  predicate ManagesMembers(attributes: Attributes) {
    attributes.canManageMembers
  }

  predicate CreatesRooms(attributes: Attributes) {
    attributes.canCreateRooms
  }

  /** Being admitted by a request that adds the user with an attribute. */
  predicate Delegates(d: Directory, q: Request, org: nat, user: string, has: Attributes -> bool) {
    q.AddMember? && Seat(org, user) !in d.standings && Admits(d, q, org, user) && has(q.attributes)
  }

  function Delegation(org: nat, user: string, has: Attributes -> bool): (Directory, Request) -> bool {
    (d: Directory, q: Request) => Delegates(d, q, org, user, has)
  }

  predicate IsDelegate(d: Directory, org: nat, user: string, has: Attributes -> bool) {
    Seat(org, user) in d.standings && has(d.standings[Seat(org, user)].attributes)
  }

  lemma DelegatedBy(d: Directory, q: Request, org: nat, user: string, has: Attributes -> bool)
    requires Inv(d) && !has(Attributes(false, false, false))
    ensures IsDelegate(Handle(d, q).directory, org, user, has) <==>
      IsDelegate(d, org, user, has) || Delegates(d, q, org, user, has)
  {
    if Seat(org, user) in d.standings {
      DelegationsStay(d, q, Seat(org, user));
    } else {
      MembersComeBy(d, q, org, user);
    }
  }

  lemma DelegatedOneMore(requests: seq<Request>, q: Request, org: nat, user: string, has: Attributes -> bool)
    requires Inv(Handled(EMPTY, requests)) && !has(Attributes(false, false, false))
    requires IsDelegate(Handled(EMPTY, requests), org, user, has) <==>
      Lasts(requests, Delegation(org, user, has), Nothing())
    ensures IsDelegate(Handled(EMPTY, requests + [q]), org, user, has) <==>
      Lasts(requests + [q], Delegation(org, user, has), Nothing())
  {
    HandledOneMore(EMPTY, requests, q);
    LastsOneMore(Handled(EMPTY, requests), requests, q, Delegation(org, user, has), Nothing());
    DelegatedBy(Handled(EMPTY, requests), q, org, user, has);
  }

  /** After any requests, those with an attribute are exactly those who were admitted by being added with it. */
  lemma {:induction false} DelegatesWereAddedAsSuch(
    requests: seq<Request>, org: nat, user: string, has: Attributes -> bool)
    requires AreValid(requests) && !has(Attributes(false, false, false))
    ensures IsDelegate(Handled(EMPTY, requests), org, user, has) <==>
      Lasts(requests, Delegation(org, user, has), Nothing())
  {
    if requests != [] {
      var front, last := requests[..|requests| - 1], requests[|requests| - 1];
      assert requests == front + [last];
      DelegatesWereAddedAsSuch(front, org, user, has);
      RunKeeps(EMPTY, front);
      DelegatedOneMore(front, last, org, user, has);
    }
  }

  /**
   * Does not own the organization, was not made an administrator and left one, and was not admitted with the
   * attribute: everybody who only used the join code, say.
   */
  ghost predicate IsPlain(requests: seq<Request>, org: nat, user: string, has: Attributes -> bool) {
    && !IsOwner(Handled(EMPTY, requests), org, user)
    && !Lasts(requests, Promotion(org, user), Demotion(org, user))
    && !Lasts(requests, Delegation(org, user, has), Nothing())
  }

  lemma PlainMembers(requests: seq<Request>, org: nat, user: string, has: Attributes -> bool)
    requires AreValid(requests) && !has(Attributes(false, false, false)) && IsPlain(requests, org, user, has)
    ensures var d := Handled(EMPTY, requests);
      !IsOwner(d, org, user) && !IsAdmin(d, org, user) && !IsDelegate(d, org, user, has)
  {
    AdminsAreThePromoted(requests, org, user);
    DelegatesWereAddedAsSuch(requests, org, user, has);
  }

  /** Such a member is refused every change of anybody's standing. */
  lemma OthersManageNothing(requests: seq<Request>, q: Request)
    requires AreValid(requests) && (q.AddMember? || q.ChangeRole?)
    requires IsPlain(requests, q.org, q.caller, ManagesMembers)
    ensures Handle(Handled(EMPTY, requests), q) == Reply(Handled(EMPTY, requests), Refused(403, "forbidden"))
  {
    PlainMembers(requests, q.org, q.caller, ManagesMembers);
    PolicyIsByRole(Handled(EMPTY, requests), q.org, q.caller);
    assert !Manages(Handled(EMPTY, requests), q.org, q.caller);
  }

  /** Such a member who does not own the room either is refused every change of the room's members. */
  lemma OthersManageNoRooms(requests: seq<Request>, q: Request)
    requires AreValid(requests) && (q.AddRoomMember? || q.RemoveRoomMember?)
    requires q.room < |Handled(EMPTY, requests).rooms|
    requires IsPlain(requests, Handled(EMPTY, requests).rooms[q.room].org, q.caller, ManagesMembers)
    requires !IsRoomOwner(Handled(EMPTY, requests), q.room, q.caller)
    ensures Handle(Handled(EMPTY, requests), q) == Reply(Handled(EMPTY, requests), Refused(403, "forbidden"))
  {
    var d := Handled(EMPTY, requests);
    PlainMembers(requests, d.rooms[q.room].org, q.caller, ManagesMembers);
    RoomPolicyIsByRole(d, q.room, q.caller);
    assert !ManagesRoom(d, q.room, q.caller);
  }

  /** And without the attribute for rooms, such a member is refused every new room. */
  lemma OthersOpenNoRooms(requests: seq<Request>, q: Request)
    requires AreValid(requests) && q.CreateRoom?
    requires IsPlain(requests, q.org, q.caller, CreatesRooms)
    ensures Handle(Handled(EMPTY, requests), q) == Reply(Handled(EMPTY, requests), Refused(403, "forbidden"))
  {
    PlainMembers(requests, q.org, q.caller, CreatesRooms);
    PolicyIsByRole(Handled(EMPTY, requests), q.org, q.caller);
    assert !OpensRooms(Handled(EMPTY, requests), q.org, q.caller);
  }

  // ---- What is refused, and how -------------------------------------------------------------------

  predicate Belongs(d: Directory, org: nat, user: string) {
    Seat(org, user) in d.standings
  }

  /** The caller may not do it at all, or may not make administrators, or the room is not for the person. */
  predicate IsForbidden(d: Directory, q: Request) {
    match q
    case CreateOrganization(_, _) => false
    case Join(_, _) => false
    case AddMember(caller, org, _, asAdmin, _) => !Manages(d, org, caller) || (asAdmin && !IsOwner(d, org, caller))
    case ChangeRole(caller, org, target, toAdmin) =>
      || !Manages(d, org, caller)
      || (toAdmin && Belongs(d, org, target) && !IsOwner(d, org, target) && !IsOwner(d, org, caller))
    case CreateRoom(caller, org, _, _, _) => !OpensRooms(d, org, caller)
    case AddRoomMember(caller, room, target, _) =>
      room < |d.rooms| && (!ManagesRoom(d, room, caller) || !Belongs(d, d.rooms[room].org, target))
    case RemoveRoomMember(caller, room, _) => room < |d.rooms| && !ManagesRoom(d, room, caller)
  }

  /** There is no such account, member or room. */
  predicate IsMissing(d: Directory, q: Request) {
    match q
    case AddMember(_, _, account, _, _) => account.None?
    case ChangeRole(_, org, target, _) => !Belongs(d, org, target)
    case AddRoomMember(_, room, _, _) => room >= |d.rooms|
    case RemoveRoomMember(_, room, target) => room >= |d.rooms| || Seat(room, target) !in d.roomRoles
    case _ => false
  }

  /** The person already is where they are to go. */
  ghost predicate IsAlreadyThere(d: Directory, q: Request) {
    match q
    case Join(caller, code) =>
      exists org: nat :: org < |d.codes| && d.codes[org] == code && code !in d.codes[..org] && Belongs(d, org, caller)
    case AddMember(_, org, account, _, _) => account.Some? && Belongs(d, org, account.value)
    case AddRoomMember(_, room, target, _) => Seat(room, target) in d.roomRoles
    case _ => false
  }

  predicate IsOutcome(outcome: Outcome) {
    || outcome == Done || outcome == Refused(403, "forbidden") || outcome == Refused(409, "already_member")
    || outcome == Refused(404, "invalid_code") || outcome == Refused(404, "not_found")
    || outcome == Refused(400, "cannot_change_owner") || outcome == Refused(400, "cannot_remove_owner")
    || outcome == Refused(400, "last_admin") || outcome == Refused(400, "invalid_room_members")
  }

  /** What a request is answered with, case by case; `fair` is a request its caller may make. */
  ghost predicate IsAnswered(d: Directory, q: Request, outcome: Outcome) {
    var fair := !IsForbidden(d, q);
    && IsOutcome(outcome)
    && (outcome == Refused(403, "forbidden") <==> !fair)
    && (outcome == Refused(404, "invalid_code") <==> q.Join? && q.code !in d.codes)
    && (outcome == Refused(404, "not_found") <==> fair && IsMissing(d, q))
    && (outcome == Refused(409, "already_member") <==> fair && IsAlreadyThere(d, q))
    && (outcome == Refused(400, "cannot_change_owner") <==> fair && q.ChangeRole? && IsOwner(d, q.org, q.target))
    && (outcome == Refused(400, "cannot_remove_owner") <==>
          fair && q.RemoveRoomMember? && IsRoomOwner(d, q.room, q.target))
    && (outcome == Refused(400, "last_admin") <==>
          q.ChangeRole? && q.caller == q.target && !q.toAdmin && IsOnlyAdmin(d, q.org, q.target))
    && (outcome == Refused(400, "invalid_room_members") <==>
          fair && q.CreateRoom? && exists id <- q.memberIds :: id != q.caller && !Belongs(d, q.org, id))
  }

  lemma JoinIsAnswered(d: Directory, q: Request)
    requires q.Join?
    ensures IsAnswered(d, q, Handle(d, q).outcome)
  {
    var org := FindCode(d.codes, q.code);
    if org.Some? && StandingOf(d, org.value, q.caller).Some? { assert Belongs(d, org.value, q.caller); }
  }

  lemma ChangeRoleIsAnswered(d: Directory, q: Request)
    requires q.ChangeRole?
    ensures IsAnswered(d, q, Handle(d, q).outcome)
  {
    if IsAdmin(d, q.org, q.target) { OtherAdmins(d, q.org, q.target); }
  }

  lemma CreateRoomIsAnswered(d: Directory, q: Request)
    requires q.CreateRoom?
    ensures IsAnswered(d, q, Handle(d, q).outcome)
  {
    InitialMembersAreDistinct(q.memberIds, q.caller);
  }

  lemma AddMemberIsAnswered(d: Directory, q: Request)
    requires q.AddMember?
    ensures IsAnswered(d, q, Handle(d, q).outcome)
  {
  }

  lemma RoomMemberIsAnswered(d: Directory, q: Request)
    requires RoomMembersBelong(d) && (q.AddRoomMember? || q.RemoveRoomMember?)
    ensures IsAnswered(d, q, Handle(d, q).outcome)
  {
    if q.room < |d.rooms| { RoomPolicyIsByRole(d, q.room, q.caller); }
  }

  /** After any requests, each way of being refused has exactly its own cause, and the rest is done. */
  lemma RefusalsAreExact(requests: seq<Request>, q: Request)
    requires AreValid(requests)
    ensures var d := Handled(EMPTY, requests); IsAnswered(d, q, Handle(d, q).outcome)
  {
    RunKeeps(EMPTY, requests);
    var d := Handled(EMPTY, requests);
    match q
    case Join(_, _) => JoinIsAnswered(d, q);
    case ChangeRole(_, _, _, _) => ChangeRoleIsAnswered(d, q);
    case CreateRoom(_, _, _, _, _) => CreateRoomIsAnswered(d, q);
    case AddMember(_, _, _, _, _) => AddMemberIsAnswered(d, q);
    case AddRoomMember(_, _, _, _) => RoomMemberIsAnswered(d, q);
    case RemoveRoomMember(_, _, _) => RoomMemberIsAnswered(d, q);
    case CreateOrganization(_, _) =>
  }

  // ---- Adding and removing ------------------------------------------------------------------------

  /** Removing whom one has just added to a room is always allowed and restores the directory. */
  lemma RemovingUndoesAdding(d: Directory, caller: string, room: nat, target: string, role: RoomRole)
    requires Inv(d) && !role.RoomOwner?
    requires Handle(d, AddRoomMember(caller, room, target, role)).outcome == Done
    ensures var added := Handle(d, AddRoomMember(caller, room, target, role)).directory;
      Handle(added, RemoveRoomMember(caller, room, target)) == Reply(d, Done)
  {
    var added := Handle(d, AddRoomMember(caller, room, target, role)).directory;
    if caller == target {
      RoomRolesKeepManagement(StandingOf(d, d.rooms[room].org, caller), d.rooms[room], None, role);
    }
    assert MayManage(added, room, caller);
    assert added.roomRoles - {Seat(room, target)} == d.roomRoles;
  }
}
