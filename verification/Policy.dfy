/** Who may do what in an organization and in its rooms (apps/api/src/policy.ts). */
module Policy {
  import opened Options

  datatype OrgRole = OrgOwner | OrgAdmin | OrgMember

  /** What was explicitly delegated to a member beyond the role; an absent attribute is a false one. */
  datatype Attributes = Attributes(canCreateRooms: bool, canManageMembers: bool, canSchedule: bool)

  const NO_ATTRIBUTES := Attributes(false, false, false)

  datatype Standing = Standing(role: OrgRole, attributes: Attributes)

  datatype OrgAction = ReadOrg | CreateRooms | ManageMembers | Schedule

  datatype RoomRole = RoomOwner | Host | Participant | Viewer

  datatype Visibility = Organization | Restricted

  datatype Classification = Internal | Confidential

  datatype Room = Room(org: nat, visibility: Visibility, classification: Classification)

  datatype RoomAction = Read | JoinLive | Write | Manage

  predicate IsAdministrator(standing: Standing) {
    standing.role.OrgOwner? || standing.role.OrgAdmin?
  }

  predicate CanOrganization(standing: Option<Standing>, action: OrgAction) {
    match standing
    case None => false
    case Some(s) =>
      match action
      case ReadOrg => true
      case CreateRooms => IsAdministrator(s) || s.attributes.canCreateRooms
      case ManageMembers => IsAdministrator(s) || s.attributes.canManageMembers
      case Schedule => IsAdministrator(s) || s.attributes.canSchedule
  }

  function EffectiveRoomRole(standing: Option<Standing>, room: Room, role: Option<RoomRole>): Option<RoomRole> {
    if standing.None? then None
    else if role.Some? then role
    else if IsAdministrator(standing.value) then Some(Host)
    else if room.visibility.Organization? && !room.classification.Confidential? then Some(Participant)
    else None
  }

  predicate CanRoom(standing: Option<Standing>, room: Room, role: Option<RoomRole>, action: RoomAction) {
    var effective := EffectiveRoomRole(standing, room, role);
    effective.Some? &&
    match action
    case Read => true
    case JoinLive => true
    case Write => !effective.value.Viewer?
    case Manage =>
      IsAdministrator(standing.value) || standing.value.attributes.canManageMembers || role == Some(RoomOwner)
  }

  /** A room role, even a viewer's, never takes management from those who have it. */
  lemma RoomRolesKeepManagement(standing: Option<Standing>, room: Room, role: Option<RoomRole>, other: RoomRole)
    requires CanRoom(standing, room, role, Manage) && role != Some(RoomOwner)
    ensures CanRoom(standing, room, Some(other), Manage) && CanRoom(standing, room, role, Read)
  {
  }
}
