/** What each operation of UamDAOImpl (web-server/internal/db/dao/uam_dao.go) does to the
    store, as a function from the tables before the call to the tables after it and the value
    returned. The checks run in the order the code runs them; an injected fault stops the
    operation at the statement it names, and a transaction that stops rolls every change back. */
module UamSpec {
  import opened Errors
  import opened Seqs
  import opened Models
  import opened Store

  // Error texts of uam_dao.go.
  const UsersLookupFailed := "Problem with the lookup of users"
  const UsernameExists := "A user with the same username exists"
  const UserCreationFailed := "Problem with the creation of new user"
  const UserIdLookupFailed := "Problem with the lookup if user exists"
  const NoUserWithId := "User with that id does not exist"
  const UserDeletionFailed := "Problem with the deletion of the user from db"
  const GroupsLookupFailed := "Problem with the lookup of groups"
  const GroupNameExists := "A group with the same name exists"
  /** The description is passed to errors.Wrapf as a format with no argument, so the verb
      is rendered as a missing argument. */
  const GroupCreationFailed := "Problem with the creation of group [%!s(MISSING)] in db"
  const OwnerMembershipFailed := "Problem with the creation of membership in db"
  const OnlyOwnerAdds := "Only the group owner can add members to the group"
  const GroupBeingDeleted := "The group is currently being deleted"
  const MembershipLookupFailed := "Problem with the lookup of membership in db"
  const AlreadyMember := "The user is already a member of the group"
  const MembershipCreationFailed := "Problem with the creation of new membership in db"
  const OnlyOwnerDeletes := "Only the group owner can delete the group"
  const MembershipsDeletionFailed := "Problem with deletion of memberships in db"
  const GroupDeactivationFailed := "Problem with deletion of the group in db"
  const OnlyOwnerRevokes := "Only the owner of the group can revoke membership of other members"
  const OwnerCannotLeave := "The owner cannot remove its own membership. Yet to be added this functionality"
  const MembershipNotFound := "Membership not found"
  const MembershipCheckFailed := "Problem with check existance of membership"
  const InactiveLookupFailed := "Problem with finding all groups, whose resources shuld be deleted"
  const EraseFailed := "Couldnt delete the inactive groups"
  const InvalidGroup := "Invalid group"
  const NotAMember := "The user is not a member of the group"
  const GroupUsersLookupFailed := "Problem with the lookup of users in db"
  const UserMissing := "User does not exist"
  const GroupLookupFailed := "Problem with the lookup if group exists"

  function GroupMissing(groupName: string): string
  {
    "Group [" + groupName + "] does not exist"
  }

  // ---------------------------------------------------------------------------------
  // Lookups

  /** getUserWithConn, issued as statement `step` of the calling operation. */
  function GetUserWithConn(users: seq<User>, username: string, fault: Fault, step: nat): (r: Result<User>)
    ensures r.Ok? <==> !fault.Hits(step) && UsernameTaken(users, username)
    ensures r.Ok? ==> r.value in users && r.value.username == username
    ensures !fault.Hits(step) && !UsernameTaken(users, username) ==> r == Err(ItemNotFoundError(UserMissing))
    ensures fault.Hits(step) ==> r.Err? && r.error.ServerError?
  {
    if fault.Hits(step) then Err(fault.Failure(UserIdLookupFailed))
    else match FindUser(users, username)
      case None => Err(ItemNotFoundError(UserMissing))
      case Some(u) => Ok(u)
  }

  /** getGroupWithConn, issued as statement `step` of the calling operation. The row is found
      whether the group is active or not. */
  function GetGroupWithConn(groups: seq<Group>, groupName: string, fault: Fault, step: nat): (r: Result<Group>)
    ensures r.Ok? <==> !fault.Hits(step) && NameTaken(groups, groupName)
    ensures r.Ok? ==> r.value in groups && r.value.name == groupName
    ensures !fault.Hits(step) && !NameTaken(groups, groupName) ==> r == Err(ItemNotFoundError(GroupMissing(groupName)))
    ensures fault.Hits(step) ==> r.Err? && r.error.ServerError?
  {
    if fault.Hits(step) then Err(fault.Failure(GroupLookupFailed))
    else match FindGroup(groups, groupName)
      case None => Err(ItemNotFoundError(GroupMissing(groupName)))
      case Some(g) => Ok(g)
  }

  // ---------------------------------------------------------------------------------
  // Operations

  /** CreateUser: count the users with that name (1), insert (2). */
  function CreateUser(t: Tables, username: string, password: string, fault: Fault): (a: Applied<Outcome>)
    ensures a.result.Fail? ==> a.tables == t
    ensures !fault.Hits(1) && UsernameTaken(t.users, username) ==> a.result == Fail(ClientError(UsernameExists))
    ensures a.result.Pass? <==> !fault.HitsBy(2) && !UsernameTaken(t.users, username)
    ensures a.result.Pass? ==>
      && a.tables.users == t.users + [User(t.ids.user, username, password)]
      && a.tables == t.(users := a.tables.users, ids := t.ids.(user := t.ids.user + 1))
  {
    if fault.Hits(1) then Applied(t, Fail(fault.Failure(UsersLookupFailed)))
    else if UsernameTaken(t.users, username) then Applied(t, Fail(ClientError(UsernameExists)))
    else if fault.Hits(2) then Applied(t, Fail(fault.Failure(UserCreationFailed)))
    else Applied(t.(users := t.users + [User(t.ids.user, username, password)],
                    ids := t.ids.(user := t.ids.user + 1)), Pass)
  }

  /** DeleteUser: count the users with that id (1), delete (2). Groups the user owns and
      memberships the user holds stay. */
  function DeleteUser(t: Tables, userId: nat, fault: Fault): (a: Applied<Outcome>)
    ensures a.result.Fail? ==> a.tables == t
    ensures !fault.Hits(1) && !HasUserId(t.users, userId) ==> a.result == Fail(ItemNotFoundError(NoUserWithId))
    ensures a.result.Pass? <==> !fault.HitsBy(2) && HasUserId(t.users, userId)
    ensures a.result.Pass? ==>
      && (forall u :: u in a.tables.users <==> u in t.users && u.id != userId)
      && a.tables == t.(users := a.tables.users)
  {
    if fault.Hits(1) then Applied(t, Fail(fault.Failure(UserIdLookupFailed)))
    else if !HasUserId(t.users, userId) then Applied(t, Fail(ItemNotFoundError(NoUserWithId)))
    else if fault.Hits(2) then Applied(t, Fail(fault.Failure(UserDeletionFailed)))
    else Applied(t.(users := WithoutUser(t.users, userId)), Pass)
  }

  /** CreateGroup: count the groups with that name, active or not (1), insert the group (2),
      insert the owner's membership (3). */
  function CreateGroup(t: Tables, userId: nat, groupName: string, fault: Fault): (a: Applied<Outcome>)
    ensures a.result.Fail? ==> a.tables == t
    ensures !fault.Hits(1) && NameTaken(t.groups, groupName) ==> a.result == Fail(ClientError(GroupNameExists))
    ensures a.result.Pass? <==> !fault.HitsBy(3) && !NameTaken(t.groups, groupName)
    ensures a.result.Pass? ==>
      && a.tables.groups == t.groups + [Group(t.ids.group, groupName, userId, true)]
      && a.tables.memberships == t.memberships + [Membership(t.ids.membership, t.ids.group, userId)]
      && a.tables.users == t.users && a.tables.files == t.files
      && a.tables.ids == t.ids.(group := t.ids.group + 1, membership := t.ids.membership + 1)
  {
    if fault.Hits(1) then Applied(t, Fail(fault.Failure(GroupsLookupFailed)))
    else if NameTaken(t.groups, groupName) then Applied(t, Fail(ClientError(GroupNameExists)))
    else if fault.Hits(2) then Applied(t, Fail(fault.Failure(GroupCreationFailed)))
    else if fault.Hits(3) then Applied(t, Fail(fault.Failure(OwnerMembershipFailed)))
    else
      var g := NewGroup(t.ids.group, groupName, userId);
      Applied(t.(groups := t.groups + [g],
                 memberships := t.memberships + [Membership(t.ids.membership, g.id, userId)],
                 ids := t.ids.(group := t.ids.group + 1, membership := t.ids.membership + 1)), Pass)
  }

  /** AddUserToGroup: look the group up (1), look the user up (2), count the pair (3),
      insert the membership (4). */
  function AddUserToGroup(t: Tables, ownerId: nat, username: string, groupName: string, fault: Fault): (a: Applied<Outcome>)
    ensures a.result.Fail? ==> a.tables == t
    ensures !fault.Hits(1) && !NameTaken(t.groups, groupName) ==>
      a.result == Fail(ItemNotFoundError(GroupMissing(groupName)))
    ensures !fault.Hits(1) && NameTaken(t.groups, groupName) ==>
      var g := FindGroup(t.groups, groupName).value;
      && (g.ownerId != ownerId ==> a.result == Fail(ClientError(OnlyOwnerAdds)))
      && (g.ownerId == ownerId && !g.active ==> a.result == Fail(ClientError(GroupBeingDeleted)))
      && (g.ownerId == ownerId && g.active && !fault.Hits(2) && !UsernameTaken(t.users, username) ==>
            a.result == Fail(ItemNotFoundError(UserMissing)))
      && (g.ownerId == ownerId && g.active && !fault.HitsBy(3) && UsernameTaken(t.users, username)
          && IsMember(t.memberships, g.id, FindUser(t.users, username).value.id) ==>
            a.result == Fail(ClientError(AlreadyMember)))
    ensures a.result.Pass? <==>
      && !fault.HitsBy(4) && NameTaken(t.groups, groupName) && UsernameTaken(t.users, username)
      && var g := FindGroup(t.groups, groupName).value;
      && g.ownerId == ownerId && g.active
      && !IsMember(t.memberships, g.id, FindUser(t.users, username).value.id)
    ensures a.result.Pass? ==>
      var g := FindGroup(t.groups, groupName).value;
      var u := FindUser(t.users, username).value;
      && a.tables.memberships == t.memberships + [Membership(t.ids.membership, g.id, u.id)]
      && a.tables == t.(memberships := a.tables.memberships, ids := t.ids.(membership := t.ids.membership + 1))
  {
    match GetGroupWithConn(t.groups, groupName, fault, 1)
    case Err(e) => Applied(t, Fail(e))
    case Ok(g) =>
      if g.ownerId != ownerId then Applied(t, Fail(ClientError(OnlyOwnerAdds)))
      else if !g.active then Applied(t, Fail(ClientError(GroupBeingDeleted)))
      else match GetUserWithConn(t.users, username, fault, 2)
        case Err(e) => Applied(t, Fail(e))
        case Ok(u) =>
          if fault.Hits(3) then Applied(t, Fail(fault.Failure(MembershipLookupFailed)))
          else if IsMember(t.memberships, g.id, u.id) then Applied(t, Fail(ClientError(AlreadyMember)))
          else if fault.Hits(4) then Applied(t, Fail(fault.Failure(MembershipCreationFailed)))
          else Applied(t.(memberships := t.memberships + [Membership(t.ids.membership, g.id, u.id)],
                          ids := t.ids.(membership := t.ids.membership + 1)), Pass)
  }

  /** DeactivateGroup: look the group up (1), delete all its memberships (2), set it
      inactive (3). The row stays until the eraser job removes it. */
  function DeactivateGroup(t: Tables, userId: nat, groupName: string, fault: Fault): (a: Applied<Outcome>)
    ensures a.result.Fail? ==> a.tables == t
    ensures !fault.Hits(1) && !NameTaken(t.groups, groupName) ==>
      a.result == Fail(ItemNotFoundError(GroupMissing(groupName)))
    ensures !fault.Hits(1) && NameTaken(t.groups, groupName) ==>
      var g := FindGroup(t.groups, groupName).value;
      && (g.ownerId != userId ==> a.result == Fail(ClientError(OnlyOwnerDeletes)))
      && (g.ownerId == userId && !g.active ==> a.result == Fail(ClientError(GroupBeingDeleted)))
    ensures a.result.Pass? <==>
      && !fault.HitsBy(3) && NameTaken(t.groups, groupName)
      && var g := FindGroup(t.groups, groupName).value;
      && g.ownerId == userId && g.active
    ensures a.result.Pass? ==>
      var g := FindGroup(t.groups, groupName).value;
      && (forall m :: m in a.tables.memberships <==> m in t.memberships && m.groupId != g.id)
      && |a.tables.groups| == |t.groups|
      && (forall i :: 0 <= i < |t.groups| ==>
            a.tables.groups[i] == if t.groups[i].id == g.id then t.groups[i].(active := false) else t.groups[i])
      && a.tables.users == t.users && a.tables.files == t.files && a.tables.ids == t.ids
  {
    match GetGroupWithConn(t.groups, groupName, fault, 1)
    case Err(e) => Applied(t, Fail(e))
    case Ok(g) =>
      if g.ownerId != userId then Applied(t, Fail(ClientError(OnlyOwnerDeletes)))
      else if !g.active then Applied(t, Fail(ClientError(GroupBeingDeleted)))
      else if fault.Hits(2) then Applied(t, Fail(fault.Failure(MembershipsDeletionFailed)))
      else if fault.Hits(3) then Applied(t, Fail(fault.Failure(GroupDeactivationFailed)))
      else Applied(t.(memberships := WithoutGroupMemberships(t.memberships, g.id),
                      groups := Deactivated(t.groups, g.id)), Pass)
  }

  /** Whether `actor` may remove `target`'s membership of a group owned by `owner`: exactly
      one of "the actor owns the group" and "the actor is the target" holds. */
  predicate MayRevoke(owner: nat, actor: nat, target: nat)
  {
    (owner == actor) != (target == actor)
  }

  /** RemoveUserFromGroup: look the group up (1), look the user up (2), delete the pair (3);
      no deleted row means there was no membership. */
  function RemoveUserFromGroup(t: Tables, currUserId: nat, username: string, groupName: string, fault: Fault): (a: Applied<Outcome>)
    ensures a.result.Fail? ==> a.tables == t
    ensures !fault.Hits(1) && !NameTaken(t.groups, groupName) ==>
      a.result == Fail(ItemNotFoundError(GroupMissing(groupName)))
    ensures !fault.Hits(1) && NameTaken(t.groups, groupName) && !FindGroup(t.groups, groupName).value.active ==>
      a.result == Fail(ClientError(GroupBeingDeleted))
    ensures !fault.HitsBy(2) && NameTaken(t.groups, groupName) && FindGroup(t.groups, groupName).value.active ==>
      && (!UsernameTaken(t.users, username) ==> a.result == Fail(ItemNotFoundError(UserMissing)))
      && (UsernameTaken(t.users, username) ==>
            var g := FindGroup(t.groups, groupName).value;
            var u := FindUser(t.users, username).value;
            && (g.ownerId != currUserId && u.id != currUserId ==> a.result == Fail(ClientError(OnlyOwnerRevokes)))
            && (g.ownerId == currUserId && u.id == currUserId ==> a.result == Fail(ClientError(OwnerCannotLeave)))
            && (MayRevoke(g.ownerId, currUserId, u.id) && !fault.Hits(3) && !IsMember(t.memberships, g.id, u.id) ==>
                  a.result == Fail(ClientError(MembershipNotFound))))
    ensures a.result.Pass? <==>
      && !fault.HitsBy(3) && NameTaken(t.groups, groupName) && UsernameTaken(t.users, username)
      && var g := FindGroup(t.groups, groupName).value;
      && var u := FindUser(t.users, username).value;
      && g.active && MayRevoke(g.ownerId, currUserId, u.id) && IsMember(t.memberships, g.id, u.id)
    ensures a.result.Pass? ==>
      var g := FindGroup(t.groups, groupName).value;
      var u := FindUser(t.users, username).value;
      && (forall m :: m in a.tables.memberships <==>
            m in t.memberships && !(m.groupId == g.id && m.userId == u.id))
      && a.tables == t.(memberships := a.tables.memberships)
  {
    match GetGroupWithConn(t.groups, groupName, fault, 1)
    case Err(e) => Applied(t, Fail(e))
    case Ok(g) =>
      if !g.active then Applied(t, Fail(ClientError(GroupBeingDeleted)))
      else match GetUserWithConn(t.users, username, fault, 2)
        case Err(e) => Applied(t, Fail(e))
        case Ok(u) =>
          if g.ownerId != currUserId && u.id != currUserId then Applied(t, Fail(ClientError(OnlyOwnerRevokes)))
          else if g.ownerId == currUserId && u.id == currUserId then Applied(t, Fail(ClientError(OwnerCannotLeave)))
          else if fault.Hits(3) then Applied(t, Fail(fault.Failure(MembershipCreationFailed)))
          else if !IsMember(t.memberships, g.id, u.id) then Applied(t, Fail(ClientError(MembershipNotFound)))
          else Applied(t.(memberships := WithoutMembership(t.memberships, g.id, u.id)), Pass)
  }

  /** MemberExists: one count (1). */
  function MemberExists(t: Tables, userId: nat, groupId: nat, fault: Fault): (r: Result<bool>)
    ensures r.Err? <==> fault.Hits(1)
    ensures r.Ok? ==> (r.value <==> exists m :: m in t.memberships && m.userId == userId && m.groupId == groupId)
  {
    if fault.Hits(1) then Err(fault.Failure(MembershipCheckFailed))
    else Ok(IsMember(t.memberships, groupId, userId))
  }

  predicate Inactive(g: Group) { !g.active }

  function NamesOf(groups: seq<Group>): (r: seq<string>)
    ensures |r| == |groups|
    ensures forall i :: 0 <= i < |groups| ==> r[i] == groups[i].name
  {
    seq(|groups|, i requires 0 <= i < |groups| => groups[i].name)
  }

  /** GetDeactivatedGroupNames: pluck the names of the inactive rows (1). */
  function GetDeactivatedGroupNames(t: Tables, fault: Fault): (r: Result<seq<string>>)
    ensures r.Err? <==> fault.Hits(1)
    ensures r.Ok? ==> forall n :: n in r.value <==> exists g :: g in t.groups && !g.active && g.name == n
  {
    if fault.Hits(1) then Err(fault.Failure(InactiveLookupFailed))
    else
      var inactive := Filter(t.groups, Inactive);
      assert forall g :: g in inactive <==> g in t.groups && !g.active;
      var names := NamesOf(inactive);
      assert forall n :: n in names ==> exists g :: g in inactive && g.name == n by {
        forall n | n in names ensures exists g :: g in inactive && g.name == n {
          var i :| 0 <= i < |names| && names[i] == n;
          assert inactive[i] in inactive;
        }
      }
      assert forall g :: g in inactive ==> g.name in names by {
        forall g | g in inactive ensures g.name in names {
          var i :| 0 <= i < |inactive| && inactive[i] == g;
          assert names[i] == g.name;
        }
      }
      Ok(names)
  }

  /** EraseDeactivatedGroups: one unscoped delete per listed name (statements 1 to |names|),
      in one transaction; a name with no row is only a warning. */
  function EraseDeactivatedGroups(t: Tables, names: seq<string>, fault: Fault): (a: Applied<Outcome>)
    ensures a.result.Fail? ==> a.tables == t && a.result.error.ServerError?
    ensures a.result.Pass? <==> !fault.HitsBy(|names|)
    ensures a.result.Pass? ==>
      && (forall g :: g in a.tables.groups <==> g in t.groups && g.name !in names)
      && a.tables == t.(groups := a.tables.groups)
  {
    if fault.HitsBy(|names|) then Applied(t, Fail(fault.Failure(EraseFailed)))
    else Applied(t.(groups := WithoutNames(t.groups, names)), Pass)
  }

  /** GetAllUsersInGroup: look the group up (1), count the caller's membership (2), join
      users with memberships (3). A failed lookup leaves the zero-valued group, whose
      `active` is false, so every lookup failure is reported as an invalid group. This is the
      code as written; GetAllUsersInGroupReported below is what it evidently means. */
  function GetAllUsersInGroup(t: Tables, userId: nat, groupName: string, fault: Fault): (r: Result<seq<User>>)
    ensures fault.Hits(1) ==> r == Err(ClientError(InvalidGroup))
    ensures !NameTaken(t.groups, groupName) ==> r == Err(ClientError(InvalidGroup))
    ensures NameTaken(t.groups, groupName) && !FindGroup(t.groups, groupName).value.active ==>
      r == Err(ClientError(InvalidGroup))
    ensures r.Ok? <==>
      && !fault.HitsBy(3) && NameTaken(t.groups, groupName)
      && var g := FindGroup(t.groups, groupName).value;
      && g.active && IsMember(t.memberships, g.id, userId)
    ensures r.Ok? ==>
      var g := FindGroup(t.groups, groupName).value;
      forall u :: u in r.value <==> u in t.users && IsMember(t.memberships, g.id, u.id)
  {
    var lookup := GetGroupWithConn(t.groups, groupName, fault, 1);
    var g := if lookup.Ok? then lookup.value else ZeroGroup;
    if (lookup.Err? && lookup.error.ItemNotFoundError?) || !g.active then Err(ClientError(InvalidGroup))
    else if fault.Hits(2) then Err(fault.Failure(MembershipLookupFailed))
    else if !IsMember(t.memberships, g.id, userId) then Err(ClientError(NotAMember))
    else if fault.Hits(3) then Err(fault.Failure(GroupUsersLookupFailed))
    else Ok(MembersOf(t.users, t.memberships, g.id))
  }

  /** GetAllUsersInGroup as intended: a missing or inactive group is a client error, and a
      failed group lookup is passed on as the server error it is. */
  function GetAllUsersInGroupReported(t: Tables, userId: nat, groupName: string, fault: Fault): (r: Result<seq<User>>)
    ensures fault.Hits(1) ==> r.Err? && r.error.ServerError?
    ensures !fault.Hits(1) ==> r == GetAllUsersInGroup(t, userId, groupName, fault)
  {
    match GetGroupWithConn(t.groups, groupName, fault, 1)
    case Err(e) => if e.ItemNotFoundError? then Err(ClientError(InvalidGroup)) else Err(e)
    case Ok(g) =>
      if !g.active then Err(ClientError(InvalidGroup))
      else if fault.Hits(2) then Err(fault.Failure(MembershipLookupFailed))
      else if !IsMember(t.memberships, g.id, userId) then Err(ClientError(NotAMember))
      else if fault.Hits(3) then Err(fault.Failure(GroupUsersLookupFailed))
      else Ok(MembersOf(t.users, t.memberships, g.id))
  }
}
