/** UamDAOImpl (web-server/internal/db/dao/uam_dao.go): each method issues its statements
    against the shared database one after the other. A method wrapped in a transaction takes
    a snapshot first and restores it when it returns an error after a write. Each method is
    proved to do what the matching UamSpec function says, and to keep the store well formed. */
module UamDao {
  import opened Errors
  import opened Seqs
  import opened Models
  import opened Store
  import opened UamSpec
  import opened UamInvariants

  class UamDaoImpl {
    const db: Database

    constructor (db: Database)
      ensures this.db == db
    {
      this.db := db;
    }

    method CreateUser(username: string, password: string, fault: Fault) returns (r: Outcome)
      requires db.Valid()
      modifies db
      ensures Applied(db.Snapshot(), r) == UamSpec.CreateUser(old(db.Snapshot()), username, password, fault)
      ensures db.Valid()
    {
      CreateUserKeepsWellFormed(db.Snapshot(), username, password, fault);
      if fault.Hits(1) {
        return Fail(fault.Failure(UsersLookupFailed));
      }
      if UsernameTaken(db.users, username) {
        return Fail(ClientError(UsernameExists));
      }
      if fault.Hits(2) {
        return Fail(fault.Failure(UserCreationFailed));
      }
      var _ := db.InsertUser(username, password);
      return Pass;
    }

    /** Not wrapped in a transaction: a count, then a delete. */
    method DeleteUser(userId: nat, fault: Fault) returns (r: Outcome)
      requires db.Valid()
      modifies db
      ensures Applied(db.Snapshot(), r) == UamSpec.DeleteUser(old(db.Snapshot()), userId, fault)
      ensures db.Valid()
    {
      DeleteUserKeepsWellFormed(db.Snapshot(), userId, fault);
      if fault.Hits(1) {
        return Fail(fault.Failure(UserIdLookupFailed));
      }
      if !HasUserId(db.users, userId) {
        return Fail(ItemNotFoundError(NoUserWithId));
      }
      if fault.Hits(2) {
        return Fail(fault.Failure(UserDeletionFailed));
      }
      var _ := db.DeleteUser(userId);
      return Pass;
    }

    method GetUser(username: string, fault: Fault) returns (r: Result<User>)
      ensures r == GetUserWithConn(db.users, username, fault, 1)
    {
      r := GetUserWithConn(db.users, username, fault, 1);
    }

    method GetGroup(groupName: string, fault: Fault) returns (r: Result<Group>)
      ensures r == GetGroupWithConn(db.groups, groupName, fault, 1)
    {
      r := GetGroupWithConn(db.groups, groupName, fault, 1);
    }

    method CreateGroup(userId: nat, groupName: string, fault: Fault) returns (r: Outcome)
      requires db.Valid()
      modifies db
      ensures Applied(db.Snapshot(), r) == UamSpec.CreateGroup(old(db.Snapshot()), userId, groupName, fault)
      ensures db.Valid()
    {
      var saved := db.Snapshot();
      CreateGroupKeepsWellFormed(saved, userId, groupName, fault);
      if fault.Hits(1) {
        return Fail(fault.Failure(GroupsLookupFailed));
      }
      if NameTaken(db.groups, groupName) {
        return Fail(ClientError(GroupNameExists));
      }
      if fault.Hits(2) {
        return Fail(fault.Failure(GroupCreationFailed));
      }
      var g := db.InsertGroup(groupName, userId);
      if fault.Hits(3) {
        db.Restore(saved);
        return Fail(fault.Failure(OwnerMembershipFailed));
      }
      var _ := db.InsertMembership(g.id, userId);
      return Pass;
    }

    method AddUserToGroup(ownerId: nat, username: string, groupName: string, fault: Fault) returns (r: Outcome)
      requires db.Valid()
      modifies db
      ensures Applied(db.Snapshot(), r) == UamSpec.AddUserToGroup(old(db.Snapshot()), ownerId, username, groupName, fault)
      ensures db.Valid()
    {
      AddUserToGroupKeepsWellFormed(db.Snapshot(), ownerId, username, groupName, fault);
      var groupLookup := GetGroupWithConn(db.groups, groupName, fault, 1);
      if groupLookup.Err? {
        return Fail(groupLookup.error);
      }
      var g := groupLookup.value;
      if g.ownerId != ownerId {
        return Fail(ClientError(OnlyOwnerAdds));
      } else if !g.active {
        return Fail(ClientError(GroupBeingDeleted));
      }
      var userLookup := GetUserWithConn(db.users, username, fault, 2);
      if userLookup.Err? {
        return Fail(userLookup.error);
      }
      var u := userLookup.value;
      if fault.Hits(3) {
        return Fail(fault.Failure(MembershipLookupFailed));
      } else if IsMember(db.memberships, g.id, u.id) {
        return Fail(ClientError(AlreadyMember));
      }
      if fault.Hits(4) {
        return Fail(fault.Failure(MembershipCreationFailed));
      }
      var _ := db.InsertMembership(g.id, u.id);
      return Pass;
    }

    method DeactivateGroup(currUserId: nat, groupName: string, fault: Fault) returns (r: Outcome)
      requires db.Valid()
      modifies db
      ensures Applied(db.Snapshot(), r) == UamSpec.DeactivateGroup(old(db.Snapshot()), currUserId, groupName, fault)
      ensures db.Valid()
    {
      var saved := db.Snapshot();
      DeactivateGroupKeepsWellFormed(saved, currUserId, groupName, fault);
      var groupLookup := GetGroupWithConn(db.groups, groupName, fault, 1);
      if groupLookup.Err? {
        return Fail(groupLookup.error);
      }
      var g := groupLookup.value;
      if g.ownerId != currUserId {
        return Fail(ClientError(OnlyOwnerDeletes));
      } else if !g.active {
        return Fail(ClientError(GroupBeingDeleted));
      }
      if fault.Hits(2) {
        return Fail(fault.Failure(MembershipsDeletionFailed));
      }
      var _ := db.DeleteGroupMemberships(g.id);
      if fault.Hits(3) {
        db.Restore(saved);
        return Fail(fault.Failure(GroupDeactivationFailed));
      }
      db.SetInactive(g.id);
      return Pass;
    }

    /** Deletes the pair and reads "Membership not found" from a zero row count. */
    method RemoveUserFromGroup(currUserId: nat, username: string, groupName: string, fault: Fault) returns (r: Outcome)
      requires db.Valid()
      modifies db
      ensures Applied(db.Snapshot(), r) == UamSpec.RemoveUserFromGroup(old(db.Snapshot()), currUserId, username, groupName, fault)
      ensures db.Valid()
    {
      var saved := db.Snapshot();
      RemoveUserFromGroupKeepsWellFormed(saved, currUserId, username, groupName, fault);
      var groupLookup := GetGroupWithConn(db.groups, groupName, fault, 1);
      if groupLookup.Err? {
        return Fail(groupLookup.error);
      }
      var g := groupLookup.value;
      if !g.active {
        return Fail(ClientError(GroupBeingDeleted));
      }
      var userLookup := GetUserWithConn(db.users, username, fault, 2);
      if userLookup.Err? {
        return Fail(userLookup.error);
      }
      var u := userLookup.value;
      if g.ownerId != currUserId && u.id != currUserId {
        return Fail(ClientError(OnlyOwnerRevokes));
      } else if g.ownerId == currUserId && u.id == currUserId {
        return Fail(ClientError(OwnerCannotLeave));
      }
      if fault.Hits(3) {
        return Fail(fault.Failure(MembershipCreationFailed));
      }
      var affected := db.DeleteMembership(g.id, u.id);
      FilterKeepsAll(saved.memberships, (m: Membership) => !(m.groupId == g.id && m.userId == u.id));
      if affected == 0 {
        db.Restore(saved);
        return Fail(ClientError(MembershipNotFound));
      }
      return Pass;
    }

    method MemberExists(userId: nat, groupId: nat, fault: Fault) returns (r: Result<bool>)
      ensures r == UamSpec.MemberExists(db.Snapshot(), userId, groupId, fault)
    {
      if fault.Hits(1) {
        return Err(fault.Failure(MembershipCheckFailed));
      }
      return Ok(IsMember(db.memberships, groupId, userId));
    }

    method GetDeactivatedGroupNames(fault: Fault) returns (r: Result<seq<string>>)
      ensures r == UamSpec.GetDeactivatedGroupNames(db.Snapshot(), fault)
    {
      r := UamSpec.GetDeactivatedGroupNames(db.Snapshot(), fault);
    }

    /** One delete per name, in list order, inside one transaction. */
    method EraseDeactivatedGroups(names: seq<string>, fault: Fault) returns (r: Outcome)
      requires db.Valid()
      modifies db
      ensures Applied(db.Snapshot(), r) == UamSpec.EraseDeactivatedGroups(old(db.Snapshot()), names, fault)
      ensures db.Valid()
    {
      var saved := db.Snapshot();
      EraseDeactivatedGroupsKeepsWellFormed(saved, names, fault);
      WithoutNoNames(saved.groups);
      var k := 0;
      while k < |names|
        invariant 0 <= k <= |names|
        invariant !fault.HitsBy(k)
        invariant db.Snapshot() == saved.(groups := WithoutNames(saved.groups, names[..k]))
      {
        if fault.Hits(k + 1) {
          db.Restore(saved);
          return Fail(fault.Failure(EraseFailed));
        }
        // A name with no row left is only reported as a warning.
        var _ := db.DeleteGroupNamed(names[k]);
        WithoutNamesStep(saved.groups, names[..k], names[k]);
        assert names[..k] + [names[k]] == names[..k + 1];
        k := k + 1;
      }
      assert names[..k] == names;
      return Pass;
    }

    /** A failed lookup leaves the zero group, which is inactive, so every lookup failure is
        reported as an invalid group and the `errGet` branch is never taken. */
    method GetAllUsersInGroup(userId: nat, groupName: string, fault: Fault) returns (r: Result<seq<User>>)
      ensures r == UamSpec.GetAllUsersInGroup(db.Snapshot(), userId, groupName, fault)
    {
      var groupLookup := GetGroupWithConn(db.groups, groupName, fault, 1);
      var g := if groupLookup.Ok? then groupLookup.value else ZeroGroup;
      if (groupLookup.Err? && groupLookup.error.ItemNotFoundError?) || !g.active {
        return Err(ClientError(InvalidGroup));
      }
      // Here the code passes a lookup error on; a failed lookup never gets this far.
      if fault.Hits(2) {
        return Err(fault.Failure(MembershipLookupFailed));
      } else if !IsMember(db.memberships, g.id, userId) {
        return Err(ClientError(NotAMember));
      }
      if fault.Hits(3) {
        return Err(fault.Failure(GroupUsersLookupFailed));
      }
      return Ok(MembersOf(db.users, db.memberships, g.id));
    }
  }
}
