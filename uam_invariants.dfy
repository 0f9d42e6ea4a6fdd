/** The store invariants every operation of UamDAOImpl keeps, and the properties of the
    membership engine that relate several operations. */
module UamInvariants {
  import opened Errors
  import opened Seqs
  import opened Models
  import opened Store
  import opened UamSpec

  lemma CreateUserKeepsWellFormed(t: Tables, username: string, password: string, fault: Fault)
    requires WellFormed(t)
    ensures WellFormed(CreateUser(t, username, password, fault).tables)
    ensures NeverReactivates(t, CreateUser(t, username, password, fault).tables)
  {
    if CreateUser(t, username, password, fault).result.Pass? {
      var u := User(t.ids.user, username, password);
      AppendKeepsIds(t.users, u, UserId, t.ids.user);
      AppendKeepsUnique(t.users, u, UserName);
    }
    GroupsUnchangedNeverReactivate(t, CreateUser(t, username, password, fault).tables);
  }

  lemma DeleteUserKeepsWellFormed(t: Tables, userId: nat, fault: Fault)
    requires WellFormed(t)
    ensures WellFormed(DeleteUser(t, userId, fault).tables)
    ensures NeverReactivates(t, DeleteUser(t, userId, fault).tables)
  {
    FilterKeepsIds(t.users, (u: User) => u.id != userId, UserId, t.ids.user);
    GroupsUnchangedNeverReactivate(t, DeleteUser(t, userId, fault).tables);
  }

  lemma CreateGroupKeepsWellFormed(t: Tables, userId: nat, groupName: string, fault: Fault)
    requires WellFormed(t)
    ensures WellFormed(CreateGroup(t, userId, groupName, fault).tables)
    ensures NeverReactivates(t, CreateGroup(t, userId, groupName, fault).tables)
  {
    var a := CreateGroup(t, userId, groupName, fault);
    if a.result.Pass? {
      var g := Group(t.ids.group, groupName, userId, true);
      var m := Membership(t.ids.membership, t.ids.group, userId);
      AppendKeepsIds(t.groups, g, GroupId, t.ids.group);
      AppendKeepsUnique(t.groups, g, GroupName);
      AppendKeepsIds(t.memberships, m, MembershipId, t.ids.membership);
      AppendKeepsUnique(t.memberships, m, MembershipPair);
      assert NoMembershipInInactiveGroup(a.tables) by {
        forall m', h | m' in a.tables.memberships && h in a.tables.groups && h.id == m'.groupId
          ensures h.active
        {
          if h != g {
            assert h in t.groups;
            assert m' != m;
          }
        }
      }
      forall g0, h | g0 in t.groups && h in a.tables.groups && g0.id == h.id && !g0.active
        ensures !h.active
      {
        assert h != g;
        KeyIdentifies(t.groups, GroupId, g0, h);
      }
    }
  }

  lemma AddUserToGroupKeepsWellFormed(t: Tables, ownerId: nat, username: string, groupName: string, fault: Fault)
    requires WellFormed(t)
    ensures WellFormed(AddUserToGroup(t, ownerId, username, groupName, fault).tables)
    ensures NeverReactivates(t, AddUserToGroup(t, ownerId, username, groupName, fault).tables)
  {
    var a := AddUserToGroup(t, ownerId, username, groupName, fault);
    if a.result.Pass? {
      var g := FindGroup(t.groups, groupName).value;
      var u := FindUser(t.users, username).value;
      var m := Membership(t.ids.membership, g.id, u.id);
      AppendKeepsIds(t.memberships, m, MembershipId, t.ids.membership);
      AppendKeepsUnique(t.memberships, m, MembershipPair);
      assert NoMembershipInInactiveGroup(a.tables) by {
        forall m', h | m' in a.tables.memberships && h in a.tables.groups && h.id == m'.groupId
          ensures h.active
        {
          if m' == m {
            KeyIdentifies(t.groups, GroupId, g, h);
          }
        }
      }
    }
    GroupsUnchangedNeverReactivate(t, a.tables);
  }

  lemma DeactivateGroupKeepsWellFormed(t: Tables, userId: nat, groupName: string, fault: Fault)
    requires WellFormed(t)
    ensures WellFormed(DeactivateGroup(t, userId, groupName, fault).tables)
    ensures NeverReactivates(t, DeactivateGroup(t, userId, groupName, fault).tables)
  {
    var a := DeactivateGroup(t, userId, groupName, fault);
    if a.result.Pass? {
      var g := FindGroup(t.groups, groupName).value;
      assert GetGroupWithConn(t.groups, groupName, fault, 1) == Ok(g);
      assert a.tables == t.(memberships := WithoutGroupMemberships(t.memberships, g.id),
                            groups := Deactivated(t.groups, g.id));
      DeactivatedKeepsWellFormed(t, g.id);
    } else {
      GroupsUnchangedNeverReactivate(t, a.tables);
    }
  }

  /** The state DeactivateGroup commits, for the group with id `gid`. */
  lemma DeactivatedKeepsWellFormed(t: Tables, gid: nat)
    requires WellFormed(t)
    ensures var after := t.(memberships := WithoutGroupMemberships(t.memberships, gid),
                            groups := Deactivated(t.groups, gid));
      WellFormed(after) && NeverReactivates(t, after)
  {
    var gs := Deactivated(t.groups, gid);
    var after := t.(memberships := WithoutGroupMemberships(t.memberships, gid), groups := gs);
    FilterKeepsIds(t.memberships, (m: Membership) => m.groupId != gid, MembershipId, t.ids.membership);
    DeactivatedKeepsIds(t.groups, gid, t.ids.group);
    DeactivatedKeepsNamesUnique(t.groups, gid);
    assert NoMembershipInInactiveGroup(after) by {
      forall m, h | m in after.memberships && h in gs && h.id == m.groupId ensures h.active {
        var i := DeactivatedOrigin(t.groups, gid, h);
        assert t.groups[i] in t.groups;
      }
    }
    forall g, h | g in t.groups && h in gs && g.id == h.id && !g.active ensures !h.active {
      var i := DeactivatedOrigin(t.groups, gid, h);
      if t.groups[i].id != gid {
        assert t.groups[i] in t.groups;
        KeyIdentifies(t.groups, GroupId, g, t.groups[i]);
      }
    }
  }

  /** Where a row of the deactivated table comes from. */
  lemma DeactivatedOrigin(groups: seq<Group>, gid: nat, h: Group) returns (i: nat)
    requires h in Deactivated(groups, gid)
    ensures i < |groups| && Deactivated(groups, gid)[i] == h
    ensures h == if groups[i].id == gid then groups[i].(active := false) else groups[i]
  {
    var gs := Deactivated(groups, gid);
    var k :| 0 <= k < |gs| && gs[k] == h;
    i := k;
  }

  lemma DeactivatedKeepsIds(groups: seq<Group>, gid: nat, next: nat)
    requires IdsWellFormed(groups, GroupId, next)
    ensures IdsWellFormed(Deactivated(groups, gid), GroupId, next)
  {
    var gs := Deactivated(groups, gid);
    forall i, j | 0 <= i < j < |gs| ensures gs[i].id < gs[j].id {
      assert groups[i].id < groups[j].id;
    }
    forall h | h in gs ensures 1 <= h.id < next {
      var i := DeactivatedOrigin(groups, gid, h);
      assert groups[i] in groups;
    }
  }

  lemma DeactivatedKeepsNamesUnique(groups: seq<Group>, gid: nat)
    requires KeysIncreasing(groups, GroupId) && UniqueBy(groups, GroupName)
    ensures UniqueBy(Deactivated(groups, gid), GroupName)
  {
    var gs := Deactivated(groups, gid);
    DistinctPositions(groups, GroupId, GroupName);
    forall x, y | x in gs && y in gs && x.name == y.name ensures x == y {
      var i := DeactivatedOrigin(groups, gid, x);
      var j := DeactivatedOrigin(groups, gid, y);
      assert groups[i].name == groups[j].name;
    }
  }

  lemma RemoveUserFromGroupKeepsWellFormed(t: Tables, currUserId: nat, username: string, groupName: string, fault: Fault)
    requires WellFormed(t)
    ensures WellFormed(RemoveUserFromGroup(t, currUserId, username, groupName, fault).tables)
    ensures NeverReactivates(t, RemoveUserFromGroup(t, currUserId, username, groupName, fault).tables)
  {
    var a := RemoveUserFromGroup(t, currUserId, username, groupName, fault);
    if a.result.Pass? {
      var g := FindGroup(t.groups, groupName).value;
      var u := FindUser(t.users, username).value;
      FilterKeepsIds(t.memberships, (m: Membership) => !(m.groupId == g.id && m.userId == u.id),
                     MembershipId, t.ids.membership);
    }
    GroupsUnchangedNeverReactivate(t, a.tables);
  }

  lemma EraseDeactivatedGroupsKeepsWellFormed(t: Tables, names: seq<string>, fault: Fault)
    requires WellFormed(t)
    ensures WellFormed(EraseDeactivatedGroups(t, names, fault).tables)
    ensures NeverReactivates(t, EraseDeactivatedGroups(t, names, fault).tables)
  {
    var a := EraseDeactivatedGroups(t, names, fault);
    FilterKeepsIds(t.groups, (g: Group) => g.name !in names, GroupId, t.ids.group);
    forall g, h | g in t.groups && h in a.tables.groups && g.id == h.id && !g.active ensures !h.active {
      KeyIdentifies(t.groups, GroupId, g, h);
    }
  }

  /** An operation that leaves the groups table as it was cannot reactivate a group. */
  lemma GroupsUnchangedNeverReactivate(t: Tables, after: Tables)
    requires WellFormed(t) && after.groups == t.groups
    ensures NeverReactivates(t, after)
  {
    forall g, h | g in t.groups && h in after.groups && g.id == h.id && !g.active ensures !h.active {
      KeyIdentifies(t.groups, GroupId, g, h);
    }
  }

  // ---------------------------------------------------------------------------------
  // Properties across operations

  /** A deactivated group keeps its name reserved until the eraser job removes the row:
      creating a group of that name fails. */
  lemma DeactivatedNameStaysReserved(t: Tables, userId: nat, fault: Fault, g: Group)
    requires g in t.groups && !g.active
    ensures CreateGroup(t, userId, g.name, fault).result.Fail?
  {
  }

  /** Erasing the same list twice: the second call succeeds and changes nothing. */
  lemma {:induction false} EraseTwiceIsErasingOnce(t: Tables, names: seq<string>)
    ensures var once := EraseDeactivatedGroups(t, names, NoFault);
      EraseDeactivatedGroups(once.tables, names, NoFault) == Applied(once.tables, Pass)
  {
    var once := EraseDeactivatedGroups(t, names, NoFault);
    FilterKeepsAll(once.tables.groups, (g: Group) => g.name !in names);
  }

  /** Erasing the names the store lists as deactivated leaves exactly the active groups. */
  lemma EraseListedLeavesActive(t: Tables)
    ensures var names := GetDeactivatedGroupNames(t, NoFault).value;
      var after := EraseDeactivatedGroups(t, names, NoFault).tables;
      && (forall g :: g in after.groups ==> g.active)
      && (forall g :: g in t.groups && g.active && !NameTaken(Filter(t.groups, Inactive), g.name) ==> g in after.groups)
  {
  }

  /** In a well-formed store, a deactivated group has no members, so no one may list its
      users or be added to it. */
  lemma DeactivatedGroupHasNoMembers(t: Tables, userId: nat, groupName: string)
    requires WellFormed(t)
    requires NameTaken(t.groups, groupName) && !FindGroup(t.groups, groupName).value.active
    ensures !IsMemberByName(t, userId, groupName)
  {
  }

  /** A successful AddUserToGroup makes the target a member, and a second identical call is
      refused as a duplicate. */
  lemma AddTwiceIsRefused(t: Tables, ownerId: nat, username: string, groupName: string)
    requires AddUserToGroup(t, ownerId, username, groupName, NoFault).result.Pass?
    ensures var after := AddUserToGroup(t, ownerId, username, groupName, NoFault).tables;
      AddUserToGroup(after, ownerId, username, groupName, NoFault).result == Fail(ClientError(AlreadyMember))
  {
    var after := AddUserToGroup(t, ownerId, username, groupName, NoFault).tables;
    var g := FindGroup(t.groups, groupName).value;
    var u := FindUser(t.users, username).value;
    assert Membership(t.ids.membership, g.id, u.id) in after.memberships;
  }

  /** Revoking a membership added by AddUserToGroup, done by the owner, restores the
      membership set. */
  lemma AddThenRevokeRestoresMembers(t: Tables, ownerId: nat, username: string, groupName: string)
    requires WellFormed(t)
    requires AddUserToGroup(t, ownerId, username, groupName, NoFault).result.Pass?
    requires FindUser(t.users, username).value.id != ownerId
    ensures var after := AddUserToGroup(t, ownerId, username, groupName, NoFault).tables;
      var back := RemoveUserFromGroup(after, ownerId, username, groupName, NoFault);
      && back.result.Pass?
      && (forall m :: m in back.tables.memberships <==> m in t.memberships)
  {
    var after := AddUserToGroup(t, ownerId, username, groupName, NoFault).tables;
    var g := FindGroup(t.groups, groupName).value;
    var u := FindUser(t.users, username).value;
    assert Membership(t.ids.membership, g.id, u.id) in after.memberships;
  }
}
