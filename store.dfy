/** The relational store behind both DAOs (the users, groups, memberships and file_infos
    tables), the WHERE clauses the DAOs use, the invariants the DAOs keep, and the mutable
    database object they share. */
module Store {
  import opened Errors
  import opened Seqs
  import opened Models

  /** The next value of each table's id sequence. */
  datatype NextIds = NextIds(user: nat, group: nat, membership: nat, file: nat)

  /** The whole content of the store. */
  datatype Tables = Tables(
    users: seq<User>,
    groups: seq<Group>,
    memberships: seq<Membership>,
    files: seq<FileInfo>,
    ids: NextIds)

  /** A freshly migrated, empty store: every id sequence starts at 1. */
  const Empty := Tables([], [], [], [], NextIds(1, 1, 1, 1))

  /** The store after one operation, and what the operation returned. */
  datatype Applied<R> = Applied(tables: Tables, result: R)

  /** Infrastructure failure, injected: the statement numbered `step` (counted from 1 in the
      order the operation issues its statements) fails with driver text `cause`. */
  datatype Fault = NoFault | FailAt(step: nat, cause: string) {
    predicate Hits(k: nat) { FailAt? && step == k }
    predicate HitsBy(k: nat) { FailAt? && 1 <= step <= k }

    /** The ServerError an operation returns when this fault stops it. */
    function Failure(desc: string): Error
      requires FailAt?
    {
      ServerErrorWrap(ServerError(cause), desc)
    }
  }

  // ---------------------------------------------------------------------------------
  // WHERE clauses

  function FindUser(users: seq<User>, username: string): (r: Option<User>)
  {
    FindFirst(users, (u: User) => u.username == username)
  }

  predicate UsernameTaken(users: seq<User>, username: string)
  {
    exists u :: u in users && u.username == username
  }

  predicate HasUserId(users: seq<User>, userId: nat)
  {
    exists u :: u in users && u.id == userId
  }

  function FindGroup(groups: seq<Group>, name: string): (r: Option<Group>)
  {
    FindFirst(groups, (g: Group) => g.name == name)
  }

  predicate NameTaken(groups: seq<Group>, name: string)
  {
    exists g :: g in groups && g.name == name
  }

  function FindFile(files: seq<FileInfo>, fileId: nat): (r: Option<FileInfo>)
  {
    FindFirst(files, (f: FileInfo) => f.id == fileId)
  }

  /** `memberships WHERE group_id = ? AND user_id = ?` is not empty. */
  predicate IsMember(memberships: seq<Membership>, groupId: nat, userId: nat)
  {
    exists m :: m in memberships && m.groupId == groupId && m.userId == userId
  }

  /** `memberships JOIN groups WHERE groups.name = ? AND memberships.user_id = ?` is not empty. */
  predicate IsMemberByName(t: Tables, userId: nat, groupName: string)
  {
    exists m, g :: m in t.memberships && g in t.groups && m.groupId == g.id
                   && g.name == groupName && m.userId == userId
  }

  /** `users JOIN memberships ON users.id = memberships.user_id WHERE group_id = ?`. */
  function MembersOf(users: seq<User>, memberships: seq<Membership>, groupId: nat): seq<User>
  {
    Filter(users, (u: User) => IsMember(memberships, groupId, u.id))
  }

  /** `file_infos JOIN groups ON file_infos.group_id = groups.id WHERE groups.name = ?`. */
  function FilesOfGroupNamed(files: seq<FileInfo>, groups: seq<Group>, name: string): seq<FileInfo>
  {
    Filter(files, (f: FileInfo) => exists g :: g in groups && g.id == f.groupId && g.name == name)
  }

  function WithoutUser(users: seq<User>, userId: nat): seq<User>
  {
    Filter(users, (u: User) => u.id != userId)
  }

  function WithoutGroupMemberships(memberships: seq<Membership>, groupId: nat): seq<Membership>
  {
    Filter(memberships, (m: Membership) => m.groupId != groupId)
  }

  function WithoutMembership(memberships: seq<Membership>, groupId: nat, userId: nat): seq<Membership>
  {
    Filter(memberships, (m: Membership) => !(m.groupId == groupId && m.userId == userId))
  }

  function WithoutFile(files: seq<FileInfo>, fileId: nat): seq<FileInfo>
  {
    Filter(files, (f: FileInfo) => f.id != fileId)
  }

  /** `DELETE FROM groups WHERE name = ?` (unscoped, so the row is really gone). */
  function WithoutName(groups: seq<Group>, name: string): seq<Group>
  {
    Filter(groups, (g: Group) => g.name != name)
  }

  /** The groups left after deleting every row whose name is in `names`. */
  function WithoutNames(groups: seq<Group>, names: seq<string>): seq<Group>
  {
    Filter(groups, (g: Group) => g.name !in names)
  }

  /** `UPDATE groups SET active = false WHERE id = ?`. */
  function Deactivated(groups: seq<Group>, groupId: nat): (r: seq<Group>)
  {
    seq(|groups|, i requires 0 <= i < |groups| =>
      if groups[i].id == groupId then groups[i].(active := false) else groups[i])
  }

  // ---------------------------------------------------------------------------------
  // Invariants

  /** Ids are positive, fresh with respect to their sequence, and increase along the table. */
  ghost predicate IdsWellFormed<T>(rows: seq<T>, id: T -> nat, next: nat)
  {
    1 <= next && KeysIncreasing(rows, id) && forall x :: x in rows ==> 1 <= id(x) < next
  }

  /** No membership row points at a deactivated group (DeactivateGroup deletes them all). */
  ghost predicate NoMembershipInInactiveGroup(t: Tables)
  {
    forall m, g :: m in t.memberships && g in t.groups && g.id == m.groupId ==> g.active
  }

  /** What the DAOs keep true of the store. */
  ghost predicate WellFormed(t: Tables)
  {
    && IdsWellFormed(t.users, UserId, t.ids.user)
    && IdsWellFormed(t.groups, GroupId, t.ids.group)
    && IdsWellFormed(t.memberships, MembershipId, t.ids.membership)
    && IdsWellFormed(t.files, FileId, t.ids.file)
    && UniqueBy(t.users, UserName)
    && UniqueBy(t.groups, GroupName)
    && UniqueBy(t.memberships, MembershipPair)
    && (forall m :: m in t.memberships ==> 1 <= m.groupId < t.ids.group)
    && (forall f :: f in t.files ==> 1 <= f.groupId < t.ids.group)
    && NoMembershipInInactiveGroup(t)
  }

  /** Once a group row is inactive it stays inactive for as long as the row exists. */
  ghost predicate NeverReactivates(before: Tables, after: Tables)
  {
    forall g, h :: g in before.groups && h in after.groups && g.id == h.id && !g.active ==> !h.active
  }

  lemma EmptyWellFormed()
    ensures WellFormed(Empty)
  {
  }

  lemma AppendKeepsIds<T>(rows: seq<T>, x: T, id: T -> nat, next: nat)
    requires IdsWellFormed(rows, id, next) && id(x) == next
    ensures IdsWellFormed(rows + [x], id, next + 1)
  {
    var r := rows + [x];
    forall i, j | 0 <= i < j < |r| ensures id(r[i]) < id(r[j]) {
      if j == |rows| {
        assert r[i] == rows[i] && rows[i] in rows;
      } else {
        assert r[i] == rows[i] && r[j] == rows[j];
      }
    }
  }

  lemma FilterKeepsIds<T>(rows: seq<T>, keep: T -> bool, id: T -> nat, next: nat)
    requires IdsWellFormed(rows, id, next)
    ensures IdsWellFormed(Filter(rows, keep), id, next)
  {
    FilterKeepsKeysIncreasing(rows, keep, id);
  }

  lemma {:induction false} WithoutNoNames(groups: seq<Group>)
    ensures WithoutNames(groups, []) == groups
  {
    if groups != [] {
      WithoutNoNames(groups[1..]);
    }
  }

  /** Deleting the rows named in `names` one name at a time. */
  lemma {:induction false} WithoutNamesStep(groups: seq<Group>, names: seq<string>, name: string)
    ensures WithoutName(WithoutNames(groups, names), name) == WithoutNames(groups, names + [name])
  {
    if groups != [] {
      WithoutNamesStep(groups[1..], names, name);
    }
  }

  lemma AppendKeepsUnique<T, K>(rows: seq<T>, x: T, key: T -> K)
    requires UniqueBy(rows, key)
    requires forall y :: y in rows ==> key(y) != key(x)
    ensures UniqueBy(rows + [x], key)
  {
  }

  // ---------------------------------------------------------------------------------
  // The shared database object

  /** The database connection both DAOs hold. Statements change the tables in place; a
      transaction is a snapshot taken at its start and restored when it rolls back. */
  class Database {
    var users: seq<User>
    var groups: seq<Group>
    var memberships: seq<Membership>
    var files: seq<FileInfo>
    var ids: NextIds

    function Snapshot(): Tables
      reads this
    {
      Tables(users, groups, memberships, files, ids)
    }

    ghost predicate Valid()
      reads this
    {
      WellFormed(Snapshot())
    }

    constructor ()
      ensures Snapshot() == Empty && Valid()
    {
      users, groups, memberships, files := [], [], [], [];
      ids := NextIds(1, 1, 1, 1);
    }

    /** Rolls a transaction back to the state saved when it began. */
    method Restore(saved: Tables)
      modifies this
      ensures Snapshot() == saved
    {
      users, groups, memberships, files, ids := saved.users, saved.groups, saved.memberships, saved.files, saved.ids;
    }

    /** `tx.Create(&user)`: the row gets the next id of its sequence. */
    method InsertUser(username: string, password: string) returns (u: User)
      modifies this`users, this`ids
      ensures u == User(old(ids.user), username, password)
      ensures users == old(users) + [u] && ids == old(ids).(user := old(ids.user) + 1)
    {
      u := User(ids.user, username, password);
      users := users + [u];
      ids := ids.(user := ids.user + 1);
    }

    /** `tx.Create(&group)`: `active` takes its column default. */
    method InsertGroup(name: string, ownerId: nat) returns (g: Group)
      modifies this`groups, this`ids
      ensures g == NewGroup(old(ids.group), name, ownerId)
      ensures groups == old(groups) + [g] && ids == old(ids).(group := old(ids.group) + 1)
    {
      g := NewGroup(ids.group, name, ownerId);
      groups := groups + [g];
      ids := ids.(group := ids.group + 1);
    }

    method InsertMembership(groupId: nat, userId: nat) returns (m: Membership)
      modifies this`memberships, this`ids
      ensures m == Membership(old(ids.membership), groupId, userId)
      ensures memberships == old(memberships) + [m]
      ensures ids == old(ids).(membership := old(ids.membership) + 1)
    {
      m := Membership(ids.membership, groupId, userId);
      memberships := memberships + [m];
      ids := ids.(membership := ids.membership + 1);
    }

    /** `DELETE FROM users WHERE id = ?`. */
    method DeleteUser(userId: nat) returns (affected: nat)
      modifies this`users
      ensures users == WithoutUser(old(users), userId) && affected == |old(users)| - |users|
    {
      var before := users;
      users := WithoutUser(before, userId);
      affected := |before| - |users|;
    }

    /** `DELETE FROM memberships WHERE group_id = ?`. */
    method DeleteGroupMemberships(groupId: nat) returns (affected: nat)
      modifies this`memberships
      ensures memberships == WithoutGroupMemberships(old(memberships), groupId)
      ensures affected == |old(memberships)| - |memberships|
    {
      var before := memberships;
      memberships := WithoutGroupMemberships(before, groupId);
      affected := |before| - |memberships|;
    }

    /** `DELETE FROM memberships WHERE user_id = ? AND group_id = ?`. */
    method DeleteMembership(groupId: nat, userId: nat) returns (affected: nat)
      modifies this`memberships
      ensures memberships == WithoutMembership(old(memberships), groupId, userId)
      ensures affected == |old(memberships)| - |memberships|
    {
      var before := memberships;
      memberships := WithoutMembership(before, groupId, userId);
      affected := |before| - |memberships|;
    }

    /** `UPDATE groups SET active = false WHERE id = ?`. */
    method SetInactive(groupId: nat)
      modifies this`groups
      ensures groups == Deactivated(old(groups), groupId)
    {
      groups := Deactivated(groups, groupId);
    }

    /** `DELETE FROM groups WHERE name = ?`, unscoped. */
    method DeleteGroupNamed(name: string) returns (affected: nat)
      modifies this`groups
      ensures groups == WithoutName(old(groups), name) && affected == |old(groups)| - |groups|
    {
      var before := groups;
      groups := WithoutName(before, name);
      affected := |before| - |groups|;
    }

    /** `DELETE FROM file_infos WHERE id = ?`. */
    method DeleteFile(fileId: nat) returns (affected: nat)
      modifies this`files
      ensures files == WithoutFile(old(files), fileId) && affected == |old(files)| - |files|
      ensures affected == 0 <==> forall f :: f in old(files) ==> f.id != fileId
    {
      var before := files;
      files := WithoutFile(before, fileId);
      affected := |before| - |files|;
      FilterKeepsAll(before, (f: FileInfo) => f.id != fileId);
    }

    method InsertFile(name: string, ownerId: nat, groupId: nat) returns (f: FileInfo)
      modifies this`files, this`ids
      ensures f == FileInfo(old(ids.file), name, ownerId, groupId)
      ensures files == old(files) + [f] && ids == old(ids).(file := old(ids.file) + 1)
    {
      f := FileInfo(ids.file, name, ownerId, groupId);
      files := files + [f];
      ids := ids.(file := ids.file + 1);
    }
  }
}
