/** The store invariants FmDAOImpl keeps, and how file metadata interacts with the group
    lifecycle. */
module FmInvariants {
  import opened Errors
  import opened Seqs
  import opened Models
  import opened Store
  import opened UamSpec
  import opened UamInvariants
  import opened FmSpec

  lemma AddFileInfoKeepsWellFormed(t: Tables, userId: nat, fileName: string, groupName: string, fault: Fault)
    requires WellFormed(t)
    ensures WellFormed(AddFileInfo(t, userId, fileName, groupName, fault).tables)
    ensures NeverReactivates(t, AddFileInfo(t, userId, fileName, groupName, fault).tables)
  {
    var a := AddFileInfo(t, userId, fileName, groupName, fault);
    if a.result.Ok? {
      var g := FindGroup(t.groups, groupName).value;
      AppendKeepsIds(t.files, FileInfo(t.ids.file, fileName, userId, g.id), FileId, t.ids.file);
    }
    GroupsUnchangedNeverReactivate(t, a.tables);
  }

  lemma RemoveFileInfoKeepsWellFormed(t: Tables, userId: nat, fileId: nat, groupName: string, fault: Fault)
    requires WellFormed(t)
    ensures WellFormed(RemoveFileInfo(t, userId, fileId, groupName, fault).tables)
    ensures NeverReactivates(t, RemoveFileInfo(t, userId, fileId, groupName, fault).tables)
  {
    var a := RemoveFileInfo(t, userId, fileId, groupName, fault);
    FilterKeepsIds(t.files, (f: FileInfo) => f.id != fileId, FileId, t.ids.file);
    GroupsUnchangedNeverReactivate(t, a.tables);
  }

  /** AddFileInfo never reads `active`, yet a deactivated group refuses uploads: it has no
      memberships left. */
  lemma DeactivatedGroupRefusesUploads(t: Tables, userId: nat, fileName: string, groupName: string, fault: Fault)
    requires WellFormed(t) && !fault.HitsBy(2)
    requires NameTaken(t.groups, groupName) && !FindGroup(t.groups, groupName).value.active
    ensures AddFileInfo(t, userId, fileName, groupName, fault).result == Err(ClientError(NotInGroupUpload))
  {
  }

  /** Once DeactivateGroup has succeeded, every later upload to that group is refused. */
  lemma UploadAfterDeactivateFails(t: Tables, owner: nat, groupName: string, f1: Fault,
                                   userId: nat, fileName: string, f2: Fault)
    requires WellFormed(t) && !f2.HitsBy(2)
    requires DeactivateGroup(t, owner, groupName, f1).result.Pass?
    ensures var after := DeactivateGroup(t, owner, groupName, f1).tables;
      AddFileInfo(after, userId, fileName, groupName, f2).result == Err(ClientError(NotInGroupUpload))
  {
    var after := DeactivateGroup(t, owner, groupName, f1).tables;
    DeactivateGroupKeepsWellFormed(t, owner, groupName, f1);
    DeactivateLeavesNameInactive(t, owner, groupName, f1);
    DeactivatedGroupRefusesUploads(after, userId, fileName, groupName, f2);
  }

  /** After DeactivateGroup the name still resolves, to an inactive row. */
  lemma DeactivateLeavesNameInactive(t: Tables, owner: nat, groupName: string, fault: Fault)
    requires WellFormed(t)
    requires DeactivateGroup(t, owner, groupName, fault).result.Pass?
    ensures var after := DeactivateGroup(t, owner, groupName, fault).tables;
      NameTaken(after.groups, groupName) && !FindGroup(after.groups, groupName).value.active
  {
    var g := FindGroup(t.groups, groupName).value;
    assert DeactivateGroup(t, owner, groupName, fault).tables.groups == Deactivated(t.groups, g.id);
    DeactivatedNameResolves(t.groups, g);
  }

  lemma DeactivatedNameResolves(groups: seq<Group>, g: Group)
    requires KeysIncreasing(groups, GroupId) && UniqueBy(groups, GroupName) && g in groups
    ensures var gs := Deactivated(groups, g.id);
      NameTaken(gs, g.name) && !FindGroup(gs, g.name).value.active
  {
    var gs := Deactivated(groups, g.id);
    DeactivatedKeepsNamesUnique(groups, g.id);
    var i :| 0 <= i < |groups| && groups[i] == g;
    assert gs[i] in gs;
  }

  /** Removing a file of the named group is permitted to exactly the group owner and the
      file owner; anyone else gets a client error. */
  lemma RemovePermittedToOwners(t: Tables, userId: nat, fileId: nat, groupName: string)
    requires NameTaken(t.groups, groupName) && FindFile(t.files, fileId).Some?
    requires FindFile(t.files, fileId).value.groupId == FindGroup(t.groups, groupName).value.id
    ensures RemoveFileInfoInGroup(t, userId, fileId, groupName, NoFault).result.Pass? <==>
      FindGroup(t.groups, groupName).value.ownerId == userId || FindFile(t.files, fileId).value.ownerId == userId
    ensures RemoveFileInfoInGroup(t, userId, fileId, groupName, NoFault).result.Fail? ==>
      RemoveFileInfoInGroup(t, userId, fileId, groupName, NoFault).result.error == ClientError(OnlyOwnersRemove)
  {
  }

  /** On a file of the named group, the corrected removal does what the code does. */
  lemma RemoveFileInfoInGroupAgrees(t: Tables, userId: nat, fileId: nat, groupName: string, fault: Fault)
    requires NameTaken(t.groups, groupName) && FindFile(t.files, fileId).Some?
    requires FindFile(t.files, fileId).value.groupId == FindGroup(t.groups, groupName).value.id
    ensures RemoveFileInfoInGroup(t, userId, fileId, groupName, fault) == RemoveFileInfo(t, userId, fileId, groupName, fault)
  {
  }

  /** The id AddFileInfo returns names the row it inserted, and the file lookup by a member,
      as written and as intended, then returns exactly that row. */
  lemma AddThenGetFileInfo(t: Tables, userId: nat, fileName: string, groupName: string)
    requires WellFormed(t)
    requires AddFileInfo(t, userId, fileName, groupName, NoFault).result.Ok?
    ensures var a := AddFileInfo(t, userId, fileName, groupName, NoFault);
      var added := FileInfo(a.result.value, fileName, userId, FindGroup(t.groups, groupName).value.id);
      && GetFileInfo(a.tables, userId, a.result.value, groupName, NoFault) == Ok(added)
      && GetFileInfoInGroup(a.tables, userId, a.result.value, groupName, NoFault) == Ok(added)
  {
    var a := AddFileInfo(t, userId, fileName, groupName, NoFault);
    var g := FindGroup(t.groups, groupName).value;
    var f := FileInfo(a.result.value, fileName, userId, g.id);
    var m :| m in t.memberships && m.groupId == g.id && m.userId == userId;
    assert IsMemberByName(a.tables, userId, groupName);
    AddFileInfoKeepsWellFormed(t, userId, fileName, groupName, NoFault);
    assert f in a.tables.files;
    var found := FindFile(a.tables.files, a.result.value).value;
    KeyIdentifies(a.tables.files, FileId, found, f);
    assert FileInGroupNamed(a.tables.groups, f, groupName) by {
      assert g in a.tables.groups;
    }
  }
}
