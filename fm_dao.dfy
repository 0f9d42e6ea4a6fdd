/** FmDAOImpl (web-server/internal/db/dao/fm_dao.go), step by step against the shared
    database, proved to do what the matching FmSpec function says. */
module FmDao {
  import opened Errors
  import opened Seqs
  import opened Models
  import opened Store
  import opened UamSpec
  import opened FmSpec
  import opened FmInvariants

  class FmDaoImpl {
    const db: Database

    constructor (db: Database)
      ensures this.db == db
    {
      this.db := db;
    }

    /** Returns the new file's id, or 0 with the error. */
    method AddFileInfo(userId: nat, fileName: string, groupName: string, fault: Fault) returns (fileId: nat, err: Option<Error>)
      requires db.Valid()
      modifies db
      ensures Applied(db.Snapshot(), if err.Some? then Err(err.value) else Ok(fileId))
              == FmSpec.AddFileInfo(old(db.Snapshot()), userId, fileName, groupName, fault)
      ensures err.Some? ==> fileId == 0
      ensures db.Valid()
    {
      AddFileInfoKeepsWellFormed(db.Snapshot(), userId, fileName, groupName, fault);
      fileId := 0;
      var groupLookup := GetGroupWithConn(db.groups, groupName, fault, 1);
      if groupLookup.Err? {
        return 0, Some(groupLookup.error);
      }
      var g := groupLookup.value;
      if fault.Hits(2) {
        return 0, Some(MembershipCheckFailure(fault.cause));
      } else if !IsMember(db.memberships, g.id, userId) {
        return 0, Some(ClientError(NotInGroupUpload));
      }
      if fault.Hits(3) {
        return 0, Some(SaveFailure(groupName));
      }
      var f := db.InsertFile(fileName, userId, g.id);
      return f.id, None;
    }

    /** The file is found by id alone; its group is not compared with the named group. */
    method RemoveFileInfo(userId: nat, fileId: nat, groupName: string, fault: Fault) returns (r: Outcome)
      requires db.Valid()
      modifies db
      ensures Applied(db.Snapshot(), r) == FmSpec.RemoveFileInfo(old(db.Snapshot()), userId, fileId, groupName, fault)
      ensures db.Valid()
    {
      var saved := db.Snapshot();
      var groupLookup := GetGroupWithConn(db.groups, groupName, fault, 1);
      if groupLookup.Err? {
        return Fail(groupLookup.error);
      }
      var g := groupLookup.value;
      var fileLookup := GetFileInfoWithConn(db.files, fileId, fault, 2);
      if fileLookup.Err? {
        return Fail(fileLookup.error);
      }
      var f := fileLookup.value;
      if g.ownerId != userId && f.ownerId != userId {
        return Fail(ClientError(OnlyOwnersRemove));
      }
      if fault.Hits(3) {
        return Fail(SaveFailure(groupName));
      }
      var affected := db.DeleteFile(f.id);
      RemoveFileInfoKeepsWellFormed(saved, userId, fileId, groupName, fault);
      // The row was read in this transaction, so the delete finds it and the
      // "File info not found" branch of the code is never taken.
      assert affected != 0;
      return Pass;
    }

    /** The membership is checked by the group's name, the file found by id alone. */
    method GetFileInfo(userId: nat, fileId: nat, groupName: string, fault: Fault) returns (r: Result<FileInfo>)
      ensures r == FmSpec.GetFileInfo(db.Snapshot(), userId, fileId, groupName, fault)
    {
      if fault.Hits(1) {
        return Err(fault.Failure(MembershipByNameFailed));
      } else if !IsMemberByName(db.Snapshot(), userId, groupName) {
        return Err(ClientError(NotInGroup));
      }
      r := GetFileInfoWithConn(db.files, fileId, fault, 2);
    }

    method GetAllFilesInfo(userId: nat, groupName: string, fault: Fault) returns (r: Result<seq<FileInfo>>)
      ensures r == FmSpec.GetAllFilesInfo(db.Snapshot(), userId, groupName, fault)
    {
      if fault.Hits(1) {
        return Err(fault.Failure(MembershipByNameFailed));
      } else if !IsMemberByName(db.Snapshot(), userId, groupName) {
        return Err(ClientError(NotInGroup));
      }
      if fault.Hits(2) {
        return Err(fault.Failure(FilesLookupFailed));
      }
      return Ok(FilesOfGroupNamed(db.files, db.groups, groupName));
    }
  }
}
