/** What each operation of FmDAOImpl (web-server/internal/db/dao/fm_dao.go) does to the
    store, in the style of UamSpec: statements are numbered in the order the code issues them,
    and a fault stops the operation at the statement it names. */
module FmSpec {
  import opened Errors
  import opened Seqs
  import opened Models
  import opened Store
  import opened UamSpec

  const NotInGroupUpload := "Cannot upload a file in a group you aren't part of"
  const OnlyOwnersRemove := "Only the onwer of the file or the group owner can remove files from the group"
  const FileInfoNotFound := "File info not found"
  const FileMissing := "File does not exist"
  const FileLookupFailed := "Problem with the lookup if file exists"
  const MembershipByNameFailed := "Problem with checking if user is a member of the group."
  const NotInGroup := "You arent a member of the group."
  const FilesLookupFailed := "Problem with fetching all files from a specific group"

  /** AddFileInfo builds this ServerError itself from the driver text, without wrapping. */
  function MembershipCheckFailure(cause: string): Error
  {
    ServerError("Couldnt check if membership exists. Reason: " + cause + "\n")
  }

  /** The text AddFileInfo and RemoveFileInfo both use when a write fails. */
  function SaveFailure(groupName: string): Error
  {
    ServerError("Cannot save file info in the db for group [" + groupName + "]")
  }

  /** getFileInfoWithConn, issued as statement `step`: by id only. */
  function GetFileInfoWithConn(files: seq<FileInfo>, fileId: nat, fault: Fault, step: nat): (r: Result<FileInfo>)
    ensures r.Ok? <==> !fault.Hits(step) && exists f :: f in files && f.id == fileId
    ensures r.Ok? ==> r.value in files && r.value.id == fileId
    ensures !fault.Hits(step) && (forall f :: f in files ==> f.id != fileId) ==> r == Err(ItemNotFoundError(FileMissing))
    ensures fault.Hits(step) ==> r.Err? && r.error.ServerError?
  {
    if fault.Hits(step) then Err(fault.Failure(FileLookupFailed))
    else match FindFile(files, fileId)
      case None => Err(ItemNotFoundError(FileMissing))
      case Some(f) => Ok(f)
  }

  /** AddFileInfo: look the group up (1), count the caller's membership (2), insert (3).
      The group's `active` flag is never read. The id is 0 on every error. */
  function AddFileInfo(t: Tables, userId: nat, fileName: string, groupName: string, fault: Fault): (a: Applied<Result<nat>>)
    ensures a.result.Err? ==> a.tables == t
    ensures !fault.Hits(1) && !NameTaken(t.groups, groupName) ==>
      a.result == Err(ItemNotFoundError(GroupMissing(groupName)))
    ensures !fault.HitsBy(2) && NameTaken(t.groups, groupName)
            && !IsMember(t.memberships, FindGroup(t.groups, groupName).value.id, userId) ==>
      a.result == Err(ClientError(NotInGroupUpload))
    ensures a.result.Ok? <==>
      && !fault.HitsBy(3) && NameTaken(t.groups, groupName)
      && IsMember(t.memberships, FindGroup(t.groups, groupName).value.id, userId)
    ensures a.result.Ok? ==>
      var g := FindGroup(t.groups, groupName).value;
      && a.result.value == t.ids.file
      && a.tables.files == t.files + [FileInfo(a.result.value, fileName, userId, g.id)]
      && a.tables == t.(files := a.tables.files, ids := t.ids.(file := t.ids.file + 1))
  {
    match GetGroupWithConn(t.groups, groupName, fault, 1)
    case Err(e) => Applied(t, Err(e))
    case Ok(g) =>
      if fault.Hits(2) then Applied(t, Err(MembershipCheckFailure(fault.cause)))
      else if !IsMember(t.memberships, g.id, userId) then Applied(t, Err(ClientError(NotInGroupUpload)))
      else if fault.Hits(3) then Applied(t, Err(SaveFailure(groupName)))
      else Applied(t.(files := t.files + [FileInfo(t.ids.file, fileName, userId, g.id)],
                      ids := t.ids.(file := t.ids.file + 1)), Ok(t.ids.file))
  }

  /** Whether `userId` may remove file `f` named through group `g`: the caller owns the group
      or owns the file. */
  predicate MayRemove(g: Group, f: FileInfo, userId: nat)
  {
    g.ownerId == userId || f.ownerId == userId
  }

  /** RemoveFileInfo: look the group up (1), look the file up by id (2), delete it (3). The
      file's own group is not compared with the named group. The file was read inside the
      same transaction, so the delete always finds its row and "File info not found" is never
      returned. This is the code as written; RemoveFileInfoInGroup below is what it evidently
      means. */
  function RemoveFileInfo(t: Tables, userId: nat, fileId: nat, groupName: string, fault: Fault): (a: Applied<Outcome>)
    ensures a.result.Fail? ==> a.tables == t
    ensures !fault.Hits(1) && !NameTaken(t.groups, groupName) ==>
      a.result == Fail(ItemNotFoundError(GroupMissing(groupName)))
    ensures !fault.HitsBy(2) && NameTaken(t.groups, groupName) && FindFile(t.files, fileId).None? ==>
      a.result == Fail(ItemNotFoundError(FileMissing))
    ensures !fault.HitsBy(2) && NameTaken(t.groups, groupName) && FindFile(t.files, fileId).Some?
            && !MayRemove(FindGroup(t.groups, groupName).value, FindFile(t.files, fileId).value, userId) ==>
      a.result == Fail(ClientError(OnlyOwnersRemove))
    ensures a.result.Pass? <==>
      && !fault.HitsBy(3) && NameTaken(t.groups, groupName) && FindFile(t.files, fileId).Some?
      && MayRemove(FindGroup(t.groups, groupName).value, FindFile(t.files, fileId).value, userId)
    ensures a.result.Pass? ==>
      && (forall f :: f in a.tables.files <==> f in t.files && f.id != fileId)
      && a.tables == t.(files := a.tables.files)
  {
    match GetGroupWithConn(t.groups, groupName, fault, 1)
    case Err(e) => Applied(t, Fail(e))
    case Ok(g) =>
      match GetFileInfoWithConn(t.files, fileId, fault, 2)
      case Err(e) => Applied(t, Fail(e))
      case Ok(f) =>
        if g.ownerId != userId && f.ownerId != userId then Applied(t, Fail(ClientError(OnlyOwnersRemove)))
        else if fault.Hits(3) then Applied(t, Fail(SaveFailure(groupName)))
        else Applied(t.(files := WithoutFile(t.files, f.id)), Pass)
  }

  /** GetFileInfo: count the caller's memberships of a group with that name (1), look the
      file up by id (2). The file's group is not compared with the named group. This is the
      code as written; GetFileInfoInGroup below is what it evidently means. */
  function GetFileInfo(t: Tables, userId: nat, fileId: nat, groupName: string, fault: Fault): (r: Result<FileInfo>)
    ensures fault.Hits(1) ==> r.Err? && r.error.ServerError?
    ensures !fault.Hits(1) && !IsMemberByName(t, userId, groupName) ==> r == Err(ClientError(NotInGroup))
    ensures r.Ok? <==>
      !fault.HitsBy(2) && IsMemberByName(t, userId, groupName) && exists f :: f in t.files && f.id == fileId
    ensures r.Ok? ==> r.value in t.files && r.value.id == fileId
  {
    if fault.Hits(1) then Err(fault.Failure(MembershipByNameFailed))
    else if !IsMemberByName(t, userId, groupName) then Err(ClientError(NotInGroup))
    else GetFileInfoWithConn(t.files, fileId, fault, 2)
  }

  /** Row `f` belongs to a group called `name`. */
  predicate FileInGroupNamed(groups: seq<Group>, f: FileInfo, name: string)
  {
    exists g :: g in groups && g.id == f.groupId && g.name == name
  }

  /** The file with id `fileId`, looked up as statement `step`, provided it belongs to group
      `g`; a file of another group is reported as missing. */
  function FileInGroup(files: seq<FileInfo>, fileId: nat, g: Group, fault: Fault, step: nat): (r: Result<FileInfo>)
    ensures r.Ok? <==> !fault.Hits(step) && FindFile(files, fileId).Some? && FindFile(files, fileId).value.groupId == g.id
    ensures r.Ok? ==> r.value in files && r.value.id == fileId && r.value.groupId == g.id
  {
    match GetFileInfoWithConn(files, fileId, fault, step)
    case Err(e) => Err(e)
    case Ok(f) => if f.groupId != g.id then Err(ItemNotFoundError(FileMissing)) else Ok(f)
  }

  /** RemoveFileInfo as intended: the statements of RemoveFileInfo, with the file found
      checked against the named group. Only a file of that group can be removed through it,
      and the files of every other group stay. */
  function RemoveFileInfoInGroup(t: Tables, userId: nat, fileId: nat, groupName: string, fault: Fault): (a: Applied<Outcome>)
    ensures a.result.Fail? ==> a.tables == t
    ensures !fault.Hits(1) && !NameTaken(t.groups, groupName) ==>
      a.result == Fail(ItemNotFoundError(GroupMissing(groupName)))
    ensures a.result.Pass? <==>
      && !fault.HitsBy(3) && NameTaken(t.groups, groupName) && FindFile(t.files, fileId).Some?
      && var g := FindGroup(t.groups, groupName).value;
      && FindFile(t.files, fileId).value.groupId == g.id && MayRemove(g, FindFile(t.files, fileId).value, userId)
    ensures a.result.Pass? ==>
      && (forall f :: f in a.tables.files <==> f in t.files && f.id != fileId)
      && (KeysIncreasing(t.files, FileId) ==>
            forall f :: f in t.files && f.groupId != FindGroup(t.groups, groupName).value.id ==> f in a.tables.files)
      && a.tables == t.(files := a.tables.files)
  {
    match GetGroupWithConn(t.groups, groupName, fault, 1)
    case Err(e) => Applied(t, Fail(e))
    case Ok(g) =>
      match FileInGroup(t.files, fileId, g, fault, 2)
      case Err(e) => Applied(t, Fail(e))
      case Ok(f) =>
        if g.ownerId != userId && f.ownerId != userId then Applied(t, Fail(ClientError(OnlyOwnersRemove)))
        else if fault.Hits(3) then Applied(t, Fail(SaveFailure(groupName)))
        else
          assert KeysIncreasing(t.files, FileId) ==> forall h :: h in t.files && h.id == f.id ==> h == f by {
            if KeysIncreasing(t.files, FileId) {
              forall h | h in t.files && h.id == f.id ensures h == f {
                KeyIdentifies(t.files, FileId, h, f);
              }
            }
          }
          Applied(t.(files := WithoutFile(t.files, f.id)), Pass)
  }

  /** GetFileInfo as intended: GetFileInfo, with the file found checked against the named
      group; a file of another group is reported as missing. */
  function GetFileInfoInGroup(t: Tables, userId: nat, fileId: nat, groupName: string, fault: Fault): (r: Result<FileInfo>)
    ensures fault.Hits(1) ==> r.Err? && r.error.ServerError?
    ensures !fault.Hits(1) && !IsMemberByName(t, userId, groupName) ==> r == Err(ClientError(NotInGroup))
    ensures r.Ok? <==>
      && !fault.HitsBy(2) && IsMemberByName(t, userId, groupName) && FindFile(t.files, fileId).Some?
      && FileInGroupNamed(t.groups, FindFile(t.files, fileId).value, groupName)
    ensures r.Ok? ==> r.value in t.files && r.value.id == fileId && FileInGroupNamed(t.groups, r.value, groupName)
  {
    match GetFileInfo(t, userId, fileId, groupName, fault)
    case Err(e) => Err(e)
    case Ok(f) => if FileInGroupNamed(t.groups, f, groupName) then Ok(f) else Err(ItemNotFoundError(FileMissing))
  }

  /** GetAllFilesInfo: count the caller's memberships of a group with that name (1), join
      file_infos with groups on that name (2). */
  function GetAllFilesInfo(t: Tables, userId: nat, groupName: string, fault: Fault): (r: Result<seq<FileInfo>>)
    ensures fault.Hits(1) ==> r.Err? && r.error.ServerError?
    ensures !fault.Hits(1) && !IsMemberByName(t, userId, groupName) ==> r == Err(ClientError(NotInGroup))
    ensures r.Ok? <==> !fault.HitsBy(2) && IsMemberByName(t, userId, groupName)
    ensures r.Ok? ==> forall f :: f in r.value <==>
      f in t.files && exists g :: g in t.groups && g.id == f.groupId && g.name == groupName
  {
    if fault.Hits(1) then Err(fault.Failure(MembershipByNameFailed))
    else if !IsMemberByName(t, userId, groupName) then Err(ClientError(NotInGroup))
    else if fault.Hits(2) then Err(fault.Failure(FilesLookupFailed))
    else Ok(FilesOfGroupNamed(t.files, t.groups, groupName))
  }
}
