/** FileManagementEndpointImpl (web-server/api/rest/fm_endpoint.go): uploading, downloading
    and deleting files of a group. Each handler checks the request, looks the group up, checks
    the caller's membership, then calls the file DAO; uploads and deletions also write or
    remove `<groupsDir>/<group>/<fileId>`.

    As for the user handlers, each handler is given as a function from the store and the
    directories to the new state and the replies written, and as a method proved to behave as
    that function says. Every DAO call takes its own injected fault, gathered in FileFaults. */
module FmEndpoint {
  import opened Errors
  import opened Seqs
  import opened Models
  import opened Store
  import opened UamSpec
  import opened FmSpec
  import opened FmInvariants
  import opened UamDao
  import opened FmDao
  import opened GroupDirs
  import opened AsyncJob
  import opened Strconv
  import opened Gin
  import opened Helper
  import opened UamEndpoint

  const BadFile := "Problem with the file"
  const NoGroupName := "Groupname isnt specified"
  const InvalidUserInput := "Invalid user input"
  const NoFileId := "File id isnt specified"
  const BadFileId := "Unvalid format of file id"

  function WriteFailure(groupName: string): Error
  {
    ServerError("Couldnt save the file in the group dir [" + groupName + "]")
  }

  /** The faults of the DAO calls one handler makes: the group lookup, the membership check,
      the file DAO operation, and the compensating removal after a failed write. */
  datatype FileFaults = FileFaults(group: Fault, member: Fault, files: Fault, undo: Fault)

  const NoFaults := FileFaults(NoFault, NoFault, NoFault, NoFault)

  /** The body of a DeleteFile request. */
  datatype FileRequest = FileRequest(groupName: string, fileId: nat)

  function UploadedReply(fileId: nat): Reply
  {
    Reply(StatusCreated, FileIdBody(StatusCreated, fileId))
  }

  /** The group a handler goes on with when it ignores the lookup's error. */
  function GroupOrZero(r: Result<Group>): (g: Group)
    ensures r.Err? ==> g == ZeroGroup
  {
    if r.Ok? then r.value else ZeroGroup
  }

  /** What `c.File` sends for `<group>/<fileId>`: the file, named after the row, or the
      not-found page when it is not on disk. */
  function Serve(dirs: Dirs, group: string, f: FileInfo): (r: Reply)
    ensures r.status == StatusOK <==> group in dirs && f.id in dirs[group]
    ensures r.status == StatusOK ==> r.body == FileBody(group, f.id, f.name)
  {
    if group in dirs && f.id in dirs[group] then Reply(StatusOK, FileBody(group, f.id, f.name))
    else Reply(StatusNotFound, NotFoundPage)
  }

  // ---------------------------------------------------------------------------------
  // The handlers as functions

  function UploadFileHandler(w: World, keys: map<string, Value>, file: Option<string>, groupName: string,
                             faults: FileFaults, writeFails: bool): Served
  {
    var id := GetIDFromContext(keys);
    if id.Err? then Served(w, [ErrorReply(id.error)])
    else if file.None? then Served(w, [ErrorReply(ClientError(BadFile))])
    else if groupName == "" then Served(w, [ErrorReply(ClientError(NoGroupName))])
    else match GetGroupWithConn(w.tables.groups, groupName, faults.group, 1)
      case Err(e) => Served(w, [ErrorReply(if e.ItemNotFoundError? then ClientError(InvalidGroup) else e)])
      case Ok(g) =>
        match MemberExists(w.tables, id.value, g.id, faults.member)
        case Err(e) => Served(w, [ErrorReply(e)])
        case Ok(member) =>
          if !member then Served(w, [ErrorReply(ClientError(InvalidUserInput))])
          else SaveUpload(w, id.value, file.value, groupName, faults, writeFails)
  }

  /** The part of UploadFile after the checks: record the file, then write it to
      `<group>/<fileId>`; when the write fails, remove the record again, ignoring the
      outcome of that removal. */
  function SaveUpload(w: World, userId: nat, fileName: string, groupName: string,
                      faults: FileFaults, writeFails: bool): Served
  {
    var a := AddFileInfo(w.tables, userId, fileName, groupName, faults.files);
    if a.result.Err? then Served(World(a.tables, w.dirs), [ErrorReply(a.result.error)])
    else
      var fileId := a.result.value;
      if !writeFails && groupName in w.dirs then
        Served(World(a.tables, w.dirs[groupName := w.dirs[groupName] + {fileId}]), [UploadedReply(fileId)])
      else
        Served(World(RemoveFileInfo(a.tables, userId, fileId, groupName, faults.undo).tables, w.dirs),
               [ErrorReply(WriteFailure(groupName))])
  }

  function DeleteFileHandler(w: World, keys: map<string, Value>, rq: Option<FileRequest>,
                             faults: FileFaults, removeFails: bool): Served
  {
    var id := GetIDFromContext(keys);
    if id.Err? then Served(w, [ErrorReply(id.error)])
    else if rq.None? then Served(w, [ErrorReply(ClientError(InvalidJsonBody))])
    else
      var g := GroupOrZero(GetGroupWithConn(w.tables.groups, rq.value.groupName, faults.group, 1));
      match MemberExists(w.tables, id.value, g.id, faults.member)
      case Err(e) => Served(w, [ErrorReply(e)])
      case Ok(member) =>
        if !member then Served(w, [ErrorReply(ClientError(InvalidUserInput))])
        else
          var a := RemoveFileInfo(w.tables, id.value, rq.value.fileId, rq.value.groupName, faults.files);
          if a.result.Fail? then Served(World(a.tables, w.dirs), [ErrorReply(a.result.error)])
          else Served(World(a.tables, FileRemoved(w.dirs, rq.value.groupName, rq.value.fileId, removeFails)),
                      [Done])
  }

  /** DownloadFile changes nothing; these are its replies. A failed file lookup is reported,
      and then the zero FileInfo is served all the same. */
  function DownloadFileHandler(w: World, keys: map<string, Value>, fileIdText: string, groupName: string,
                               faults: FileFaults): (replies: seq<Reply>)
  {
    var id := GetIDFromContext(keys);
    if id.Err? then [ErrorReply(id.error)]
    else if fileIdText == "" then [ErrorReply(ClientError(NoFileId))]
    else match ParseUint32(fileIdText)
      case None => [ErrorReply(ClientError(BadFileId))]
      case Some(fileId) =>
        if groupName == "" then [ErrorReply(ClientError(NoGroupName))]
        else
          var g := GroupOrZero(GetGroupWithConn(w.tables.groups, groupName, faults.group, 1));
          match MemberExists(w.tables, id.value, g.id, faults.member)
          case Err(e) => [ErrorReply(e)]
          case Ok(member) =>
            if !member then [ErrorReply(ClientError(InvalidUserInput))]
            else
              var info := GetFileInfo(w.tables, id.value, fileId, groupName, faults.files);
              var f := if info.Ok? then info.value else ZeroFileInfo;
              (if info.Err? then [ErrorReply(info.error)] else []) + [Serve(w.dirs, groupName, f)]
  }

  // ---------------------------------------------------------------------------------
  // Disk and metadata

  /** Every file on disk has its row, in the group its directory is named after. */
  ghost predicate DiskBacked(w: World)
  {
    forall name, id :: name in w.dirs && id in w.dirs[name] ==>
      exists f :: f in w.tables.files && f.id == id && FileInGroupNamed(w.tables.groups, f, name)
  }

  /** UploadFile keeps every file on disk backed by its row: the bytes are written only
      after the row is in, and a failed write leaves no bytes behind. */
  lemma UploadKeepsDiskBacked(w: World, keys: map<string, Value>, file: Option<string>, groupName: string,
                              faults: FileFaults, writeFails: bool)
    requires WellFormed(w.tables) && DiskBacked(w)
    ensures DiskBacked(UploadFileHandler(w, keys, file, groupName, faults, writeFails).world)
  {
    var id := GetIDFromContext(keys);
    if id.Ok? && file.Some? && groupName != "" && GetGroupWithConn(w.tables.groups, groupName, faults.group, 1).Ok? {
      SaveUploadKeepsDiskBacked(w, id.value, file.value, groupName, faults, writeFails);
    }
  }

  lemma SaveUploadKeepsDiskBacked(w: World, userId: nat, fileName: string, groupName: string,
                                  faults: FileFaults, writeFails: bool)
    requires WellFormed(w.tables) && DiskBacked(w)
    ensures DiskBacked(SaveUpload(w, userId, fileName, groupName, faults, writeFails).world)
  {
    var t := w.tables;
    var a := AddFileInfo(t, userId, fileName, groupName, faults.files);
    if a.result.Ok? {
      var fileId := a.result.value;
      var g := FindGroup(t.groups, groupName).value;
      var added := FileInfo(fileId, fileName, userId, g.id);
      var s := SaveUpload(w, userId, fileName, groupName, faults, writeFails);
      if !writeFails && groupName in w.dirs {
        forall name, id | name in s.world.dirs && id in s.world.dirs[name]
          ensures exists f :: f in s.world.tables.files && f.id == id && FileInGroupNamed(s.world.tables.groups, f, name)
        {
          if name == groupName && id == fileId {
            assert added in s.world.tables.files && FileInGroupNamed(s.world.tables.groups, added, name);
          } else {
            var f :| f in t.files && f.id == id && FileInGroupNamed(t.groups, f, name);
            assert f in s.world.tables.files;
          }
        }
      } else {
        var r := RemoveFileInfo(a.tables, userId, fileId, groupName, faults.undo);
        forall name, id | name in w.dirs && id in w.dirs[name]
          ensures exists f :: f in r.tables.files && f.id == id && FileInGroupNamed(r.tables.groups, f, name)
        {
          var f :| f in t.files && f.id == id && FileInGroupNamed(t.groups, f, name);
          assert f in a.tables.files && f.id != fileId;
        }
      }
    }
  }

  /** A successful upload leaves the row and the bytes: the row names the file, its owner
      and the group, and the bytes sit in that group's directory under the row's id. Nothing
      else on disk changes. */
  lemma UploadStoresRowThenBytes(w: World, keys: map<string, Value>, file: Option<string>, groupName: string,
                                 faults: FileFaults, writeFails: bool, fileId: nat)
    requires UploadFileHandler(w, keys, file, groupName, faults, writeFails).replies == [UploadedReply(fileId)]
    ensures var s := UploadFileHandler(w, keys, file, groupName, faults, writeFails);
      && GetIDFromContext(keys).Ok? && file.Some? && NameTaken(w.tables.groups, groupName)
      && s.world.tables == AddFileInfo(w.tables, GetIDFromContext(keys).value, file.value, groupName, faults.files).tables
      && FileInfo(fileId, file.value, GetIDFromContext(keys).value, FindGroup(w.tables.groups, groupName).value.id)
           in s.world.tables.files
      && groupName in w.dirs && s.world.dirs == w.dirs[groupName := w.dirs[groupName] + {fileId}]
  {
    ErrorRepliesAreNotUploads();
  }

  lemma ErrorRepliesAreNotUploads()
    ensures forall e, n :: ErrorReply(e) != UploadedReply(n)
  {
  }

  /** Without a group name, or with one no group has, or from a caller who is not a member,
      UploadFile answers 400 and changes nothing. */
  lemma UploadRefusals(w: World, keys: map<string, Value>, fileName: string, groupName: string, writeFails: bool)
    requires GetIDFromContext(keys).Ok?
    ensures groupName == "" ==>
      UploadFileHandler(w, keys, Some(fileName), groupName, NoFaults, writeFails)
        == Served(w, [ErrorReply(ClientError(NoGroupName))])
    ensures groupName != "" && !NameTaken(w.tables.groups, groupName) ==>
      UploadFileHandler(w, keys, Some(fileName), groupName, NoFaults, writeFails)
        == Served(w, [ErrorReply(ClientError(InvalidGroup))])
    ensures groupName != "" && NameTaken(w.tables.groups, groupName)
            && !IsMember(w.tables.memberships, FindGroup(w.tables.groups, groupName).value.id, GetIDFromContext(keys).value) ==>
      UploadFileHandler(w, keys, Some(fileName), groupName, NoFaults, writeFails)
        == Served(w, [ErrorReply(ClientError(InvalidUserInput))])
  {
  }

  /** When the write fails, the compensating removal deletes the row just added, so the
      files table is as it was; only the id counter has moved on. The caller gets a 500. */
  lemma UploadCompensatesFailedWrite(w: World, userId: nat, fileName: string, groupName: string, files: Fault)
    requires WellFormed(w.tables)
    requires AddFileInfo(w.tables, userId, fileName, groupName, files).result.Ok?
    ensures var s := SaveUpload(w, userId, fileName, groupName, FileFaults(NoFault, NoFault, files, NoFault), true);
      && s.world.dirs == w.dirs
      && s.world.tables == w.tables.(ids := w.tables.ids.(file := w.tables.ids.file + 1))
      && s.replies == [ErrorReply(WriteFailure(groupName))]
      && s.replies[0].status == StatusInternalServerError
  {
    var t := w.tables;
    var a := AddFileInfo(t, userId, fileName, groupName, files);
    var fileId := a.result.value;
    var g := FindGroup(t.groups, groupName).value;
    var added := FileInfo(fileId, fileName, userId, g.id);
    AddFileInfoKeepsWellFormed(t, userId, fileName, groupName, files);
    assert added in a.tables.files;
    var found := FindFile(a.tables.files, fileId).value;
    KeyIdentifies(a.tables.files, FileId, found, added);
    assert MayRemove(FindGroup(a.tables.groups, groupName).value, found, userId);
    var r := RemoveFileInfo(a.tables, userId, fileId, groupName, NoFault);
    FilterAppend(t.files, added, (f: FileInfo) => f.id != fileId);
    FilterKeepsAll(t.files, (f: FileInfo) => f.id != fileId);
    assert WithoutFile(a.tables.files, fileId) == t.files;
  }

  /** Whatever becomes of the compensating removal, whose outcome is thrown away, a write
      that fails or has no directory to go to answers 500 and leaves the directories alone.
      The new row stays exactly when a fault stops that removal, and then it has no bytes. */
  lemma FailedWriteIgnoresCompensation(w: World, userId: nat, fileName: string, groupName: string,
                                       faults: FileFaults, writeFails: bool)
    requires WellFormed(w.tables)
    requires AddFileInfo(w.tables, userId, fileName, groupName, faults.files).result.Ok?
    requires writeFails || groupName !in w.dirs
    ensures var a := AddFileInfo(w.tables, userId, fileName, groupName, faults.files);
      var s := SaveUpload(w, userId, fileName, groupName, faults, writeFails);
      && s.replies == [ErrorReply(WriteFailure(groupName))]
      && s.replies[0].status == StatusInternalServerError
      && s.world.dirs == w.dirs
      && (s.world.tables == a.tables <==> faults.undo.HitsBy(3))
      && (faults.undo.HitsBy(3) ==>
            FileInfo(a.result.value, fileName, userId, FindGroup(w.tables.groups, groupName).value.id) in s.world.tables.files)
      && (!faults.undo.HitsBy(3) ==> s.world.tables == w.tables.(ids := w.tables.ids.(file := w.tables.ids.file + 1)))
  {
    var t := w.tables;
    var a := AddFileInfo(t, userId, fileName, groupName, faults.files);
    var fileId := a.result.value;
    var g := FindGroup(t.groups, groupName).value;
    var added := FileInfo(fileId, fileName, userId, g.id);
    AddFileInfoKeepsWellFormed(t, userId, fileName, groupName, faults.files);
    assert added in a.tables.files;
    var found := FindFile(a.tables.files, fileId).value;
    KeyIdentifies(a.tables.files, FileId, found, added);
    assert MayRemove(FindGroup(a.tables.groups, groupName).value, found, userId);
    var r := RemoveFileInfo(a.tables, userId, fileId, groupName, faults.undo);
    if !faults.undo.HitsBy(3) {
      FilterAppend(t.files, added, (f: FileInfo) => f.id != fileId);
      FilterKeepsAll(t.files, (f: FileInfo) => f.id != fileId);
      assert WithoutFile(a.tables.files, fileId) == t.files;
      assert added !in r.tables.files;
    }
  }

  /** DeleteFile touches the disk only after the row is gone, and answers 200 whether or
      not the removal from disk worked. */
  lemma DeleteRemovesBytesAfterRow(w: World, keys: map<string, Value>, rq: Option<FileRequest>,
                                   faults: FileFaults, removeFails: bool)
    ensures var s := DeleteFileHandler(w, keys, rq, faults, removeFails);
      s.world.dirs != w.dirs ==>
        && rq.Some? && GetIDFromContext(keys).Ok? && s.replies == [Done]
        && s.world.tables == RemoveFileInfo(w.tables, GetIDFromContext(keys).value, rq.value.fileId,
                                            rq.value.groupName, faults.files).tables
        && RemoveFileInfo(w.tables, GetIDFromContext(keys).value, rq.value.fileId, rq.value.groupName, faults.files).result.Pass?
    ensures var s := DeleteFileHandler(w, keys, rq, faults, removeFails);
      s.replies == [Done] ==> s == DeleteFileHandler(w, keys, rq, faults, !removeFails).(world :=
        s.world.(dirs := FileRemoved(w.dirs, rq.value.groupName, rq.value.fileId, removeFails)))
  {
  }

  /** DeleteFile on a group that does not exist goes on with the zero group, of which no
      one is a member: 400, nothing changes. */
  lemma DeleteInMissingGroupIsRefused(w: World, keys: map<string, Value>, rq: FileRequest, removeFails: bool)
    requires WellFormed(w.tables) && GetIDFromContext(keys).Ok? && !NameTaken(w.tables.groups, rq.groupName)
    ensures DeleteFileHandler(w, keys, Some(rq), NoFaults, removeFails)
      == Served(w, [ErrorReply(ClientError(InvalidUserInput))])
  {
  }

  /** Removing the row of a file of the named group, then `<group>/<fileId>`, keeps every
      file on disk backed by its row. */
  lemma RemovalInGroupKeepsDiskBacked(w: World, userId: nat, fileId: nat, groupName: string, fault: Fault)
    requires WellFormed(w.tables) && DiskBacked(w)
    requires RemoveFileInfoInGroup(w.tables, userId, fileId, groupName, fault).result.Pass?
    ensures DiskBacked(World(RemoveFileInfoInGroup(w.tables, userId, fileId, groupName, fault).tables,
                             FileRemoved(w.dirs, groupName, fileId, false)))
  {
    var t := w.tables;
    var a := RemoveFileInfoInGroup(t, userId, fileId, groupName, fault);
    var g := FindGroup(t.groups, groupName).value;
    var removed := FindFile(t.files, fileId).value;
    var dirs := FileRemoved(w.dirs, groupName, fileId, false);
    forall name, id | name in dirs && id in dirs[name]
      ensures exists f :: f in a.tables.files && f.id == id && FileInGroupNamed(a.tables.groups, f, name)
    {
      var f :| f in t.files && f.id == id && FileInGroupNamed(t.groups, f, name);
      if id == fileId {
        KeyIdentifies(t.files, FileId, f, removed);
        var h :| h in t.groups && h.id == f.groupId && h.name == name;
        KeyIdentifies(t.groups, GroupId, h, g);
        assert false;
      }
      assert f in a.tables.files;
    }
  }

  /** DeleteFile keeps every file on disk backed by its row when the file asked for, if it
      exists, belongs to the group named in the request, and removing the bytes from disk
      does not fail. For a file of another group the row goes and the bytes stay
      (Findings.CrossGroupRemoval). */
  lemma DeleteKeepsDiskBacked(w: World, keys: map<string, Value>, rq: Option<FileRequest>, faults: FileFaults)
    requires WellFormed(w.tables) && DiskBacked(w)
    requires rq.Some? && NameTaken(w.tables.groups, rq.value.groupName) && FindFile(w.tables.files, rq.value.fileId).Some? ==>
      FindFile(w.tables.files, rq.value.fileId).value.groupId == FindGroup(w.tables.groups, rq.value.groupName).value.id
    ensures DiskBacked(DeleteFileHandler(w, keys, rq, faults, false).world)
  {
    var s := DeleteFileHandler(w, keys, rq, faults, false);
    if s.replies == [Done] {
      var userId := GetIDFromContext(keys).value;
      RemoveFileInfoInGroupAgrees(w.tables, userId, rq.value.fileId, rq.value.groupName, faults.files);
      RemovalInGroupKeepsDiskBacked(w, userId, rq.value.fileId, rq.value.groupName, faults.files);
    }
  }

  /** A file DownloadFile serves is a file of the named group: its row is there, in that
      group, and the reply carries the row's id and name. The file lookup does not check the
      group, but a file of another group is not in this group's directory. */
  lemma DownloadServesOnlyGroupFiles(w: World, keys: map<string, Value>, fileIdText: string,
                                     groupName: string, faults: FileFaults)
    requires WellFormed(w.tables) && DiskBacked(w)
    ensures var replies := DownloadFileHandler(w, keys, fileIdText, groupName, faults);
      replies[|replies| - 1].status == StatusOK ==>
        exists f :: f in w.tables.files && FileInGroupNamed(w.tables.groups, f, groupName)
                    && replies[|replies| - 1].body == FileBody(groupName, f.id, f.name)
  {
    var replies := DownloadFileHandler(w, keys, fileIdText, groupName, faults);
    var id := GetIDFromContext(keys);
    if replies[|replies| - 1].status == StatusOK {
      var fileId := ParseUint32(fileIdText).value;
      var f := GetFileInfo(w.tables, id.value, fileId, groupName, faults.files).value;
      // The row found by id alone is the row of the bytes on disk, which is in the group.
      var h :| h in w.tables.files && h.id == f.id && FileInGroupNamed(w.tables.groups, h, groupName);
      KeyIdentifies(w.tables.files, FileId, h, f);
    }
  }

  /** An empty or unparsable file id is refused before any DAO call: the reply does not
      depend on the store, the directories or the faults. */
  lemma DownloadChecksIdFirst(w1: World, w2: World, keys: map<string, Value>, fileIdText: string,
                              groupName: string, f1: FileFaults, f2: FileFaults)
    requires GetIDFromContext(keys).Ok? && ParseUint32(fileIdText).None?
    ensures DownloadFileHandler(w1, keys, fileIdText, groupName, f1) == DownloadFileHandler(w2, keys, fileIdText, groupName, f2)
    ensures DownloadFileHandler(w1, keys, fileIdText, groupName, f1) ==
      [ErrorReply(ClientError(if fileIdText == "" then NoFileId else BadFileId))]
  {
  }

  /** A file that a member just uploaded, asked for by its decimal id, is served with its
      name, as long as that id fits the 32 bits DownloadFile parses it into. */
  lemma UploadThenDownload(w: World, keys: map<string, Value>, fileName: string, groupName: string, fileId: nat)
    requires WellFormed(w.tables)
    requires UploadFileHandler(w, keys, Some(fileName), groupName, NoFaults, false).replies == [UploadedReply(fileId)]
    requires fileId <= MaxUint32
    ensures var s := UploadFileHandler(w, keys, Some(fileName), groupName, NoFaults, false);
      DownloadFileHandler(s.world, keys, FormatDecimal(fileId), groupName, NoFaults)
        == [Reply(StatusOK, FileBody(groupName, fileId, fileName))]
  {
    var s := UploadFileHandler(w, keys, Some(fileName), groupName, NoFaults, false);
    UploadStoresRowThenBytes(w, keys, Some(fileName), groupName, NoFaults, false, fileId);
    ParseFormatDecimal(fileId);
    var userId := GetIDFromContext(keys).value;
    var g := FindGroup(w.tables.groups, groupName).value;
    AddThenGetFileInfo(w.tables, userId, fileName, groupName);
    assert IsMember(s.world.tables.memberships, g.id, userId);
  }

  /** When the file lookup fails, DownloadFile reports it and then serves the zero
      FileInfo, id 0, which no upload ever writes: two replies, the second the not-found
      page. */
  lemma DownloadAfterFailedLookupAnswersTwice(w: World, keys: map<string, Value>, fileIdText: string,
                                              groupName: string, faults: FileFaults)
    requires WellFormed(w.tables) && DiskBacked(w)
    requires GetIDFromContext(keys).Ok? && ParseUint32(fileIdText).Some? && groupName != ""
    requires var g := GroupOrZero(GetGroupWithConn(w.tables.groups, groupName, faults.group, 1));
      MemberExists(w.tables, GetIDFromContext(keys).value, g.id, faults.member) == Ok(true)
    requires GetFileInfo(w.tables, GetIDFromContext(keys).value, ParseUint32(fileIdText).value, groupName, faults.files).Err?
    ensures var replies := DownloadFileHandler(w, keys, fileIdText, groupName, faults);
      && |replies| == 2 && replies[0].body.ErrorBody?
      && replies[1] == Reply(StatusNotFound, NotFoundPage)
  {
  }

  // ---------------------------------------------------------------------------------
  // The handlers as methods

  class FmEndpointImpl {
    const uamDao: UamDaoImpl
    const fmDao: FmDaoImpl
    const fs: FileSystem

    constructor (uamDao: UamDaoImpl, fmDao: FmDaoImpl, fs: FileSystem)
      ensures this.uamDao == uamDao && this.fmDao == fmDao && this.fs == fs
    {
      this.uamDao := uamDao;
      this.fmDao := fmDao;
      this.fs := fs;
    }

    /** Both DAOs work on the same database. */
    ghost predicate Shared()
      reads this
    {
      uamDao.db == fmDao.db
    }

    method UploadFile(c: Context, file: Option<string>, groupName: string, faults: FileFaults, writeFails: bool)
      requires Shared() && fmDao.db.Valid()
      modifies c, fmDao.db, fs
      ensures var s := UploadFileHandler(old(World(fmDao.db.Snapshot(), fs.dirs)), old(c.keys), file, groupName,
                                         faults, writeFails);
        World(fmDao.db.Snapshot(), fs.dirs) == s.world && c.replies == old(c.replies) + s.replies
      ensures fmDao.db.Valid() && c.keys == old(c.keys)
    {
      var id := GetIDFromContext(c.keys);
      if id.Err? {
        SendErrorResponse(c, id.error);
        return;
      }
      if file.None? {
        SendErrorResponse(c, ClientError(BadFile));
        return;
      }
      if groupName == "" {
        SendErrorResponse(c, ClientError(NoGroupName));
        return;
      }
      var group := uamDao.GetGroup(groupName, faults.group);
      if group.Err? && group.error.ItemNotFoundError? {
        SendErrorResponse(c, ClientError(InvalidGroup));
        return;
      } else if group.Err? {
        SendErrorResponse(c, group.error);
        return;
      }
      var isMember := uamDao.MemberExists(id.value, group.value.id, faults.member);
      if isMember.Err? {
        SendErrorResponse(c, isMember.error);
        return;
      } else if !isMember.value {
        SendErrorResponse(c, ClientError(InvalidUserInput));
        return;
      }
      StoreUpload(c, id.value, file.value, groupName, faults, writeFails);
    }

    /** The tail of UploadFile, once the caller is known to be a member. */
    method StoreUpload(c: Context, userId: nat, fileName: string, groupName: string, faults: FileFaults, writeFails: bool)
      requires fmDao.db.Valid()
      modifies c, fmDao.db, fs
      ensures var s := SaveUpload(old(World(fmDao.db.Snapshot(), fs.dirs)), userId, fileName, groupName,
                                             faults, writeFails);
        World(fmDao.db.Snapshot(), fs.dirs) == s.world && c.replies == old(c.replies) + s.replies
      ensures fmDao.db.Valid() && c.keys == old(c.keys)
    {
      var fileId, err := fmDao.AddFileInfo(userId, fileName, groupName, faults.files);
      if err.Some? {
        SendErrorResponse(c, err.value);
        return;
      }
      var written := fs.WriteFile(groupName, fileId, writeFails);
      if !written {
        var _ := fmDao.RemoveFileInfo(userId, fileId, groupName, faults.undo);
        SendErrorResponse(c, WriteFailure(groupName));
        return;
      }
      c.JSON(StatusCreated, FileIdBody(StatusCreated, fileId));
    }

    method DeleteFile(c: Context, rq: Option<FileRequest>, faults: FileFaults, removeFails: bool)
      requires Shared() && fmDao.db.Valid()
      modifies c, fmDao.db, fs
      ensures var s := DeleteFileHandler(old(World(fmDao.db.Snapshot(), fs.dirs)), old(c.keys), rq, faults, removeFails);
        World(fmDao.db.Snapshot(), fs.dirs) == s.world && c.replies == old(c.replies) + s.replies
      ensures fmDao.db.Valid() && c.keys == old(c.keys)
    {
      var id := GetIDFromContext(c.keys);
      if id.Err? {
        SendErrorResponse(c, id.error);
        return;
      }
      if rq.None? {
        SendErrorResponse(c, ClientError(InvalidJsonBody));
        return;
      }
      var group := uamDao.GetGroup(rq.value.groupName, faults.group);
      var isMember := uamDao.MemberExists(id.value, GroupOrZero(group).id, faults.member);
      if isMember.Err? {
        SendErrorResponse(c, isMember.error);
        return;
      } else if !isMember.value {
        SendErrorResponse(c, ClientError(InvalidUserInput));
        return;
      }
      var removed := fmDao.RemoveFileInfo(id.value, rq.value.fileId, rq.value.groupName, faults.files);
      if removed.Fail? {
        SendErrorResponse(c, removed.error);
        return;
      }
      fs.RemoveFile(rq.value.groupName, rq.value.fileId, removeFails);
      c.JSON(StatusOK, BasicBody(StatusOK));
    }

    method DownloadFile(c: Context, fileIdText: string, groupName: string, faults: FileFaults)
      requires Shared()
      modifies c
      ensures c.replies == old(c.replies) + DownloadFileHandler(World(fmDao.db.Snapshot(), fs.dirs), old(c.keys),
                                                                fileIdText, groupName, faults)
      ensures c.keys == old(c.keys)
    {
      var id := GetIDFromContext(c.keys);
      if id.Err? {
        SendErrorResponse(c, id.error);
        return;
      }
      if fileIdText == "" {
        SendErrorResponse(c, ClientError(NoFileId));
        return;
      }
      var fileId := ParseUint32(fileIdText);
      if fileId.None? {
        SendErrorResponse(c, ClientError(BadFileId));
        return;
      }
      if groupName == "" {
        SendErrorResponse(c, ClientError(NoGroupName));
        return;
      }
      var group := uamDao.GetGroup(groupName, faults.group);
      var isMember := uamDao.MemberExists(id.value, GroupOrZero(group).id, faults.member);
      if isMember.Err? {
        SendErrorResponse(c, isMember.error);
        return;
      } else if !isMember.value {
        SendErrorResponse(c, ClientError(InvalidUserInput));
        return;
      }
      var info := fmDao.GetFileInfo(id.value, fileId.value, groupName, faults.files);
      if info.Err? {
        SendErrorResponse(c, info.error);
      }
      var f := if info.Ok? then info.value else ZeroFileInfo;
      var served := Serve(fs.dirs, groupName, f);
      c.JSON(served.status, served.body);
    }
  }
}
