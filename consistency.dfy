/** How the store and the group directories stay consistent with each other across the
    operations that change either: creating a group makes its directory, deactivating a group
    leaves the directory to the reaper, and the reaper removes a directory only with its row.

    Four invariants tie the two together:
    - every active group has its directory (ActiveGroupsHaveDirs);
    - every membership points at a group row that still exists (MembershipsInExistingGroups);
    - every file on disk has its row, in the group its directory is named after
      (FmEndpoint.DiskBacked);
    - every row of a file of an active group has its bytes in that group's directory
      (RowsOnDisk). */
module Consistency {
  import opened Errors
  import opened Seqs
  import opened Models
  import opened Store
  import opened UamSpec
  import opened FmSpec
  import opened GroupDirs
  import opened AsyncJob
  import opened Gin
  import opened Helper
  import opened UamEndpoint
  import opened FmEndpoint
  import opened Findings

  /** Every active group has its directory under the groups directory. */
  ghost predicate ActiveGroupsHaveDirs(w: World)
  {
    forall g :: g in w.tables.groups && g.active ==> g.name in w.dirs
  }

  /** No membership points at a group row that is gone. */
  ghost predicate MembershipsInExistingGroups(t: Tables)
  {
    forall m :: m in t.memberships ==> exists g :: g in t.groups && g.id == m.groupId
  }

  /** Every row of a file of an active group has its bytes in that group's directory. */
  ghost predicate RowsOnDisk(w: World)
  {
    forall f, g :: f in w.tables.files && g in w.tables.groups && g.active && g.id == f.groupId ==>
      g.name in w.dirs && f.id in w.dirs[g.name]
  }

  // ---------------------------------------------------------------------------------
  // The reaper

  /** An active group's name is never on the reaper's list: names are unique, and the list
      holds the names of inactive rows. */
  lemma ActiveNameNotListed(t: Tables, g: Group)
    requires WellFormed(t) && g in t.groups && g.active
    ensures g.name !in GetDeactivatedGroupNames(t, NoFault).value
  {
  }

  /** The listing the reaper works from is the fault-free one whenever it succeeds. */
  lemma ListingIsFaultFree(t: Tables, listFault: Fault)
    requires GetDeactivatedGroupNames(t, listFault).Ok?
    ensures GetDeactivatedGroupNames(t, listFault) == GetDeactivatedGroupNames(t, NoFault)
  {
  }

  /** Whatever fails during a run, the reaper removes no directory of an active group and
      erases no active row, so every active group keeps its directory. */
  lemma EraserKeepsActiveDirs(w: World, listFault: Fault, failing: set<string>, eraseFault: Fault)
    requires WellFormed(w.tables) && ActiveGroupsHaveDirs(w)
    ensures ActiveGroupsHaveDirs(EraserRun(w, listFault, failing, eraseFault))
  {
    var r := EraserRun(w, listFault, failing, eraseFault);
    if GetDeactivatedGroupNames(w.tables, listFault).Ok? {
      ListingIsFaultFree(w.tables, listFault);
      forall g | g in r.tables.groups && g.active ensures g.name in r.dirs {
        ActiveNameNotListed(w.tables, g);
      }
    }
  }

  /** The reaper erases only inactive rows, and no membership points at one, so every
      membership still finds its group afterwards. */
  lemma EraserKeepsMembershipsInExistingGroups(w: World, listFault: Fault, failing: set<string>, eraseFault: Fault)
    requires WellFormed(w.tables) && MembershipsInExistingGroups(w.tables)
    ensures MembershipsInExistingGroups(EraserRun(w, listFault, failing, eraseFault).tables)
  {
    var r := EraserRun(w, listFault, failing, eraseFault);
    if GetDeactivatedGroupNames(w.tables, listFault).Ok? {
      ListingIsFaultFree(w.tables, listFault);
      forall m | m in r.tables.memberships ensures exists g :: g in r.tables.groups && g.id == m.groupId {
        var g :| g in w.tables.groups && g.id == m.groupId;
        ActiveNameNotListed(w.tables, g);
        assert g in r.tables.groups;
      }
    }
  }

  /** When no directory removal fails, the reaper removes every directory whose row it
      erases, so every file left on disk keeps its row. FailedRemovalIsLeftBehind shows a
      failed removal breaking this. */
  lemma EraserKeepsDiskBacked(w: World, listFault: Fault, eraseFault: Fault)
    requires WellFormed(w.tables) && DiskBacked(w)
    ensures DiskBacked(EraserRun(w, listFault, {}, eraseFault))
  {
    var r := EraserRun(w, listFault, {}, eraseFault);
    if GetDeactivatedGroupNames(w.tables, listFault).Ok? {
      var names := GetDeactivatedGroupNames(w.tables, listFault).value;
      forall name, id | name in r.dirs && id in r.dirs[name]
        ensures exists f :: f in r.tables.files && f.id == id && FileInGroupNamed(r.tables.groups, f, name)
      {
        var f :| f in w.tables.files && f.id == id && FileInGroupNamed(w.tables.groups, f, name);
        var g :| g in w.tables.groups && g.id == f.groupId && g.name == name;
        assert name !in names;
        assert g in r.tables.groups;
      }
    }
  }

  // ---------------------------------------------------------------------------------
  // The group handlers

  /** CreateGroup stores an active group only after making its empty directory, and adds
      the owner's membership to the group it just stored. */
  lemma CreateGroupKeepsConsistency(w: World, keys: map<string, Value>, rq: Option<string>, statFails: bool,
                                    mkdirFailure: Option<string>, removeFails: bool, fault: Fault)
    requires WellFormed(w.tables) && ActiveGroupsHaveDirs(w) && MembershipsInExistingGroups(w.tables) && DiskBacked(w)
    ensures var r := CreateGroupHandler(w, keys, rq, statFails, mkdirFailure, removeFails, fault).world;
      ActiveGroupsHaveDirs(r) && MembershipsInExistingGroups(r.tables) && DiskBacked(r)
  {
  }

  /** DeleteGroup only clears a flag and drops the group's memberships; it leaves the
      directory to the reaper and keeps every row's id and name. */
  lemma DeleteGroupKeepsConsistency(w: World, keys: map<string, Value>, rq: Option<string>, fault: Fault)
    requires ActiveGroupsHaveDirs(w) && MembershipsInExistingGroups(w.tables) && DiskBacked(w)
    ensures var r := World(DeleteGroupHandler(w.tables, keys, rq, fault).tables, w.dirs);
      ActiveGroupsHaveDirs(r) && MembershipsInExistingGroups(r.tables) && DiskBacked(r)
  {
    var t := w.tables;
    var after := DeleteGroupHandler(t, keys, rq, fault).tables;
    if after != t {
      var id := GetIDFromContext(keys).value;
      var a := DeactivateGroup(t, id, rq.value, fault);
      assert a.result.Pass? && after == a.tables;
      // Each row keeps its place, id and name; only its flag may be cleared.
      assert forall i :: 0 <= i < |t.groups| ==>
        after.groups[i].id == t.groups[i].id && after.groups[i].name == t.groups[i].name
        && (after.groups[i].active ==> t.groups[i].active);
      forall g | g in after.groups && g.active ensures g.name in w.dirs {
        var i :| 0 <= i < |after.groups| && after.groups[i] == g;
        assert t.groups[i] in t.groups;
      }
      forall m | m in after.memberships ensures exists g :: g in after.groups && g.id == m.groupId {
        var g :| g in t.groups && g.id == m.groupId;
        var i :| 0 <= i < |t.groups| && t.groups[i] == g;
        assert after.groups[i] in after.groups;
      }
      forall name, fid | name in w.dirs && fid in w.dirs[name]
        ensures exists f :: f in after.files && f.id == fid && FileInGroupNamed(after.groups, f, name)
      {
        var f :| f in t.files && f.id == fid && FileInGroupNamed(t.groups, f, name);
        var g :| g in t.groups && g.id == f.groupId && g.name == name;
        var i :| 0 <= i < |t.groups| && t.groups[i] == g;
        assert after.groups[i] in after.groups;
      }
    }
  }

  /** AddMember adds a membership only to the group it found by name, and RevokeMembership
      only removes one. */
  lemma MembershipHandlersKeepMembershipsInExistingGroups(t: Tables, keys: map<string, Value>,
                                                         rq: Option<MembershipPayload>, fault: Fault)
    requires MembershipsInExistingGroups(t)
    ensures MembershipsInExistingGroups(AddMemberHandler(t, keys, rq, fault).tables)
    ensures MembershipsInExistingGroups(RevokeMembershipHandler(t, keys, rq, fault).tables)
  {
    var added := AddMemberHandler(t, keys, rq, fault).tables;
    if added != t {
      var g := FindGroup(t.groups, rq.value.groupName).value;
      assert forall m :: m in added.memberships ==> m in t.memberships || m.groupId == g.id;
    }
  }

  // ---------------------------------------------------------------------------------
  // The file handlers

  /** UploadFile leaves the groups and memberships alone and removes no directory. */
  lemma UploadKeepsConsistency(w: World, keys: map<string, Value>, file: Option<string>, groupName: string,
                               faults: FileFaults, writeFails: bool)
    requires ActiveGroupsHaveDirs(w) && MembershipsInExistingGroups(w.tables)
    ensures var r := UploadFileHandler(w, keys, file, groupName, faults, writeFails).world;
      ActiveGroupsHaveDirs(r) && MembershipsInExistingGroups(r.tables)
  {
  }

  /** DeleteFile removes a row and its bytes, but leaves the groups, the memberships and every
      directory in place. */
  lemma DeleteFileKeepsConsistency(w: World, keys: map<string, Value>, rq: Option<FileRequest>,
                                   faults: FileFaults, removeFails: bool)
    requires ActiveGroupsHaveDirs(w) && MembershipsInExistingGroups(w.tables)
    ensures var r := DeleteFileHandler(w, keys, rq, faults, removeFails).world;
      ActiveGroupsHaveDirs(r) && MembershipsInExistingGroups(r.tables)
  {
  }

  // ---------------------------------------------------------------------------------
  // Rows on disk

  /** The reaper erases only inactive rows and removes only their directories, so the
      directory of every active group keeps its files, whatever fails during the run. */
  lemma EraserKeepsRowsOnDisk(w: World, listFault: Fault, failing: set<string>, eraseFault: Fault)
    requires WellFormed(w.tables) && RowsOnDisk(w)
    ensures RowsOnDisk(EraserRun(w, listFault, failing, eraseFault))
  {
    var r := EraserRun(w, listFault, failing, eraseFault);
    if GetDeactivatedGroupNames(w.tables, listFault).Ok? {
      ListingIsFaultFree(w.tables, listFault);
      forall f, g | f in r.tables.files && g in r.tables.groups && g.active && g.id == f.groupId
        ensures g.name in r.dirs && f.id in r.dirs[g.name]
      {
        assert g in w.tables.groups;
        ActiveNameNotListed(w.tables, g);
      }
    }
  }

  /** CreateGroup adds a group with an empty directory, and no file row can point at the id
      it gets; a failed store leaves the rows as they were. */
  lemma CreateGroupKeepsRowsOnDisk(w: World, keys: map<string, Value>, rq: Option<string>, statFails: bool,
                                   mkdirFailure: Option<string>, removeFails: bool, fault: Fault)
    requires WellFormed(w.tables) && RowsOnDisk(w)
    ensures RowsOnDisk(CreateGroupHandler(w, keys, rq, statFails, mkdirFailure, removeFails, fault).world)
  {
  }

  /** DeleteGroup only clears flags, and the directories stay. */
  lemma DeleteGroupKeepsRowsOnDisk(w: World, keys: map<string, Value>, rq: Option<string>, fault: Fault)
    requires RowsOnDisk(w)
    ensures RowsOnDisk(World(DeleteGroupHandler(w.tables, keys, rq, fault).tables, w.dirs))
  {
    var t := w.tables;
    var after := DeleteGroupHandler(t, keys, rq, fault).tables;
    if after != t {
      var a := DeactivateGroup(t, GetIDFromContext(keys).value, rq.value, fault);
      assert a.result.Pass? && after == a.tables;
      forall f, g | f in after.files && g in after.groups && g.active && g.id == f.groupId
        ensures g.name in w.dirs && f.id in w.dirs[g.name]
      {
        var i :| 0 <= i < |after.groups| && after.groups[i] == g;
        assert t.groups[i] in t.groups;
      }
    }
  }

  /** AddMember and RevokeMembership touch only memberships. */
  lemma MembershipHandlersKeepRowsOnDisk(w: World, keys: map<string, Value>, rq: Option<MembershipPayload>, fault: Fault)
    requires RowsOnDisk(w)
    ensures RowsOnDisk(World(AddMemberHandler(w.tables, keys, rq, fault).tables, w.dirs))
    ensures RowsOnDisk(World(RevokeMembershipHandler(w.tables, keys, rq, fault).tables, w.dirs))
  {
  }

  /** UploadFile writes the bytes of a new row or, when the write fails, removes the row
      again. This holds as long as that removal is not stopped by a fault:
      FailedCompensationLeavesRowWithoutBytes shows a stopped removal leaving a row
      with no bytes. */
  lemma UploadKeepsRowsOnDisk(w: World, keys: map<string, Value>, file: Option<string>, groupName: string,
                              faults: FileFaults, writeFails: bool)
    requires WellFormed(w.tables) && RowsOnDisk(w) && !faults.undo.HitsBy(3)
    ensures RowsOnDisk(UploadFileHandler(w, keys, file, groupName, faults, writeFails).world)
  {
    var id := GetIDFromContext(keys);
    if id.Ok? && file.Some? && groupName != "" && GetGroupWithConn(w.tables.groups, groupName, faults.group, 1).Ok? {
      var t := w.tables;
      var a := AddFileInfo(t, id.value, file.value, groupName, faults.files);
      if a.result.Ok? {
        var s := SaveUpload(w, id.value, file.value, groupName, faults, writeFails);
        if !writeFails && groupName in w.dirs {
          var g0 := FindGroup(t.groups, groupName).value;
          forall f, g | f in s.world.tables.files && g in s.world.tables.groups && g.active && g.id == f.groupId
            ensures g.name in s.world.dirs && f.id in s.world.dirs[g.name]
          {
            if f !in t.files {
              KeyIdentifies(t.groups, GroupId, g, g0);
            }
          }
        } else {
          FailedWriteIgnoresCompensation(w, id.value, file.value, groupName, faults, writeFails);
        }
      }
    }
  }

  /** DeleteFile removes a row before its bytes, and ids are unique, so the bytes it removes
      belong to no row that stays. */
  lemma DeleteFileKeepsRowsOnDisk(w: World, keys: map<string, Value>, rq: Option<FileRequest>,
                                  faults: FileFaults, removeFails: bool)
    requires WellFormed(w.tables) && RowsOnDisk(w)
    ensures RowsOnDisk(DeleteFileHandler(w, keys, rq, faults, removeFails).world)
  {
  }

  /** The compensating removal's outcome is thrown away. On TwoGroupsOnDisk, where every row
      has its bytes, the owner of "alpha" uploads "x"; the write fails, and so does the
      removal that should undo the row. The reply is the usual 500, and the new row of the
      active group "alpha" has no bytes in its directory. */
  lemma FailedCompensationLeavesRowWithoutBytes()
    ensures RowsOnDisk(TwoGroupsOnDisk)
    ensures var s := UploadFileHandler(TwoGroupsOnDisk, AlphaOwner, Some("x"), "alpha",
                                       NoFaults.(undo := FailAt(1, "connection lost")), true);
      && s.replies == [ErrorReply(WriteFailure("alpha"))]
      && FileInfo(2, "x", 1, Alpha.id) in s.world.tables.files
      && s.world.dirs == TwoGroupsOnDisk.dirs && 2 !in s.world.dirs["alpha"]
      && !RowsOnDisk(s.world)
  {
    var w := TwoGroupsOnDisk;
    assert FindGroup(TwoGroups.groups, "alpha") == Some(Alpha);
    assert IsMember(TwoGroups.memberships, Alpha.id, 1) by {
      assert Membership(1, 1, 1) in TwoGroups.memberships;
    }
    TwoGroupsWellFormed();
    var faults := NoFaults.(undo := FailAt(1, "connection lost"));
    FailedWriteIgnoresCompensation(w, 1, "x", "alpha", faults, true);
    var s := UploadFileHandler(w, AlphaOwner, Some("x"), "alpha", faults, true);
    assert Alpha in s.world.tables.groups;
  }
}
