/** Places where the code does something its own structure says it did not mean to, each
    shown on a concrete store as the code is written (which the DAO classes and the handlers
    model), next to the corrected definition (FmSpec.RemoveFileInfoInGroup,
    FmSpec.GetFileInfoInGroup and UamSpec.GetAllUsersInGroupReported). */
module Findings {
  import opened Errors
  import opened Seqs
  import opened Models
  import opened Store
  import opened UamSpec
  import opened FmSpec
  import opened GroupDirs
  import opened AsyncJob
  import opened Gin
  import opened Helper
  import opened UamEndpoint
  import opened FmEndpoint

  // ---------------------------------------------------------------------------------
  // RemoveFileInfo and GetFileInfo find the file by id alone

  /** Two groups, each with its owner as only member; the second group holds one file,
      uploaded by its owner. */
  const Alpha := Group(1, "alpha", 1, true)
  const Beta := Group(2, "beta", 2, true)
  const Report := FileInfo(1, "report", 2, 2)

  const TwoGroups := Tables(
    [User(1, "owneralpha", "h1"), User(2, "ownerbeta", "h2")],
    [Alpha, Beta],
    [Membership(1, 1, 1), Membership(2, 2, 2)],
    [Report],
    NextIds(3, 3, 3, 2))

  const TwoGroupsOnDisk := World(TwoGroups, map["alpha" := {}, "beta" := {1}])

  /** Who the handlers act for: user 1, owner of "alpha" and member of nothing else. */
  const AlphaOwner: map<string, Value> := map[UserIdKey := UintValue(1)]

  lemma TwoGroupsIsReachable()
    ensures WellFormed(TwoGroups) && DiskBacked(TwoGroupsOnDisk)
  {
    TwoGroupsWellFormed();
    assert FileInGroupNamed(TwoGroups.groups, Report, "beta") by {
      assert Beta in TwoGroups.groups;
    }
  }

  lemma TwoGroupsWellFormed()
    ensures WellFormed(TwoGroups)
  {
    assert NoMembershipInInactiveGroup(TwoGroups);
    assert UniqueBy(TwoGroups.users, UserName) && UniqueBy(TwoGroups.groups, GroupName);
    assert UniqueBy(TwoGroups.memberships, MembershipPair);
  }

  /** As written: the owner of "alpha", naming "alpha", removes the file of "beta", a group
      they do not belong to. DeleteFile answers 200 and then removes `alpha/1`, which does
      not exist, so `beta/1` stays on disk with no row. */
  lemma CrossGroupRemoval()
    ensures !IsMember(TwoGroups.memberships, Beta.id, 1)
    ensures RemoveFileInfo(TwoGroups, 1, Report.id, "alpha", NoFault).result == Pass
    ensures Report !in RemoveFileInfo(TwoGroups, 1, Report.id, "alpha", NoFault).tables.files
    ensures var s := DeleteFileHandler(TwoGroupsOnDisk, AlphaOwner, Some(FileRequest("alpha", Report.id)), NoFaults, false);
      && s.replies == [Done] && s.replies[0].status == StatusOK
      && s.world.tables == RemoveFileInfo(TwoGroups, 1, Report.id, "alpha", NoFault).tables
      && !DiskBacked(s.world)
  {
    assert FindGroup(TwoGroups.groups, "alpha") == Some(Alpha);
    assert FindFile(TwoGroups.files, Report.id) == Some(Report);
    assert IsMember(TwoGroups.memberships, Alpha.id, 1) by {
      assert Membership(1, 1, 1) in TwoGroups.memberships;
    }
    var after := RemoveFileInfo(TwoGroups, 1, Report.id, "alpha", NoFault).tables;
    assert after.files == [];
    var dirs := FileRemoved(TwoGroupsOnDisk.dirs, "alpha", Report.id, false);
    assert "beta" in dirs && Report.id in dirs["beta"];
  }

  /** As written: the owner of "alpha", naming "alpha", reads the metadata of the file of
      "beta". */
  lemma CrossGroupRead()
    ensures !IsMember(TwoGroups.memberships, Beta.id, 1)
    ensures GetFileInfo(TwoGroups, 1, Report.id, "alpha", NoFault) == Ok(Report)
  {
    assert IsMemberByName(TwoGroups, 1, "alpha") by {
      assert Membership(1, 1, 1) in TwoGroups.memberships && Alpha in TwoGroups.groups;
    }
    assert FindFile(TwoGroups.files, Report.id) == Some(Report);
  }

  /** The corrected definitions refuse the cross-group requests above as "not found", a 404,
      and the store keeps the file of "beta". */
  lemma CrossGroupRequestsRefused()
    ensures RemoveFileInfoInGroup(TwoGroups, 1, Report.id, "alpha", NoFault)
      == Applied(TwoGroups, Fail(ItemNotFoundError(FileMissing)))
    ensures GetFileInfoInGroup(TwoGroups, 1, Report.id, "alpha", NoFault) == Err(ItemNotFoundError(FileMissing))
    ensures ErrorReply(ItemNotFoundError(FileMissing)).status == StatusNotFound
  {
    assert FindGroup(TwoGroups.groups, "alpha") == Some(Alpha);
    assert FindFile(TwoGroups.files, Report.id) == Some(Report);
    assert IsMemberByName(TwoGroups, 1, "alpha") by {
      assert Membership(1, 1, 1) in TwoGroups.memberships && Alpha in TwoGroups.groups;
    }
    assert !FileInGroupNamed(TwoGroups.groups, Report, "alpha");
  }

  // ---------------------------------------------------------------------------------
  // GetAllUsersInGroup reports a failed group lookup as an invalid group

  /** As written: a store failure on the group lookup leaves the zero group, which is
      inactive, so an existing active group the caller belongs to is reported to them as
      invalid; the branch meant to pass the failure on is never reached. */
  lemma LookupFailureLooksLikeInvalidGroup(cause: string)
    ensures IsMember(TwoGroups.memberships, Alpha.id, 1) && Alpha in TwoGroups.groups && Alpha.active
    ensures GetAllUsersInGroup(TwoGroups, 1, "alpha", FailAt(1, cause)) == Err(ClientError(InvalidGroup))
  {
    assert Membership(1, 1, 1) in TwoGroups.memberships;
  }

  /** With the corrected definition the failure above reaches the client as a 500. */
  lemma LookupFailureIsServerError(cause: string)
    ensures ErrorReply(GetAllUsersInGroupReported(TwoGroups, 1, "alpha", FailAt(1, cause)).error).status
      == StatusInternalServerError
  {
  }
}
