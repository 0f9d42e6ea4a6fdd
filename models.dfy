/** The rows of the four tables (web-server/internal/db/models). Timestamps are left out. */
module Models {

  /** A registered user; `password` is the bcrypt hash the handler computed. */
  datatype User = User(id: nat, username: string, password: string)

  /** A file-sharing group. `active` turns false when the owner deletes the group; the row
      itself goes only when the eraser job runs. */
  datatype Group = Group(id: nat, name: string, ownerId: nat, active: bool)

  /** A (group, user) pair. */
  datatype Membership = Membership(id: nat, groupId: nat, userId: nat)

  /** Metadata of an uploaded file; `id` is also the file's name inside the group directory. */
  datatype FileInfo = FileInfo(id: nat, name: string, ownerId: nat, groupId: nat)

  /** The zero value of a Group struct, which a failed lookup leaves behind. */
  const ZeroGroup := Group(0, "", 0, false)

  /** The zero value of a FileInfo struct, which DownloadFile goes on with after a failed lookup. */
  const ZeroFileInfo := FileInfo(0, "", 0, 0)

  /** The column default of `active` (group.go declares it `default:true`). */
  const ActiveByDefault := true

  /** A group as `tx.Create` inserts it: the store assigns the id and `active` takes its default. */
  function NewGroup(id: nat, name: string, ownerId: nat): (g: Group)
    ensures g.active
  {
    Group(id, name, ownerId, ActiveByDefault)
  }

  function UserId(u: User): nat { u.id }
  function UserName(u: User): string { u.username }
  function GroupId(g: Group): nat { g.id }
  function GroupName(g: Group): string { g.name }
  function MembershipId(m: Membership): nat { m.id }
  function MembershipPair(m: Membership): (nat, nat) { (m.groupId, m.userId) }
  function FileId(f: FileInfo): nat { f.id }
}
