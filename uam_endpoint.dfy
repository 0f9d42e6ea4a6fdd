/** UamEndpointImpl (web-server/api/rest/uam_endpoint.go): the user and group handlers. Each
    reads the caller's id and the request body, calls the DAO, and turns its error into a
    reply; CreateGroup also creates the group's directory before the DAO call and removes it
    again when the DAO fails for a reason other than the request.

    Each handler is given as a function from the store (and the directories) and the request
    to the new state and the replies written, and as a method on UamEndpointImpl proved to
    behave as that function says. Password hashing, password comparison and token generation
    are functions the endpoint is given. */
module UamEndpoint {
  import opened Errors
  import opened Models
  import opened Store
  import opened UamSpec
  import opened UamInvariants
  import opened UamDao
  import opened Validator
  import opened GroupDirs
  import opened AsyncJob
  import opened Gin
  import opened Helper

  const InvalidJsonBody := "Invalid json body"
  const BadUsername := "Problem with the username"
  const BadPassword := "Problem with the password"
  const HashFailed := "Problem encryption of password during the registration."
  const UserCreationDesc := "Problem crearing the user in the db."
  const UserDeletionDesc := "Problem with deletion of user."
  const UserDeletingDesc := "Problem with deleting user"
  const InvalidCredentials := "Invalid credentials"
  const LoginDesc := "Problem with Login."
  const TokenDesc := "Problem with generating Jwt token in the login logic."
  const BadGroupName := "Problem with the group name"
  const GroupAlreadyExists := "Problem with creation of group. Reason: Group already exists"
  const DirCreationDesc := "Problem with creation of directory"
  const GroupCreationDesc := "Problem with creation of group."
  const RevokeDesc := "Couldnt remove membership"
  const GroupDeletionDesc := "Problem with deletion of group."

  const Created := Reply(StatusCreated, BasicBody(StatusCreated))
  const Done := Reply(StatusOK, BasicBody(StatusOK))

  datatype Credentials = Credentials(username: string, password: string)
  datatype MembershipPayload = MembershipPayload(groupName: string, username: string)

  /** The store after a handler and the replies it wrote. */
  datatype Handled = Handled(tables: Tables, replies: seq<Reply>)

  /** The store and the directories after a handler, and the replies it wrote. */
  datatype Served = Served(world: World, replies: seq<Reply>)

  // ---------------------------------------------------------------------------------
  // Reclassification of DAO errors

  /** AddMember, DeleteGroup, CreateUser and CreateGroup: a client error goes out as it is,
      anything else becomes a server error. */
  function PassClientErrors(err: Error, desc: string): (r: Error)
    ensures r.ClientError? <==> err.ClientError?
    ensures r.ClientError? ==> r == err
    ensures !r.ClientError? ==> r.ServerError?
  {
    if err.ClientError? then err else ServerErrorWrap(err, desc)
  }

  /** RevokeMembership: only a server error is rewrapped. */
  function RevokeMembershipError(err: Error): (r: Error)
    ensures r.ServerError? <==> err.ServerError?
    ensures !err.ServerError? ==> r == err
  {
    if err.ServerError? then ServerErrorWrap(err, RevokeDesc) else err
  }

  /** DeleteUser: every error is wrapped twice as a server error. */
  function DeleteUserError(err: Error): (r: Error)
    ensures r.ServerError?
  {
    ServerErrorWrap(ServerErrorWrap(err, UserDeletionDesc), UserDeletingDesc)
  }

  /** Login: an unknown username is reported like a wrong password. */
  function LoginLookupError(err: Error): (r: Error)
    ensures err.ItemNotFoundError? ==> r == ClientError(InvalidCredentials)
    ensures !err.ItemNotFoundError? ==> r.ServerError?
  {
    if err.ItemNotFoundError? then ClientError(InvalidCredentials) else ServerErrorWrap(err, LoginDesc)
  }

  /** Through AddMember, DeleteGroup, CreateUser and CreateGroup a missing row reaches the
      client as 500, not 404. */
  lemma PassClientErrorsStatus(err: Error, desc: string)
    ensures ErrorReply(PassClientErrors(err, desc)).status ==
      if err.ClientError? then StatusBadRequest else StatusInternalServerError
  {
  }

  /** Through RevokeMembership every error keeps its status; a missing group or user is 404. */
  lemma RevokeMembershipKeepsStatus(err: Error)
    ensures ErrorReply(RevokeMembershipError(err)).status == ErrorReply(err).status
    ensures !err.ServerError? ==> ErrorReply(RevokeMembershipError(err)) == ErrorReply(err)
  {
  }

  /** Through DeleteUser every error is a 500. */
  lemma DeleteUserAlwaysServerError(err: Error)
    ensures ErrorReply(DeleteUserError(err)).status == StatusInternalServerError
  {
  }

  // ---------------------------------------------------------------------------------
  // validateRegistration

  function ValidateRegistration(username: string, password: string): (r: Outcome)
    ensures r.Pass? <==> ValidateUsername(username).Pass? && ValidatePassword(password).Pass?
    ensures ValidateUsername(username).Fail? ==>
      r == Fail(ClientErrorWrap(ValidateUsername(username).error, BadUsername))
    ensures ValidateUsername(username).Pass? && ValidatePassword(password).Fail? ==>
      r == Fail(ClientErrorWrap(ValidatePassword(password).error, BadPassword))
  {
    match ValidateUsername(username)
    case Fail(e) => Fail(ClientErrorWrap(e, BadUsername))
    case Pass =>
      match ValidatePassword(password)
      case Fail(e) => Fail(ClientErrorWrap(e, BadPassword))
      case Pass => Pass
  }

  /** The password is not looked at when the username is refused. */
  lemma PasswordIgnoredForBadUsername(username: string, p1: string, p2: string)
    requires ValidateUsername(username).Fail?
    ensures ValidateRegistration(username, p1) == ValidateRegistration(username, p2)
  {
  }

  // ---------------------------------------------------------------------------------
  // The handlers as functions

  /** The error reply GetIDFromContext's failure adds; handlers that do not return after it go
      on with id 0. */
  function IdReplies(id: Result<nat>): seq<Reply>
  {
    if id.Err? then [ErrorReply(id.error)] else []
  }

  function CreateUserHandler(t: Tables, rq: Option<Credentials>, hash: string -> Result<string>,
                             fault: Fault): Handled
  {
    if rq.None? then Handled(t, [ErrorReply(ClientError(InvalidJsonBody))])
    else
      var Credentials(username, password) := rq.value;
      match ValidateRegistration(username, password)
      case Fail(e) => Handled(t, [ErrorReply(e)])
      case Pass =>
        match hash(password)
        case Err(e) => Handled(t, [ErrorReply(ServerErrorWrap(e, HashFailed))])
        case Ok(hashed) =>
          var a := UamSpec.CreateUser(t, username, hashed, fault);
          Handled(a.tables, [if a.result.Pass? then Created else ErrorReply(PassClientErrors(a.result.error, UserCreationDesc))])
  }

  /** Registration stores the hash, never the password itself, and only for names and
      passwords the rules accept. */
  lemma RegistrationStoresHash(t: Tables, rq: Option<Credentials>, hash: string -> Result<string>, fault: Fault)
    requires CreateUserHandler(t, rq, hash, fault).replies == [Created]
    ensures rq.Some? && ValidateUsername(rq.value.username).Pass? && ValidatePassword(rq.value.password).Pass?
    ensures hash(rq.value.password).Ok?
    ensures CreateUserHandler(t, rq, hash, fault).tables.users
      == t.users + [User(t.ids.user, rq.value.username, hash(rq.value.password).value)]
  {
    if rq.None? {
    } else if ValidateRegistration(rq.value.username, rq.value.password).Fail? {
    }
  }

  function DeleteUserHandler(t: Tables, keys: map<string, Value>, fault: Fault): Handled
  {
    var id := GetIDFromContext(keys);
    var a := UamSpec.DeleteUser(t, IdOrZero(id), fault);
    Handled(a.tables, IdReplies(id) + [if a.result.Pass? then Done else ErrorReply(DeleteUserError(a.result.error))])
  }

  /** DeleteUser goes on after failing to read the id. Behind the authentication filter the
      id is always there; without it the handler answers twice and deletes nothing, since no
      user has id 0. */
  lemma DeleteUserWithoutIdAnswersTwice(t: Tables, keys: map<string, Value>, fault: Fault)
    requires WellFormed(t) && UserIdKey !in keys
    ensures DeleteUserHandler(t, keys, fault).tables == t
    ensures DeleteUserHandler(t, keys, fault).replies ==
      [ErrorReply(ServerError(NoUserId)), Reply(StatusInternalServerError, ErrorBody(StatusInternalServerError, ServerProblem))]
  {
  }

  function LoginHandler(t: Tables, rq: Option<Credentials>, matches: (string, string) -> bool,
                        token: nat -> Result<string>, fault: Fault): (replies: seq<Reply>)
  {
    if rq.None? then [ErrorReply(ClientError(InvalidJsonBody))]
    else
      match GetUserWithConn(t.users, rq.value.username, fault, 1)
      case Err(e) => [ErrorReply(LoginLookupError(e))]
      case Ok(user) =>
        if !matches(user.password, rq.value.password) then [ErrorReply(ClientError(InvalidCredentials))]
        else match token(user.id)
          case Err(e) => [ErrorReply(ServerErrorWrap(e, TokenDesc))]
          case Ok(signed) => [Reply(StatusCreated, LoginBody(StatusCreated, signed))]
  }

  /** A login with an unknown username and one with a known username but the wrong password
      get the same reply. */
  lemma LoginHidesUnknownUsers(t: Tables, unknown: Credentials, known: Credentials,
                               matches: (string, string) -> bool, token: nat -> Result<string>)
    requires !UsernameTaken(t.users, unknown.username) && UsernameTaken(t.users, known.username)
    requires !matches(GetUserWithConn(t.users, known.username, NoFault, 1).value.password, known.password)
    ensures LoginHandler(t, Some(unknown), matches, token, NoFault) == LoginHandler(t, Some(known), matches, token, NoFault)
    ensures LoginHandler(t, Some(unknown), matches, token, NoFault) == [ErrorReply(ClientError(InvalidCredentials))]
  {
  }

  /** A login succeeds exactly for a stored user whose hash matches and whose token is
      signed; the reply carries that token. */
  lemma LoginSucceedsIff(t: Tables, rq: Credentials, matches: (string, string) -> bool, token: nat -> Result<string>)
    ensures var replies := LoginHandler(t, Some(rq), matches, token, NoFault);
      replies[0].status == StatusCreated <==>
        && UsernameTaken(t.users, rq.username)
        && var user := GetUserWithConn(t.users, rq.username, NoFault, 1).value;
           matches(user.password, rq.password) && token(user.id).Ok?
  {
  }

  function CreateGroupHandler(w: World, keys: map<string, Value>, rq: Option<string>, statFails: bool,
                              mkdirFailure: Option<string>, removeFails: bool, fault: Fault): Served
  {
    var id := GetIDFromContext(keys);
    var pre := IdReplies(id);
    if rq.None? then Served(w, pre + [ErrorReply(ClientError(InvalidJsonBody))])
    else
      var s := MakeGroup(w, IdOrZero(id), rq.value, statFails, mkdirFailure, removeFails, fault);
      Served(s.world, pre + s.replies)
  }

  /** The part of CreateGroup after the body is read: check the name, make the directory,
      then store the group. */
  function MakeGroup(w: World, owner: nat, name: string, statFails: bool,
                     mkdirFailure: Option<string>, removeFails: bool, fault: Fault): Served
  {
    match ValidateUsername(name)
    case Fail(e) => Served(w, [ErrorReply(ClientErrorWrap(e, BadGroupName))])
    case Pass =>
      if name in w.dirs || statFails then Served(w, [ErrorReply(ClientError(GroupAlreadyExists))])
      else if mkdirFailure.Some? then
        Served(w, [ErrorReply(ServerErrorWrap(ServerError(mkdirFailure.value), DirCreationDesc))])
      else StoreGroup(World(w.tables, w.dirs[name := {}]), owner, name, removeFails, fault)
  }

  /** The part of CreateGroup after the directory is made: create the row, and remove the
      directory again when that fails for a reason other than the request. */
  function StoreGroup(w: World, owner: nat, name: string, removeFails: bool, fault: Fault): Served
  {
    var a := UamSpec.CreateGroup(w.tables, owner, name, fault);
    if a.result.Pass? then Served(World(a.tables, w.dirs), [Created])
    else if a.result.error.ClientError? then Served(World(a.tables, w.dirs), [ErrorReply(a.result.error)])
    else Served(World(a.tables, if removeFails then w.dirs else w.dirs - {name}),
                [ErrorReply(ServerErrorWrap(a.result.error, GroupCreationDesc))])
  }

  /** An invalid group name changes neither the directories nor the store. */
  lemma CreateGroupRefusesInvalidName(w: World, keys: map<string, Value>, name: string, statFails: bool,
                                      mkdirFailure: Option<string>, removeFails: bool, fault: Fault)
    requires ValidateUsername(name).Fail?
    ensures CreateGroupHandler(w, keys, Some(name), statFails, mkdirFailure, removeFails, fault).world == w
  {
  }

  /** An existing directory stops the handler before the DAO is called. */
  lemma CreateGroupRefusesExistingDir(w: World, keys: map<string, Value>, name: string, statFails: bool,
                                      mkdirFailure: Option<string>, removeFails: bool, fault: Fault)
    requires ValidateUsername(name).Pass? && name in w.dirs
    ensures var s := CreateGroupHandler(w, keys, Some(name), statFails, mkdirFailure, removeFails, fault);
      s.world == w && s.replies[|s.replies| - 1] == ErrorReply(ClientError(GroupAlreadyExists))
  {
  }

  /** A created group has its row (active, owned by the caller, with the owner's membership)
      and its empty directory. */
  lemma CreateGroupCreatesRowAndDir(w: World, keys: map<string, Value>, name: string, statFails: bool,
                                    mkdirFailure: Option<string>, removeFails: bool, fault: Fault)
    requires var s := CreateGroupHandler(w, keys, Some(name), statFails, mkdirFailure, removeFails, fault);
      s.replies[|s.replies| - 1] == Created
    ensures var s := CreateGroupHandler(w, keys, Some(name), statFails, mkdirFailure, removeFails, fault);
      var owner := IdOrZero(GetIDFromContext(keys));
      && name !in w.dirs && s.world.dirs == w.dirs[name := {}]
      && s.world.tables == UamSpec.CreateGroup(w.tables, owner, name, fault).tables
      && Group(w.tables.ids.group, name, owner, true) in s.world.tables.groups
      && Membership(w.tables.ids.membership, w.tables.ids.group, owner) in s.world.tables.memberships
  {
    var s := CreateGroupHandler(w, keys, Some(name), statFails, mkdirFailure, removeFails, fault);
    assert s.replies[|s.replies| - 1] != ErrorReply(ClientError(GroupAlreadyExists));
  }

  /** When the DAO fails for a reason other than the request, the directory made for the
      group is removed again (if that removal works) and the store is as it was. */
  lemma CreateGroupCompensates(w: World, keys: map<string, Value>, name: string, fault: Fault)
    requires ValidateUsername(name).Pass? && name !in w.dirs
    requires var a := UamSpec.CreateGroup(w.tables, IdOrZero(GetIDFromContext(keys)), name, fault);
      a.result.Fail? && !a.result.error.ClientError?
    ensures CreateGroupHandler(w, keys, Some(name), false, None, false, fault).world == w
  {
  }

  /** When the DAO refuses the request (the name belongs to a row whose directory is gone,
      such as a deactivated group waiting to be erased), the new directory stays. */
  lemma CreateGroupLeavesDirOnClientError(w: World, keys: map<string, Value>, name: string, fault: Fault)
    requires ValidateUsername(name).Pass? && name !in w.dirs
    requires NameTaken(w.tables.groups, name) && !fault.Hits(1)
    ensures var s := CreateGroupHandler(w, keys, Some(name), false, None, false, fault);
      s.world == World(w.tables, w.dirs[name := {}])
      && s.replies[|s.replies| - 1] == ErrorReply(ClientError(GroupNameExists))
  {
  }

  function AddMemberHandler(t: Tables, keys: map<string, Value>, rq: Option<MembershipPayload>, fault: Fault): Handled
  {
    var id := GetIDFromContext(keys);
    if rq.None? then Handled(t, IdReplies(id) + [ErrorReply(ClientError(InvalidJsonBody))])
    else
      var h := MembershipAdded(t, IdOrZero(id), rq.value, fault);
      Handled(h.tables, IdReplies(id) + h.replies)
  }

  /** The tail of AddMember, once the body is read: the DAO call and its one reply. */
  function MembershipAdded(t: Tables, owner: nat, rq: MembershipPayload, fault: Fault): Handled
  {
    var a := UamSpec.AddUserToGroup(t, owner, rq.username, rq.groupName, fault);
    Handled(a.tables, [if a.result.Pass? then Created else ErrorReply(PassClientErrors(a.result.error, GroupCreationDesc))])
  }

  /** Adding a member to a group that does not exist is answered with 500. */
  lemma AddMemberToMissingGroupIsServerError(t: Tables, keys: map<string, Value>, rq: MembershipPayload)
    requires GetIDFromContext(keys).Ok? && !NameTaken(t.groups, rq.groupName)
    ensures AddMemberHandler(t, keys, Some(rq), NoFault).replies[0].status == StatusInternalServerError
  {
    PassClientErrorsStatus(ItemNotFoundError(GroupMissing(rq.groupName)), GroupCreationDesc);
  }

  function RevokeMembershipHandler(t: Tables, keys: map<string, Value>, rq: Option<MembershipPayload>, fault: Fault): Handled
  {
    var id := GetIDFromContext(keys);
    if id.Err? then Handled(t, [ErrorReply(id.error)])
    else if rq.None? then Handled(t, [ErrorReply(ClientError(InvalidJsonBody))])
    else
      var a := UamSpec.RemoveUserFromGroup(t, id.value, rq.value.username, rq.value.groupName, fault);
      Handled(a.tables, [if a.result.Pass? then Done else ErrorReply(RevokeMembershipError(a.result.error))])
  }

  function DeleteGroupHandler(t: Tables, keys: map<string, Value>, rq: Option<string>, fault: Fault): Handled
  {
    var id := GetIDFromContext(keys);
    if id.Err? then Handled(t, [ErrorReply(id.error)])
    else if rq.None? then Handled(t, [ErrorReply(ClientError(InvalidJsonBody))])
    else
      var a := UamSpec.DeactivateGroup(t, id.value, rq.value, fault);
      Handled(a.tables, [if a.result.Pass? then Done else ErrorReply(PassClientErrors(a.result.error, GroupDeletionDesc))])
  }

  /** CreateUser, Login, RevokeMembership and DeleteGroup write exactly one reply, whatever
      happens. */
  lemma OneReplyPerRequest(t: Tables, keys: map<string, Value>, fault: Fault,
                           cred: Option<Credentials>, hash: string -> Result<string>,
                           matches: (string, string) -> bool, token: nat -> Result<string>,
                           group: Option<string>, membership: Option<MembershipPayload>)
    ensures |CreateUserHandler(t, cred, hash, fault).replies| == 1
    ensures |LoginHandler(t, cred, matches, token, fault)| == 1
    ensures |RevokeMembershipHandler(t, keys, membership, fault).replies| == 1
    ensures |DeleteGroupHandler(t, keys, group, fault).replies| == 1
  {
  }

  /** DeleteUser, AddMember and CreateGroup go on after failing to read the id, and then
      write one reply more than the others. */
  lemma ExtraReplyWithoutId(t: Tables, w: World, keys: map<string, Value>, fault: Fault,
                            group: Option<string>, membership: Option<MembershipPayload>,
                            statFails: bool, mkdirFailure: Option<string>, removeFails: bool)
    ensures var extra := if GetIDFromContext(keys).Ok? then 0 else 1;
      && |DeleteUserHandler(t, keys, fault).replies| == 1 + extra
      && |AddMemberHandler(t, keys, membership, fault).replies| == 1 + extra
      && |CreateGroupHandler(w, keys, group, statFails, mkdirFailure, removeFails, fault).replies| == 1 + extra
  {
  }

  // ---------------------------------------------------------------------------------
  // The handlers as methods

  /** The first step of DeleteUser, AddMember and CreateGroup: read the caller's id and
      report a failure, without returning. */
  method ReadCallerId(c: Context) returns (id: Result<nat>)
    modifies c
    ensures id == GetIDFromContext(old(c.keys))
    ensures c.replies == old(c.replies) + IdReplies(id) && c.keys == old(c.keys)
  {
    id := GetIDFromContext(c.keys);
    if id.Err? {
      SendErrorResponse(c, id.error);
    }
  }

  class UamEndpointImpl {
    const dao: UamDaoImpl
    const fs: FileSystem
    /** bcrypt.GenerateFromPassword */
    const hash: string -> Result<string>
    /** bcrypt.CompareHashAndPassword(hash, password) reports no error */
    const matches: (string, string) -> bool
    /** jwtCreator.GenerateToken */
    const token: nat -> Result<string>

    constructor (dao: UamDaoImpl, fs: FileSystem, hash: string -> Result<string>,
                 matches: (string, string) -> bool, token: nat -> Result<string>)
      ensures this.dao == dao && this.fs == fs
      ensures this.hash == hash && this.matches == matches && this.token == token
    {
      this.dao := dao;
      this.fs := fs;
      this.hash := hash;
      this.matches := matches;
      this.token := token;
    }

    method CreateUser(c: Context, rq: Option<Credentials>, fault: Fault)
      requires dao.db.Valid()
      modifies c, dao.db
      ensures var h := CreateUserHandler(old(dao.db.Snapshot()), rq, hash, fault);
        dao.db.Snapshot() == h.tables && c.replies == old(c.replies) + h.replies
      ensures dao.db.Valid() && c.keys == old(c.keys)
    {
      if rq.None? {
        SendErrorResponse(c, ClientError(InvalidJsonBody));
        return;
      }
      var valid := ValidateRegistration(rq.value.username, rq.value.password);
      if valid.Fail? {
        SendErrorResponse(c, valid.error);
        return;
      }
      var hashed := hash(rq.value.password);
      if hashed.Err? {
        SendErrorResponse(c, ServerErrorWrap(hashed.error, HashFailed));
        return;
      }
      var r := dao.CreateUser(rq.value.username, hashed.value, fault);
      if r.Fail? {
        SendErrorResponse(c, PassClientErrors(r.error, UserCreationDesc));
        return;
      }
      c.JSON(StatusCreated, BasicBody(StatusCreated));
    }

    method DeleteUser(c: Context, fault: Fault)
      requires dao.db.Valid()
      modifies c, dao.db
      ensures var h := DeleteUserHandler(old(dao.db.Snapshot()), old(c.keys), fault);
        dao.db.Snapshot() == h.tables && c.replies == old(c.replies) + h.replies
      ensures dao.db.Valid() && c.keys == old(c.keys)
    {
      var id := ReadCallerId(c);
      var r := dao.DeleteUser(IdOrZero(id), fault);
      if r.Fail? {
        SendErrorResponse(c, DeleteUserError(r.error));
        return;
      }
      c.JSON(StatusOK, BasicBody(StatusOK));
    }

    method Login(c: Context, rq: Option<Credentials>, fault: Fault)
      modifies c
      ensures c.replies == old(c.replies) + LoginHandler(dao.db.Snapshot(), rq, matches, token, fault)
      ensures c.keys == old(c.keys)
    {
      if rq.None? {
        SendErrorResponse(c, ClientError(InvalidJsonBody));
        return;
      }
      var user := dao.GetUser(rq.value.username, fault);
      if user.Err? {
        SendErrorResponse(c, LoginLookupError(user.error));
        return;
      }
      if !matches(user.value.password, rq.value.password) {
        SendErrorResponse(c, ClientError(InvalidCredentials));
        return;
      }
      var signed := token(user.value.id);
      if signed.Err? {
        SendErrorResponse(c, ServerErrorWrap(signed.error, TokenDesc));
        return;
      }
      c.JSON(StatusCreated, LoginBody(StatusCreated, signed.value));
    }

    /** CreateGroup: validate the name, make the directory, then create the row; remove the
        directory again when the DAO fails for a reason other than the request. */
    method CreateGroup(c: Context, rq: Option<string>, statFails: bool, mkdirFailure: Option<string>,
                       removeFails: bool, fault: Fault)
      requires dao.db.Valid()
      modifies c, dao.db, fs
      ensures var s := CreateGroupHandler(old(World(dao.db.Snapshot(), fs.dirs)), old(c.keys), rq,
                                          statFails, mkdirFailure, removeFails, fault);
        World(dao.db.Snapshot(), fs.dirs) == s.world && c.replies == old(c.replies) + s.replies
      ensures dao.db.Valid() && c.keys == old(c.keys)
    {
      var id := ReadCallerId(c);
      if rq.None? {
        SendErrorResponse(c, ClientError(InvalidJsonBody));
        return;
      }
      CreateNamedGroup(c, IdOrZero(id), rq.value, statFails, mkdirFailure, removeFails, fault);
    }

    /** CreateGroup once the body is read. */
    method CreateNamedGroup(c: Context, owner: nat, name: string, statFails: bool, mkdirFailure: Option<string>,
                     removeFails: bool, fault: Fault)
      requires dao.db.Valid()
      modifies c, dao.db, fs
      ensures var s := MakeGroup(old(World(dao.db.Snapshot(), fs.dirs)), owner, name,
                                             statFails, mkdirFailure, removeFails, fault);
        World(dao.db.Snapshot(), fs.dirs) == s.world && c.replies == old(c.replies) + s.replies
      ensures dao.db.Valid() && c.keys == old(c.keys)
    {
      var valid := CheckRules(UsernameRules, name);
      if valid.Fail? {
        SendErrorResponse(c, ClientErrorWrap(valid.error, BadGroupName));
        return;
      }
      var present := fs.StatNotAbsent(name, statFails);
      if present {
        SendErrorResponse(c, ClientError(GroupAlreadyExists));
        return;
      }
      var made := fs.Mkdir(name, mkdirFailure.Some?);
      if !made {
        SendErrorResponse(c, ServerErrorWrap(ServerError(mkdirFailure.value), DirCreationDesc));
        return;
      }
      SaveGroup(c, owner, name, removeFails, fault);
    }

    /** The tail of CreateGroup, once the directory exists. */
    method SaveGroup(c: Context, owner: nat, name: string, removeFails: bool, fault: Fault)
      requires dao.db.Valid()
      modifies c, dao.db, fs
      ensures var s := StoreGroup(old(World(dao.db.Snapshot(), fs.dirs)), owner, name, removeFails, fault);
        World(dao.db.Snapshot(), fs.dirs) == s.world && c.replies == old(c.replies) + s.replies
      ensures dao.db.Valid() && c.keys == old(c.keys)
    {
      var r := dao.CreateGroup(owner, name, fault);
      if r.Fail? && r.error.ClientError? {
        SendErrorResponse(c, r.error);
        return;
      } else if r.Fail? {
        fs.RemoveAll(name, removeFails);
        SendErrorResponse(c, ServerErrorWrap(r.error, GroupCreationDesc));
        return;
      }
      c.JSON(StatusCreated, BasicBody(StatusCreated));
    }

    method AddMember(c: Context, rq: Option<MembershipPayload>, fault: Fault)
      requires dao.db.Valid()
      modifies c, dao.db
      ensures var h := AddMemberHandler(old(dao.db.Snapshot()), old(c.keys), rq, fault);
        dao.db.Snapshot() == h.tables && c.replies == old(c.replies) + h.replies
      ensures dao.db.Valid() && c.keys == old(c.keys)
    {
      var id := ReadCallerId(c);
      if rq.None? {
        SendErrorResponse(c, ClientError(InvalidJsonBody));
        return;
      }
      AddMembership(c, IdOrZero(id), rq.value, fault);
    }

    /** AddMember once the body is read. */
    method AddMembership(c: Context, owner: nat, rq: MembershipPayload, fault: Fault)
      requires dao.db.Valid()
      modifies c, dao.db
      ensures var h := MembershipAdded(old(dao.db.Snapshot()), owner, rq, fault);
        dao.db.Snapshot() == h.tables && c.replies == old(c.replies) + h.replies
      ensures dao.db.Valid() && c.keys == old(c.keys)
    {
      var r := dao.AddUserToGroup(owner, rq.username, rq.groupName, fault);
      if r.Fail? {
        SendErrorResponse(c, PassClientErrors(r.error, GroupCreationDesc));
        return;
      }
      c.JSON(StatusCreated, BasicBody(StatusCreated));
    }

    method RevokeMembership(c: Context, rq: Option<MembershipPayload>, fault: Fault)
      requires dao.db.Valid()
      modifies c, dao.db
      ensures var h := RevokeMembershipHandler(old(dao.db.Snapshot()), old(c.keys), rq, fault);
        dao.db.Snapshot() == h.tables && c.replies == old(c.replies) + h.replies
      ensures dao.db.Valid() && c.keys == old(c.keys)
    {
      var id := GetIDFromContext(c.keys);
      if id.Err? {
        SendErrorResponse(c, id.error);
        return;
      }
      if rq.None? {
        SendErrorResponse(c, ClientError(InvalidJsonBody));
        return;
      }
      var r := dao.RemoveUserFromGroup(id.value, rq.value.username, rq.value.groupName, fault);
      if r.Fail? {
        SendErrorResponse(c, RevokeMembershipError(r.error));
        return;
      }
      c.JSON(StatusOK, BasicBody(StatusOK));
    }

    method DeleteGroup(c: Context, rq: Option<string>, fault: Fault)
      requires dao.db.Valid()
      modifies c, dao.db
      ensures var h := DeleteGroupHandler(old(dao.db.Snapshot()), old(c.keys), rq, fault);
        dao.db.Snapshot() == h.tables && c.replies == old(c.replies) + h.replies
      ensures dao.db.Valid() && c.keys == old(c.keys)
    {
      var id := GetIDFromContext(c.keys);
      if id.Err? {
        SendErrorResponse(c, id.error);
        return;
      }
      if rq.None? {
        SendErrorResponse(c, ClientError(InvalidJsonBody));
        return;
      }
      var r := dao.DeactivateGroup(id.value, rq.value, fault);
      if r.Fail? {
        SendErrorResponse(c, PassClientErrors(r.error, GroupDeletionDesc));
        return;
      }
      c.JSON(StatusOK, BasicBody(StatusOK));
    }
  }
}
