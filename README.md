# UShare web server: group lifecycle and membership engine

UShare is a file-sharing web server. Users register and log in. A user creates groups
and owns them, adds and revokes members, and uploads files into a group. Each group's
files are kept in a directory named after the group. Deleting a group is a soft delete:
`DeactivateGroup` clears the group's memberships and marks the row inactive. A periodic
reaper (`GroupEraserJobImpl.DeleteGroups`) later removes the directories of the inactive
groups and erases their rows.

This project models that engine in Dafny:

- the store operations of `uam_dao.go` and `fm_dao.go`;
- the HTTP handlers of `uam_endpoint.go` and `fm_endpoint.go`;
- the authorization middleware;
- the validator;
- the error-to-reply mapping of `helper.go`;
- the reaper of `async_job.go`.

The model is layered as follows.

- **Store** (`store.dfy`) holds the tables (users, groups, memberships, files) as sequences
  of rows in id order, each table with its own id counter. `WellFormed` is the invariant
  the store operations keep:
  - ids are positive, increasing and below the counter;
  - user names, group names and (group, user) pairs are unique;
  - memberships and files point at group ids below the group counter (a file row can
    outlive its group, because erasing a group leaves its `file_infos` rows);
  - no membership points at an inactive group.

  `Database` is the mutable connection both DAOs share. A store failure is an injected
  `Fault` that fails one numbered step of an operation.
- **UamSpec / FmSpec** give each DAO operation as a function from the tables to the new
  tables and the result. **UamDao / FmDao** give the same operations as methods on a
  class. Each method runs the statements one by one, rolls back on failure, and is proved
  to equal its function. **UamInvariants / FmInvariants** prove that every operation keeps
  `WellFormed` and never reactivates a group, and prove how the operations compose.
- **UamEndpoint / FmEndpoint** give each handler twice:
  - as a function from the store, the group directories and the request to the new
    state and the replies written;
  - as a method on the endpoint class, proved to behave as that function says.

  Password hashing, password comparison, token generation, token validation and every
  file-system outcome are parameters of the model.
- **AsyncJob** is the reaper. `GroupDirs` models the group directories as a map from a
  group name to the set of file ids stored in it.
- **Consistency** ties the store to the group directories with four invariants:
  - every active group has its directory (`ActiveGroupsHaveDirs`);
  - every membership points at an existing group row (`MembershipsInExistingGroups`);
  - every file on disk has its row, in the group its directory is named after
    (`FmEndpoint.DiskBacked`);
  - every row of a file of an active group has its bytes in that group's directory
    (`RowsOnDisk`).

  It proves which handlers and which reaper runs keep each of them.

Where verifying the natural contract showed that the code does not do what its structure
says it means, both versions are kept (see "## Findings"):

- `FmSpec.RemoveFileInfo`, `FmSpec.GetFileInfo` and `UamSpec.GetAllUsersInGroup` are the
  code as written. The DAO classes and the handlers model these.
- `FmSpec.RemoveFileInfoInGroup`, `FmSpec.GetFileInfoInGroup` and
  `UamSpec.GetAllUsersInGroupReported` are the corrected definitions, each with the
  intended property proved about it.

Three behaviours are worth stating on their own:

- After a directory removal fails, the reaper still erases every listed row. The failed
  directory is then left on disk with no row, and no later run removes it
  (`AsyncJob.FailedRemovalIsLeftBehind`).
- UploadFile discards the outcome of the removal that undoes the row after a failed
  write. When that removal fails too, the reply is the usual 500, but the row stays with no
  bytes on disk (`FmEndpoint.FailedWriteIgnoresCompensation`,
  `Consistency.FailedCompensationLeavesRowWithoutBytes`). `Consistency.UploadKeepsRowsOnDisk`
  holds only when no fault stops that removal.
- Nothing prevents two reaper runs from overlapping. The model runs the reaper as one
  sequential step.

## Model

| member | source | states |
|---|---|---|
| UamSpec.GetUserWithConn | web-server/internal/db/dao/uam_dao.go:370-384 | the lookup succeeds iff no failure is injected and a user has the name; the row returned is that user; otherwise the error is "user not found" or a server error |
| UamSpec.GetGroupWithConn | web-server/internal/db/dao/uam_dao.go:386-400 | the lookup succeeds iff no failure is injected and a group has the name; the row returned has that name; otherwise the error is "group not found" or a server error |
| UamSpec.CreateUser | web-server/internal/db/dao/uam_dao.go:50-74 | a failure leaves the tables unchanged; a taken name is a client error; it succeeds iff the name is free and no step fails; then exactly one row with the next id is appended and only the user counter moves |
| UamSpec.DeleteUser | web-server/internal/db/dao/uam_dao.go:77-95 | an unknown id is "not found"; it succeeds iff the id exists and no step fails; then exactly the rows with that id are gone and nothing else changes |
| UamSpec.CreateGroup | web-server/internal/db/dao/uam_dao.go:103-139 | a taken name (active or not) is a client error; it succeeds iff the name is free; then an active group row owned by the caller and the caller's membership are appended with the next ids, and nothing else changes |
| UamSpec.AddUserToGroup | web-server/internal/db/dao/uam_dao.go:147-194 | each refusal (missing group, caller not the owner, group being deleted, unknown user, already a member) gets its own error in the code's order; it succeeds iff all checks pass; then exactly one membership is appended |
| UamSpec.DeactivateGroup | web-server/internal/db/dao/uam_dao.go:197-223 | only the owner of an active group may deactivate it; on success all of the group's memberships are gone, only that group's row becomes inactive, and users, files and counters are unchanged |
| UamSpec.RemoveUserFromGroup | web-server/internal/db/dao/uam_dao.go:226-266 | a missing group, an inactive group and an unknown user each get their error; a caller who is neither the owner nor the target gets "only the owner revokes", an owner revoking themselves gets "the owner cannot leave", and a missing membership gets its error; it succeeds iff the membership exists and the caller may revoke it; then exactly that membership is removed |
| UamSpec.MemberExists | web-server/internal/db/dao/uam_dao.go:269-280 | it fails iff a failure is injected; otherwise it is true iff a membership joins that user and that group |
| UamSpec.GetDeactivatedGroupNames | web-server/internal/db/dao/uam_dao.go:283-294 | it fails iff a failure is injected; otherwise a name is listed iff an inactive group has it |
| UamSpec.EraseDeactivatedGroups | web-server/internal/db/dao/uam_dao.go:297-309 | a failure is a server error and leaves the tables unchanged; on success a group row remains iff its name was not listed, and nothing else changes |
| UamSpec.GetAllUsersInGroup | web-server/internal/db/dao/uam_dao.go:334-368 | as written: a failed group lookup is reported as "Invalid group", like a missing or inactive group; it succeeds iff the group is active and the caller is a member; then it lists exactly the group's members |
| UamSpec.GetAllUsersInGroupReported | web-server/internal/db/dao/uam_dao.go:337-342 | corrected: a failed group lookup is a server error; in every other case it agrees with GetAllUsersInGroup |
| UamInvariants.CreateUserKeepsWellFormed | web-server/internal/db/dao/uam_dao.go:50-74 | CreateUser keeps the store well formed and reactivates no group |
| UamInvariants.DeleteUserKeepsWellFormed | web-server/internal/db/dao/uam_dao.go:77-95 | DeleteUser keeps the store well formed and reactivates no group |
| UamInvariants.CreateGroupKeepsWellFormed | web-server/internal/db/dao/uam_dao.go:103-139 | CreateGroup keeps the store well formed and reactivates no group |
| UamInvariants.AddUserToGroupKeepsWellFormed | web-server/internal/db/dao/uam_dao.go:147-194 | AddUserToGroup keeps the store well formed, so no membership is added to an inactive group |
| UamInvariants.DeactivateGroupKeepsWellFormed | web-server/internal/db/dao/uam_dao.go:197-223 | DeactivateGroup keeps the store well formed and reactivates no group |
| UamInvariants.DeactivatedKeepsWellFormed | web-server/internal/db/dao/uam_dao.go:203-220 | removing a group's memberships and clearing its flag keeps ids and names valid and leaves no membership in an inactive group |
| UamInvariants.RemoveUserFromGroupKeepsWellFormed | web-server/internal/db/dao/uam_dao.go:226-266 | RemoveUserFromGroup keeps the store well formed and reactivates no group |
| UamInvariants.EraseDeactivatedGroupsKeepsWellFormed | web-server/internal/db/dao/uam_dao.go:297-309 | erasing group rows keeps the store well formed and reactivates no group |
| UamInvariants.DeactivatedNameStaysReserved | web-server/internal/db/dao/uam_dao.go:103-139 | a group can never be created under the name of an inactive group that has not yet been erased |
| UamInvariants.EraseTwiceIsErasingOnce | web-server/internal/db/dao/uam_dao.go:297-309 | erasing the same names again succeeds and changes nothing |
| UamInvariants.EraseListedLeavesActive | web-server/internal/db/dao/uam_dao.go:283-309 | erasing the listed inactive names leaves only active groups, and keeps every active group whose name no inactive row shares |
| UamInvariants.DeactivatedGroupHasNoMembers | web-server/internal/db/dao/uam_dao.go:197-223 | in a well-formed store nobody is a member of an inactive group |
| UamInvariants.AddTwiceIsRefused | web-server/internal/db/dao/uam_dao.go:147-194 | adding the same member again is refused as "already a member" |
| UamInvariants.AddThenRevokeRestoresMembers | web-server/internal/db/dao/uam_dao.go:226-266 | revoking a membership the owner just added succeeds and restores the original set of memberships |
| UamDao.UamDaoImpl.CreateUser | web-server/internal/db/dao/uam_dao.go:50-74 | the statements in a transaction give the tables and result of UamSpec.CreateUser, and the store stays valid |
| UamDao.UamDaoImpl.DeleteUser | web-server/internal/db/dao/uam_dao.go:77-95 | the statements give the tables and result of UamSpec.DeleteUser, and the store stays valid |
| UamDao.UamDaoImpl.GetUser | web-server/internal/db/dao/uam_dao.go:98-100 | returns the lookup of the user by name |
| UamDao.UamDaoImpl.GetGroup | web-server/internal/db/dao/uam_dao.go:142-144 | returns the lookup of the group by name |
| UamDao.UamDaoImpl.CreateGroup | web-server/internal/db/dao/uam_dao.go:103-139 | the insert statements with rollback give UamSpec.CreateGroup, and the store stays valid |
| UamDao.UamDaoImpl.AddUserToGroup | web-server/internal/db/dao/uam_dao.go:147-194 | the checks and the insert give UamSpec.AddUserToGroup, and the store stays valid |
| UamDao.UamDaoImpl.DeactivateGroup | web-server/internal/db/dao/uam_dao.go:197-223 | the delete and update statements with rollback give UamSpec.DeactivateGroup, and the store stays valid |
| UamDao.UamDaoImpl.RemoveUserFromGroup | web-server/internal/db/dao/uam_dao.go:226-266 | the checks and the delete give UamSpec.RemoveUserFromGroup, and the store stays valid |
| UamDao.UamDaoImpl.MemberExists | web-server/internal/db/dao/uam_dao.go:269-280 | returns UamSpec.MemberExists of the current tables |
| UamDao.UamDaoImpl.GetDeactivatedGroupNames | web-server/internal/db/dao/uam_dao.go:283-294 | returns UamSpec.GetDeactivatedGroupNames of the current tables |
| UamDao.UamDaoImpl.EraseDeactivatedGroups | web-server/internal/db/dao/uam_dao.go:297-309 | the loop of deletes, rolled back on failure, gives UamSpec.EraseDeactivatedGroups, and the store stays valid |
| UamDao.UamDaoImpl.GetAllUsersInGroup | web-server/internal/db/dao/uam_dao.go:334-368 | returns UamSpec.GetAllUsersInGroup of the current tables, as written: a failed lookup is "Invalid group" |
| FmSpec.GetFileInfoWithConn | web-server/internal/db/dao/fm_dao.go:155-169 | the lookup succeeds iff no failure is injected and a file has the id; the row returned has that id; otherwise "file not found" or a server error |
| FmSpec.AddFileInfo | web-server/internal/db/dao/fm_dao.go:41-78 | a missing group and a caller who is not a member get their errors; it succeeds iff the caller is a member; then the new id is the next file id and exactly that row is appended |
| FmSpec.RemoveFileInfo | web-server/internal/db/dao/fm_dao.go:81-105 | as written: the file is looked up by id alone; it succeeds iff the group exists, the file exists and the caller owns the group or the file; then exactly that file's row is gone |
| FmSpec.GetFileInfo | web-server/internal/db/dao/fm_dao.go:108-128 | as written: a non-member is refused; it succeeds iff the caller is a member of the named group and some file has the id, whatever its group |
| FmSpec.RemoveFileInfoInGroup | web-server/internal/db/dao/fm_dao.go:81-105 | corrected: it succeeds iff, in addition, the file belongs to the named group; then exactly that row is removed and the files of every other group stay |
| FmSpec.GetFileInfoInGroup | web-server/internal/db/dao/fm_dao.go:108-128 | corrected: it succeeds iff the caller is a member and the file with the id belongs to the named group; the row returned is in that group |
| FmSpec.GetAllFilesInfo | web-server/internal/db/dao/fm_dao.go:131-153 | a non-member is refused; otherwise it lists exactly the files whose group has the name |
| FmInvariants.AddFileInfoKeepsWellFormed | web-server/internal/db/dao/fm_dao.go:41-78 | AddFileInfo keeps the store well formed |
| FmInvariants.RemoveFileInfoKeepsWellFormed | web-server/internal/db/dao/fm_dao.go:81-105 | the code's removal, FmSpec.RemoveFileInfo, keeps the store well formed and reactivates no group |
| FmInvariants.DeactivatedGroupRefusesUploads | web-server/internal/db/dao/fm_dao.go:52-66 | no upload into an inactive group succeeds: it is refused as "not a member" |
| FmInvariants.UploadAfterDeactivateFails | web-server/internal/db/dao/fm_dao.go:41-78 | after a group is deactivated, every upload into it is refused |
| FmInvariants.DeactivateLeavesNameInactive | web-server/internal/db/dao/uam_dao.go:197-223 | after deactivation the name still resolves, to an inactive row |
| FmInvariants.DeactivatedNameResolves | web-server/internal/db/dao/uam_dao.go:209-215 | clearing the flag of a group keeps its name resolving to it, now inactive |
| FmInvariants.RemovePermittedToOwners | web-server/internal/db/dao/fm_dao.go:93-95 | a file of the group is removed iff the caller owns the group or the file; any other caller gets the owners-only error |
| FmInvariants.RemoveFileInfoInGroupAgrees | web-server/internal/db/dao/fm_dao.go:81-105 | on a file of the named group the corrected removal is the code as written |
| FmInvariants.AddThenGetFileInfo | web-server/internal/db/dao/fm_dao.go:108-128 | a file just added is found, as written and with the corrected lookup, with the name, owner and group it was added with |
| FmDao.FmDaoImpl.AddFileInfo | web-server/internal/db/dao/fm_dao.go:41-78 | the statements give FmSpec.AddFileInfo, the id is 0 on error, and the store stays valid |
| FmDao.FmDaoImpl.RemoveFileInfo | web-server/internal/db/dao/fm_dao.go:81-105 | the statements, with the file found by id alone, give FmSpec.RemoveFileInfo, and the store stays valid |
| FmDao.FmDaoImpl.GetFileInfo | web-server/internal/db/dao/fm_dao.go:108-128 | the statements, with the file found by id alone, give FmSpec.GetFileInfo |
| FmDao.FmDaoImpl.GetAllFilesInfo | web-server/internal/db/dao/fm_dao.go:131-153 | returns FmSpec.GetAllFilesInfo of the current tables |
| AsyncJob.EraserRun | web-server/internal/cron/async_job.go:32-45 | a failed listing changes nothing; otherwise the listed directories whose removal did not fail are gone and the listed rows are erased |
| AsyncJob.EraserRemovesOnlyDeactivated | web-server/internal/cron/async_job.go:32-58 | the reaper removes only directories named after inactive groups and leaves the others untouched |
| AsyncJob.EraseFailureKeepsRowsInactive | web-server/internal/cron/async_job.go:39-44 | when any delete of the erase fails, the listed directories are removed as RemoveEach says but no row changes, so the inactive rows wait for the next run |
| AsyncJob.EraserConverges | web-server/internal/cron/async_job.go:32-45 | without failed directory removals, after two runs no inactive group and no directory of a group that was inactive remain |
| AsyncJob.EraserRunTwiceIsRunOnce | web-server/internal/cron/async_job.go:32-45 | running the reaper again right after a clean run changes nothing |
| AsyncJob.FailedRemovalIsLeftBehind | web-server/internal/cron/async_job.go:39-41 | a directory whose removal failed stays, its row is erased anyway, and no later run removes it |
| AsyncJob.GroupEraserJobImpl.DeleteGroups | web-server/internal/cron/async_job.go:32-45 | the new store and directories are EraserRun of the old ones, and the store stays valid |
| AsyncJob.GroupEraserJobImpl.RemoveGroupDirs | web-server/internal/cron/async_job.go:47-58 | removing the directories one by one gives RemoveEach of the old directories |
| GroupDirs.RemoveEach | web-server/internal/cron/async_job.go:47-58 | a directory is gone iff it was listed and its removal did not fail; the contents of the others are unchanged |
| GroupDirs.FileRemoved | web-server/api/rest/fm_endpoint.go:192-193 | only the named group's directory loses the file, and only if the removal does not fail |
| GroupDirs.FileSystem.StatNotAbsent | web-server/api/rest/uam_endpoint.go:180 | the directory counts as present iff it exists or the stat fails |
| GroupDirs.FileSystem.Mkdir | web-server/api/rest/uam_endpoint.go:183 | creates an empty directory iff it is absent and the call does not fail, else changes nothing |
| GroupDirs.FileSystem.RemoveAll | web-server/api/rest/uam_endpoint.go:193 | removes the directory unless the call fails |
| GroupDirs.FileSystem.WriteFile | web-server/api/rest/fm_endpoint.go:94-95 | stores the file id in the group's directory iff that directory exists and the write does not fail |
| GroupDirs.FileSystem.RemoveFile | web-server/api/rest/fm_endpoint.go:192-193 | changes the directories as FileRemoved says |
| Models.NewGroup | web-server/internal/db/models/group.go:12 | a new group row is active |
| Helper.GetIDFromContext | web-server/api/common/helper.go:13-25 | succeeds iff the key holds an unsigned integer, returning it; a missing key is a server error and a value of another type a client error |
| Helper.ErrorResponseArguments | web-server/api/common/helper.go:36-50 | 400 iff a client error, 404 iff a not-found error, 500 iff a server error, each with its message; a server error's cause is not shown |
| Helper.ErrorReply | web-server/api/common/helper.go:28-34 | the reply's status is the code in its body, and both come from ErrorResponseArguments |
| Helper.ServerErrorsLookAlike | web-server/api/common/helper.go:44-47 | all server errors give the same reply |
| Helper.NonServerErrorsAreRecoverable | web-server/api/common/helper.go:38-43 | a client or not-found error can be read back from its reply |
| Helper.SendErrorResponse | web-server/api/common/helper.go:28-34 | appends exactly the error's reply, and changes nothing else in the context |
| Validator.FirstFailure | web-server/internal/validator/validator.go:48-56 | passes iff every rule matches; a failure carries the message of the first rule that does not match |
| Validator.CheckRules | web-server/internal/validator/validator.go:48-56 | the loop over the rules returns FirstFailure |
| Validator.FirstFailureAt | web-server/internal/validator/validator.go:49-53 | when rule k is the first that fails, the result is rule k's message |
| Validator.ValidateUsername | web-server/internal/validator/validator.go:38-40 | passes iff all three username rules match |
| Validator.ValidatePassword | web-server/internal/validator/validator.go:44-46 | passes iff all three password rules match |
| Validator.ValidUsernameIff | web-server/internal/validator/validator.go:58-64 | a name passes iff it has 8 to 20 characters, begins with a letter and uses only letters, digits, `-` and `_` |
| Validator.ValidPasswordIff | web-server/internal/validator/validator.go:66-72 | a password passes iff it has at least 10 characters, no newline, a digit and a character other than a letter, digit, `-` or `_` |
| Validator.ValidNameIsPlainDirName | web-server/api/rest/uam_endpoint.go:172-178 | a group name that passes holds no `/` or `.`, so its directory sits directly in the groups directory |
| Validator.UsernameTooShort | web-server/internal/validator/validator_test.go:21 | "example" fails the length rule |
| Validator.UsernameTooLong | web-server/internal/validator/validator_test.go:28 | "somerandomlygeneratedusername" fails the length rule |
| Validator.UsernameStartingWithDigit | web-server/internal/validator/validator_test.go:35 | "9someusername" fails the first-letter rule |
| Validator.UsernameWithSpecialChar | web-server/internal/validator/validator_test.go:42 | "nonumberusername!" fails the character rule |
| Validator.UsernameValid | web-server/internal/validator/validator_test.go:49 | "valid-username" passes |
| Validator.PasswordTooShort | web-server/internal/validator/validator_test.go:58 | "1random~" fails the length rule |
| Validator.PasswordWithoutSpecialChar | web-server/internal/validator/validator_test.go:65 | "1someusername" fails the special-character rule |
| Validator.PasswordWithoutDigit | web-server/internal/validator/validator_test.go:72 | "password~" is refused, by the length rule, which comes first |
| Validator.PasswordValid | web-server/internal/validator/validator_test.go:80 | "1validpassword~" passes |
| GoStrings.Index | web-server/internal/middleware/authentication_filter.go:41 | the index found is the first occurrence; there is none iff the text does not contain the separator |
| GoStrings.JoinSplit | web-server/internal/middleware/authentication_filter.go:41 | joining the pieces of a split with the separator gives back the header |
| GoStrings.SplitPiecesLackSep | web-server/internal/middleware/authentication_filter.go:41 | no piece of a split contains the separator |
| GoStrings.SplitTwo | web-server/internal/middleware/authentication_filter.go:41-42 | two separator-free pieces joined by "Bearer " split back into exactly those two pieces |
| GoStrings.TrimSpace | web-server/internal/middleware/authentication_filter.go:43 | the result is the text with only white space cut from both ends, and neither starts nor ends with white space |
| GoStrings.TrimSpaceIdempotent | web-server/internal/middleware/authentication_filter.go:43 | trimming twice is trimming once |
| Strconv.ParseUint32 | web-server/api/rest/fm_endpoint.go:127-131 | a parsed id is at most 2^32-1, and empty text is refused |
| Strconv.ParseFormatDecimal | web-server/api/rest/fm_endpoint.go:127 | the decimal text of n parses back to n iff n fits in 32 bits |
| Strconv.LeadingZeroIsOctal | web-server/api/rest/fm_endpoint.go:127 | with base 0, "010" is octal 8 |
| Strconv.HexPrefix | web-server/api/rest/fm_endpoint.go:127 | with base 0, "0x10" is 16 |
| Strconv.SignRefused | web-server/api/rest/fm_endpoint.go:127 | a sign is refused |
| Strconv.Underscores | web-server/api/rest/fm_endpoint.go:127 | underscores between digits are accepted with base 0, and doubled ones are refused |
| AuthenticationFilter.TokenOfTwoPieces | web-server/internal/middleware/authentication_filter.go:41-43 | a header of two pieces around one "Bearer " carries the second piece, trimmed, as its token |
| AuthenticationFilter.TokenHasTwoPieces | web-server/internal/middleware/authentication_filter.go:41-43 | a header read as a token is two pieces around one "Bearer ", and the token is the second piece trimmed |
| AuthenticationFilter.MalformedHeaderTestCase | web-server/internal/middleware/authentication_filter_test.go:70 | "Some token" is malformed |
| AuthenticationFilter.BearerHeaderTestCase | web-server/internal/middleware/authentication_filter_test.go:81 | "Bearer sometoken" carries the token "sometoken" |
| AuthenticationFilter.ValidatorOnlySeesTokens | web-server/internal/middleware/authentication_filter.go:32-51 | a missing or malformed header is rejected, not with 401, and whatever the validator would say |
| AuthenticationFilter.AdmitIff | web-server/internal/middleware/authentication_filter.go:41-64 | a well-formed header is admitted iff the validator accepts its trimmed token, and the admitted id is the validator's |
| AuthenticationFilter.AuthzFilterImpl.Authz | web-server/internal/middleware/authentication_filter.go:30-65 | a rejection writes one error reply with its status and aborts; an admission writes nothing, stores the id where GetIDFromContext finds it, and continues |
| UamEndpoint.PassClientErrors | web-server/api/rest/uam_endpoint.go:79-86 | a client error goes out unchanged, and every other error becomes a server error |
| UamEndpoint.RevokeMembershipError | web-server/api/rest/uam_endpoint.go:253-258 | only server errors are wrapped, so the kind of error is kept |
| UamEndpoint.DeleteUserError | web-server/api/rest/uam_endpoint.go:103-106 | every failure becomes a server error |
| UamEndpoint.LoginLookupError | web-server/api/rest/uam_endpoint.go:126-133 | an unknown user becomes "Invalid credentials", and any other failure a server error |
| UamEndpoint.PassClientErrorsStatus | web-server/api/rest/uam_endpoint.go:79-86 | the reply is 400 for a client error and 500 for anything else, so a missing row answers 500 |
| UamEndpoint.RevokeMembershipKeepsStatus | web-server/api/rest/uam_endpoint.go:253-258 | the status is the one the DAO error alone would give |
| UamEndpoint.DeleteUserAlwaysServerError | web-server/api/rest/uam_endpoint.go:103-106 | every DeleteUser failure answers 500, an unknown user included |
| UamEndpoint.ValidateRegistration | web-server/api/rest/uam_endpoint.go:393-402 | passes iff the username and the password pass; the username is checked first |
| UamEndpoint.PasswordIgnoredForBadUsername | web-server/api/rest/uam_endpoint.go:393-402 | once the username fails, the password does not affect the answer |
| UamEndpoint.RegistrationStoresHash | web-server/api/rest/uam_endpoint.go:53-91 | a 201 means both validations passed, the hash succeeded and the stored row holds the hash, not the password |
| UamEndpoint.DeleteUserWithoutIdAnswersTwice | web-server/api/rest/uam_endpoint.go:97-112 | without a caller id the handler replies twice, because it goes on after the first error and the deletion of id 0 fails |
| UamEndpoint.LoginHidesUnknownUsers | web-server/api/rest/uam_endpoint.go:125-140 | an unknown user and a wrong password get the same reply |
| UamEndpoint.LoginSucceedsIff | web-server/api/rest/uam_endpoint.go:118-153 | login answers 201 iff the user exists, the password matches and a token is issued |
| UamEndpoint.CreateGroupRefusesInvalidName | web-server/api/rest/uam_endpoint.go:172-176 | an invalid name changes neither the store nor the directories |
| UamEndpoint.CreateGroupRefusesExistingDir | web-server/api/rest/uam_endpoint.go:178-182 | an existing directory is refused as "group already exists" and nothing changes |
| UamEndpoint.CreateGroupCreatesRowAndDir | web-server/api/rest/uam_endpoint.go:159-201 | a 201 means the directory was absent and is now created empty, and the tables are those of UamSpec.CreateGroup, with the new group and the owner's membership |
| UamEndpoint.CreateGroupCompensates | web-server/api/rest/uam_endpoint.go:188-195 | when the store fails for a reason other than the request, the directory just made is removed, and nothing has changed |
| UamEndpoint.CreateGroupLeavesDirOnClientError | web-server/api/rest/uam_endpoint.go:188-191 | when the store refuses a taken name, the directory just made stays |
| UamEndpoint.AddMemberToMissingGroupIsServerError | web-server/api/rest/uam_endpoint.go:219-227 | adding to a missing group answers 500, because not-found is not a client error |
| UamEndpoint.OneReplyPerRequest | web-server/api/rest/uam_endpoint.go:53-296 | CreateUser, Login, RevokeMembership and DeleteGroup each write exactly one reply |
| UamEndpoint.ExtraReplyWithoutId | web-server/api/rest/uam_endpoint.go:97-232 | DeleteUser, AddMember and CreateGroup write one reply, and one more when the caller id is missing |
| UamEndpoint.ReadCallerId | web-server/api/rest/uam_endpoint.go:98-101 | returns the caller id and adds its error reply when there is none, without returning |
| UamEndpoint.UamEndpointImpl.CreateUser | web-server/api/rest/uam_endpoint.go:53-91 | the new store and the replies are those of CreateUserHandler |
| UamEndpoint.UamEndpointImpl.DeleteUser | web-server/api/rest/uam_endpoint.go:97-112 | the new store and the replies are those of DeleteUserHandler |
| UamEndpoint.UamEndpointImpl.Login | web-server/api/rest/uam_endpoint.go:118-153 | the replies are those of LoginHandler, and the store is not changed |
| UamEndpoint.UamEndpointImpl.CreateGroup | web-server/api/rest/uam_endpoint.go:159-201 | the new store, directories and replies are those of CreateGroupHandler |
| UamEndpoint.UamEndpointImpl.CreateNamedGroup | web-server/api/rest/uam_endpoint.go:172-201 | from the name check on, the new state and replies are those of MakeGroup |
| UamEndpoint.UamEndpointImpl.SaveGroup | web-server/api/rest/uam_endpoint.go:188-200 | from the DAO call on, the new state and replies are those of StoreGroup |
| UamEndpoint.UamEndpointImpl.AddMember | web-server/api/rest/uam_endpoint.go:207-232 | the new store and the replies are those of AddMemberHandler |
| UamEndpoint.UamEndpointImpl.AddMembership | web-server/api/rest/uam_endpoint.go:219-231 | from the DAO call on, the new store and replies are those of MembershipAdded |
| UamEndpoint.UamEndpointImpl.RevokeMembership | web-server/api/rest/uam_endpoint.go:238-264 | the new store and the replies are those of RevokeMembershipHandler |
| UamEndpoint.UamEndpointImpl.DeleteGroup | web-server/api/rest/uam_endpoint.go:270-296 | the new store and the replies are those of DeleteGroupHandler |
| FmEndpoint.GroupOrZero | web-server/api/rest/fm_endpoint.go:138 | a failed group lookup leaves the zero group, whose id 0 matches no membership |
| FmEndpoint.Serve | web-server/api/rest/fm_endpoint.go:152-154 | the file is served with 200 iff it is on disk in the group's directory |
| FmEndpoint.UploadKeepsDiskBacked | web-server/api/rest/fm_endpoint.go:44-105 | after an upload, every file on disk still has its row, in the group whose directory holds it |
| FmEndpoint.SaveUploadKeepsDiskBacked | web-server/api/rest/fm_endpoint.go:88-99 | writing the bytes only after the row is in keeps every file on disk backed by its row |
| FmEndpoint.UploadStoresRowThenBytes | web-server/api/rest/fm_endpoint.go:88-104 | a 201 with an id means the row with that id, name, owner and group was added, and the bytes were stored under that id |
| FmEndpoint.ErrorRepliesAreNotUploads | web-server/api/rest/fm_endpoint.go:101-104 | no error reply looks like a successful upload |
| FmEndpoint.UploadRefusals | web-server/api/rest/fm_endpoint.go:62-86 | no group name, an unknown group and a non-member are each refused with their client error, and nothing changes |
| FmEndpoint.UploadCompensatesFailedWrite | web-server/api/rest/fm_endpoint.go:94-99 | when the write fails, the row is removed again, only the file counter has moved, and the reply is 500 |
| FmEndpoint.FailedWriteIgnoresCompensation | web-server/api/rest/fm_endpoint.go:94-99 | whatever the compensating removal does, a failed write answers 500 and leaves the directories alone; the new row stays, with no bytes, exactly when a fault stops that removal |
| FmEndpoint.DeleteRemovesBytesAfterRow | web-server/api/rest/fm_endpoint.go:187-193 | the bytes are removed only after the row was removed, and the reply does not depend on whether removing the bytes succeeded |
| FmEndpoint.DeleteInMissingGroupIsRefused | web-server/api/rest/fm_endpoint.go:178-185 | deleting in a missing group is refused as "Invalid user input", through the zero group |
| FmEndpoint.RemovalInGroupKeepsDiskBacked | web-server/api/rest/fm_endpoint.go:187-193 | corrected removal: removing a row with RemoveFileInfoInGroup and then its bytes keeps every file on disk backed |
| FmEndpoint.DeleteKeepsDiskBacked | web-server/api/rest/fm_endpoint.go:161-198 | when the file asked for belongs to the named group and removing the bytes does not fail, DeleteFile keeps every file on disk backed |
| FmEndpoint.DownloadServesOnlyGroupFiles | web-server/api/rest/fm_endpoint.go:147-154 | a 200 serves a file whose row belongs to the named group, although the lookup finds the file by id alone |
| FmEndpoint.DownloadChecksIdFirst | web-server/api/rest/fm_endpoint.go:122-131 | a missing or unparsable id is refused before the store is read, whatever the store holds |
| FmEndpoint.UploadThenDownload | web-server/api/rest/fm_endpoint.go:111-155 | a file just uploaded downloads, under the decimal text of its id, with its name |
| FmEndpoint.DownloadAfterFailedLookupAnswersTwice | web-server/api/rest/fm_endpoint.go:147-154 | after a failed file lookup the handler goes on, so it answers twice: the error, then a 404 page |
| FmEndpoint.FmEndpointImpl.UploadFile | web-server/api/rest/fm_endpoint.go:44-105 | the new store, directories and replies are those of UploadFileHandler |
| FmEndpoint.FmEndpointImpl.StoreUpload | web-server/api/rest/fm_endpoint.go:88-104 | from AddFileInfo on, the new state and replies are those of SaveUpload |
| FmEndpoint.FmEndpointImpl.DeleteFile | web-server/api/rest/fm_endpoint.go:161-198 | the new store, directories and replies are those of DeleteFileHandler |
| FmEndpoint.FmEndpointImpl.DownloadFile | web-server/api/rest/fm_endpoint.go:111-155 | the replies are those of DownloadFileHandler, and nothing else changes |
| Consistency.EraserKeepsActiveDirs | web-server/internal/cron/async_job.go:32-45 | whatever fails during a run, the reaper leaves every active group with its directory |
| Consistency.EraserKeepsMembershipsInExistingGroups | web-server/internal/cron/async_job.go:32-45 | whatever fails during a run, every membership still points at an existing group row |
| Consistency.EraserKeepsDiskBacked | web-server/internal/cron/async_job.go:32-45 | when no directory removal fails, every file left on disk still has its row, in the group its directory is named after |
| Consistency.CreateGroupKeepsConsistency | web-server/api/rest/uam_endpoint.go:159-201 | CreateGroup keeps all three invariants: active groups have directories, memberships point at existing groups, files on disk are backed |
| Consistency.DeleteGroupKeepsConsistency | web-server/api/rest/uam_endpoint.go:270-296 | DeleteGroup, which leaves the directories to the reaper, keeps all three invariants |
| Consistency.MembershipHandlersKeepMembershipsInExistingGroups | web-server/api/rest/uam_endpoint.go:207-264 | AddMember and RevokeMembership leave every membership pointing at an existing group row |
| Consistency.UploadKeepsConsistency | web-server/api/rest/fm_endpoint.go:44-105 | UploadFile keeps every active group's directory and every membership's group |
| Consistency.DeleteFileKeepsConsistency | web-server/api/rest/fm_endpoint.go:161-198 | DeleteFile keeps every active group's directory and every membership's group |
| Consistency.EraserKeepsRowsOnDisk | web-server/internal/cron/async_job.go:32-45 | whatever fails during a run, every row of a file of an active group keeps its bytes in that group's directory |
| Consistency.CreateGroupKeepsRowsOnDisk | web-server/api/rest/uam_endpoint.go:159-201 | CreateGroup keeps every row of a file of an active group on disk |
| Consistency.DeleteGroupKeepsRowsOnDisk | web-server/api/rest/uam_endpoint.go:270-296 | DeleteGroup keeps every row of a file of an active group on disk |
| Consistency.MembershipHandlersKeepRowsOnDisk | web-server/api/rest/uam_endpoint.go:207-264 | AddMember and RevokeMembership keep every row of a file of an active group on disk |
| Consistency.UploadKeepsRowsOnDisk | web-server/api/rest/fm_endpoint.go:44-105 | when no fault stops the compensating removal, UploadFile keeps every row of a file of an active group on disk |
| Consistency.DeleteFileKeepsRowsOnDisk | web-server/api/rest/fm_endpoint.go:161-198 | DeleteFile removes the row before the bytes, and ids are unique, so every row that stays keeps its bytes |
| Consistency.FailedCompensationLeavesRowWithoutBytes | web-server/api/rest/fm_endpoint.go:94-99 | on a store where every row has its bytes, a failed write followed by a failed compensating removal answers 500 and leaves a row of an active group with no bytes |
| Findings.TwoGroupsIsReachable | web-server/internal/db/dao/fm_dao.go:81-105 | the store used below is well formed and every file on its disk is backed |
| Findings.CrossGroupRemoval | web-server/internal/db/dao/fm_dao.go:81-105 | as written, the owner of "alpha" names "alpha" and removes the row of the file of "beta", a group they are not in; DeleteFile answers 200, and the bytes left on disk have no row |
| Findings.CrossGroupRead | web-server/internal/db/dao/fm_dao.go:108-128 | as written, the owner of "alpha" reads the metadata of the file of "beta" |
| Findings.CrossGroupRequestsRefused | web-server/internal/db/dao/fm_dao.go:81-128 | with the corrected definitions both requests are "not found", a 404, and the store is unchanged |
| Findings.LookupFailureLooksLikeInvalidGroup | web-server/internal/db/dao/uam_dao.go:337-342 | as written, a store failure on the lookup of an active group the caller belongs to is reported as "Invalid group" |
| Findings.LookupFailureIsServerError | web-server/internal/db/dao/uam_dao.go:337-342 | with the corrected definition the same failure answers 500 |

`Store.Database` and `Gin.Context` are the infrastructure the model runs on: gorm's
statements and transactions, and gin's request context. Their methods specify the
effect of each call and model no logic of the system.

## Left out

- I/O, logging and timestamps (`CreatedAt`, `UpdatedAt`) are not modelled. The group
  directories are the only part of the file system in the model, keyed by group name.
- Password hashing, password comparison, JWT creation and JWT validation are function
  parameters. Their cryptography is not modelled.
- Request binding (`ShouldBindJSON`, `FormFile`, `Query`) is an `Option` or a text argument.
- The reaper's goroutines and its `sync.WaitGroup` are modelled as a sequential loop.
  Concurrency between handlers, and between handlers and the reaper, is not modelled.
- A rolled-back transaction restores the id counters too. Postgres sequences would keep
  the ids they handed out, so in the real system ids can have gaps.
- `UamDao.UamDaoImpl.DeleteUser` is not run inside a transaction in the code; its single
  statement needs none.
- `SaveUploadedFile` is modelled as failing when the group's directory is missing. The
  real call would create the directory.
- Serving a file (`c.File`) is `FmEndpoint.Serve`: the model keeps only the status and
  which file is served. The `Content-Disposition` header and the streaming are left out.
- `Strconv.ParseUint32` works on characters, not UTF-8 bytes. Ids above 2^32-1 cannot
  be downloaded.
- `Validator.PasswordWithoutDigit`: the test's "password~" fails the length rule before
  the digit rule is reached, so the digit rule is not exercised by that case.
- DeleteKeepsDiskBacked (`FmEndpoint.DeleteKeepsDiskBacked`) is proved only when the file
  asked for belongs to the group named in the request and removing the bytes does not fail.
  The code removes a file of another group by its id alone and leaves its bytes with no row
  (`Findings.CrossGroupRemoval`); it also ignores the error of `os.Remove`, so a failed
  removal leaves bytes with no row.
- UploadKeepsRowsOnDisk (`Consistency.UploadKeepsRowsOnDisk`) is proved only when no fault
  stops the removal that undoes the row after a failed write. The code ignores that
  removal's outcome, and a stopped removal leaves a row with no bytes
  (`Consistency.FailedCompensationLeavesRowWithoutBytes`).
- A missing row is reported as `ItemNotFoundError`, as the tests expect
  (`UamSpec.GetUserWithConn`, `UamSpec.GetGroupWithConn`, `FmSpec.GetFileInfoWithConn`).
  `getUserWithConn` and `getGroupWithConn` use gorm's `Find`, which reports no error when
  no row matches; the code as written would go on with the zero row instead.
- DownloadFile and DeleteFile ignore the error of `GetGroup` and go on with the zero
  group. The model does the same (`FmEndpoint.GroupOrZero`).
- DeleteUser, AddMember and CreateGroup do not return after `GetIDFromContext` fails. This
  is modelled (`UamEndpoint.ExtraReplyWithoutId`). Behind `Authz` the id is always
  present, so it does not arise in service.
- Outside the modelled core:
  - the listing handlers `GetAllGroupsInfo`, `GetAllUsersInfo`, `GetAllUsersInGroup` and
    `RetrieveAllFilesInfo`;
  - the DAO listings `GetAllGroups` and `GetAllUsers`;
  - `Migrate`, the server wiring and the client.

  `UamSpec.GetAllUsersInGroup` and `FmSpec.GetAllFilesInfo` are modelled because their
  store logic belongs to the core.

## Findings

| source | as written | input that shows it | evidently intended | confidence | as-written member | corrected member |
|---|---|---|---|---|---|---|
| web-server/internal/db/dao/fm_dao.go:81-105 | RemoveFileInfo looks up the named group, then the file by id alone, and checks only ownership | the owner of group "alpha" asks to remove file 1 of group "beta" (which they do not belong to), naming "alpha" | only a file of the named group can be removed | not executed | Findings.CrossGroupRemoval | FmSpec.RemoveFileInfoInGroup |
| web-server/internal/db/dao/fm_dao.go:108-128 | GetFileInfo checks membership of the named group, then returns the file with the id whatever its group | the owner of "alpha" asks for file 1 of "beta", naming "alpha" | only a file of the named group is returned | not executed | Findings.CrossGroupRead | FmSpec.GetFileInfoInGroup |
| web-server/internal/db/dao/uam_dao.go:337-342 | the not-found test and `!group.Active` come before the error check, and the zero group a failed lookup returns is inactive | a store failure on the lookup of an active group the caller belongs to | a store failure is passed on as a server error | not executed | Findings.LookupFailureLooksLikeInvalidGroup | UamSpec.GetAllUsersInGroupReported |

The DAO classes and the handlers model the code as written. The corrected definitions
stand beside them:

- `FmSpec.RemoveFileInfoInGroup` removes only a file of the named group and keeps the files
  of every other group. On a file of the named group it is the code's removal
  (`FmInvariants.RemoveFileInfoInGroupAgrees`). Removing its row and then the bytes keeps
  every file on disk backed by its row (`FmEndpoint.RemovalInGroupKeepsDiskBacked`), and
  it refuses the request of the first row (`Findings.CrossGroupRequestsRefused`).
- `FmSpec.GetFileInfoInGroup` returns only a file of the named group, and finds a file
  just added (`FmInvariants.AddThenGetFileInfo`).
- `UamSpec.GetAllUsersInGroupReported` answers 500 for a failed lookup
  (`Findings.LookupFailureIsServerError`), and otherwise agrees with the code.
