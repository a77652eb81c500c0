/** The account handlers: registration, login, profile reads and updates, role
    assignment and deletion, as operations on an in-memory user table. The
    calls they start against the course backend are recorded as an abstract
    trace. */
module AuthController {
  import opened Common
  import opened JsText
  import opened Accounts
  import AuthMiddleware

  const DefaultAvatar: string := "src/public/assets/avatars/graduation-cap.gif"

  /** `expiresIn: '1h'`, in seconds. */
  const TokenLifetime: int := 3600

  /** A request chain against the course backend that a handler started. */
  datatype BackendCall =
    | UpdateStudent(userId: int, name: Option<string>, lastName: Option<string>, email: string)
      // PUT /student/:id
    | UpdateProfessor(userId: int, name: Option<string>, lastName: Option<string>, email: string)
      // PUT /professor/:id
    | CreateStudentAndEnrol(userId: int, classID: Option<int>)
      // POST /student, then POST /course-class-student
    | CreateProfessorAndAssign(userId: int, classID: Option<int>)
      // POST /professor, then POST /course-class-professor
    | EnrolExistingStudent(userRef: string, classID: Option<int>)
      // GET /student/user/:id, then POST /course-class-student
    | AssignExistingProfessor(userRef: string, classID: Option<int>)
      // GET /professor/user/:id, then POST /course-class-professor

  /** How the backend answers the calls a handler waits for. */
  datatype BackendReply = Accepted | Refused(message: Option<string>) | Unreachable

  datatype Body =
    | ErrorBody(error: string)
    | MessageBody(message: string)
    | TokenBody(token: string)
    | UserJson(user: User)
    | SummaryJson(summary: UserSummary)
    | SummaryList(summaries: map<int, UserSummary>)
    | DeletedJson(message: string, deletedUser: User)
    | AvatarJson(message: string, avatar: string)

  /** A handler either answers with a status and a JSON body, or lets an
      error escape its `async` body without answering (`Unhandled`). */
  datatype Reply = Json(status: int, body: Body) | Unhandled

  /** The store keeps at most one user per email address. */
  ghost predicate EmailsUnique(users: map<int, User>)
  {
    forall j, k :: j in users && k in users && users[j].email == users[k].email ==> j == k
  }

  /** Some user other than `except` already has this email address. */
  predicate EmailTaken(users: map<int, User>, email: string, except: int)
  {
    exists k :: k in users && k != except && users[k].email == email
  }

  /** The `updateData` object: a field is present when it is to be written. */
  datatype UpdateData = UpdateData(
    name: Option<string>,
    lastName: Option<string>,
    email: Option<string>,
    role: Option<string>,
    avatar: Option<string>,
    password: Option<string>)

  /** `prisma.user.update` with such an object: present fields are written. */
  function ApplyUpdate(u: User, d: UpdateData): (r: User)
    ensures r.id == u.id
    ensures d == UpdateData(None, None, None, None, None, None) ==> r == u
    ensures d.email.Some? ==> r.email == d.email.value
    ensures d.email.None? ==> r.email == u.email
  {
    u.(name := if d.name.Some? then d.name else u.name,
       lastName := if d.lastName.Some? then d.lastName else u.lastName,
       email := if d.email.Some? then d.email.value else u.email,
       role := if d.role.Some? then d.role.value else u.role,
       avatar := if d.avatar.Some? then d.avatar.value else u.avatar,
       password := if d.password.Some? then d.password.value else u.password)
  }

  /** Writing the same update twice leaves the record as writing it once. */
  lemma ApplyUpdateIdempotent(u: User, d: UpdateData)
    ensures ApplyUpdate(ApplyUpdate(u, d), d) == ApplyUpdate(u, d)
  {
  }

  /** The partial update `updateUser` promises: exactly the truthy fields are
      written, the password as its hash, and everything else is kept. */
  ghost predicate WritesTruthyFields(before: User, after: User,
                                     name: Option<string>, lastName: Option<string>, email: Option<string>,
                                     role: Option<string>, avatar: Option<string>, password: Option<string>,
                                     hash: string -> string)
  {
    && after.id == before.id
    && after.name == (if Truthy(name) then name else before.name)
    && after.lastName == (if Truthy(lastName) then lastName else before.lastName)
    && after.email == (if Truthy(email) then email.value else before.email)
    && after.role == (if Truthy(role) then role.value else before.role)
    && after.avatar == (if Truthy(avatar) then avatar.value else before.avatar)
    && after.password == (if Truthy(password) then hash(password.value) else before.password)
  }

  /** The fields of `updateData`: each truthy field, and the hash of a truthy
      password; nothing else. */
  ghost predicate CarriesTruthyFields(d: UpdateData,
                                      name: Option<string>, lastName: Option<string>, email: Option<string>,
                                      role: Option<string>, avatar: Option<string>, password: Option<string>,
                                      hash: string -> string)
  {
    && d.name == (if Truthy(name) then name else None)
    && d.lastName == (if Truthy(lastName) then lastName else None)
    && d.email == (if Truthy(email) then email else None)
    && d.role == (if Truthy(role) then role else None)
    && d.avatar == (if Truthy(avatar) then avatar else None)
    && d.password == (if Truthy(password) then Some(hash(password.value)) else None)
  }

  /** Applying such an object to any row writes exactly the truthy fields. */
  lemma TruthyUpdateWritesTruthyFields(u: User, d: UpdateData,
                                       name: Option<string>, lastName: Option<string>, email: Option<string>,
                                       role: Option<string>, avatar: Option<string>, password: Option<string>,
                                       hash: string -> string)
    requires CarriesTruthyFields(d, name, lastName, email, role, avatar, password, hash)
    ensures WritesTruthyFields(u, ApplyUpdate(u, d), name, lastName, email, role, avatar, password, hash)
  {
  }

  /** Builds `updateData` field by field, one `if` per field. */
  method BuildUpdateData(name: Option<string>, lastName: Option<string>, email: Option<string>,
                         role: Option<string>, avatar: Option<string>, password: Option<string>,
                         hash: string -> string)
    returns (updateData: UpdateData)
    ensures CarriesTruthyFields(updateData, name, lastName, email, role, avatar, password, hash)
  {
    updateData := UpdateData(None, None, None, None, None, None);
    if Truthy(name) { updateData := updateData.(name := name); }
    if Truthy(lastName) { updateData := updateData.(lastName := lastName); }
    if Truthy(email) { updateData := updateData.(email := email); }
    if Truthy(role) { updateData := updateData.(role := role); }
    if Truthy(avatar) { updateData := updateData.(avatar := avatar); }
    if Truthy(password) {
      updateData := updateData.(password := Some(hash(password.value)));
    }
  }

  /** Replacing a row by one whose email no other user has keeps emails unique. */
  lemma UpdateKeepsEmailsUnique(users: map<int, User>, id: int, u: User)
    requires EmailsUnique(users) && id in users
    requires !EmailTaken(users, u.email, id)
    ensures EmailsUnique(users[id := u])
  {
  }

  /** The backend update `updateUser` sends after a role of STUDENT or
      PROFESSOR was given (the raw `role` field is tested). */
  function ExternalUpdateCalls(role: Option<string>, id: int, u: User): (calls: seq<BackendCall>)
    ensures |calls| <= 1
    ensures calls != [] <==> role == Some("STUDENT") || role == Some("PROFESSOR")
    ensures forall c :: c in calls ==>
      (c.UpdateStudent? || c.UpdateProfessor?) && c.userId == id && c.email == u.email
      && c.name == u.name && c.lastName == u.lastName
    ensures forall c :: c in calls ==> (c.UpdateStudent? <==> role == Some("STUDENT"))
  {
    if role == Some("STUDENT") then [UpdateStudent(id, u.name, u.lastName, u.email)]
    else if role == Some("PROFESSOR") then [UpdateProfessor(id, u.name, u.lastName, u.email)]
    else []
  }

  /** The answer once the backend has replied to that update. */
  function ExternalUpdateReply(backend: BackendReply, u: User): (r: Reply)
    ensures r.Json? && (r.status == 200 || r.status == 500)
    ensures r.status == 200 <==> backend.Accepted?
    ensures r.status == 200 ==> r.body == UserJson(u)
    ensures backend.Refused? ==>
      r == Json(500, ErrorBody("Failed to update user in external system: "
                               + (if Truthy(backend.message) then backend.message.value else "Unknown error")))
    ensures backend.Unreachable? ==> r == Json(500, ErrorBody("Error updating user in external system"))
  {
    match backend
    case Accepted => Json(200, UserJson(u))
    case Refused(message) =>
      Json(500, ErrorBody("Failed to update user in external system: "
                          + (if Truthy(message) then message.value else "Unknown error")))
    case Unreachable => Json(500, ErrorBody("Error updating user in external system"))
  }

  /** `user?.role === "USER"`: the target exists and has never been given a role. */
  predicate FirstAssignment(users: map<int, User>, id: int): (first: bool)
    ensures first <==> id in users && ParseRole(Some(users[id].role)) == Some(RegularUser)
  {
    id in users && users[id].role == "USER"
  }

  /** Records the backend creates when a plain user first gets a role: only
      students and professors have one. */
  function FirstAssignmentCalls(id: int, role: Role, classID: Option<int>): (calls: seq<BackendCall>)
    ensures |calls| <= 1
    ensures calls == [] <==> role == RegularUser || role == Admin
    ensures forall c :: c in calls ==>
      (c.CreateStudentAndEnrol? || c.CreateProfessorAndAssign?) && c.userId == id && c.classID == classID
      && (c.CreateStudentAndEnrol? <==> role == Student)
  {
    match role
    case Student => [CreateStudentAndEnrol(id, classID)]
    case Professor => [CreateProfessorAndAssign(id, classID)]
    case _ => []
  }

  /** Enrolments requested when the target already has a role (or is absent). */
  function ReassignmentCalls(idParam: string, role: Role, classID: Option<int>): (calls: seq<BackendCall>)
    ensures |calls| <= 1
    ensures calls == [] <==> role == RegularUser || role == Admin
    ensures forall c :: c in calls ==>
      (c.EnrolExistingStudent? || c.AssignExistingProfessor?) && c.userRef == idParam && c.classID == classID
      && (c.EnrolExistingStudent? <==> role == Student)
  {
    match role
    case Student => [EnrolExistingStudent(idParam, classID)]
    case Professor => [AssignExistingProfessor(idParam, classID)]
    case _ => []
  }

  /** The success answer of `updateUserRole`: a 200 whose message starts
      with the role's name. */
  function RoleAssigned(role: Role): (r: Reply)
    ensures r.Json? && r.status == 200 && r.body.MessageBody?
    ensures |r.body.message| > |RoleName(role)|
    ensures r.body.message[..|RoleName(role)|] == RoleName(role)
    ensures r.body.message[|RoleName(role)|..] == " role assigned successfully"
  {
    Json(200, MessageBody(RoleName(role) + " role assigned successfully"))
  }

  /** The user table and the trace of backend calls started so far. */
  class UserStore {
    var users: map<int, User>
    var nextId: int
    var calls: seq<BackendCall>

    /** Every row sits under its own id, ids come from the counter, which
        starts at 1, and no two rows share an email. */
    ghost predicate Valid()
      reads this
    {
      && nextId >= 1
      && (forall k :: k in users ==> users[k].id == k && 1 <= k < nextId)
      && EmailsUnique(users)
    }

    constructor ()
      ensures Valid() && users == map[] && nextId == 1 && calls == []
    {
      users := map[];
      nextId := 1;
      calls := [];
    }

    /** `register`. A password that differs from its confirmation is refused
        first. An absent password makes the hashing throw; an absent or
        already used email makes the insert throw. Otherwise one row is added
        under a fresh id, with USER and the default avatar when none is given. */
    method Register(email: Option<string>, password: Option<string>, confirmPassword: Option<string>,
                    name: Option<string>, lastName: Option<string>, role: Option<string>,
                    avatar: Option<string>, hash: string -> string)
      returns (reply: Reply)
      requires Valid()
      modifies this
      ensures Valid() && calls == old(calls)
      ensures password != confirmPassword ==>
        reply == Json(400, ErrorBody("Passwords do not match"))
        && users == old(users) && nextId == old(nextId)
      ensures password == confirmPassword
              && (password.None? || email.None? || EmailTaken(old(users), email.value, 0)) ==>
        reply == Json(500, ErrorBody("Error creating user"))
        && users == old(users) && nextId == old(nextId)
      ensures password == confirmPassword && password.Some? && email.Some?
              && !EmailTaken(old(users), email.value, 0) ==>
        reply == Json(201, MessageBody("User created successfully"))
        && old(nextId) !in old(users)
        && users == old(users)[old(nextId) := User(old(nextId), email.value, hash(password.value), name, lastName,
                                                   if Truthy(role) then role.value else "USER",
                                                   if Truthy(avatar) then avatar.value else DefaultAvatar)]
        && nextId == old(nextId) + 1
    {
      if password != confirmPassword {
        return Json(400, ErrorBody("Passwords do not match"));
      }
      if password.None? {
        return Json(500, ErrorBody("Error creating user"));
      }
      var hashedPassword := hash(password.value);
      if email.None? || EmailTaken(users, email.value, 0) {
        return Json(500, ErrorBody("Error creating user"));
      }
      var user := User(nextId, email.value, hashedPassword, name, lastName,
                       if Truthy(role) then role.value else "USER",
                       if Truthy(avatar) then avatar.value else DefaultAvatar);
      users := users[nextId := user];
      nextId := nextId + 1;
      return Json(201, MessageBody("User created successfully"));
    }

    /** `updateUser`. A given password must match its confirmation. The row
        is found by `Number(req.params.id)`; a non-integer or unknown id, or an
        email that another user has, makes the update throw. After the write,
        a role of STUDENT or PROFESSOR also updates the backend's copy and the
        answer follows the backend's reply. */
    method UpdateUser(idParam: string, email: Option<string>, password: Option<string>,
                      confirmPassword: Option<string>, name: Option<string>, lastName: Option<string>,
                      role: Option<string>, avatar: Option<string>,
                      hash: string -> string, backend: BackendReply)
      returns (reply: Reply)
      requires Valid()
      modifies this
      ensures Valid() && nextId == old(nextId)
      ensures Truthy(password) && password != confirmPassword ==>
        reply == Json(400, ErrorBody("Passwords do not match"))
        && users == old(users) && calls == old(calls)
      ensures !(Truthy(password) && password != confirmPassword)
              && (ToNumber(idParam).None? || ToNumber(idParam).value !in old(users)
                  || (Truthy(email) && EmailTaken(old(users), email.value, ToNumber(idParam).value))) ==>
        reply == Json(500, ErrorBody("Error updating user"))
        && users == old(users) && calls == old(calls)
      ensures !(Truthy(password) && password != confirmPassword)
              && ToNumber(idParam).Some? && ToNumber(idParam).value in old(users)
              && !(Truthy(email) && EmailTaken(old(users), email.value, ToNumber(idParam).value)) ==>
        var id := ToNumber(idParam).value;
        && id in users
        && users == old(users)[id := users[id]]
        && WritesTruthyFields(old(users)[id], users[id], name, lastName, email, role, avatar, password, hash)
        && calls == old(calls) + ExternalUpdateCalls(role, id, users[id])
        && reply == (if ExternalUpdateCalls(role, id, users[id]) == [] then Json(200, UserJson(users[id]))
                     else ExternalUpdateReply(backend, users[id]))
    {
      var userId := ToNumber(idParam);
      if Truthy(password) && password != confirmPassword {
        return Json(400, ErrorBody("Passwords do not match"));
      }
      var updateData := BuildUpdateData(name, lastName, email, role, avatar, password, hash);
      if userId.None? || userId.value !in users
         || (updateData.email.Some? && EmailTaken(users, updateData.email.value, userId.value)) {
        return Json(500, ErrorBody("Error updating user"));
      }
      var id := userId.value;
      var updatedUser := ApplyUpdate(users[id], updateData);
      TruthyUpdateWritesTruthyFields(users[id], updateData, name, lastName, email, role, avatar, password, hash);
      UpdateKeepsEmailsUnique(users, id, updatedUser);
      users := users[id := updatedUser];
      var external := ExternalUpdateCalls(role, id, updatedUser);
      calls := calls + external;
      if external == [] {
        return Json(200, UserJson(updatedUser));
      }
      return ExternalUpdateReply(backend, updatedUser);
    }

    /** `login`. An unknown email and a wrong password get the same answer.
        A missing email makes the lookup throw, a missing password makes the
        comparison throw. On success the token carries the user's id and role
        and lives one hour. */
    method Login(email: Option<string>, password: Option<string>,
                 compare: (string, string) -> bool, sign: (JwtPayload, int) -> string)
      returns (reply: Reply)
      requires Valid()
      ensures email.None? ==> reply == Json(500, ErrorBody("Error logging in"))
      ensures email.Some? && !EmailTaken(users, email.value, 0) ==>
        reply == Json(401, ErrorBody("Invalid credentials"))
      ensures forall k :: k in users && email == Some(users[k].email) ==>
        reply == if password.None? then Json(500, ErrorBody("Error logging in"))
                 else if !compare(password.value, users[k].password) then Json(401, ErrorBody("Invalid credentials"))
                 else Json(200, TokenBody(sign(JwtPayload(Integer(k), users[k].role), TokenLifetime)))
    {
      if email.None? {
        return Json(500, ErrorBody("Error logging in"));
      }
      if !EmailTaken(users, email.value, 0) {
        return Json(401, ErrorBody("Invalid credentials"));
      }
      var k :| k in users && k != 0 && users[k].email == email.value;
      var user := users[k];
      if password.None? {
        return Json(500, ErrorBody("Error logging in"));
      }
      if !compare(password.value, user.password) {
        return Json(401, ErrorBody("Invalid credentials"));
      }
      var token := sign(JwtPayload(Integer(user.id), user.role), TokenLifetime);
      return Json(200, TokenBody(token));
    }

    /** `user`: the profile of the authenticated user, looked up by
        `parseInt(req.user.id)`, which is that id again. */
    method CurrentUser(identity: PublicUser) returns (reply: Reply)
      ensures identity.id in users ==> reply == Json(200, SummaryJson(Summary(users[identity.id])))
      ensures identity.id !in users ==> reply == Json(404, ErrorBody("User not found"))
    {
      DecimalRoundTrip(identity.id);
      var id := ParseInt(DecimalString(identity.id)).value;
      if id !in users {
        return Json(404, ErrorBody("User not found"));
      }
      return Json(200, SummaryJson(Summary(users[id])));
    }

    /** `updateUserRole`. An absent or unknown role is refused before anything
        else. The target is looked up by `parseInt(id)` outside the handler's
        `try`, so a non-integer id escapes unanswered. A target whose role is
        USER gets the requested role and, for STUDENT and PROFESSOR, a backend
        record whose failures are swallowed. Any other target, including one
        that does not exist, is left as it is: only an enrolment is requested,
        and only its failure to connect changes the answer. */
    method UpdateUserRole(idParam: string, role: Option<string>, classID: Option<int>, backend: BackendReply)
      returns (reply: Reply)
      requires Valid()
      modifies this
      ensures Valid() && nextId == old(nextId)
      ensures ParseRole(role).None? ==>
        reply == Json(400, ErrorBody("Invalid role")) && users == old(users) && calls == old(calls)
      ensures ParseRole(role).Some? && ParseInt(idParam).None? ==>
        reply == Unhandled && users == old(users) && calls == old(calls)
      ensures ParseRole(role).Some? && ParseInt(idParam).Some? && FirstAssignment(old(users), ParseInt(idParam).value) ==>
        var id := ParseInt(idParam).value;
        var r := ParseRole(role).value;
        && users == old(users)[id := old(users)[id].(role := RoleName(r))]
        && calls == old(calls) + FirstAssignmentCalls(id, r, classID)
        && reply == RoleAssigned(r)
      ensures ParseRole(role).Some? && ParseInt(idParam).Some? && !FirstAssignment(old(users), ParseInt(idParam).value) ==>
        var r := ParseRole(role).value;
        && users == old(users)
        && calls == old(calls) + ReassignmentCalls(idParam, r, classID)
        && reply == if ReassignmentCalls(idParam, r, classID) != [] && backend.Unreachable?
                    then Json(500, ErrorBody("Failed to assign role or communicate with backend Java"))
                    else RoleAssigned(r)
    {
      var requested := ParseRole(role);
      if requested.None? {
        return Json(400, ErrorBody("Invalid role"));
      }
      var r := requested.value;
      var id := ParseInt(idParam);
      if id.None? {
        return Unhandled;
      }
      if FirstAssignment(users, id.value) {
        var user := users[id.value].(role := RoleName(r));
        users := users[id.value := user];
        calls := calls + FirstAssignmentCalls(user.id, r, classID);
        return RoleAssigned(r);
      }
      var enrolment := ReassignmentCalls(idParam, r, classID);
      calls := calls + enrolment;
      if enrolment != [] && backend.Unreachable? {
        return Json(500, ErrorBody("Failed to assign role or communicate with backend Java"));
      }
      return RoleAssigned(r);
    }

    /** `userDelete`. An id that parses to 0 or NaN is refused; deleting an
        id that has no row throws; otherwise exactly that row goes. */
    method UserDelete(idParam: string) returns (reply: Reply)
      requires Valid()
      modifies this
      ensures Valid() && nextId == old(nextId) && calls == old(calls)
      ensures ParseInt(idParam).None? || ParseInt(idParam) == Some(0) ==>
        reply == Json(400, ErrorBody("User ID is required")) && users == old(users)
      ensures ParseInt(idParam).Some? && ParseInt(idParam).value != 0 && ParseInt(idParam).value !in old(users) ==>
        reply == Json(500, ErrorBody("Error deleting user")) && users == old(users)
      ensures ParseInt(idParam).Some? && ParseInt(idParam).value in old(users) ==>
        var id := ParseInt(idParam).value;
        reply == Json(200, DeletedJson("User deleted successfully", old(users)[id]))
        && users == old(users) - {id}
    {
      var userId := ParseInt(idParam);
      if userId.None? || userId.value == 0 {
        return Json(400, ErrorBody("User ID is required"));
      }
      if userId.value !in users {
        return Json(500, ErrorBody("Error deleting user"));
      }
      var deletedUser := users[userId.value];
      users := users - {userId.value};
      return Json(200, DeletedJson("User deleted successfully", deletedUser));
    }

    /** `users`: every row without its hash and avatar; an empty table is a 404. */
    method ListUsers() returns (reply: Reply)
      ensures users == map[] ==> reply == Json(404, ErrorBody("No users found"))
      ensures users != map[] ==>
        && reply.Json? && reply.status == 200 && reply.body.SummaryList?
        && reply.body.summaries.Keys == users.Keys
        && forall k :: k in users ==> reply.body.summaries[k] == Summary(users[k])
    {
      var summaries := map k | k in users :: Summary(users[k]);
      if |summaries| == 0 {
        assert users.Keys == summaries.Keys;
        return Json(404, ErrorBody("No users found"));
      }
      return Json(200, SummaryList(summaries));
    }

    /** `updateAvatar`: an empty avatar is refused; the authenticated user's
        row gets the new avatar and nothing else changes. */
    method UpdateAvatar(identity: PublicUser, avatar: Option<string>) returns (reply: Reply)
      requires Valid()
      modifies this
      ensures Valid() && nextId == old(nextId) && calls == old(calls)
      ensures !Truthy(avatar) ==>
        reply == Json(400, ErrorBody("Avatar is required")) && users == old(users)
      ensures Truthy(avatar) && identity.id !in old(users) ==>
        reply == Json(500, ErrorBody("Error updating avatar")) && users == old(users)
      ensures Truthy(avatar) && identity.id in old(users) ==>
        users == old(users)[identity.id := old(users)[identity.id].(avatar := avatar.value)]
        && reply == Json(200, AvatarJson("Avatar updated successfully", avatar.value))
    {
      if !Truthy(avatar) {
        return Json(400, ErrorBody("Avatar is required"));
      }
      DecimalRoundTrip(identity.id);
      var id := ParseInt(DecimalString(identity.id)).value;
      if id !in users {
        return Json(500, ErrorBody("Error updating avatar"));
      }
      var updatedUser := users[id].(avatar := avatar.value);
      users := users[id := updatedUser];
      return Json(200, AvatarJson("Avatar updated successfully", updatedUser.avatar));
    }
  }

  /** A token issued by `login` for user `k` (one the verifier accepts back
      with the payload it was signed with), sent as "Bearer <token>", passes
      the gate with that user's password-free record. */
  lemma LoginTokenPassesGate(users: map<int, User>, k: int, token: string,
                             verify: string -> Option<JwtPayload>)
    requires k in users
    requires token != [] && ' ' !in token
    requires verify(token) == Some(JwtPayload(Integer(k), users[k].role))
    ensures AuthMiddleware.Authenticate(Some("Bearer " + token), verify, users)
            == AuthMiddleware.Next(Strip(users[k]))
  {
    assert "Bearer " + token == "Bearer" + [' '] + token + [];
    AuthMiddleware.TokenIsSecondWord("Bearer", token, []);
  }

  /** Once user `k` is deleted, the same token still verifies but the gate
      hands a 401 error to `next`. */
  lemma DeletedUserTokenIsRefused(users: map<int, User>, k: int, role: string, token: string,
                                  verify: string -> Option<JwtPayload>)
    requires token != [] && ' ' !in token
    requires verify(token) == Some(JwtPayload(Integer(k), role))
    ensures AuthMiddleware.Authenticate(Some("Bearer " + token), verify, users - {k})
            == AuthMiddleware.NextWithError(401, "Unauthorized: Invalid token.")
  {
    assert "Bearer " + token == "Bearer" + [' '] + token + [];
    AuthMiddleware.TokenIsSecondWord("Bearer", token, []);
  }
}
