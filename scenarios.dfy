/** Request sequences against a fresh store, proved from the handlers'
    contracts alone. */
module Scenarios {
  import opened Common
  import opened JsText
  import opened Accounts
  import opened AuthController
  import AuthMiddleware

  /** A store holding one freshly registered user (id 1, role USER). */
  method StoreWithOneUser(hash: string -> string) returns (store: UserStore)
    ensures fresh(store) && store.Valid()
    ensures store.users.Keys == {1} && store.calls == []
    ensures store.users[1] == User(1, "ada@example.org", hash("secret"), Some("Ada"), Some("Lovelace"),
                                   "USER", DefaultAvatar)
  {
    store := new UserStore();
    var reply := store.Register(Some("ada@example.org"), Some("secret"), Some("secret"),
                                Some("Ada"), Some("Lovelace"), None, None, hash);
  }

  /** The text `${role} role assigned successfully` for STUDENT. */
  lemma StudentAssignedMessage()
    ensures RoleAssigned(Student) == Json(200, MessageBody("STUDENT role assigned successfully"))
  {
    var text := RoleName(Student) + " role assigned successfully";
    var expected := "STUDENT role assigned successfully";
    assert |text| == |expected|;
    forall i | 0 <= i < |text|
      ensures text[i] == expected[i]
    {
      if i < 7 {
        assert text[i] == "STUDENT"[i];
      } else {
        assert text[i] == " role assigned successfully"[i - 7];
      }
    }
    assert text == expected;
  }

  /** A plain user given STUDENT with class 42 becomes a student, the backend
      is asked to create the student and enrol it, and the answer is the
      success message, whatever the backend does. */
  method FirstRoleAssignment(hash: string -> string, backend: BackendReply)
    returns (reply: Reply, role: string, calls: seq<BackendCall>)
    ensures reply == Json(200, MessageBody("STUDENT role assigned successfully"))
    ensures role == "STUDENT"
    ensures calls == [CreateStudentAndEnrol(1, Some(42))]
  {
    var store := StoreWithOneUser(hash);
    assert ParseInt("1") == Some(1);
    StudentAssignedMessage();
    reply := store.UpdateUserRole("1", Some("STUDENT"), Some(42), backend);
    role := store.users[1].role;
    calls := store.calls;
  }

  /** The one-user store after that user was first made a student of class 42. */
  method StoreWithOneStudent(hash: string -> string, backend: BackendReply) returns (store: UserStore)
    ensures fresh(store) && store.Valid()
    ensures store.users.Keys == {1} && store.users[1].role == "STUDENT"
    ensures store.calls == [CreateStudentAndEnrol(1, Some(42))]
  {
    store := StoreWithOneUser(hash);
    assert ParseInt("1") == Some(1);
    assert ParseRole(Some("STUDENT")) == Some(Student);
    var reply := store.UpdateUserRole("1", Some("STUDENT"), Some(42), backend);
  }

  /** Asking again for a user who is already a student changes no role; only
      an enrolment is requested. The same success message comes back while
      the backend can be reached; when it cannot, the second request is a 500. */
  method RepeatedRoleAssignment(hash: string -> string, backend: BackendReply)
    returns (reply: Reply, role: string, calls: seq<BackendCall>)
    ensures reply == if backend.Unreachable?
                     then Json(500, ErrorBody("Failed to assign role or communicate with backend Java"))
                     else Json(200, MessageBody("STUDENT role assigned successfully"))
    ensures role == "STUDENT"
    ensures calls == [CreateStudentAndEnrol(1, Some(42)), EnrolExistingStudent("1", Some(42))]
  {
    var store := StoreWithOneStudent(hash, backend);
    assert ParseInt("1") == Some(1);
    assert ParseRole(Some("STUDENT")) == Some(Student);
    assert !FirstAssignment(store.users, 1);
    StudentAssignedMessage();
    reply := store.UpdateUserRole("1", Some("STUDENT"), Some(42), backend);
    role := store.users[1].role;
    calls := store.calls;
  }

  /** "TEACHER" is not a role: 400, the table is exactly as registered, and
      no backend call is started. */
  method UnknownRoleIsRefused(hash: string -> string, backend: BackendReply)
    returns (reply: Reply, users: map<int, User>, calls: seq<BackendCall>)
    ensures reply == Json(400, ErrorBody("Invalid role"))
    ensures users == map[1 := User(1, "ada@example.org", hash("secret"), Some("Ada"), Some("Lovelace"),
                                   "USER", DefaultAvatar)]
    ensures calls == []
  {
    var store := StoreWithOneUser(hash);
    reply := store.UpdateUserRole("1", Some("TEACHER"), Some(42), backend);
    users := store.users;
    calls := store.calls;
  }

  /** Registering with a confirmation that differs stores nothing. */
  method MismatchedRegistration(hash: string -> string) returns (reply: Reply, count: nat)
    ensures reply == Json(400, ErrorBody("Passwords do not match"))
    ensures count == 0
  {
    var store := new UserStore();
    reply := store.Register(Some("ada@example.org"), Some("secret"), Some("secreT"),
                            None, None, None, None, hash);
    count := |store.users|;
  }

  /** A registered user who logs in with the right password gets a token that,
      when the verifier gives back what was signed, passes the gate with the
      user's password-free record. */
  method RegisterLoginAuthenticate(hash: string -> string, compare: (string, string) -> bool,
                                   sign: (JwtPayload, int) -> string, verify: string -> Option<JwtPayload>)
    returns (login: Reply, gate: AuthMiddleware.GateResult)
    requires compare("secret", hash("secret"))
    requires forall p: JwtPayload, ttl: int :: sign(p, ttl) != [] && ' ' !in sign(p, ttl)
    requires forall p: JwtPayload, ttl: int :: verify(sign(p, ttl)) == Some(p)
    ensures login.Json? && login.status == 200 && login.body.TokenBody?
    ensures gate == AuthMiddleware.Next(PublicUser(1, "ada@example.org", Some("Ada"), Some("Lovelace"),
                                                  "USER", DefaultAvatar))
  {
    var store := StoreWithOneUser(hash);
    login := store.Login(Some("ada@example.org"), Some("secret"), compare, sign);
    var token := login.body.token;
    LoginTokenPassesGate(store.users, 1, token, verify);
    var request := new AuthMiddleware.Request(Some("Bearer " + token));
    gate := AuthMiddleware.AuthenticateToken(request, verify, store.users);
  }
}
