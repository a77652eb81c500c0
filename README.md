# Authentication gate, account handlers and file table — a Dafny model

This project models the decision logic of an Express gateway that issues and
checks session tokens, keeps user accounts and stores metadata about uploaded
course files. Three parts of it are modelled:

- **The authentication gate** (`authenticateToken`, `src/middleware/auth.ts`,
  with an identical copy at `src/controllers/authController.ts:13-41`). It takes
  the token from the `Authorization` header (`split(' ')[1]`) and verifies it
  with the token library. It then loads the user the token names. It ends in
  exactly one of four ways:
  - 401 "Access token required";
  - 403 "Invalid token";
  - a 401 error handed to `next`;
  - `next()` with the user's record, minus its password hash, attached to `req.user`.

  Module `AuthMiddleware` holds the decision as a function (`Authenticate`) and
  the middleware as a method on a `Request` object.
- **The account handlers** (`src/controllers/authController.ts`):
  `register`, `updateUser`, `login`, `user`, `updateUserRole`, `userDelete`,
  `users` and `updateAvatar`. They are methods of a `UserStore` class.
  - Its fields are the user table (`map<int, User>`), the id counter and a trace
    of the calls to the course backend that the handlers started.
  - Its invariant: rows sit under their own ids, ids come from the counter,
    and no two rows share an email.
- **The file table** (`src/controllers/fileController.ts`): `uploadFile`,
  `listFiles`, `deleteFile`, `getFile` and `listFilesByClass`. They are methods
  of a `FileTable` class over a `seq<FileRecord>` kept in ascending id order. That order is an assumption of the model; the queries do not fix one.
  The filters (`FindFirst`, `ByClass`) and the delete-by-id (`RemoveById`) are
  functions with their own contracts.

Supporting modules:
- `JsText` models the JavaScript coercions the handlers depend on:
  `split(' ')` with its inverse `Join`, `parseInt`, `Number` on integer text, and
  the decimal text of an integer.
- `Accounts` holds the records, the password-free view, the four roles and
  the token payload.
- `Scenarios` states and proves the outcome of request sequences against a fresh store: first and
  repeated role assignment, an unknown role, a mismatched registration, and
  register → login → gate.

External collaborators are parameters:
- `verify: string -> Option<JwtPayload>` stands for `jwt.verify` with the
  process secret.
- `sign: (JwtPayload, int) -> string` stands for `jwt.sign`.
- `hash` and `compare` stand for bcrypt.
- `BackendReply` is how the course backend answers the calls a handler waits for.

Prisma is replaced by the in-memory tables. Where Prisma would throw, the model
takes the handler's error path:
- a NaN id;
- a missing record on `update` or `delete`;
- a duplicate or missing email.

Where the code and the intended design differ, the model follows the code:
- The first word of the header is never checked to be `Bearer`.
- No handler checks the caller's role. Anyone who passes the gate can assign
  roles, list users and delete users.
- `updateUser` and `userDelete` answer with the full stored row, password hash
  included.
- No proxy or identity-header injection exists in this code.
- `uploadFile` takes the owner from the client's `req.body.userId` (src/controllers/fileController.ts:8, 19), not from the authenticated identity.
- `getFile` lets any authenticated caller fetch another user's file by putting that user's id in the path (src/controllers/fileController.ts:83-90).

## Model

| member | source | states |
|---|---|---|
| `JsText.Split` | src/middleware/auth.ts:13 | `split(' ')` always yields at least one piece |
| `JsText.JoinSplit` | src/middleware/auth.ts:13 | joining the pieces of `split(' ')` with single spaces gives the header back: nothing is lost |
| `JsText.SplitJoin` | src/middleware/auth.ts:13 | splitting space-free words joined by single spaces gives exactly those words |
| `JsText.SplitPiecesHaveNoSpace` | src/middleware/auth.ts:13 | no piece of `split(' ')` contains a space |
| `JsText.SplitAfterWord` | src/middleware/auth.ts:13 | a first word followed by one space is the first piece, and the rest splits independently |
| `JsText.SplitWord` | src/middleware/auth.ts:13 | a header without a space is a single piece |
| `JsText.ParseInt` | src/controllers/authController.ts:337 | `parseInt(s)` is NaN exactly when no digit follows the optional sign, and is negative only after a leading `-` |
| `JsText.ToNumber` | src/controllers/authController.ts:76 | for the forms `ToNumber` models (an optional sign and digits), whenever `Number(id)` gives an integer, `parseInt(id)` gives the same integer |
| `JsText.ParseIntIgnoresTail` | src/controllers/authController.ts:337 | for the forms `ToNumber` models: `parseInt` stops at the first non-digit, so "12abc" is 12, while `Number` gives NaN for integer text followed by a tail that is not a digit |
| `JsText.DecimalRoundTrip` | src/controllers/authController.ts:395 | `parseInt` and `Number` of an integer's decimal text give that integer back |
| `Accounts.Strip` | src/middleware/auth.ts:31-32 | the record attached to the request loses only the password: putting the hash back gives the stored row |
| `Accounts.StripForgetsOnlyPassword` | src/middleware/auth.ts:31 | two rows have the same public view exactly when they differ at most in the hash |
| `Accounts.Summary` | src/controllers/authController.ts:178-186 | the selected profile fields: id, email, name, last name and role are the row's, and neither hash nor avatar is included |
| `Accounts.ParseRole` | src/controllers/authController.ts:206-208 | a role is accepted exactly when it is one of STUDENT, PROFESSOR, USER, ADMIN, and an accepted role names itself |
| `AuthMiddleware.ExtractToken` | src/middleware/auth.ts:12-13 | a token that is found is non-empty and contains no space |
| `AuthMiddleware.TokenIsSecondWord` | src/middleware/auth.ts:13 | the token is the word after the first space whatever the first word is, and trailing words are ignored |
| `AuthMiddleware.TokenLocation` | src/middleware/auth.ts:13 | conversely, a found token sits right after the first word and one space, followed by the end or a space |
| `AuthMiddleware.OneWordHasNoToken` | src/middleware/auth.ts:13-18 | a header of one word, such as "Bearer", has no token |
| `AuthMiddleware.DoubleSpaceHasNoToken` | src/middleware/auth.ts:13-18 | a header with two spaces after the first word, such as "Bearer  x", has no token |
| `AuthMiddleware.Authenticate` | src/middleware/auth.ts:11-39 | 401 "Access token required" iff there is no token; 403 "Invalid token" iff the token fails verification or its subject is not an integer; a 401 error to `next` iff the verified subject has no row; proceeding iff it has one, with that row minus its hash |
| `AuthMiddleware.AuthenticateToken` | src/middleware/auth.ts:11-39 | the middleware decides as `Authenticate` does and writes `req.user` only when the request proceeds |
| `AuthController.ApplyUpdate` | src/controllers/authController.ts:96-99 | `prisma.user.update` never changes the id, an empty `updateData` changes nothing, and a present email is written while an absent one is kept |
| `AuthController.BuildUpdateData` | src/controllers/authController.ts:83-94 | `updateData` carries each truthy field, the hash of a truthy password, and nothing else |
| `AuthController.TruthyUpdateWritesTruthyFields` | src/controllers/authController.ts:83-99 | applying that object to any row writes exactly the truthy fields and keeps every other field |
| `AuthController.ApplyUpdateIdempotent` | src/controllers/authController.ts:96-99 | writing the same partial update twice gives the same row as writing it once |
| `AuthController.UpdateKeepsEmailsUnique` | src/controllers/authController.ts:96-99 | an update whose email no other row has keeps emails unique |
| `AuthController.ExternalUpdateCalls` | src/controllers/authController.ts:101-119 | the backend update is sent exactly when the raw role is STUDENT or PROFESSOR: at most one call, to the student endpoint exactly for STUDENT, carrying the user's id, email, name and last name |
| `AuthController.ExternalUpdateReply` | src/controllers/authController.ts:121-133 | 200 with the updated user exactly when the backend accepts; a refusal is 500 "Failed to update user in external system: " followed by the backend's message or "Unknown error"; an unreachable backend is 500 "Error updating user in external system" |
| `AuthController.RoleAssigned` | src/controllers/authController.ts:285 | the success answer is a 200 whose message is the role's name followed by " role assigned successfully" |
| `AuthController.FirstAssignment` | src/controllers/authController.ts:217 | the first-assignment path is taken exactly when the target exists and its role is USER |
| `AuthController.FirstAssignmentCalls` | src/controllers/authController.ts:235-283 | a first-time assignment makes at most one call, and makes one exactly for STUDENT and PROFESSOR: it creates a student record (for STUDENT) or a professor record (for PROFESSOR) for this user's id with the given `classID` |
| `AuthController.ReassignmentCalls` | src/controllers/authController.ts:292-322 | a repeated assignment makes at most one call, and makes one exactly for STUDENT and PROFESSOR: it enrols the raw `id` text as a student (for STUDENT) or assigns it as a professor (for PROFESSOR) with the given `classID` |
| `AuthController.UserStore.Register` | src/controllers/authController.ts:43-70 | a mismatched confirmation is 400 and stores nothing; a missing password, a missing email or a used email is 500 and stores nothing; otherwise one row is added under a fresh id, with the hash, role USER and the default avatar unless given |
| `AuthController.UserStore.UpdateUser` | src/controllers/authController.ts:73-138 | a truthy password that differs from its confirmation is 400; a bad id or an email another user has is 500; otherwise only the target row changes, exactly in its truthy fields; STUDENT or PROFESSOR also starts a backend update, whose reply decides the status |
| `AuthController.UserStore.Login` | src/controllers/authController.ts:142-172 | an unknown email and a wrong password both give 401 "Invalid credentials"; a missing email or password is 500; success returns a token signed over the user's id and role for 3600 seconds |
| `AuthController.UserStore.CurrentUser` | src/controllers/authController.ts:174-199 | the authenticated user's summary, or 404 when the row is gone |
| `AuthController.UserStore.UpdateUserRole` | src/controllers/authController.ts:202-331 | an absent or unknown role is 400 with no change and no call; a USER target takes the new role and starts record creation for STUDENT or PROFESSOR; any other or absent target is unchanged, starts only an enrolment, and gets the same success message unless the backend is unreachable |
| `AuthController.UserStore.UserDelete` | src/controllers/authController.ts:335-356 | an id that parses to 0 or NaN is 400 "User ID is required"; an unknown id is 500; otherwise exactly that row is removed and returned |
| `AuthController.UserStore.ListUsers` | src/controllers/authController.ts:358-382 | an empty table is 404 "No users found"; otherwise one summary per row, keyed by id, without hash or avatar |
| `AuthController.UserStore.UpdateAvatar` | src/controllers/authController.ts:385-406 | an empty avatar is 400 and changes nothing; otherwise only the caller's avatar changes |
| `AuthController.LoginTokenPassesGate` | src/controllers/authController.ts:161-165 | a login token that the verifier accepts back, sent as "Bearer <token>", passes the gate with the user's password-free row |
| `AuthController.DeletedUserTokenIsRefused` | src/middleware/auth.ts:22-27 | after the user is deleted, the same token gets the 401 error passed to `next` |
| `FileController.FindFirst` | src/controllers/fileController.ts:56-61 | the position of the first row with this filename and owner, or none when no row has both |
| `FileController.RemoveById` | src/controllers/fileController.ts:68-72 | after deleting by id no row with that id remains and the table does not grow |
| `FileController.RemoveByIdKeepsOthers` | src/controllers/fileController.ts:68-72 | deleting by id keeps exactly the rows with another id |
| `FileController.RemoveByIdRemovesOne` | src/controllers/fileController.ts:68-72 | deleting the id of one row removes that row and keeps every other row, in order |
| `FileController.RemoveAbsentId` | src/controllers/fileController.ts:68-72 | deleting an id no row has changes nothing |
| `FileController.AscendingWithout` | src/controllers/fileController.ts:68-72 | removing a row keeps the table in ascending id order |
| `FileController.ByClass` | src/controllers/fileController.ts:108-115 | a row is listed exactly when it is in the table and has the requested class; from a table in ascending id order the list is in ascending id order too, so it is fixed exactly |
| `FileController.ByClassAfterUpload` | src/controllers/fileController.ts:13-22 | an uploaded row appears at the end of its class's list and no other class's list changes |
| `FileController.FileTable.UploadFile` | src/controllers/fileController.ts:5-29 | a missing file, userId or classId is 400 and stores nothing; a NaN id goes to `next`; otherwise one row copying name, path, type and size with the parsed ids is appended and returned with 201 |
| `FileController.FileTable.ListFiles` | src/controllers/fileController.ts:31-49 | 404 "No files found" exactly when the table is empty, otherwise 200 with every row |
| `FileController.FileTable.DeleteFile` | src/controllers/fileController.ts:51-79 | no row with this filename and owner is 404 and the table stays; otherwise the first such row is removed and every other row is kept |
| `FileController.FileTable.GetFile` | src/controllers/fileController.ts:81-102 | the stored file is sent only for a row with this filename and owner `parseInt(userId)`; otherwise 404 |
| `FileController.FileTable.ListFilesByClass` | src/controllers/fileController.ts:104-127 | exactly the rows of class `parseInt(classId)`; 404 exactly when there are none |
| `Scenarios.FirstRoleAssignment` | src/controllers/authController.ts:217-285 | a USER given STUDENT with class 42 becomes STUDENT, one student-creation call is started and the message is "STUDENT role assigned successfully" |
| `Scenarios.RepeatedRoleAssignment` | src/controllers/authController.ts:292-324 | asking again changes no role and adds only an enrolment call; the answer is the same success message when the backend can be reached, and 500 "Failed to assign role or communicate with backend Java" when it cannot |
| `Scenarios.UnknownRoleIsRefused` | src/controllers/authController.ts:206-208 | role "TEACHER" is 400 "Invalid role"; the table is exactly the registered one and no backend call is started |
| `Scenarios.MismatchedRegistration` | src/controllers/authController.ts:47-50 | a mismatched confirmation stores no user |
| `Scenarios.RegisterLoginAuthenticate` | src/controllers/authController.ts:142-167 | a registered user logging in with the right password gets a token that passes the gate with exactly the registered data (id, email, name, last name, role USER, default avatar) |

## Left out

- Token signing, verification and expiry are inside the `sign`/`verify` parameters. The model has no clock, and it cannot show that `verify(sign(p)) == p`. Lemmas that need this take it as a precondition.
- That precondition also hides a difference between the secrets. `login` signs with `JWT_SECRET || 'your-secret-key'` (src/controllers/authController.ts:163), but the gate verifies with `JWT_SECRET!` (src/middleware/auth.ts:21). When the variable is unset, every token that `login` issues gets 403 at the gate.
- bcrypt's salt is random; `hash` is a plain function parameter.
- Failures of the database itself (connection loss, timeouts) are not modelled. Only the failures that the model's own inputs cause are.
- The Prisma schema is not part of this model. The model assumes email is required and unique, and that ids are auto-incremented from 1. It also assumes Prisma throws when a query gets a NaN integer.
- Role text is stored as given. A database-level enum that would refuse other roles is not modelled.
- The link between files and users is not modelled: no foreign-key checks on upload or user deletion, and no `include: { user: true }` join in file listings.
- Timestamps (`createdAt`, `updatedAt`) are not modelled.
- Calls to the course backend at localhost:8080 appear only as abstract `BackendCall` entries, one per chain of requests. One `BackendReply` stands for every backend answer within a request. Response parsing and the ids the backend returns are not modelled.
- The final Express error handler and `CustomError` are not part of the code shown. `AuthMiddleware.NextWithError`, `FileController.ThrownToNext` and `Unhandled` only say that the handler did not answer itself.
- Logging, `res.sendFile`'s path resolution, multer's disk storage and its random file names are not modelled. Route wiring and server start-up are not modelled either.
- Body fields are modelled as optional strings. JSON numbers or booleans sent where text is expected are not modelled.
- `AuthController.UserStore.UpdateUserRole` takes `classID` as an optional integer. The handler forwards whatever JSON value arrives (src/controllers/authController.ts:204, 249, 273, 304, 318), so a string such as "42" or any other non-integer value cannot be represented.
- `FileController.FileTable.DeleteFile`, `FileController.FileTable.GetFile`, `FileController.FileTable.ListFiles` and `FileController.FileTable.ListFilesByClass` assume rows come back in ascending id order. The `findFirst` and `findMany` queries (src/controllers/fileController.ts:33-37, 56-61, 85-90, 108-115) have no `orderBy`, so the database may choose another order. When two rows share a filename and an owner, the model deletes or sends the one with the lower id, and it lists rows in ascending id order. The handlers as written promise neither.
- `JsText.ParseInt` does not model leading whitespace or the `0x` prefix.
- `JsText.ParseInt` and `JsText.ToNumber` return exact, unbounded integers. In JavaScript they return doubles, which lose precision above 2^53, and the database's integer id columns are bounded. An id text too large for a column would make the query throw, so the handler would go to its error path. The model instead accepts it and uses the exact value. This affects `UploadFile`, `GetFile`, `ListFilesByClass`, `UpdateUserRole`, `UserDelete`, `UpdateUser` and `UpdateAvatar`.
- `AuthMiddleware.Authenticate` treats every integer token subject (`Subject.Integer`) as a valid id. At src/middleware/auth.ts:22, a subject too large for the id column would make `findUnique` throw, and the `catch` would answer 403 (src/middleware/auth.ts:35-37). The model instead finds no row and hands the 401 error to `next`. Tokens issued by `login` carry stored ids only, so they never hit this case.
- `JsText.ToNumber` does not model whitespace, hexadecimal, exponents, `"1.0"` or the empty string, which `Number` reads as 0.
- `AuthController.UserStore.ListUsers` returns summaries keyed by id: the order of the JSON list is not modelled.
- `AuthController.UserStore.UpdateAvatar` models the handler itself. `PUT /user/avatar` is registered after `PUT /user/:id` (src/routes/authRoutes.ts:10, 18), so a running server sends that path to `updateUser`.
- `FileController.FileTable.DeleteFile` takes the owner as an explicit parameter. The handler reads `req.userId`, which the gate never sets (it sets `req.user`). A running server therefore gives Prisma an undefined owner filter, which the model does not model.
