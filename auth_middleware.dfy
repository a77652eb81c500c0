/** The authentication gate that runs in front of every protected route: it
    takes the token out of the `Authorization` header, verifies it, loads the
    user it names and either answers the request itself or lets it proceed with
    the user's password-free record attached. */
module AuthMiddleware {
  import opened Common
  import opened JsText
  import opened Accounts

  /** The single thing one pass through the gate does. */
  datatype GateResult =
    | Respond(status: int, error: string)           // res.status(status).json({ error })
    | NextWithError(status: int, message: string)   // next(new CustomError(message, status))
    | Next(identity: PublicUser)                     // req.user = identity; next()

  /** `authHeader && authHeader.split(' ')[1]`, kept only when it is truthy.
      An empty header splits into a single piece, so it has no token either. */
  function ExtractToken(authHeader: Option<string>): (token: Option<string>)
    ensures token.Some? ==> token.value != [] && ' ' !in token.value
  {
    match authHeader
    case None => None
    case Some(h) =>
      var parts := Split(h);
      SplitPiecesHaveNoSpace(h);
      if |parts| >= 2 && parts[1] != [] then Some(parts[1]) else None
  }

  /** The token is the word after the first space, whatever the first word is
      (it is not checked to be `Bearer`), and anything after the next space is
      ignored. */
  lemma TokenIsSecondWord(first: string, token: string, rest: string)
    requires ' ' !in first && ' ' !in token && token != []
    requires rest == [] || rest[0] == ' '
    ensures ExtractToken(Some(first + [' '] + token + rest)) == Some(token)
  {
    var h := first + [' '] + token + rest;
    assert h == first + [' '] + (token + rest);
    SplitAfterWord(first, token + rest);
    if rest == [] {
      assert token + rest == token;
      SplitWord(token);
    } else {
      assert token + rest == token + [' '] + rest[1..];
      SplitAfterWord(token, rest[1..]);
    }
  }

  /** Conversely, a token that is found sits right after the first word and
      its single space, and is followed by the end of the header or a space. */
  lemma TokenLocation(h: string, token: string)
    requires ExtractToken(Some(h)) == Some(token)
    ensures var first := Split(h)[0];
      ' ' !in first
      && |first| + 1 + |token| <= |h|
      && h[..|first| + 1 + |token|] == first + [' '] + token
      && (|h| == |first| + 1 + |token| || h[|first| + 1 + |token|] == ' ')
  {
    var parts := Split(h);
    SplitPiecesHaveNoSpace(h);
    JoinSplit(h);
    assert Join(parts) == parts[0] + [' '] + Join(parts[1..]);
    var tail := parts[1..];
    if |tail| == 1 {
      assert h == parts[0] + [' '] + token;
    } else {
      assert Join(tail) == token + [' '] + Join(tail[1..]);
      assert h == parts[0] + [' '] + token + [' '] + Join(tail[1..]);
    }
  }

  /** A header of one word, such as "Bearer", carries no token. */
  lemma OneWordHasNoToken(h: string)
    requires ' ' !in h
    ensures ExtractToken(Some(h)) == None
  {
    SplitWord(h);
  }

  /** Two spaces after the first word, as in "Bearer  x", leave an empty
      second piece, so there is no token. */
  lemma DoubleSpaceHasNoToken(first: string, rest: string)
    requires ' ' !in first
    ensures ExtractToken(Some(first + [' ', ' '] + rest)) == None
  {
    assert first + [' ', ' '] + rest == first + [' '] + ([] + [' '] + rest);
    SplitAfterWord(first, [] + [' '] + rest);
    SplitAfterWord([], rest);
  }

  /** The subject of a token that is present and verifies (`None` when the
      header has no token or the verifier refuses it). */
  function VerifiedSubject(authHeader: Option<string>, verify: string -> Option<JwtPayload>): Option<Subject>
  {
    match ExtractToken(authHeader)
    case None => None
    case Some(token) =>
      match verify(token)
      case None => None
      case Some(payload) => Some(payload.userId)
  }

  /** The gate's decision. `verify` stands for `jwt.verify` with the process
      secret (it refuses bad signatures, expired and malformed tokens) and
      `users` for the user table. A lookup with a non-integer id throws inside
      the same `try` as the verification, so it also ends in 403. */
  function Authenticate(authHeader: Option<string>, verify: string -> Option<JwtPayload>,
                        users: map<int, User>): (r: GateResult)
    ensures r.Respond? ==> r == Respond(401, "Access token required") || r == Respond(403, "Invalid token")
    ensures r.Respond? && r.status == 401 <==> ExtractToken(authHeader).None?
    ensures r.Respond? && r.status == 403 <==>
      ExtractToken(authHeader).Some? &&
      (VerifiedSubject(authHeader, verify).None? || VerifiedSubject(authHeader, verify).value.NonInteger?)
    ensures r.NextWithError? ==> r == NextWithError(401, "Unauthorized: Invalid token.")
    ensures r.NextWithError? <==>
      exists id :: VerifiedSubject(authHeader, verify) == Some(Integer(id)) && id !in users
    ensures r.Next? <==>
      exists id :: VerifiedSubject(authHeader, verify) == Some(Integer(id)) && id in users
    ensures r.Next? ==>
      r.identity == Strip(users[VerifiedSubject(authHeader, verify).value.value])
  {
    match ExtractToken(authHeader)
    case None => Respond(401, "Access token required")
    case Some(token) =>
      match verify(token)
      case None => Respond(403, "Invalid token")
      case Some(decoded) =>
        match decoded.userId
        case NonInteger => Respond(403, "Invalid token")
        case Integer(id) =>
          if id !in users then NextWithError(401, "Unauthorized: Invalid token.")
          else Next(Strip(users[id]))
  }

  /** The part of an Express request the gate reads and writes. */
  class Request {
    const authorization: Option<string>
    var user: Option<PublicUser>

    constructor (authorization: Option<string>)
      ensures this.authorization == authorization && user == None
    {
      this.authorization := authorization;
      user := None;
    }
  }

  /** `authenticateToken`: decides as `Authenticate` does and, only when the
      request proceeds, attaches the password-free user to `req.user`. */
  method AuthenticateToken(req: Request, verify: string -> Option<JwtPayload>, users: map<int, User>)
    returns (result: GateResult)
    modifies req
    ensures result == Authenticate(req.authorization, verify, users)
    ensures req.user == if result.Next? then Some(result.identity) else old(req.user)
  {
    var token := ExtractToken(req.authorization);
    if token.None? {
      return Respond(401, "Access token required");
    }
    var decoded := verify(token.value);
    if decoded.None? {
      return Respond(403, "Invalid token");
    }
    match decoded.value.userId {
      case NonInteger =>
        return Respond(403, "Invalid token");
      case Integer(id) =>
        if id !in users {
          return NextWithError(401, "Unauthorized: Invalid token.");
        }
        var userData := Strip(users[id]);
        req.user := Some(userData);
        return Next(userData);
    }
  }
}
