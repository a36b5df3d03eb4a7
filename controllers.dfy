/**
 * The user service's HTTP handlers as pure decision ladders.  Each takes the request fields it
 * reads and the answers of its collaborators (bcrypt, the user database, the Redis blacklist,
 * JWT signing, the Kafka producer and the Logout RPC) and returns the status, the JSON body and
 * the outbound calls made, in order.  Each check returns early, so the first failing check
 * decides the reply.
 */
module Controllers {
  import opened Optional
  import opened Http

  const ParseErrorText: string := "Cannot parse JSON"
  const UnauthorizedText: string := "Unauthorized"
  const EmailFailedText: string := "Failed to send email event"
  const RegisteredText: string := "User registered successfully"
  const BadCredentialsText: string := "Invalid email or password"
  const InvalidUserText: string := "Invalid user"
  const LoggedInText: string := "User logged in successfully"
  const LoggedOutText: string := "User logged out successfully"
  const HashFailedText: string := "Cannot hash password"
  const InsertFailedText: string := "Cannot register user"
  const SignFailedText: string := "Cannot generate token"

  /** Outcome of database.GetUserById: a failure, no such row (nil user), or the user. */
  datatype Fetch = FetchFailed | NoRow | Row(user: User)

  /** Outcome of the Logout RPC: a transport error, or the response's success flag. */
  datatype RpcResult = RpcFailed | RpcReplied(success: bool)

  /**
   * The Authorization header and blacklist checks shared by the protected handlers: None when the
   * header is present and its bearer token is not listed, otherwise the 401 reply.
   */
  function Guard(header: string, blacklist: string -> Lookup): (r: Option<Reply>)
    requires header == "" || |header| >= 7
    ensures r.None? <==> header != "" && !IsBlacklisted(blacklist(BearerToken(header)))
    ensures r.Some? ==> r.value == Reply(StatusUnauthorized, ErrorBody(UnauthorizedText), [])
  {
    if header == "" then Some(Reply(StatusUnauthorized, ErrorBody(UnauthorizedText), []))
    else if IsBlacklisted(blacklist(BearerToken(header))) then Some(Reply(StatusUnauthorized, ErrorBody(UnauthorizedText), []))
    else None
  }

  /** The record Register inserts: the request's user with the bcrypt output in place of the password. */
  function Hashed(u: User, hashed: string): User
  {
    u.(password := hashed)
  }

  /**
   * Register: parse, hash, insert, then an email-topic send and the logs-topic sends.  Once the
   * insert succeeded the reply is 200 whatever Kafka answered; a failed email send adds one
   * failure log before the success log.
   */
  function Register(parsed: Option<User>, hash: string -> Option<string>, insertOk: bool, emailSent: bool): (r: Reply)
    ensures parsed.None? ==> r == Reply(StatusBadRequest, ErrorBody(ParseErrorText), [])
    ensures parsed.Some? && hash(parsed.value.password).None? ==> r == Reply(StatusInternalServerError, ErrorBody(HashFailedText), [])
    ensures parsed.Some? && hash(parsed.value.password).Some? && !insertOk ==>
      r == Reply(StatusInternalServerError, ErrorBody(InsertFailedText), [CreateUser(Hashed(parsed.value, hash(parsed.value.password).value))])
    ensures r.status == StatusOK <==> parsed.Some? && hash(parsed.value.password).Some? && insertOk
    ensures forall e :: e in r.effects && e.CreateUser? ==>
      parsed.Some? && hash(parsed.value.password).Some? && e.user == Hashed(parsed.value, hash(parsed.value.password).value)
    ensures r.status != StatusOK ==> forall e :: e in r.effects ==> e.CreateUser?
    ensures r.status == StatusOK ==>
      var u := parsed.value;
      && r.body == MessageBody(RegisteredText)
      && |r.effects| > 0 && r.effects[0] == CreateUser(Hashed(u, hash(u.password).value))
      && |r.effects| == (if emailSent then 3 else 4)
      && r.effects[1] == SendEmail(u.email, u.id, u.email)
      && (forall e :: e in r.effects && e.SendLog? ==> e.key == u.id)
      && LogTexts(r.effects) == (if emailSent then [] else [EmailFailedText]) + [RegisteredText]
  {
    if parsed.None? then Reply(StatusBadRequest, ErrorBody(ParseErrorText), [])
    else
      var input := parsed.value;
      var h := hash(input.password);
      if h.None? then Reply(StatusInternalServerError, ErrorBody(HashFailedText), [])
      else
        var user := Hashed(input, h.value);
        if !insertOk then Reply(StatusInternalServerError, ErrorBody(InsertFailedText), [CreateUser(user)])
        else
          var failure := if emailSent then [] else [SendLog(user.id, EmailFailedText)];
          var effects := [CreateUser(user), SendEmail(user.email, user.id, user.email)] + failure
            + [SendLog(user.id, RegisteredText)];
          assert LogTexts(effects) == (if emailSent then [] else [EmailFailedText]) + [RegisteredText] by {
            LogTextsConcat([CreateUser(user), SendEmail(user.email, user.id, user.email)] + failure, [SendLog(user.id, RegisteredText)]);
            LogTextsConcat([CreateUser(user), SendEmail(user.email, user.id, user.email)], failure);
            assert LogTexts([CreateUser(user), SendEmail(user.email, user.id, user.email)]) == [] by {
              assert [CreateUser(user), SendEmail(user.email, user.id, user.email)][1..][1..] == [];
            }
            assert LogTexts([SendLog(user.id, RegisteredText)]) == [RegisteredText] by {
              assert [SendLog(user.id, RegisteredText)][1..] == [];
            }
            if !emailSent {
              assert failure[1..] == [];
            }
          }
          Reply(StatusOK, MessageBody(RegisteredText), effects)
  }

  /** The stored record authenticates the login request: it exists, the password matches, and role, email and id agree. */
  predicate Authentic(input: User, stored: Option<User>, matches: (string, string) -> bool)
  {
    && stored.Some?
    && matches(stored.value.password, input.password)
    && stored.value.role == input.role && stored.value.email == input.email && stored.value.id == input.id
  }

  /**
   * Login: the user is looked up by the request's id, the password compared with bcrypt, the
   * record compared with the request, and only then a token signed and a success log sent.
   */
  function Login(parsed: Option<User>, lookup: string -> Option<User>, matches: (string, string) -> bool,
                 sign: User -> Option<string>): (r: Reply)
    ensures parsed.None? ==> r == Reply(StatusBadRequest, ErrorBody(ParseErrorText), [])
    ensures parsed.Some? ==>
      var input := parsed.value;
      var stored := lookup(input.id);
      && ((stored.None? || !matches(stored.value.password, input.password)) ==>
            r == Reply(StatusUnauthorized, ErrorBody(BadCredentialsText), []))
      && ((stored.Some? && matches(stored.value.password, input.password) && !Authentic(input, stored, matches)) ==>
            r == Reply(StatusUnauthorized, ErrorBody(InvalidUserText), []))
      && (Authentic(input, stored, matches) && sign(stored.value).None? ==>
            r == Reply(StatusInternalServerError, ErrorBody(SignFailedText), []))
    ensures r.status == StatusOK <==>
      parsed.Some? && Authentic(parsed.value, lookup(parsed.value.id), matches) && sign(lookup(parsed.value.id).value).Some?
    ensures r.status == StatusOK ==>
      r == Reply(StatusOK, TokenBody(sign(lookup(parsed.value.id).value).value), [SendLog(parsed.value.id, LoggedInText)])
    ensures r.status != StatusOK ==> r.effects == [] && !r.body.TokenBody?
  {
    if parsed.None? then Reply(StatusBadRequest, ErrorBody(ParseErrorText), [])
    else
      var input := parsed.value;
      var stored := lookup(input.id);
      if stored.None? then Reply(StatusUnauthorized, ErrorBody(BadCredentialsText), [])
      else if !matches(stored.value.password, input.password) then Reply(StatusUnauthorized, ErrorBody(BadCredentialsText), [])
      else if stored.value.role != input.role || stored.value.email != input.email || stored.value.id != input.id then
        Reply(StatusUnauthorized, ErrorBody(InvalidUserText), [])
      else
        var token := sign(stored.value);
        if token.None? then Reply(StatusInternalServerError, ErrorBody(SignFailedText), [])
        else Reply(StatusOK, TokenBody(token.value), [SendLog(input.id, LoggedInText)])
  }

  /**
   * GetProfile: the id query parameter is checked before the header; a missing user is 404.
   */
  function GetProfile(idQuery: string, header: string, blacklist: string -> Lookup, fetch: string -> Fetch): (r: Reply)
    requires header == "" || |header| >= 7
    ensures idQuery == "" ==> r == Reply(StatusBadRequest, ErrorBody("User ID is required"), [])
    ensures idQuery != "" && Guard(header, blacklist).Some? ==> r == Guard(header, blacklist).value
    ensures r.status == StatusOK <==> idQuery != "" && Guard(header, blacklist).None? && fetch(idQuery).Row?
    ensures r.status == StatusOK ==> r.body == UserBody(Some(fetch(idQuery).user))
    ensures r.status == StatusNotFound <==> idQuery != "" && Guard(header, blacklist).None? && fetch(idQuery) == NoRow
    ensures idQuery != "" && Guard(header, blacklist).None? && fetch(idQuery) == NoRow ==>
      r == Reply(StatusNotFound, ErrorBody("User not found"), [])
    ensures idQuery != "" && Guard(header, blacklist).None? && fetch(idQuery) == FetchFailed ==>
      r == Reply(StatusInternalServerError, ErrorBody("Failed to fetch user information"), [])
    ensures r.effects == []
  {
    if idQuery == "" then Reply(StatusBadRequest, ErrorBody("User ID is required"), [])
    else
      var g := Guard(header, blacklist);
      if g.Some? then g.value
      else match fetch(idQuery)
        case FetchFailed => Reply(StatusInternalServerError, ErrorBody("Failed to fetch user information"), [])
        case NoRow => Reply(StatusNotFound, ErrorBody("User not found"), [])
        case Row(u) => Reply(StatusOK, UserBody(Some(u)), [])
  }

  /** The checks of Logout that precede the blacklist write: body parsed, header present, token not listed, ids agree. */
  predicate LogoutAuthorized(parsed: Option<string>, header: string, blacklist: string -> Lookup, claims: map<string, string>)
    requires header == "" || |header| >= 7
    requires "id" in claims
  {
    parsed.Some? && Guard(header, blacklist).None? && claims["id"] == parsed.value
  }

  /**
   * Logout, in check order: bad body 400, no header 401, blacklisted 401, claim id differs from
   * body id 400, blacklist write fails 500, RPC error 500, RPC unsuccessful 500, otherwise 200.
   * The token is blacklisted before the RPC, so a failing RPC leaves it blacklisted.
   */
  function Logout(parsed: Option<string>, header: string, blacklist: string -> Lookup, claims: map<string, string>,
                  setBlacklist: string -> bool, logoutRpc: string -> RpcResult): (r: Reply)
    requires header == "" || |header| >= 7
    requires "id" in claims
    ensures parsed.None? ==> r == Reply(StatusBadRequest, ErrorBody(ParseErrorText), [])
    ensures parsed.Some? && Guard(header, blacklist).Some? ==> r == Guard(header, blacklist).value
    ensures parsed.Some? && Guard(header, blacklist).None? && claims["id"] != parsed.value ==>
      r == Reply(StatusBadRequest, ErrorBody("Token and userid mismatch"), [])
    ensures !LogoutAuthorized(parsed, header, blacklist, claims) ==> r.effects == [] && r.status != StatusOK
    ensures LogoutAuthorized(parsed, header, blacklist, claims) ==>
      var token := BearerToken(header);
      var id := claims["id"];
      && (!setBlacklist(token) ==>
            r == Reply(StatusInternalServerError, ErrorBody("Failed to blacklist token"), [BlacklistSet(token)]))
      && (setBlacklist(token) ==> |r.effects| >= 2 && r.effects[..2] == [BlacklistSet(token), LogoutRpc(id)])
      && (setBlacklist(token) && logoutRpc(id) == RpcFailed ==>
            r == Reply(StatusInternalServerError, ErrorBody("Failed to logout"), [BlacklistSet(token), LogoutRpc(id)]))
      && (setBlacklist(token) && logoutRpc(id) == RpcReplied(false) ==>
            r == Reply(StatusInternalServerError, ErrorBody("Logout RPC call unsuccessful"), [BlacklistSet(token), LogoutRpc(id)]))
    ensures r.status == StatusOK <==>
      LogoutAuthorized(parsed, header, blacklist, claims) && setBlacklist(BearerToken(header)) && logoutRpc(claims["id"]) == RpcReplied(true)
    ensures r.status == StatusOK ==>
      && r.body == MessageBody("Logged out successfully") && LogTexts(r.effects) == [LoggedOutText]
      && r.effects == [BlacklistSet(BearerToken(header)), LogoutRpc(claims["id"]), SendLog(claims["id"], LoggedOutText)]
  {
    if parsed.None? then Reply(StatusBadRequest, ErrorBody(ParseErrorText), [])
    else
      var g := Guard(header, blacklist);
      if g.Some? then g.value
      else
        var token := BearerToken(header);
        var userId := claims["id"];
        if userId != parsed.value then Reply(StatusBadRequest, ErrorBody("Token and userid mismatch"), [])
        else if !setBlacklist(token) then
          Reply(StatusInternalServerError, ErrorBody("Failed to blacklist token"), [BlacklistSet(token)])
        else
          var called := [BlacklistSet(token), LogoutRpc(userId)];
          match logoutRpc(userId)
          case RpcFailed => Reply(StatusInternalServerError, ErrorBody("Failed to logout"), called)
          case RpcReplied(success) =>
            if !success then Reply(StatusInternalServerError, ErrorBody("Logout RPC call unsuccessful"), called)
            else
              var effects := called + [SendLog(userId, LoggedOutText)];
              assert LogTexts(effects) == [LoggedOutText] by {
                LogTextsConcat(called, [SendLog(userId, LoggedOutText)]);
                assert called[1..][1..] == [];
                assert [SendLog(userId, LoggedOutText)][1..] == [];
              }
              Reply(StatusOK, MessageBody("Logged out successfully"), effects)
  }

  /** GetUsersWithUserRole: after the header and blacklist checks, every user whose role is "user". */
  function GetUsersWithUserRole(header: string, blacklist: string -> Lookup, usersWithRole: string -> Option<seq<User>>): (r: Reply)
    requires header == "" || |header| >= 7
    ensures Guard(header, blacklist).Some? ==> r == Guard(header, blacklist).value
    ensures r.status == StatusOK <==> Guard(header, blacklist).None? && usersWithRole("user").Some?
    ensures r.status == StatusOK ==> r.body == UsersBody(usersWithRole("user").value)
    ensures Guard(header, blacklist).None? && usersWithRole("user").None? ==>
      r == Reply(StatusInternalServerError, ErrorBody("Failed to fetch users"), [])
    ensures r.effects == []
  {
    var g := Guard(header, blacklist);
    if g.Some? then g.value
    else match usersWithRole("user")
      case None => Reply(StatusInternalServerError, ErrorBody("Failed to fetch users"), [])
      case Some(users) => Reply(StatusOK, UsersBody(users), [])
  }

  /**
   * GetUserByID: after the header and blacklist checks, the path id must equal the token's id
   * claim (400 otherwise).  There is no 404: a missing user is answered 200 with a null body.
   */
  function GetUserByID(header: string, blacklist: string -> Lookup, pathId: string, claims: map<string, string>,
                       fetch: string -> Fetch): (r: Reply)
    requires header == "" || |header| >= 7
    requires "id" in claims
    ensures Guard(header, blacklist).Some? ==> r == Guard(header, blacklist).value
    ensures Guard(header, blacklist).None? && pathId != claims["id"] ==>
      r == Reply(StatusBadRequest, ErrorBody("Token and userID mismatch"), [])
    ensures r.status == StatusOK <==> Guard(header, blacklist).None? && pathId == claims["id"] && !fetch(pathId).FetchFailed?
    ensures r.status == StatusOK ==> r.body == UserBody(if fetch(pathId).Row? then Some(fetch(pathId).user) else None)
    ensures Guard(header, blacklist).None? && pathId == claims["id"] && fetch(pathId).FetchFailed? ==>
      r == Reply(StatusInternalServerError, ErrorBody("Failed to fetch user"), [])
    ensures r.status != StatusNotFound
    ensures r.effects == []
  {
    var g := Guard(header, blacklist);
    if g.Some? then g.value
    else if pathId != claims["id"] then Reply(StatusBadRequest, ErrorBody("Token and userID mismatch"), [])
    else match fetch(pathId)
      case FetchFailed => Reply(StatusInternalServerError, ErrorBody("Failed to fetch user"), [])
      case NoRow => Reply(StatusOK, UserBody(None), [])
      case Row(u) => Reply(StatusOK, UserBody(Some(u)), [])
  }

  /** The blacklist lookup with every failure turned into "not listed". */
  function IgnoringFailures(blacklist: string -> Lookup): string -> Lookup
  {
    t => if blacklist(t) == LookupFailed then NotListed else blacklist(t)
  }

  /** In every handler a failing blacklist lookup is indistinguishable from a token that is not listed. */
  lemma LookupFailureReadsAsNotListed(header: string, blacklist: string -> Lookup)
    requires header == "" || |header| >= 7
    ensures Guard(header, blacklist) == Guard(header, IgnoringFailures(blacklist))
    ensures forall q: string, f: string -> Fetch {:trigger GetProfile(q, header, blacklist, f)} ::
      GetProfile(q, header, blacklist, f) == GetProfile(q, header, IgnoringFailures(blacklist), f)
    ensures forall u: string -> Option<seq<User>> {:trigger GetUsersWithUserRole(header, blacklist, u)} ::
      GetUsersWithUserRole(header, blacklist, u) == GetUsersWithUserRole(header, IgnoringFailures(blacklist), u)
    ensures forall p: string, claims: map<string, string>, f: string -> Fetch
      {:trigger GetUserByID(header, blacklist, p, claims, f)} :: "id" in claims ==>
      GetUserByID(header, blacklist, p, claims, f) == GetUserByID(header, IgnoringFailures(blacklist), p, claims, f)
    ensures forall body: Option<string>, claims: map<string, string>, s: string -> bool, rpc: string -> RpcResult
      {:trigger Logout(body, header, blacklist, claims, s, rpc)} :: "id" in claims ==>
      Logout(body, header, blacklist, claims, s, rpc) == Logout(body, header, IgnoringFailures(blacklist), claims, s, rpc)
  {
  }
}
