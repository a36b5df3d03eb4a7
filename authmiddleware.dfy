/**
 * The user service's authorisation middleware: the error handler of the JWT middleware and the
 * two role gates in front of the admin and user-data routes.  A gate either lets the request
 * continue or ends it with a 403 reply and one logs-topic event keyed by the token's user id.
 */
module AuthMiddleware {
  import opened Optional
  import opened Http

  const AdminRole: string := "admin"
  const UserRole: string := "user"

  /** A middleware decision: continue down the chain, or end the request with a reply. */
  datatype Gate = Next | Halt(reply: Reply)

  /** jwtError: any parse or verification error answers 401 "Unauthorized"; no error writes no reply. */
  function JwtError(err: Option<string>): (r: Option<Reply>)
    ensures r.Some? <==> err.Some?
    ensures r.Some? ==> r.value == Reply(StatusUnauthorized, ErrorBody("Unauthorized"), [])
  {
    if err.Some? then Some(Reply(StatusUnauthorized, ErrorBody("Unauthorized"), [])) else None
  }

  /** AdminOnly: continue iff the role claim is "admin"; otherwise 403 "Forbidden" and one log event. */
  function AdminOnly(claims: map<string, string>): (g: Gate)
    requires "id" in claims && "role" in claims
    ensures g.Next? <==> claims["role"] == AdminRole
    ensures g.Halt? ==>
      g.reply == Reply(StatusForbidden, ErrorBody("Forbidden"),
                       [SendLog(claims["id"], "Forbidden access attempt by non-admin user")])
  {
    if claims["role"] != AdminRole then
      Halt(Reply(StatusForbidden, ErrorBody("Forbidden"), [SendLog(claims["id"], "Forbidden access attempt by non-admin user")]))
    else Next
  }

  /** UserOnly: continue iff the role claim is "user"; otherwise 403 "Access denied" and one log event. */
  function UserOnly(claims: map<string, string>): (g: Gate)
    requires "id" in claims && "role" in claims
    ensures g.Next? <==> claims["role"] == UserRole
    ensures g.Halt? ==>
      g.reply == Reply(StatusForbidden, ErrorBody("Access denied"),
                       [SendLog(claims["id"], "Forbidden access attempt by admin user")])
  {
    if claims["role"] != UserRole then
      Halt(Reply(StatusForbidden, ErrorBody("Access denied"), [SendLog(claims["id"], "Forbidden access attempt by admin user")]))
    else Next
  }

  /** No role passes both gates. */
  lemma NoRolePassesBoth(claims: map<string, string>)
    requires "id" in claims && "role" in claims
    ensures !(AdminOnly(claims).Next? && UserOnly(claims).Next?)
  {
  }
}
