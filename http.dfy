/**
 * Vocabulary of the user service's HTTP handlers: the user record, the JSON bodies they answer
 * with, and the outbound calls they make (database insert, Kafka sends, blacklist writes, the
 * Logout RPC).  Every external system is an oracle: its answer is an input of the handler.
 */
module Http {
  import opened Optional

  const StatusOK: nat := 200
  const StatusBadRequest: nat := 400
  const StatusUnauthorized: nat := 401
  const StatusForbidden: nat := 403
  const StatusNotFound: nat := 404
  const StatusInternalServerError: nat := 500

  datatype User = User(id: string, email: string, password: string, role: string)

  /** The JSON body of a reply. */
  datatype Body =
    | ErrorBody(error: string)          // {"error": ...}
    | MessageBody(message: string)      // {"message": ...}
    | TokenBody(token: string)          // {"token": ...}
    | UserBody(user: Option<User>)      // a user, or JSON null
    | UsersBody(users: seq<User>)

  /** An outbound call a handler makes, in the order it makes them. */
  datatype Effect =
    | CreateUser(user: User)                                 // database insert
    | SendEmail(key: string, userId: string, emailId: string) // email topic
    | SendLog(key: string, text: string)                     // logs topic, reduced to its "message"
    | BlacklistSet(token: string)                            // Redis write
    | LogoutRpc(userId: string)                              // notification service Logout

  datatype Reply = Reply(status: nat, body: Body, effects: seq<Effect>)

  /** Outcome of the Redis lookup behind blacklist.Get. */
  datatype Lookup = Listed | NotListed | LookupFailed

  /** `is, _ := blacklist.Get(token)`: Get answers false together with its error, so a failure reads as not listed. */
  function IsBlacklisted(l: Lookup): (b: bool)
    ensures b <==> l == Listed
    ensures l == LookupFailed ==> !b
  {
    match l
    case Listed => true
    case NotListed => false
    case LookupFailed => false
  }

  /** The bearer token: the Authorization header with its 7-character "Bearer " prefix cut off. */
  function BearerToken(header: string): (t: string)
    requires |header| >= 7
    ensures |t| == |header| - 7 && header == header[..7] + t
  {
    header[7..]
  }

  /** The texts of the logs-topic sends among es, in order. */
  function LogTexts(es: seq<Effect>): seq<string>
    decreases |es|
  {
    if es == [] then []
    else (if es[0].SendLog? then [es[0].text] else []) + LogTexts(es[1..])
  }

  /** The log texts of a concatenation are those of its parts, in order. */
  lemma {:induction false} LogTextsConcat(a: seq<Effect>, b: seq<Effect>)
    ensures LogTexts(a + b) == LogTexts(a) + LogTexts(b)
    decreases |a|
  {
    if a != [] {
      assert (a + b)[1..] == a[1..] + b;
      LogTextsConcat(a[1..], b);
    } else {
      assert a + b == b;
    }
  }
}
