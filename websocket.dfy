/**
 * The live-connection registry of the notification service (WebSocketManager): the map from
 * user id to connection, the admission of a websocket session, delivery of a message to its
 * recipients, forced close, the deferred teardown of a session, and the broadcast worker that
 * publishes inbound messages to the message topic.
 *
 * Every operation of the source runs under one mutex; here each method is one atomic step.
 * Connections are opaque handles; frames written, connections closed and producer calls made
 * are kept as ghost logs.
 */
module WebSocket {
  import opened Events

  /** Opaque handle of one websocket connection. */
  type ConnId = nat

  /** A frame written to a connection: a plain text message or a JSON-encoded string. */
  datatype Frame = Text(text: string) | Json(body: string)

  datatype Write = Write(conn: ConnId, frame: Frame)

  /** The decision of the upgrade gate in front of the websocket route. */
  datatype Gate = Continue(allowed: bool) | UpgradeRequired

  /** What jwt.Parse gives for the query token: the raw string, validity, and the string claims. */
  datatype Token = Token(raw: string, valid: bool, claims: map<string, string>)

  const InvalidTokenText: string := "Invalid token"
  const WelcomeText: string := "Welcome back!"
  const ConnectedText: string := "Client connected"
  const CloseErrorText: string := "Error closing WebSocket connection"
  const ClosedText: string := "WebSocket connection closed"

  /** Only a websocket upgrade request gets past the gate, and it is marked "allowed". */
  function HandleConnections(isUpgrade: bool): (g: Gate)
    ensures g.Continue? <==> isUpgrade
    ensures g.Continue? ==> g.allowed
  {
    if isUpgrade then Continue(true) else UpgradeRequired
  }

  /** No two user ids share one connection. */
  ghost predicate Injective(m: map<string, ConnId>)
  {
    forall a, b :: a in m && b in m && a != b ==> m[a] != m[b]
  }

  /** The map the teardown scan leaves: no entry maps to c any more, every other entry stays. */
  function RemoveValue(m: map<string, ConnId>, c: ConnId): (r: map<string, ConnId>)
    ensures c !in r.Values
    ensures forall k :: k in r <==> k in m && m[k] != c
    ensures forall k :: k in r ==> r[k] == m[k]
  {
    map k | k in m && m[k] != c :: m[k]
  }

  /** On an injective map, dropping the entries valued c drops one key at most: the one bound to c. */
  lemma RemoveValueOfInjective(m: map<string, ConnId>, c: ConnId)
    requires Injective(m)
    ensures c !in m.Values ==> RemoveValue(m, c) == m
    ensures forall k :: k in m && m[k] == c ==> RemoveValue(m, c) == m - {k}
    ensures |m| - 1 <= |RemoveValue(m, c)| <= |m|
  {
    if c in m.Values {
      var k :| k in m && m[k] == c;
      assert RemoveValue(m, c).Keys == m.Keys - {k};
      assert RemoveValue(m, c) == m - {k};
    } else {
      assert RemoveValue(m, c) == m;
    }
  }

  /** A session's teardown leaves a newer connection of the same id, and every other entry, in place. */
  lemma TeardownKeepsSuperseding(m: map<string, ConnId>, id: string, c: ConnId)
    requires id in m && m[id] != c
    ensures id in RemoveValue(m, c) && RemoveValue(m, c)[id] == m[id]
  {
  }

  /** Removing a key keeps the registry invariant. */
  lemma RemoveKeyKeepsInjective(m: map<string, ConnId>, k: string, issued: set<ConnId>)
    requires Injective(m) && m.Values <= issued
    ensures Injective(m - {k}) && (m - {k}).Values <= issued
  {
    forall v | v in (m - {k}).Values ensures v in issued {
      var j :| j in m - {k} && (m - {k})[j] == v;
      assert m[j] == v;
    }
  }

  /** Inserting a handle no entry holds keeps the registry injective. */
  lemma InsertFreshKeepsInjective(m: map<string, ConnId>, k: string, c: ConnId, issued: set<ConnId>)
    requires Injective(m) && m.Values <= issued && k !in m && c !in issued
    ensures Injective(m[k := c]) && m[k := c].Values <= issued + {c}
  {
    forall v | v in m[k := c].Values ensures v in issued + {c} {
      var j :| j in m[k := c] && m[k := c][j] == v;
      if j != k { assert m[j] == v; }
    }
  }

  /** The logs-topic events of a forced close: an extra one when Close() reports an error. */
  function CloseEvents(userId: string, present: bool, closeFails: bool): (es: seq<Event>)
    ensures !present ==> es == []
    ensures present ==> |es| == (if closeFails then 2 else 1) && es[|es| - 1] == LogEvent(userId, ClosedText)
    ensures present && closeFails ==> es[0] == LogEvent(userId, CloseErrorText)
    ensures forall e :: e in es ==> e.topic == LogsTopic && e.key == userId
  {
    if !present then []
    else (if closeFails then [LogEvent(userId, CloseErrorText)] else []) + [LogEvent(userId, ClosedText)]
  }

  // ---------------------------------------------------------------------------------------
  // Delivery (HandleMessages) as a specification on values

  /** The part of the registry state that delivery touches. */
  datatype Delivery = Delivery(clients: map<string, ConnId>, writes: seq<Write>, closes: seq<ConnId>)

  /** One recipient: a connected one gets the message text written; a failed write closes and drops it. */
  function DeliverOne(d: Delivery, r: string, body: string, failed: bool): Delivery
  {
    if r !in d.clients then d
    else
      var c := d.clients[r];
      if failed then Delivery(d.clients - {r}, d.writes + [Write(c, Json(body))], d.closes + [c])
      else Delivery(d.clients, d.writes + [Write(c, Json(body))], d.closes)
  }

  /**
   * The recipients rs[i..] visited in order, each on the map the earlier ones left.  fails(j) says
   * whether the write to the j-th listed recipient fails, should it be attempted.
   */
  function Deliver(d: Delivery, rs: seq<string>, body: string, fails: nat -> bool, i: nat): Delivery
    decreases |rs| - i
  {
    if i >= |rs| then d else Deliver(DeliverOne(d, rs[i], body, fails(i)), rs, body, fails, i + 1)
  }

  /** Reference: one write of the message text per recipient of rs[i..] connected in m, in list order. */
  function Expected(m: map<string, ConnId>, rs: seq<string>, body: string, i: nat): seq<Write>
    decreases |rs| - i
  {
    if i >= |rs| then []
    else (if rs[i] in m then [Write(m[rs[i]], Json(body))] else []) + Expected(m, rs, body, i + 1)
  }

  /** Reference: the connection of every recipient of rs[i..] connected in m whose write fails, in list order. */
  function ExpectedCloses(m: map<string, ConnId>, rs: seq<string>, fails: nat -> bool, i: nat): seq<ConnId>
    decreases |rs| - i
  {
    if i >= |rs| then []
    else (if rs[i] in m && fails(i) then [m[rs[i]]] else []) + ExpectedCloses(m, rs, fails, i + 1)
  }

  /** The recipients that lose their entry: connected in m, with a failing write at some listed position from i on. */
  function Dropped(m: map<string, ConnId>, rs: seq<string>, fails: nat -> bool, i: nat): set<string>
  {
    set k | k in m && exists j :: i <= j < |rs| && rs[j] == k && fails(j)
  }

  /** No recipient is listed twice from position i on. */
  predicate Distinct(rs: seq<string>, i: nat)
  {
    forall a, b :: i <= a < b < |rs| ==> rs[a] != rs[b]
  }

  /**
   * Delivery only appends to the logs; every new write carries the message text alone and goes to a
   * connection that was registered, and so does every new close.
   */
  lemma {:induction false} DeliverAppends(d: Delivery, rs: seq<string>, body: string, fails: nat -> bool, i: nat)
    ensures var e := Deliver(d, rs, body, fails, i);
      && |d.writes| <= |e.writes| && e.writes[..|d.writes|] == d.writes
      && |d.closes| <= |e.closes| && e.closes[..|d.closes|] == d.closes
      && (forall j :: |d.writes| <= j < |e.writes| ==>
            e.writes[j].frame == Json(body) && e.writes[j].conn in d.clients.Values)
      && (forall j :: |d.closes| <= j < |e.closes| ==> e.closes[j] in d.clients.Values)
    decreases |rs| - i
  {
    if i < |rs| {
      var d1 := DeliverOne(d, rs[i], body, fails(i));
      DeliverAppends(d1, rs, body, fails, i + 1);
      assert d1.clients.Values <= d.clients.Values by {
        forall v | v in d1.clients.Values ensures v in d.clients.Values {
          var k :| k in d1.clients && d1.clients[k] == v;
          assert d.clients[k] == v;
        }
      }
      var e := Deliver(d, rs, body, fails, i);
      assert e == Deliver(d1, rs, body, fails, i + 1);
      assert e.writes[..|d1.writes|][..|d.writes|] == d.writes;
      assert e.closes[..|d1.closes|][..|d.closes|] == d.closes;
    }
  }

  /** The map after delivery is the old one minus exactly the recipients with a failed write. */
  lemma {:induction false} DeliverMap(d: Delivery, rs: seq<string>, body: string, fails: nat -> bool, i: nat)
    ensures Deliver(d, rs, body, fails, i).clients == d.clients - Dropped(d.clients, rs, fails, i)
    decreases |rs| - i
  {
    var m := d.clients;
    if i >= |rs| {
      assert Dropped(m, rs, fails, i) == {};
    } else {
      var r := rs[i];
      var d1 := DeliverOne(d, r, body, fails(i));
      DeliverMap(d1, rs, body, fails, i + 1);
      if r in m && fails(i) {
        assert Dropped(m, rs, fails, i) == {r} + Dropped(m, rs, fails, i + 1);
        assert Dropped(d1.clients, rs, fails, i + 1) == Dropped(m, rs, fails, i + 1) - {r};
        assert d1.clients - Dropped(d1.clients, rs, fails, i + 1) == m - Dropped(m, rs, fails, i);
      } else {
        assert d1.clients == m;
        assert Dropped(m, rs, fails, i) == Dropped(m, rs, fails, i + 1);
      }
    }
  }

  /** A message none of whose recipients is connected writes nothing, closes nothing, changes nothing. */
  lemma {:induction false} DeliverToNobody(d: Delivery, rs: seq<string>, body: string, fails: nat -> bool, i: nat)
    requires forall j :: i <= j < |rs| ==> rs[j] !in d.clients
    ensures Deliver(d, rs, body, fails, i) == d
    decreases |rs| - i
  {
    if i < |rs| {
      DeliverToNobody(d, rs, body, fails, i + 1);
    }
  }

  /** The references ignore a key that is not listed from position i on. */
  lemma {:induction false} ReferencesIgnoreUnlisted(m: map<string, ConnId>, k: string, rs: seq<string>, body: string,
                                                    fails: nat -> bool, i: nat)
    requires forall j :: i <= j < |rs| ==> rs[j] != k
    ensures Expected(m - {k}, rs, body, i) == Expected(m, rs, body, i)
    ensures ExpectedCloses(m - {k}, rs, fails, i) == ExpectedCloses(m, rs, fails, i)
    decreases |rs| - i
  {
    if i < |rs| {
      ReferencesIgnoreUnlisted(m, k, rs, body, fails, i + 1);
    }
  }

  /**
   * With distinct recipients, every connected recipient gets exactly one write of the message text,
   * in list order, whether or not earlier writes failed.
   */
  lemma {:induction false} DeliverDistinct(d: Delivery, rs: seq<string>, body: string, fails: nat -> bool, i: nat)
    requires Distinct(rs, i)
    ensures Deliver(d, rs, body, fails, i).writes == d.writes + Expected(d.clients, rs, body, i)
    decreases |rs| - i
  {
    if i < |rs| {
      var d1 := DeliverOne(d, rs[i], body, fails(i));
      DeliverDistinct(d1, rs, body, fails, i + 1);
      ReferencesIgnoreUnlisted(d.clients, rs[i], rs, body, fails, i + 1);
    }
  }

  /**
   * With distinct recipients, the connection of every connected recipient whose write fails is
   * closed, once, in list order, and no other connection is.
   */
  lemma {:induction false} DeliverCloses(d: Delivery, rs: seq<string>, body: string, fails: nat -> bool, i: nat)
    requires Distinct(rs, i)
    ensures Deliver(d, rs, body, fails, i).closes == d.closes + ExpectedCloses(d.clients, rs, fails, i)
    decreases |rs| - i
  {
    if i < |rs| {
      var d1 := DeliverOne(d, rs[i], body, fails(i));
      DeliverCloses(d1, rs, body, fails, i + 1);
      ReferencesIgnoreUnlisted(d.clients, rs[i], rs, body, fails, i + 1);
    }
  }

  /** When no write fails, delivery writes exactly the reference writes and nothing else. */
  lemma {:induction false} DeliverHealthy(d: Delivery, rs: seq<string>, body: string, fails: nat -> bool, i: nat)
    requires forall j :: i <= j < |rs| ==> !fails(j)
    ensures Deliver(d, rs, body, fails, i) == Delivery(d.clients, d.writes + Expected(d.clients, rs, body, i), d.closes)
    decreases |rs| - i
  {
    if i < |rs| {
      var d1 := DeliverOne(d, rs[i], body, fails(i));
      DeliverHealthy(d1, rs, body, fails, i + 1);
    }
  }

  /**
   * A connected recipient listed twice: a first failed write closes and drops it, so the second
   * mention is a miss; after a first successful write, the second write is attempted and, if it
   * fails, closes and drops it.
   */
  lemma RepeatedRecipient(d: Delivery, r: string, body: string, fails: nat -> bool)
    requires r in d.clients
    ensures var c := d.clients[r];
      Deliver(d, [r, r], body, fails, 0)
      == if fails(0) then Delivery(d.clients - {r}, d.writes + [Write(c, Json(body))], d.closes + [c])
         else if fails(1) then Delivery(d.clients - {r}, d.writes + [Write(c, Json(body)), Write(c, Json(body))], d.closes + [c])
         else Delivery(d.clients, d.writes + [Write(c, Json(body)), Write(c, Json(body))], d.closes)
  {
    var d1 := DeliverOne(d, r, body, fails(0));
    assert Deliver(d, [r, r], body, fails, 0) == Deliver(DeliverOne(d1, r, body, fails(1)), [r, r], body, fails, 2);
  }

  // ---------------------------------------------------------------------------------------
  // The broadcast worker

  /** The message-topic events the broadcast worker publishes for a queue of messages. */
  function MessageEvents(q: seq<Message>): seq<Event>
    decreases |q|
  {
    if q == [] then [] else [Event(MessageTopic, q[0].sender, Chat(q[0]))] + MessageEvents(q[1..])
  }

  /** Each queued message is published exactly once, in queue order, keyed by its sender, unchanged. */
  lemma {:induction false} MessageEventsAt(q: seq<Message>)
    ensures |MessageEvents(q)| == |q|
    ensures forall i :: 0 <= i < |q| ==> MessageEvents(q)[i] == Event(MessageTopic, q[i].sender, Chat(q[i]))
    decreases |q|
  {
    if q != [] {
      MessageEventsAt(q[1..]);
      forall i | 1 <= i < |q| ensures MessageEvents(q)[i] == Event(MessageTopic, q[i].sender, Chat(q[i])) {
        assert MessageEvents(q)[i] == MessageEvents(q[1..])[i - 1];
        assert q[1..][i - 1] == q[i];
      }
    }
  }

  // ---------------------------------------------------------------------------------------
  // The manager object

  class Manager {
    /** User id to live connection. */
    var clients: map<string, ConnId>
    /** Messages read from sessions and not yet taken by a worker. */
    var broadcast: seq<Message>
    /** Size of the broadcast worker pool. */
    const workers: nat
    ghost var writes: seq<Write>
    ghost var closes: seq<ConnId>
    ghost var published: seq<Event>
    /** Every connection handle a session has been started with. */
    ghost var issued: set<ConnId>

    ghost predicate Valid()
      reads this
    {
      Injective(clients) && clients.Values <= issued
    }

    constructor (workers: nat)
      ensures Valid()
      ensures this.workers == workers && clients == map[] && broadcast == []
      ensures writes == [] && closes == [] && published == [] && issued == {}
    {
      this.workers := workers;
      clients := map[];
      broadcast := [];
      writes := [];
      closes := [];
      published := [];
      issued := {};
    }

    /**
     * Forced close of the connection registered for userId.  An absent id changes nothing (it is only
     * logged locally); a present one is closed and removed even when Close() reports an error.
     */
    method CloseConnection(userId: string, closeFails: bool)
      requires Valid()
      modifies this
      ensures Valid()
      ensures clients == old(clients) - {userId}
      ensures closes == old(closes) + (if userId in old(clients) then [old(clients)[userId]] else [])
      ensures published == old(published) + CloseEvents(userId, userId in old(clients), closeFails)
      ensures writes == old(writes) && broadcast == old(broadcast) && issued == old(issued)
    {
      if userId !in clients {
        return;
      }
      var client := clients[userId];
      closes := closes + [client];
      if closeFails {
        published := published + [LogEvent(userId, CloseErrorText)];
      }
      RemoveKeyKeepsInjective(clients, userId, issued);
      clients := clients - {userId};
      published := published + [LogEvent(userId, ClosedText)];
    }

    /**
     * Admission of a new session on connection c.  An invalid token gets "Invalid token", the
     * connection closed and a "Token" log event, and no entry.  A valid one gets "Welcome back!",
     * any previous connection of the same id is closed and removed, and the id then maps to c.
     */
    method Admit(c: ConnId, token: Token, closeFails: bool) returns (admitted: bool)
      requires Valid() && c !in issued
      requires token.valid ==> "id" in token.claims
      modifies this
      ensures Valid() && issued == old(issued) + {c}
      ensures admitted == token.valid
      ensures broadcast == old(broadcast)
      ensures !admitted ==>
        && clients == old(clients)
        && writes == old(writes) + [Write(c, Text(InvalidTokenText))]
        && closes == old(closes) + [c]
        && published == old(published) + [LogEvent("Token", InvalidTokenText)]
      ensures admitted ==>
        var u := token.claims["id"];
        && clients == old(clients)[u := c]
        && writes == old(writes) + [Write(c, Text(WelcomeText))]
        && closes == old(closes) + (if u in old(clients) then [old(clients)[u]] else [])
        && published == old(published) + [LogEvent(u, ConnectedText)] + CloseEvents(u, u in old(clients), closeFails)
    {
      issued := issued + {c};
      if !token.valid {
        writes := writes + [Write(c, Text(InvalidTokenText))];
        closes := closes + [c];
        published := published + [LogEvent("Token", InvalidTokenText)];
        return false;
      }
      var userId := token.claims["id"];
      writes := writes + [Write(c, Text(WelcomeText))];
      published := published + [LogEvent(userId, ConnectedText)];
      if userId in clients {
        // The source calls CloseConnection while already holding the (non-reentrant) mutex, which
        // deadlocks; this is the intended effect: close and remove the old entry, then insert.
        CloseConnection(userId, closeFails);
      }
      InsertFreshKeepsInjective(clients, userId, c, issued - {c});
      clients := clients[userId := c];
      admitted := true;
    }

    /** The read loop of an admitted session: every decoded message goes onto the broadcast queue. */
    method ReadLoop(inbound: seq<Message>)
      modifies this`broadcast
      ensures broadcast == old(broadcast) + inbound
    {
      var i := 0;
      while i < |inbound|
        invariant 0 <= i <= |inbound|
        invariant broadcast == old(broadcast) + inbound[..i]
      {
        broadcast := broadcast + [inbound[i]];
        i := i + 1;
      }
    }

    /** The deferred teardown of the session on c: drop the entry whose value is c, then close c. */
    method Teardown(c: ConnId)
      requires Valid()
      modifies this
      ensures Valid()
      ensures clients == RemoveValue(old(clients), c)
      ensures closes == old(closes) + [c]
      ensures writes == old(writes) && published == old(published)
      ensures broadcast == old(broadcast) && issued == old(issued)
    {
      RemoveValueOfInjective(clients, c);
      var keys := clients.Keys;
      while keys != {}
        invariant keys <= clients.Keys
        invariant clients == old(clients)
        invariant forall k :: k in clients && k !in keys ==> clients[k] != c
        decreases keys
      {
        var userId :| userId in keys;
        if clients[userId] == c {
          clients := clients - {userId};
          break;
        }
        keys := keys - {userId};
      }
      closes := closes + [c];
    }

    /** One whole session on a fresh connection c: admission, the read loop if admitted, teardown. */
    method WebSocket(c: ConnId, token: Token, inbound: seq<Message>, closeFails: bool)
      requires Valid() && c !in issued
      requires token.valid ==> "id" in token.claims
      modifies this
      ensures Valid() && issued == old(issued) + {c}
      ensures !token.valid ==>
        && clients == old(clients) && broadcast == old(broadcast)
        && writes == old(writes) + [Write(c, Text(InvalidTokenText))]
        && closes == old(closes) + [c, c]
        && published == old(published) + [LogEvent("Token", InvalidTokenText)]
      ensures token.valid ==>
        var u := token.claims["id"];
        && clients == old(clients) - {u}
        && broadcast == old(broadcast) + inbound
        && writes == old(writes) + [Write(c, Text(WelcomeText))]
        && closes == old(closes) + (if u in old(clients) then [old(clients)[u]] else []) + [c]
        && published == old(published) + [LogEvent(u, ConnectedText)] + CloseEvents(u, u in old(clients), closeFails)
    {
      var admitted := Admit(c, token, closeFails);
      if admitted {
        ReadLoop(inbound);
      }
      ghost var before := clients;
      Teardown(c);
      if admitted {
        var u := token.claims["id"];
        assert RemoveValue(before, c) == old(clients) - {u};
      } else {
        assert c !in before.Values;
        assert RemoveValue(before, c) == before;
      }
    }

    /**
     * Delivery of msg: each listed recipient in order, as specified by Deliver; fails(j) is the
     * outcome of the write to the j-th listed recipient.  Nothing is returned.
     */
    method HandleMessages(msg: Message, fails: nat -> bool)
      requires Valid()
      modifies this
      ensures Valid()
      ensures Delivery(clients, writes, closes)
           == Deliver(Delivery(old(clients), old(writes), old(closes)), msg.recipients, msg.message, fails, 0)
      ensures broadcast == old(broadcast) && published == old(published) && issued == old(issued)
    {
      ghost var start := Delivery(clients, writes, closes);
      var i := 0;
      while i < |msg.recipients|
        invariant 0 <= i <= |msg.recipients|
        invariant Valid()
        invariant Deliver(Delivery(clients, writes, closes), msg.recipients, msg.message, fails, i)
               == Deliver(start, msg.recipients, msg.message, fails, 0)
        invariant broadcast == old(broadcast) && published == old(published) && issued == old(issued)
      {
        ghost var now := Delivery(clients, writes, closes);
        var recipient := msg.recipients[i];
        if recipient in clients {
          var client := clients[recipient];
          writes := writes + [Write(client, Json(msg.message))];
          if fails(i) {
            closes := closes + [client];
            RemoveKeyKeepsInjective(clients, recipient, issued);
            clients := clients - {recipient};
          }
        }
        assert Delivery(clients, writes, closes) == DeliverOne(now, recipient, msg.message, fails(i));
        i := i + 1;
      }
    }

    /** The broadcast worker's publish of one message to the message topic, keyed by its sender. */
    method PushMessageToKafka(msg: Message)
      modifies this
      ensures published == old(published) + [Event(MessageTopic, msg.sender, Chat(Message(msg.sender, msg.recipients, msg.message)))]
      ensures clients == old(clients) && broadcast == old(broadcast)
      ensures writes == old(writes) && closes == old(closes) && issued == old(issued)
    {
      var msgEvent := Message(msg.sender, msg.recipients, msg.message);
      published := published + [Event(MessageTopic, msg.sender, Chat(msgEvent))];
    }

    /** One broadcast worker draining the queue: every queued message is published once, in order. */
    method DispatchAll()
      modifies this
      ensures broadcast == [] && published == old(published) + MessageEvents(old(broadcast))
      ensures clients == old(clients) && writes == old(writes) && closes == old(closes) && issued == old(issued)
    {
      while broadcast != []
        invariant published + MessageEvents(broadcast) == old(published) + MessageEvents(old(broadcast))
        invariant clients == old(clients) && writes == old(writes) && closes == old(closes) && issued == old(issued)
        decreases |broadcast|
      {
        var msg := broadcast[0];
        var rest := broadcast[1..];
        assert MessageEvents(broadcast) == [Event(MessageTopic, msg.sender, Chat(msg))] + MessageEvents(rest);
        broadcast := rest;
        PushMessageToKafka(msg);
      }
    }

    /** The upgrade gate followed by the session route: a non-upgrade request never reaches the session. */
    method Serve(isUpgrade: bool, c: ConnId, token: Token, inbound: seq<Message>, closeFails: bool) returns (g: Gate)
      requires Valid() && c !in issued
      requires token.valid ==> "id" in token.claims
      modifies this
      ensures Valid()
      ensures g == HandleConnections(isUpgrade)
      ensures !isUpgrade ==> unchanged(this)
      ensures isUpgrade ==> issued == old(issued) + {c}
      ensures isUpgrade && !token.valid ==>
        && clients == old(clients) && broadcast == old(broadcast)
        && writes == old(writes) + [Write(c, Text(InvalidTokenText))]
        && closes == old(closes) + [c, c]
        && published == old(published) + [LogEvent("Token", InvalidTokenText)]
      ensures isUpgrade && token.valid ==>
        var u := token.claims["id"];
        && clients == old(clients) - {u}
        && broadcast == old(broadcast) + inbound
        && writes == old(writes) + [Write(c, Text(WelcomeText))]
        && closes == old(closes) + (if u in old(clients) then [old(clients)[u]] else []) + [c]
        && published == old(published) + [LogEvent(u, ConnectedText)] + CloseEvents(u, u in old(clients), closeFails)
    {
      g := HandleConnections(isUpgrade);
      if g.Continue? {
        WebSocket(c, token, inbound, closeFails);
      }
    }
  }
}
