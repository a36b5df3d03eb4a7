/**
 * The notification service's RPC surface: Logout forces the registry to close a user's
 * connection, PushMessage delivers a message straight to connected recipients.  Both always
 * answer success with no error.
 */
module GrpcServer {
  import opened Optional
  import opened Events
  import opened WebSocket

  datatype LogoutResponse = LogoutResponse(success: bool)
  datatype PushMessageRequest = PushMessageRequest(sender: string, recipients: seq<string>, message: string)
  datatype PushMessageResponse = PushMessageResponse(success: bool)

  /** The message PushMessage hands to the registry: exactly the request's three fields. */
  function RequestMessage(req: PushMessageRequest): (msg: Message)
    ensures msg.sender == req.sender && msg.recipients == req.recipients && msg.message == req.message
  {
    Message(req.sender, req.recipients, req.message)
  }

  class Server {
    const manager: Manager

    constructor (manager: Manager)
      ensures this.manager == manager
    {
      this.manager := manager;
    }

    /** Logout has the state effect of CloseConnection and always reports success, with no error. */
    method Logout(userid: string, closeFails: bool) returns (resp: LogoutResponse, err: Option<string>)
      requires manager.Valid()
      modifies manager
      ensures manager.Valid()
      ensures resp == LogoutResponse(true) && err == None
      ensures manager.clients == old(manager.clients) - {userid}
      ensures manager.closes == old(manager.closes)
        + (if userid in old(manager.clients) then [old(manager.clients)[userid]] else [])
      ensures manager.published == old(manager.published)
        + CloseEvents(userid, userid in old(manager.clients), closeFails)
      ensures manager.writes == old(manager.writes) && manager.broadcast == old(manager.broadcast)
      ensures manager.issued == old(manager.issued)
    {
      manager.CloseConnection(userid, closeFails);
      resp, err := LogoutResponse(true), None;
    }

    /**
     * PushMessage delivers to connected recipients as HandleMessages does, bypassing the broadcast
     * queue and the producer, and reports success even when nobody was reached.
     */
    method PushMessage(req: PushMessageRequest, fails: nat -> bool) returns (resp: PushMessageResponse, err: Option<string>)
      requires manager.Valid()
      modifies manager
      ensures manager.Valid()
      ensures resp == PushMessageResponse(true) && err == None
      ensures Delivery(manager.clients, manager.writes, manager.closes)
           == Deliver(Delivery(old(manager.clients), old(manager.writes), old(manager.closes)),
                      req.recipients, req.message, fails, 0)
      ensures manager.published == old(manager.published) && manager.broadcast == old(manager.broadcast)
      ensures manager.issued == old(manager.issued)
    {
      var msg := RequestMessage(req);
      manager.HandleMessages(msg, fails);
      resp, err := PushMessageResponse(true), None;
    }
  }

  /** Logout of an id that was never registered still succeeds and leaves the registry as it was. */
  method LogoutOfUnknownId(server: Server, userid: string, closeFails: bool) returns (resp: LogoutResponse)
    requires server.manager.Valid() && userid !in server.manager.clients
    modifies server.manager
    ensures resp.success
    ensures server.manager.clients == old(server.manager.clients)
    ensures server.manager.closes == old(server.manager.closes)
    ensures server.manager.published == old(server.manager.published)
    ensures server.manager.writes == old(server.manager.writes)
    ensures server.manager.broadcast == old(server.manager.broadcast)
    ensures server.manager.issued == old(server.manager.issued)
  {
    assert server.manager.clients - {userid} == server.manager.clients;
    var err;
    resp, err := server.Logout(userid, closeFails);
  }

  /**
   * The end-to-end path of one chat message: A and B are admitted, A's session reads the message,
   * the broadcast worker publishes it to the message topic, and the push RPC delivers it to B.
   */
  method EndToEnd(m: Manager, server: Server)
    requires server.manager == m && m.Valid() && m.clients == map[] && m.issued == {} && m.broadcast == []
    modifies m
    ensures m.clients == map["A" := 1, "B" := 2] && m.broadcast == []
    ensures |m.published| > 0 && m.published[|m.published| - 1] == Event(MessageTopic, "A", Chat(Message("A", ["B"], "hi")))
    ensures |m.writes| > 0 && m.writes[|m.writes| - 1] == Write(2, Json("hi"))
  {
    var okA := m.Admit(1, Token("tA", true, map["id" := "A"]), false);
    var okB := m.Admit(2, Token("tB", true, map["id" := "B"]), false);
    assert m.clients == map["A" := 1, "B" := 2];
    var hi := Message("A", ["B"], "hi");
    m.ReadLoop([hi]);
    ghost var writesBefore := m.writes;
    m.DispatchAll();
    MessageEventsAt([hi]);
    assert m.published[|m.published| - 1] == Event(MessageTopic, "A", Chat(hi));
    var resp, err := server.PushMessage(PushMessageRequest("A", ["B"], "hi"), _ => false);
    DeliverHealthy(Delivery(map["A" := 1, "B" := 2], writesBefore, m.closes), ["B"], "hi", _ => false, 0);
    assert Expected(map["A" := 1, "B" := 2], ["B"], "hi", 0) == [Write(2, Json("hi"))];
    assert m.writes == writesBefore + [Write(2, Json("hi"))];
  }

  /** A reconnect under the same id supersedes the old connection, and the old session's teardown keeps the new one. */
  method Reconnect(m: Manager)
    requires m.Valid() && m.issued == {}
    modifies m
    ensures m.clients == map["A" := 2]
    ensures |m.closes| >= 2 && m.closes[|m.closes| - 2..] == [1, 1]
  {
    var first := m.Admit(1, Token("t1", true, map["id" := "A"]), false);
    var second := m.Admit(2, Token("t2", true, map["id" := "A"]), false);
    assert m.closes[|m.closes| - 1] == 1;
    m.Teardown(1);
    assert m.clients["A"] == 2;
  }
}
