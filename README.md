# Real-time chat app: a verified model of its core

The chat application is three Go services joined by Kafka and gRPC:

- the **notification service** keeps one WebSocket per authenticated user
  (`userId -> connection`), admits connections whose JWT is valid, replaces and
  closes an older connection of the same user, forwards what clients send to the
  Kafka `message` topic, and delivers text to connected users on a gRPC
  `PushMessage` call or drops a user on a gRPC `Logout` call;
- the **worker service** runs a Kafka consumer: three readers (topics `email`,
  `logs`, `message`) feed a job queue of capacity 1000 that 10 workers drain,
  routing each job to the handler registered for its topic;
- the **user service** exposes HTTP handlers (register, login, profile, logout,
  user listings) behind a token blacklist and two role gates.

The Dafny project models each of these in the form the Go code has:

- `websocket.dfy`: the WebSocket manager is a class.
- `grpc_server.dfy`: the gRPC server is a class that shares the manager.
- `consumer.dfy`: the Kafka consumer is a class.
- `events.dfy`, `http.dfy`, `optional.dfy`: shared value types.
- `controllers.dfy` and `authmiddleware.dfy`: each handler and each gate is a
  pure function from its inputs to a reply. The reply holds an HTTP status, a
  body and the list of side effects the handler performs, in order.

Calls into code outside the core become parameters. The function-typed ones
are bcrypt hashing and comparison, JWT signing, the SQLite queries, the Redis
blacklist lookup and blacklist write, the Logout RPC, and the outcomes of
WebSocket writes and of the consumer's topic handlers. The rest are given as
values: the JWT check arrives as a `Token` record, a `claims` map or an
`err: Option<string>`. The outcomes of the SQLite insert, the email-topic
send and a connection close are plain booleans (`insertOk`, `emailSent`,
`closeFails`), and the Kafka readers' close results are a `seq<bool>`. Mail delivery over SMTP is not part of this model.
Connections are natural-number handles. Writes, closes and published Kafka
events are kept in ghost logs on the manager. The logs record what was
attempted, so a failed close or a failed publish is still an entry. The outcome
of each WebSocket write during delivery is a parameter `fails`, indexed by the
recipient's position in the message, so every write can fail on its own.

Two facts of the code the model keeps:

- A chat message's recipients are a Go slice, not a set. The documentation
  speaks of a set; the model follows the code, so a repeated recipient is tried
  again, which `WebSocket.RepeatedRecipient` states.
- Unlike `GetProfile` (controllers.go:135-137), `GetUserByID` has no not-found
  branch: a missing row is answered with 200 and a `null` body.

## Model

| member | source | states |
|---|---|---|
| WebSocket.HandleConnections | notificationservice/internal/websocket/websocket.go:41-49 | the request goes on to the WebSocket handler, with `allowed` set, exactly when it is an upgrade request; otherwise the reply is 426 Upgrade Required |
| WebSocket.Manager.Serve | notificationservice/internal/websocket/websocket.go:41-49 | a request that is not an upgrade leaves the manager untouched; an upgrade has exactly the effect of one whole `WebSocket` session: for a rejected token the registry and queue are unchanged, with one "Invalid token" write, two closes and the `Token` log; for an accepted one the queue gains what was read, the user ends unregistered, and the welcome write, the closes and the log events are stated in full |
| WebSocket.Manager.constructor | notificationservice/internal/websocket/websocket.go:30-39 | a new manager has no clients, an empty broadcast queue, the given worker count and empty logs, and satisfies the registry invariant |
| WebSocket.RemoveValue | notificationservice/internal/websocket/websocket.go:52-60 | teardown keeps exactly the entries whose connection is not the given one, and those entries keep their values |
| WebSocket.RemoveValueOfInjective | notificationservice/internal/websocket/websocket.go:52-60 | in an injective registry, teardown removes at most one entry; it removes nothing when the connection is not registered and exactly that user's key when it is |
| WebSocket.TeardownKeepsSuperseding | notificationservice/internal/websocket/websocket.go:54-59 | tearing down a replaced connection does not remove the user's newer connection |
| WebSocket.RemoveKeyKeepsInjective | notificationservice/internal/websocket/websocket.go:189 | deleting a key keeps the registry injective and within the issued handles |
| WebSocket.InsertFreshKeepsInjective | notificationservice/internal/websocket/websocket.go:101-107 | registering a never-issued connection under a user whose old entry was removed keeps the registry injective |
| WebSocket.CloseEvents | notificationservice/internal/websocket/websocket.go:170-198 | an unknown user yields no events; a known one yields the "Error closing WebSocket connection" log first exactly when the close failed, then always the "WebSocket connection closed" log, all keyed by the user id on the `logs` topic |
| WebSocket.Manager.CloseConnection | notificationservice/internal/websocket/websocket.go:166-199 | the user's entry is removed and no other entry changes; its connection is closed once (even when the close fails); the log events are those of `CloseEvents`; an unknown user changes nothing |
| WebSocket.Manager.Admit | notificationservice/internal/websocket/websocket.go:65-107 | an invalid token gets one "Invalid token" text write, one close and one `Token`-keyed log, and the registry is unchanged; a valid token gets the welcome write and the "Client connected" log, closes any older connection of that user, and maps the user to the new connection; the invariant is kept |
| WebSocket.Manager.ReadLoop | notificationservice/internal/websocket/websocket.go:109-117 | every message read is appended to the broadcast queue, in order |
| WebSocket.Manager.Teardown | notificationservice/internal/websocket/websocket.go:52-63 | the registry loses exactly the entries mapping to this connection (at most one), and the connection is closed |
| WebSocket.Manager.WebSocket | notificationservice/internal/websocket/websocket.go:51-118 | a rejected session closes the connection twice (explicitly and in the deferred teardown) and leaves the registry unchanged; an admitted session queues what it read and, once it ends, leaves the registry without that user |
| WebSocket.DeliverAppends | notificationservice/internal/websocket/websocket.go:123-134 | delivery only appends to the write and close logs; every new write is a JSON write of the body to a registered connection, and every new close is of a registered connection |
| WebSocket.DeliverMap | notificationservice/internal/websocket/websocket.go:123-134 | after delivery the registry is the old one minus exactly the connected recipients that had a failed write at some listed position |
| WebSocket.DeliverToNobody | notificationservice/internal/websocket/websocket.go:131-133 | recipients that are not connected cause no write, no close and no registry change |
| WebSocket.DeliverDistinct | notificationservice/internal/websocket/websocket.go:123-130 | for distinct recipients, the writes are one JSON write of the body per connected recipient, in recipient order |
| WebSocket.DeliverCloses | notificationservice/internal/websocket/websocket.go:125-129 | for distinct recipients, the connection of every connected recipient whose write failed is closed once, in recipient order, and no other connection is closed |
| WebSocket.DeliverHealthy | notificationservice/internal/websocket/websocket.go:123-134 | when no write fails, the registry is unchanged, nothing is closed, and the writes are the reference writes |
| WebSocket.RepeatedRecipient | notificationservice/internal/websocket/websocket.go:123-131 | a connected recipient listed twice: after a failed first write the second mention is a miss; after a successful first write the second write is attempted, and if it fails the connection is closed and dropped |
| WebSocket.Manager.HandleMessages | notificationservice/internal/websocket/websocket.go:120-136 | the registry, writes and closes after the loop are those of the reference delivery `Deliver` under the same per-write outcomes; the invariant is kept |
| WebSocket.Manager.PushMessageToKafka | notificationservice/internal/websocket/websocket.go:151-164 | exactly one event is published: topic `message`, keyed by the sender, carrying the same message |
| WebSocket.MessageEventsAt | notificationservice/internal/websocket/websocket.go:144-149 | draining the queue yields one event per queued message, in queue order, each keyed by its sender with its message |
| WebSocket.Manager.DispatchAll | notificationservice/internal/websocket/websocket.go:144-149 | the queue is emptied and one Kafka event per queued message is published, in order |
| GrpcServer.RequestMessage | notificationservice/grpc/server.go:35-39 | the message keeps the request's sender, recipients and text unchanged |
| GrpcServer.Server.Logout | notificationservice/grpc/server.go:27-31 | always succeeds with no error, and has exactly the effect of `CloseConnection` on the shared manager |
| GrpcServer.LogoutOfUnknownId | notificationservice/grpc/server.go:27-31 | logging out a user who is not connected succeeds, whatever the close outcome, and changes no registry entry, close, write, publish log, queue or issued handle |
| GrpcServer.Server.PushMessage | notificationservice/grpc/server.go:33-41 | always succeeds; delivers directly as `HandleMessages` does, without touching the broadcast queue or publishing to Kafka |
| GrpcServer.EndToEnd | notificationservice/grpc/server.go:33-41 | scenario: after A and B are admitted and A sends "hi" to B, the message-topic event is A's message and the last write is "hi" to B's connection |
| GrpcServer.Reconnect | notificationservice/internal/websocket/websocket.go:101-107 | scenario: a second connection for A replaces the first, the first is closed by the replacement and again by its own teardown, and A stays mapped to the second |
| KafkaConsumer.Consumer.constructor | workerservice/internal/kafka/consumer.go:25-43 | readers for `email`, `logs`, `message` in that order, no handlers, 10 workers, an empty open queue of capacity 1000, not started |
| KafkaConsumer.Consumer.RegisterHandler | workerservice/internal/kafka/consumer.go:45-47 | the handler map gains or overwrites that one topic and nothing else changes |
| KafkaConsumer.Consumer.Start | workerservice/internal/kafka/consumer.go:49-53 | the wait group grows by the worker count and one worker is launched per id `0..numWorkers-1` |
| KafkaConsumer.Classify | workerservice/internal/kafka/consumer.go:58-67 | a cancel, deadline or group-closed error stops the reader, any other error is skipped, and a message is enqueued |
| KafkaConsumer.StopIndex | workerservice/internal/kafka/consumer.go:57-66 | the reader stops at the first stopping error, and no earlier read stops it |
| KafkaConsumer.FetchedPrefix | workerservice/internal/kafka/consumer.go:57-68 | what a longer read sequence enqueues extends what its prefix enqueued |
| KafkaConsumer.FetchedMembers | workerservice/internal/kafka/consumer.go:57-68 | a job is enqueued exactly when it is a successful read of that reader's topic |
| KafkaConsumer.Consumer.ReaderLoop | workerservice/internal/kafka/consumer.go:55-70 | the queue gains the successful reads before the first stopping error, in order; the loop stops exactly when such an error occurs |
| KafkaConsumer.RoutedMembers | workerservice/internal/kafka/consumer.go:79-86 | a handler call happens exactly when a job's topic has a registered handler, and it gets that job's value |
| KafkaConsumer.RoutedAllRegistered | workerservice/internal/kafka/consumer.go:79-86 | when every job's topic is registered there is one call per job |
| KafkaConsumer.RoutedNoneRegistered | workerservice/internal/kafka/consumer.go:81-85 | jobs for topics without a handler are dropped with no call |
| KafkaConsumer.RouteStep | workerservice/internal/kafka/consumer.go:80-85 | taking one more job adds that job's call, if any, and a handler error for it, if any |
| KafkaConsumer.Consumer.Worker | workerservice/internal/kafka/consumer.go:75-89 | the worker drains the queue in FIFO order and calls the matching handlers; handler errors are logged only and do not stop it |
| KafkaConsumer.FirstError | workerservice/internal/kafka/consumer.go:94-98 | the index of the first reader whose close fails, or the number of readers when none fails |
| KafkaConsumer.Consumer.Close | workerservice/internal/kafka/consumer.go:91-100 | the queue is closed and drained, the workers are awaited, and the readers are closed in order; it returns the first close error and does not close the readers after it |
| Http.IsBlacklisted | userservice/internal/utils/tokenblacklist.go:39-53 | a token is treated as blacklisted exactly when the lookup found it; a lookup failure reads as not blacklisted |
| Http.BearerToken | userservice/internal/controllers/controllers.go:126 | the token is the header with its first seven characters (`Bearer `) removed |
| Controllers.Guard | userservice/internal/controllers/controllers.go:191-199 | an empty header gives 401, a blacklisted token gives 401, and otherwise the handler goes on; no effects |
| Controllers.Register | userservice/internal/controllers/controllers.go:34-77 | 400 on a body that does not parse; 500 "Cannot hash password" with no effect when hashing fails; 500 "Cannot register user" after a failed insert, with the insert as the only effect; 200 exactly when parse, hash and insert succeed; the stored user carries the hash, not the password; on success the insert is followed by the email event, an email-failure log only when that send failed, and the success log, all logs keyed by the user id |
| Controllers.Login | userservice/internal/controllers/controllers.go:79-114 | 400 on a bad body; 401 unless the user exists, the password matches and the stored id, email and role equal the request's; 500 "Cannot generate token" when signing fails; 200 with the signed token and one success log exactly when all succeed, and no effects otherwise |
| Controllers.GetProfile | userservice/internal/controllers/controllers.go:116-140 | checks in source order (id, header, blacklist, fetch); 500 "Failed to fetch user information" on a fetch error; 404 "User not found" exactly for a missing row; 200 carries the fetched user; no effects |
| Controllers.Logout | userservice/internal/controllers/controllers.go:142-188 | checks in source order; the blacklist write precedes the RPC; 200 exactly when the caller is authorised, the blacklist write succeeds and the RPC succeeds, and only then is the success logged; a 200 has exactly three effects: the blacklist write, the RPC and the success log keyed by the user id |
| Controllers.GetUsersWithUserRole | userservice/internal/controllers/controllers.go:190-205 | after the guard, 500 "Failed to fetch users" when the query fails, else 200 with the users whose role is `user`; no effects |
| Controllers.GetUserByID | userservice/internal/controllers/controllers.go:207-230 | after the guard, 400 unless the path id is the token's id; 500 "Failed to fetch user" on a fetch error; 200 otherwise, with a null body for a missing row; never 404; no effects |
| Controllers.LookupFailureReadsAsNotListed | userservice/internal/controllers/controllers.go:127 | replacing every blacklist lookup failure by "not listed" changes no guarded handler's reply |
| AuthMiddleware.JwtError | userservice/internal/middleware/authmiddleware.go:32-37 | a JWT failure is answered with 401 "Unauthorized" and no effects; no failure means no reply |
| AuthMiddleware.AdminOnly | userservice/internal/middleware/authmiddleware.go:39-60 | only the `admin` role passes; any other gets 403 "Forbidden" and exactly one log keyed by the user id |
| AuthMiddleware.UserOnly | userservice/internal/middleware/authmiddleware.go:62-82 | only the `user` role passes; any other gets 403 "Access denied" and exactly one log keyed by the user id |
| AuthMiddleware.NoRolePassesBoth | userservice/internal/middleware/authmiddleware.go:45-68 | no token passes both the admin gate and the user gate |

## Left out

- Concurrency: goroutines, the manager's mutex, channel blocking and the
  consumer's wait group are not modelled. Each method is one atomic step, and
  `StartWorkerPool` and the worker count have no effect beyond the stored number.
- Reconnect deadlock: `WebSocket` calls `CloseConnection` while it already holds
  the non-reentrant mutex (websocket.go:101-103 and 167). A reconnect by an
  already-registered user would block forever. `WebSocket.Manager.Admit` models
  the intended effect: the old connection is closed and replaced.
- WebSocket.Manager.ReadLoop: the frames arrive already decoded as a finite list.
  A JSON decode error ends the list. The unbuffered broadcast channel is a
  sequence drained by `DispatchAll`.
- KafkaConsumer.Consumer.ReaderLoop: requires room in the queue for what it
  enqueues. The blocking send on a full queue is not modelled.
- KafkaConsumer.Consumer.Worker: handler outcomes are a function of the call, so
  the same handler and value always succeed or always fail. Handler side
  effects belong to the handlers, which are not part of this model.
- Kafka publish outcomes: producer errors only reach the zap log, except the
  email send in `Register`, whose failure adds a logs-topic event;
  `Controllers.Register` takes that outcome as `emailSent`. Elsewhere the model
  records every publish attempt and nothing about its outcome.
- Log texts: zap log lines, timestamps and remote addresses are not modelled.
  Kafka log events carry only their message text and key.
- Crypto: JWT parsing and signing and bcrypt hashing and compare are oracle
  parameters. Token validity and claims come as given values.
- Storage and mail: SQLite queries, the Redis blacklist, SMTP and the gRPC
  client are outcome parameters. Their internals are not modelled, nor are the
  SQL string formatting or the blacklist expiry computed from `exp`.
- Go panics: the `claims["id"].(string)` and `claims["role"].(string)` type
  assertions are preconditions that the keys are present. `Controllers.Logout`
  does not model the `claims["exp"].(float64)` assertion of controllers.go:163:
  a token without an `exp` claim panics there, while the model answers it
  like any other token. The `token[7:]`
  slice is the precondition that a non-empty header has at least seven
  characters.
- Wiring and transport: Fiber routing, the rate limiter, `InitAuthController`,
  `InitMiddleware`, `JWTProtected`, `NewGRPCServer`, protobuf encoding and the
  `main` functions are configuration only. A constructor parameter or a
  constant stands for each of them.
- WebSocket.Manager.HandleMessages: the error returned by `client.Close()` after a failed write is
  ignored by the source, so the model records the close attempt only.
