# Group-call session bookkeeping, modelled in Dafny

This project models the bookkeeping of a small WebRTC call service.

It has four parts. Each imperative core becomes a Dafny class whose fields are the registries the JavaScript/TypeScript code mutates. Each handler becomes one atomic method. What a handler computes is stated through functions on values, and lemmas prove the properties of those functions.

- **The mediasoup group-call server**, `GroupCallServer` in `backend-node/src/index.ts`. It keeps five process-wide registries:
  - `rooms`: room name to router and member list;
  - `peers`: socket id to room and peer details;
  - three flat record lists: transports, producers and consumers.

  Its socket handlers maintain these registries through join, transport creation, produce, fan-out, consume and resume, the per-consumer `producerclose` teardown, and the `disconnect` cascade done by `removeItems`. Modules:
  - `GroupCallTypes`: records and events;
  - `GroupCallLedger`: value-level functions and lemmas;
  - `GroupCall`: the class.
- **The P2P room registry** of `backend-node/src/roomManager.js`, module `RoomManager`. It is a map from room id to `{type, users}`, with get-or-create, add and remove-and-delete-if-empty.
- **The plain WebSocket relay** of `backend-node/src/index.js`, module `P2PRelay`. It keeps a `peers` Map, kept in insertion order, and handles `join`, `signal`, `chat` and `close`, with `broadcast` and `forwardTo`.
- **The browser client's consumer bookkeeping.** Module `ClientConsumers` covers the `consumingTransports` dedupe list and the `consumerTransports` signal. `frontend-solid/src/hooks/useCallRoom.ts` and `frontend-solid/src/hooks/joinGroupCall.ts` implement both identically, apart from `closeConsumerTransport`, which gets one method per variant. Module `UserName` models `saveUserName` with JavaScript's `String.prototype.trim`. The trimming functions and lemmas take the set of dropped characters as a parameter, and `Trim` instantiates it with ECMAScript's WhiteSpace and LineTerminator code points.

`Collections` holds the JavaScript `filter` and `find` used by the filter-and-reassign and lookup code (`Exclude`, `Select` and `Find`), plus an order-preserving sub-sequence relation.

## How the model is built

**The media engine** (mediasoup) is abstracted:
- a counter (`nextHandle`) mints object ids;
- `router.canConsume` is an uninterpreted function `canConsume`, fixed when the server is constructed;
- every engine call the server makes is appended to `effects`: router, transport, producer and consumer creation, `connect`, `resume` and `close`.

**Client communication:**
- A socket emit is appended to `outbox`.
- A socket.io acknowledgement is a method result. `None` means the handler never calls back.
- The `producerclose` listener a consumer registers is recorded in `listeners`. `OnProducerClose` runs one of them.

**Consistency of the registries.** The server's `Valid()` says:
- every joined socket's room exists and lists it;
- no room is empty;
- every record belongs to a joined socket.

This is what keeps these lookups defined:
- `this.rooms[roomName]` in `disconnect` and `consume`;
- `this.rooms[roomName].router` in `createWebRtcTransport` (index.ts:193-194), once the peer entry has been found;
- `this.peers[socket.id]` in `transport-produce` (index.ts:289). This holds because the socket owns the send transport that was just found, and every record belongs to a joined socket;
- `this.peers[p.socketId]` in `informConsumers`.

Every handler preserves it.

**Where a handler throws and nothing catches it,** the process ends. Neither file installs a `process.on` handler, and Node's default ends the process on an uncaught exception and, since Node 15, on an unhandled promise rejection. Both the server and the relay have a `halted` flag for this. A method that models such a throw sets the flag, sends no reply and changes nothing else. Every handler requires `!halted`, because no event reaches a process that has ended. The throws modelled this way:
- `getProducers` for a socket that has not joined. The handler is synchronous, and destructuring the missing peer entry throws out of the listener.
- `createWebRtcTransport` for a socket that has not joined. It reads the missing peer entry inside an async handler, so the rejection is unhandled.
- `joinRoom` with a room name that looks up an inherited property; see below.
- The relay's `join` from a sender whose entry is gone. This happens when a later connection drew the same random id and has since closed.
- A relay message that `JSON.parse` rejects, or that parses to `null`.

`consume` is different. Its lookup of the peer entry is inside `try`, so an unjoined socket is answered with the error and the process goes on.

**Room names that look up inherited properties.** `this.rooms` is a plain object. For a name such as `toString`, `constructor` or `__proto__`, `this.rooms[roomName]` finds a value inherited from `Object.prototype`, which is truthy. `createRoom` therefore skips creating the room. Reading the router's id in its log line then throws, before the socket is appended. The model lists these names in `InheritedKeys`. `JoinRooms` leaves the map unchanged for them, and `JoinRoom` ends the process without writing the peer entry.

**The receiver of the handlers.** `connections.on("connection", this.onConnection)` passes the method unbound (index.ts:80), and nothing in the file binds it. As written, the event emitter calls it with `this` set to the `/mediasoup` namespace. Inside the handlers, `this.rooms`, `this.peers`, the record lists and `this.createWebRtcTransport` would then be undefined. The first `joinRoom` or `disconnect` would throw. The model assumes the evidently intended binding, with `this` as the `GroupCallServer`, and models every handler on the server's own registries.

**The client** is a class with:
- the two lists;
- a counter for mediasoup-client objects;
- one ordered `trace` of emits, mediasoup-client calls and publications of the `consumerTransports` signal.

One trace is needed because the order matters: the consumer entry is published before `consumer-resume` is emitted.

**Where the documented design and the code differ, the model follows the code:**
- **Join is not idempotent.** Every `joinRoom` appends the socket to the room's list again (`JoinTwiceDuplicates`). A join to a second room leaves the socket listed in the first room, which `disconnect` never cleans (`RejoinLeavesStaleMember`).
- **The fan-out follows producer records, not room members.** A socket gets one `new-producer` per producer record it owns in the room, and a member that owns no producer gets none (`FanOutCount`).
- **`producersExist` is always true.** It is read after the new producer has been appended, even for the first producer of a room.
- **Room creation has no single-flight guard.** Handlers are atomic in the model, so the race across the `await` does not arise. A second send transport for a socket is not rejected.
- **An emptied room's router is not closed.** The room entry is only deleted.
- **The handlers are registered unbound.** index.ts:80 passes `this.onConnection` without binding it, so as written every handler runs on the `/mediasoup` namespace and fails on its first registry access. The model assumes `this` is the server, as described above.
- **Two core files import loggers that do not exist.** index.ts:6 imports `log1stage`, `log2stage` and `log3stage` from `./logging.js`. `backend-node/src/logging.ts` exports only `logTest`, `logEvent`, `logState` and `logMethod`, and `logging.js` exports only `whitelistLogTags`. joinGroupCall.ts:7 imports `log1stage` and `log2stage` from `~/utils/logging`, which exports only `logEvent`, `logMethod`, `logState` and `logComponent`. As an ES module, each file fails to link, so the server never starts and the hook never loads. Under a CommonJS build, every log call throws a TypeError once its arguments are evaluated, starting in `start()` at index.ts:39. The model assumes loggers that evaluate their arguments and do nothing else. The inherited-room-name behaviour of `JoinRoom` rests on this, because it comes from reading `router.id` among the arguments of the log call at index.ts:153-155. useCallRoom.ts:6 imports `logEvent` and `logMethod`, which do exist, so the members that cite only that hook are not affected.
- **The `messages` field of a room** declared in `types.ts` is never filled in. The model leaves it out.

## Model

| member | source | states |
|---|---|---|
| Collections.Exclude | backend-node/src/index.ts:97 | a filter never grows its input |
| Collections.ExcludeMembers | backend-node/src/index.ts:97 | the filter keeps exactly the items whose key differs, in both directions |
| Collections.Select | backend-node/src/index.ts:91-96 | selecting by key never grows the input |
| Collections.SelectMembers | backend-node/src/index.ts:91-96 | selection keeps exactly the items whose key matches |
| Collections.Find | backend-node/src/index.ts:263-267 | `find` answers none exactly when no item matches, otherwise the first matching item |
| Collections.ExcludeIsSubsequence | backend-node/src/index.ts:97 | filtering keeps the survivors in their original order |
| Collections.ExcludeMultiplicity | backend-node/src/index.ts:117-119 | a kept item keeps its multiplicity; a removed key has none left |
| Collections.SelectExcludePartition | backend-node/src/index.ts:90-98 | `removeItems` splits a list: the closed and the kept records together are exactly the original, as a multiset |
| Collections.ExcludeAbsent | backend-node/src/index.ts:90-98 | `removeItems` for a socket that owns no record keeps the list as it is |
| GroupCallLedger.JoinRooms | backend-node/src/index.ts:144-158 | a room name whose lookup finds an inherited property leaves the map unchanged; otherwise a router is taken only for an unknown room name, an existing room keeps its router, and the socket is appended to the list; no other room changes |
| GroupCallLedger.JoinTwiceDuplicates | backend-node/src/index.ts:144-158 | a second join into a room that really exists keeps the router and lists the socket twice |
| GroupCallLedger.RejoinLeavesStaleMember | backend-node/src/index.ts:115-158 | after joining room a and then room b, neither an inherited name, disconnecting leaves the socket listed in room a |
| GroupCallLedger.LeaveRoom | backend-node/src/index.ts:115-122 | the socket is filtered out of its room's list; the room is deleted exactly when the list becomes empty; no other room changes |
| GroupCallLedger.LeaveRoomMembership | backend-node/src/index.ts:115-122 | after leaving, the socket is not listed; every other member keeps its multiplicity and order; the room goes exactly when it held only that socket |
| GroupCallLedger.RemovedAreClosed | backend-node/src/index.ts:90-98 | every removed record's handle is closed, and every close is of a removed record |
| GroupCallLedger.OthersInRoomMembers | backend-node/src/index.ts:240-243 | the records visited are exactly those of the room that other sockets own |
| GroupCallLedger.OthersInRoomSnoc | backend-node/src/index.ts:240-243 | one more record extends the visited records exactly when it is in the room and owned by another socket |
| GroupCallLedger.OthersInRoomOrder | backend-node/src/index.ts:240-243 | the visited records keep list order |
| GroupCallLedger.ProducerIds | backend-node/src/index.ts:240-244 | the reply lists the records' producer ids, one per record, in order |
| GroupCallLedger.VisitProducer | backend-node/src/index.ts:240-243 | one `forEach` step of `getProducers` appends the id exactly when the record qualifies |
| GroupCallLedger.VisitNotice | backend-node/src/index.ts:252-257 | one `forEach` step of `informConsumers` emits to the record's owner exactly when the record qualifies |
| GroupCallLedger.NoticesFor | backend-node/src/index.ts:252-257 | one `new-producer` emit per visited record, each carrying the new producer's id |
| GroupCallLedger.FanOutCount | backend-node/src/index.ts:247-260 | a socket receives as many `new-producer` emits as it owns producer records in the room; the producing socket receives none |
| GroupCallLedger.DisconnectConsistent | backend-node/src/index.ts:101-122 | `disconnect` keeps the registries consistent, whether or not the socket has joined |
| GroupCallLedger.JoinConsistent | backend-node/src/index.ts:125-142 | a `joinRoom` that goes through keeps the registries consistent |
| GroupCallLedger.ProduceConsistent | backend-node/src/index.ts:288-290 | recording a producer of a joined socket keeps the registries consistent |
| GroupCallLedger.TransportAddedConsistent | backend-node/src/index.ts:210-217 | recording a transport of a joined socket keeps the registries consistent |
| GroupCallLedger.ConsumerAddedConsistent | backend-node/src/index.ts:224-227 | recording a consumer of a joined socket keeps the registries consistent |
| GroupCallLedger.ProducerCloseConsistent | backend-node/src/index.ts:352-358 | dropping one transport and one consumer by id keeps the registries consistent |
| GroupCallLedger.FindUnconsumedTransportBySocketId | backend-node/src/index.ts:263-267 | the first transport of the socket with a falsy consumer flag, or none exactly when there is no such transport |
| GroupCallLedger.FindConsumedTransportById | backend-node/src/index.ts:303-307 | the first receive transport with that id, whoever owns it, or none exactly when there is none |
| GroupCallLedger.FindConsumerById | backend-node/src/index.ts:377-379 | the first consumer with that id, whoever owns it, or none exactly when there is none |
| GroupCallLedger.ListenersAfterDisconnect | backend-node/src/index.ts:350-359 | a `producerclose` listener stays live after a disconnect exactly when it belongs to another socket's consumer and that consumer sits on none of the closed transports |
| GroupCall.RemoveItems | backend-node/src/index.ts:90-99 | closes, in list order, the handle of each record the socket owns, and returns the other records in order |
| GroupCall.GroupCallServer.constructor | backend-node/src/index.ts:20-26 | all registries start empty and consistent, and the process is running |
| GroupCall.GroupCallServer.OnConnection | backend-node/src/index.ts:83-88 | the socket is greeted with its id and nothing is registered |
| GroupCall.GroupCallServer.Disconnect | backend-node/src/index.ts:101-123 | the three lists lose every record of the socket and keep the rest in order; the removed records are closed, consumers first, then producers, then transports; an unjoined socket leaves `peers` and `rooms` as they were, while a joined one is removed from both; the `producerclose` listeners become `ListenersAfterDisconnect`, so those of the socket's consumers and those of any consumer on one of its transports are dropped; consistency is kept |
| GroupCall.GroupCallServer.RemoveRecords | backend-node/src/index.ts:103-108 | the three `removeItems` calls, in order |
| GroupCall.GroupCallServer.LeaveJoinedRoom | backend-node/src/index.ts:115-122 | the peer entry is deleted and the room updated as `LeaveRoom` states |
| GroupCall.GroupCallServer.CreateRoom | backend-node/src/index.ts:144-159 | the room map becomes `JoinRooms` of the old one; the promise rejects with nothing changed exactly when the lookup finds an inherited property; otherwise a router is created only for a new room name, and the room's router is returned |
| GroupCall.GroupCallServer.JoinRoom | backend-node/src/index.ts:125-159 | for a name whose lookup finds an inherited property, the process ends with no reply and no change; otherwise `createRoom` runs, the peer entry is overwritten with the room and empty details, and the room's router is returned; consistency is kept |
| GroupCall.GroupCallServer.AddTransport | backend-node/src/index.ts:210-217 | appends exactly one transport record |
| GroupCall.GroupCallServer.AddProducer | backend-node/src/index.ts:219-222 | appends exactly one producer record |
| GroupCall.GroupCallServer.AddConsumer | backend-node/src/index.ts:224-227 | appends exactly one consumer record |
| GroupCall.GroupCallServer.CreateWebRtcTransport | backend-node/src/index.ts:188-208 | an unjoined socket ends the process with no reply and no other change; otherwise a transport is created on the room's router, returned, and recorded with the client's consumer flag |
| GroupCall.GroupCallServer.GetProducers | backend-node/src/index.ts:229-245 | the reply is exactly the ids of the room's producers that other sockets own, in list order; an unjoined socket ends the process with no reply |
| GroupCall.GroupCallServer.InformConsumers | backend-node/src/index.ts:247-261 | the emits appended are exactly `NoticesFor` the room's producer records owned by others |
| GroupCall.GroupCallServer.TransportConnect | backend-node/src/index.ts:269-278 | connects the socket's send transport, and does nothing without one |
| GroupCall.GroupCallServer.TransportProduce | backend-node/src/index.ts:280-301 | without a send transport nothing changes and there is no reply; otherwise exactly one producer record for the socket's room is appended, the fan-out runs over the records that existed before, and the reply carries the new id with `producersExist` true |
| GroupCall.GroupCallServer.CreateProducer | backend-node/src/index.ts:283-290 | produces on the send transport and records the producer; consistency is kept |
| GroupCall.GroupCallServer.TransportRecvConnect | backend-node/src/index.ts:309-321 | connects the receive transport with that id, and does nothing for an unknown one |
| GroupCall.GroupCallServer.Consume | backend-node/src/index.ts:323-373 | an unjoined socket is answered with the error; an unknown receive transport or an incompatible producer changes nothing and gets no reply; otherwise one paused consumer is created and recorded, and the reply's id equals its `serverConsumerId` |
| GroupCall.GroupCallServer.CreateConsumer | backend-node/src/index.ts:341-359 | a paused consumer is created on the transport, its `producerclose` listener registered and its record appended |
| GroupCall.GroupCallServer.OnProducerClose | backend-node/src/index.ts:350-359 | `producer-closed` is emitted to the consuming socket; exactly that transport id and that consumer id are closed and filtered out; the listener, and every other listener on the closed transport, is dropped, so none fires twice; consistency is kept |
| GroupCall.GroupCallServer.ConsumerResume | backend-node/src/index.ts:374-385 | resumes the consumer with that id, and does nothing for an unknown one |
| RoomManager.Created | backend-node/src/roomManager.js:3-8 | an absent id gets an empty room of the given type; a present room is left unchanged, type included; no other room changes |
| RoomManager.WithUser | backend-node/src/roomManager.js:10-14 | the room, created as `p2p` if needed, contains the user afterwards; no other room changes |
| RoomManager.WithoutUser | backend-node/src/roomManager.js:16-25 | the user leaves the room; the room is in the map afterwards exactly when users remain; no other room changes |
| RoomManager.RoomRegistry.constructor | backend-node/src/roomManager.js:1 | the registry starts empty |
| RoomManager.RoomRegistry.GetOrCreateRoom | backend-node/src/roomManager.js:3-8 | the map becomes `Created`, and the room under the id is returned |
| RoomManager.RoomRegistry.AddUserToRoom | backend-node/src/roomManager.js:10-14 | the map becomes `WithUser`, and the updated room is returned |
| RoomManager.RoomRegistry.RemoveUserFromRoom | backend-node/src/roomManager.js:16-25 | the map becomes `WithoutUser`, and the room without the user is returned, also when it has been deleted |
| RoomManager.GetOrCreateKeepsKind | backend-node/src/roomManager.js:3-8 | a second get-or-create neither changes the map nor overwrites the type |
| RoomManager.AddUserIdempotent | backend-node/src/roomManager.js:10-14 | adding a user twice is the same as adding it once |
| RoomManager.RemoveFromUnknownRoom | backend-node/src/roomManager.js:16-22 | removing a user from an unknown room leaves the map as it was |
| RoomManager.AddThenRemoveRestores | backend-node/src/roomManager.js:10-22 | adding and then removing a user of a previously absent room restores the map |
| RoomManager.UsersKeepRoomsNonEmpty | backend-node/src/roomManager.js:3-25 | add and remove never leave an empty room behind, but a bare get-or-create of a new id does |
| P2PRelay.Ids | backend-node/src/index.js:73 | the ids of the entries, in map order |
| P2PRelay.SetEntry | backend-node/src/index.js:34 | `Map.set` replaces an existing key's value in place and appends a new key |
| P2PRelay.SetEntryIds | backend-node/src/index.js:34 | `Map.set` keeps the keys distinct and adds exactly the key set |
| P2PRelay.BroadcastTo | backend-node/src/index.js:72-76 | one delivery per registered peer, in map order, all of the same message |
| P2PRelay.BroadcastReachesEachOnce | backend-node/src/index.js:72-76 | a broadcast reaches each registered peer exactly once and no one else |
| P2PRelay.Without | backend-node/src/index.js:67 | `Map.delete` keeps exactly the other entries, in order |
| P2PRelay.WithoutIds | backend-node/src/index.js:67 | after `Map.delete` the keys are distinct and exactly the old keys minus the deleted one |
| P2PRelay.CloseNotifiesOthersOnce | backend-node/src/index.js:66-69 | `user-left` reaches each remaining peer once and never the closing one |
| P2PRelay.Relay.constructor | backend-node/src/index.js:19 | the relay starts with no peers, and the process is running |
| P2PRelay.Relay.Get | backend-node/src/index.js:79 | `Map.get` finds the entry of that id, or none exactly when the id is not registered |
| P2PRelay.Relay.Connection | backend-node/src/index.js:32-34 | exactly one entry is registered under the id, and no other entry changes |
| P2PRelay.Relay.Broadcast | backend-node/src/index.js:72-76 | the deliveries appended are exactly `BroadcastTo` of the current peers |
| P2PRelay.Relay.ForwardTo | backend-node/src/index.js:78-82 | one delivery to a registered peer; nothing for an unknown id |
| P2PRelay.Relay.Join | backend-node/src/index.js:39-42 | only the sender's entry gets the name, and `user-joined` is broadcast to every peer, the sender included; a sender without an entry ends the process with nothing sent and the map unchanged |
| P2PRelay.Relay.SignalPeer | backend-node/src/index.js:44-46 | the signal goes only to the addressed peer, with the sender as `from`; an unknown target receives nothing |
| P2PRelay.Relay.ChatAll | backend-node/src/index.js:48-50 | the chat is broadcast to every peer, with the sender as `from`, and the map does not change |
| P2PRelay.Relay.OnMessage | backend-node/src/index.js:36-64 | dispatch on the message type; an unknown type does nothing; a message that does not parse or parses to `null`, or a `join` from a sender without an entry, ends the process; the process ends exactly in those cases |
| P2PRelay.Relay.Close | backend-node/src/index.js:66-69 | the entry is deleted first, then `user-left` is broadcast to the remaining peers |
| ClientConsumers.Requested | frontend-solid/src/hooks/useCallRoom.ts:313-325 | the producer ids receive transports were requested for, in trace order |
| ClientConsumers.RequestedAppend | frontend-solid/src/hooks/useCallRoom.ts:313-325 | the requests of a concatenated trace are those of its parts |
| ClientConsumers.Fresh | frontend-solid/src/hooks/useCallRoom.ts:306-320 | the ids a run of `signalNewConsumerTransport` calls lets through are never more than the ids given |
| ClientConsumers.FreshProperties | frontend-solid/src/hooks/useCallRoom.ts:306-320 | after the calls every given id has been seen, the ids let through are exactly the unseen given ids, and none is held twice |
| ClientConsumers.FreshStep | frontend-solid/src/hooks/useCallRoom.ts:309 | one more call extends the list and the requests exactly when the id is new |
| ClientConsumers.RequestEmits | frontend-solid/src/hooks/useCallRoom.ts:309 | one receive-transport request per id let through, in order |
| ClientConsumers.CloseFilter | frontend-solid/src/hooks/useCallRoom.ts:433-435 | the filter removes every entry of the producer and keeps the others, in order and with their multiplicity |
| ClientConsumers.ConsumerBook.constructor | frontend-solid/src/hooks/useCallRoom.ts:57-78 | both lists start empty and the bookkeeping is consistent |
| ClientConsumers.ConsumerBook.SignalNewConsumerTransport | frontend-solid/src/hooks/useCallRoom.ts:313-325 | an id already seen triggers nothing; a new id is appended and then exactly one receive-transport request is emitted; `consumingTransports` only grows (joinGroupCall.ts:264-272 alike) |
| ClientConsumers.ConsumerBook.OnRecvTransportCreated | frontend-solid/src/hooks/useCallRoom.ts:325-369 | creates the receive transport and emits `consume`; when creation throws, nothing happens (joinGroupCall.ts:272-313 alike) |
| ClientConsumers.ConsumerBook.OnConsumeReply | frontend-solid/src/hooks/useCallRoom.ts:389-414 | an error reply adds no entry and emits nothing; otherwise exactly one entry for the producer is appended and published before `consumer-resume` is emitted with the server consumer id (joinGroupCall.ts:329-352 alike) |
| ClientConsumers.ConsumerBook.CloseConsumerTransport | frontend-solid/src/hooks/useCallRoom.ts:418-436 | before the send transport exists (reading its id throws) or with no matching entry, the list and trace are unchanged; otherwise the first match's transport and consumer are closed, every entry of the producer is filtered out, and the filtered list is published |
| ClientConsumers.ConsumerBook.CloseConsumerTransportAlwaysFiltering | frontend-solid/src/hooks/joinGroupCall.ts:356-372 | once the send transport exists, the list is always filtered and published, and the first match's transport and consumer are closed only when an entry matches; before it, nothing changes |
| ClientConsumers.ConsumerBook.OnDisconnect | frontend-solid/src/hooks/useCallRoom.ts:116-123 | `consumerTransports` is reset to empty and `consumingTransports` is untouched (joinGroupCall.ts:76-83 alike) |
| ClientConsumers.ConsumerBook.OnProduceReply | frontend-solid/src/hooks/useCallRoom.ts:259-266 | acknowledges to mediasoup-client, then emits `getProducers` exactly when `producersExist` (joinGroupCall.ts:215-221 alike) |
| ClientConsumers.ConsumerBook.OnGetProducersReply | frontend-solid/src/hooks/useCallRoom.ts:304-311 | `consumingTransports` grows by exactly the new ids, and one request is emitted per new id, in order (joinGroupCall.ts:257-262 alike) |
| ClientConsumers.ConsumerBook.SignalNext | frontend-solid/src/hooks/useCallRoom.ts:309 | iteration `i` of the `getProducers` callback's `forEach` moves the state from the ids before `i` to the ids up to and including `i` |
| ClientConsumers.ConsumerBook.OnSendTransportCreated | frontend-solid/src/hooks/useCallRoom.ts:217 | `producerTransport` is assigned |
| UserName.TrimStart | frontend-solid/src/hooks/useCallRoom.ts:65 | drops exactly the leading characters of the dropped set, leaving a suffix of the input |
| UserName.TrimEnd | frontend-solid/src/hooks/useCallRoom.ts:65 | drops exactly the trailing characters of the dropped set, leaving a prefix of the input |
| UserName.TrimIsCore | frontend-solid/src/hooks/useCallRoom.ts:65 | trimming returns the slice left after removing dropped characters at both ends |
| UserName.TrimKeepsEnds | frontend-solid/src/hooks/useCallRoom.ts:65 | a non-empty trimmed string neither starts nor ends with a dropped character |
| UserName.TrimIdempotent | frontend-solid/src/hooks/useCallRoom.ts:65 | trimming twice is the same as trimming once |
| UserName.TrimEmptyIff | frontend-solid/src/hooks/useCallRoom.ts:65-71 | a string trims to nothing exactly when all its characters are dropped ones; with `Trim`'s set (ECMAScript WhiteSpace and LineTerminator), a name is rejected exactly when it is whitespace only |
| UserName.NameField.constructor | frontend-solid/src/hooks/useCallRoom.ts:63 | the name starts empty |
| UserName.NameField.OnMount | frontend-solid/src/hooks/useCallRoom.ts:73-76 | a stored name is restored |
| UserName.NameField.SaveUserName | frontend-solid/src/hooks/useCallRoom.ts:64-72 | a name that is non-empty after trimming is stored and shown trimmed; otherwise the state is unchanged and the alert is shown |

## Left out

- Media engine internals, on both the server and the client. mediasoup and mediasoup-client are foreign code: the model represents them only by fresh ids, the uninterpreted `canConsume`, and the logs of calls made on them.
- Engine failures. A rejected `createRouter`, `createWebRtcTransport`, `connect`, `produce`, `consume` or `resume` is not modelled. The `connect` at index.ts:277 is neither awaited nor caught; its rejection, such as a second `connect()` on the same transport, would be unhandled and end the process. The one client failure that is modelled is `createRecvTransport` throwing, because the hook catches it explicitly.
- `transportclose`, `trackended` and `dtlsstatechange` listeners. These are engine events that only log, or close an engine object.
- The `connect` and `produce` listeners of the client transports, which emit `transport-connect`, `transport-recv-connect` and `transport-produce`. They are mediasoup-client events. Only their effect on the server is modelled, by the server's handlers.
- The worker's `died` path. It is process control.
- Concurrency. Awaits inside a handler and interleavings of handlers across suspension points are not modelled; every handler is atomic. This includes the room-creation race.
- GroupCallLedger.JoinRooms: room names are strings only. The source types `roomName` as `string | number`. Object keys make the number 1 and the string "1" the same room, but the `===` comparisons in `getProducers` and `informConsumers` tell them apart. The model does not capture that difference.
- GroupCall.GroupCallServer.CreateRoom: the same restriction to string room names.
- GroupCall.GroupCallServer.JoinRoom: the same restriction to string room names.
- Socket ids as keys of `this.peers`, which is also a plain object. socket.io's generated ids never equal an inherited property name, so the model uses a map.
- The `producerclose` event itself. The engine fires it when the consumed producer closes. The model lets any live listener fire, without tracking which producer has closed.
- GroupCall.GroupCallServer.Consume: the reply omits `kind` and `rtpParameters`, which come from the engine.
- Aliasing of the returned room objects. JavaScript's `getOrCreateRoom` returns the object stored in the map, so a caller would see later changes to it. The model returns the room's value at the time of the call.
- The `file` branch of the relay. It is filesystem I/O.
- The socket objects in the relay's entries. A collision of the random socket ids is modelled as `Map.set` replacing the entry in place.
- The random socket id itself. It is a parameter of `Connection`.
- HTTPS/TLS, express and socket.io setup. This is plumbing.
- Log output. Each log call is modelled as evaluating its arguments and printing nothing. The imports that name missing loggers are described above.
- backend-node2 and backend-node/src/sfuHandler.js. These are not part of this model.
- backend-node/src/signaling.js, configuration files, UI components, and the browser media code. These are not part of this model either.
- The rest of the client hooks: device loading, `getUserMedia`, `join`/`leave`, and producing local tracks. These are browser and mediasoup-client calls.
