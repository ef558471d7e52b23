/** The mediasoup group-call server of backend-node/src/index.ts: the five
    process-wide registries of `GroupCallServer` and one atomic method per
    socket handler. The media engine is abstracted: ids come from a counter,
    `router.canConsume` is an uninterpreted predicate fixed at construction,
    and every engine call is appended to `effects`; socket emits go to
    `outbox`; an acknowledgement callback is a method result (`None` when
    the handler never calls back). */
module GroupCall {
  import opened Collections
  import opened GroupCallTypes
  import opened GroupCallLedger

  /** `removeItems`: close the handle of every record owned by `socketId`, in
      list order, then keep only the records of the other sockets. */
  method RemoveItems<T(!new)>(items: seq<T>, socketId: SocketId, owner: T -> SocketId, handle: T -> Handle)
    returns (kept: seq<T>, closes: seq<EngineCall>)
    ensures kept == Exclude(items, owner, socketId)
    ensures closes == CloseEach(Select(items, owner, socketId), handle)
  {
    closes := [];
    var i := 0;
    while i < |items|
      invariant 0 <= i <= |items|
      invariant closes == CloseEach(Select(items[..i], owner, socketId), handle)
    {
      assert items[..i + 1][..i] == items[..i];
      if owner(items[i]) == socketId {
        closes := closes + [Close(handle(items[i]))];
      }
      i := i + 1;
    }
    assert items[..i] == items;
    kept := Exclude(items, owner, socketId);
  }

  class GroupCallServer {
    var rooms: map<RoomName, Room>
    var peers: map<SocketId, Peer>
    var transports: seq<TransportRecord>
    var producers: seq<ProducerRecord>
    var consumers: seq<ConsumerRecord>

    // The media engine and the sockets, abstracted.
    var nextHandle: Handle
    const canConsume: (Handle, Handle, Capabilities) -> bool
    var listeners: seq<ProducerCloseListener>
    var effects: seq<EngineCall>
    var outbox: seq<Message>
    /** The process has ended: an exception escaped a handler, thrown
        synchronously or as an unhandled promise rejection, and Node's
        default ends the process there. No handler runs after that. */
    var halted: bool

    /** The registries are consistent (see `Consistent`). */
    ghost predicate Valid()
      reads this
    {
      Consistent(rooms, peers, transports, producers, consumers)
    }

    constructor (canConsume: (Handle, Handle, Capabilities) -> bool)
      ensures Valid()
      ensures rooms == map[] && peers == map[]
      ensures transports == [] && producers == [] && consumers == []
      ensures this.canConsume == canConsume
      ensures nextHandle == 0 && listeners == [] && effects == [] && outbox == [] && !halted
    {
      rooms, peers := map[], map[];
      transports, producers, consumers := [], [], [];
      this.canConsume := canConsume;
      nextHandle, listeners, effects, outbox, halted := 0, [], [], [], false;
    }

    /** The engine minting a new object id. */
    method NewHandle() returns (id: Handle)
      modifies this`nextHandle
      ensures id == old(nextHandle) && nextHandle == id + 1
    {
      id := nextHandle;
      nextHandle := nextHandle + 1;
    }

    /** `connection`: greet the socket with its id. Nothing is registered. */
    method OnConnection(s: SocketId)
      requires !halted
      modifies this`outbox
      ensures outbox == old(outbox) + [Message(s, ConnectionSuccess(s))]
    {
      outbox := outbox + [Message(s, ConnectionSuccess(s))];
    }

    /** `disconnect`: purge the socket's consumers, producers and transports
        (closing each), and, if the socket has joined, drop its peer entry,
        its occurrences in its room's list, and the room if it is now empty.
        The socket's consumers are closed, and so is every consumer on one
        of its transports, so none of their `producerclose` listeners can
        fire any more. */
    method Disconnect(s: SocketId)
      requires Valid() && !halted
      modifies this`consumers, this`producers, this`transports, this`peers, this`rooms, this`effects, this`listeners
      ensures Valid()
      ensures listeners == ListenersAfterDisconnect(old(listeners), s, Select(old(transports), TransportOwner, s))
      ensures consumers == Exclude(old(consumers), ConsumerOwner, s)
      ensures producers == Exclude(old(producers), ProducerOwner, s)
      ensures transports == Exclude(old(transports), TransportOwner, s)
      ensures effects == old(effects) + CloseEach(Select(old(consumers), ConsumerOwner, s), ConsumerId)
                                      + CloseEach(Select(old(producers), ProducerOwner, s), ProducerId)
                                      + CloseEach(Select(old(transports), TransportOwner, s), TransportId)
      ensures s !in old(peers) ==> peers == old(peers) && rooms == old(rooms)
      ensures s in old(peers) ==> peers == old(peers) - {s}
                                  && rooms == LeaveRoom(old(rooms), old(peers)[s].roomName, s)
      ensures forall c :: c in consumers ==> c.socketId != s
      ensures forall p :: p in producers ==> p.socketId != s
      ensures forall t :: t in transports ==> t.socketId != s
    {
      DisconnectConsistent(rooms, peers, transports, producers, consumers, s);
      ExcludeMembers(consumers, ConsumerOwner, s);
      ExcludeMembers(producers, ProducerOwner, s);
      ExcludeMembers(transports, TransportOwner, s);
      var closed := Select(transports, TransportOwner, s);
      RemoveRecords(s);
      listeners := ListenersAfterDisconnect(listeners, s, closed);
      if s !in peers {
        return;
      }
      LeaveJoinedRoom(s);
    }

    /** The first half of `disconnect`: `removeItems` on the consumers, the
        producers and the transports, in that order. */
    method RemoveRecords(s: SocketId)
      modifies this`consumers, this`producers, this`transports, this`effects
      ensures consumers == Exclude(old(consumers), ConsumerOwner, s)
      ensures producers == Exclude(old(producers), ProducerOwner, s)
      ensures transports == Exclude(old(transports), TransportOwner, s)
      ensures effects == old(effects) + CloseEach(Select(old(consumers), ConsumerOwner, s), ConsumerId)
                                      + CloseEach(Select(old(producers), ProducerOwner, s), ProducerId)
                                      + CloseEach(Select(old(transports), TransportOwner, s), TransportId)
    {
      var keptConsumers, consumerCloses := RemoveItems(consumers, s, ConsumerOwner, ConsumerId);
      var keptProducers, producerCloses := RemoveItems(producers, s, ProducerOwner, ProducerId);
      var keptTransports, transportCloses := RemoveItems(transports, s, TransportOwner, TransportId);
      consumers, producers, transports := keptConsumers, keptProducers, keptTransports;
      effects := effects + consumerCloses + producerCloses + transportCloses;
    }

    /** The second half of `disconnect`, for a joined socket: forget the
        peer, filter it out of its room's list, and delete the room once
        the list is empty. */
    method LeaveJoinedRoom(s: SocketId)
      requires s in peers && peers[s].roomName in rooms
      modifies this`peers, this`rooms
      ensures peers == old(peers) - {s}
      ensures rooms == LeaveRoom(old(rooms), old(peers)[s].roomName, s)
    {
      var roomName := peers[s].roomName;
      peers := peers - {s};
      var remaining := Exclude(rooms[roomName].peers, Member, s);
      rooms := rooms[roomName := rooms[roomName].(peers := remaining)];
      if |remaining| == 0 {
        rooms := rooms - {roomName};
      }
    }

    /** `createRoom`: make the room, with a new router, only if the lookup
        finds nothing; append the socket to its list. When the lookup finds
        an inherited property instead, the returned promise rejects (`None`)
        before anything has changed. */
    method CreateRoom(roomName: RoomName, socketId: SocketId) returns (router: Option<Handle>)
      modifies this`rooms, this`nextHandle, this`effects
      ensures rooms == JoinRooms(old(rooms), roomName, socketId, old(nextHandle))
      ensures router.None? <==> InheritedLookup(old(rooms), roomName)
      ensures router.Some? ==> router.value == rooms[roomName].router
      ensures (roomName in old(rooms) || router.None?) ==> nextHandle == old(nextHandle) && effects == old(effects)
      ensures (roomName !in old(rooms) && router.Some?) ==>
                nextHandle == old(nextHandle) + 1 && effects == old(effects) + [CreateRouter(old(nextHandle))]
    {
      if roomName !in rooms {
        if roomName in InheritedKeys {
          return None;
        }
        var id := NewHandle();
        effects := effects + [CreateRouter(id)];
        rooms := rooms[roomName := Room(id, [])];
      }
      var room := rooms[roomName];
      rooms := rooms[roomName := room.(peers := room.peers + [socketId])];
      router := Some(room.router);
    }

    /** `joinRoom`: join (or re-join) a room and overwrite the peer entry;
        the acknowledgement carries the capabilities of the room's router.
        A room name that looks up an inherited property makes `createRoom`
        reject; the awaiting handler rejects in turn, unhandled, and the
        process ends with nothing changed and no acknowledgement sent. */
    method JoinRoom(s: SocketId, roomName: RoomName) returns (reply: Option<Handle>)
      requires Valid() && !halted
      modifies this`rooms, this`peers, this`nextHandle, this`effects, this`halted
      ensures Valid()
      ensures rooms == JoinRooms(old(rooms), roomName, s, old(nextHandle))
      ensures InheritedLookup(old(rooms), roomName) ==>
                && reply == None && halted && peers == old(peers)
                && nextHandle == old(nextHandle) && effects == old(effects)
      ensures !InheritedLookup(old(rooms), roomName) ==>
                && !halted && reply == Some(rooms[roomName].router)
                && peers == old(peers)[s := Peer(roomName, PeerDetails("", false))]
      ensures roomName in old(rooms) ==> nextHandle == old(nextHandle) && effects == old(effects)
      ensures roomName !in old(rooms) && roomName !in InheritedKeys ==>
                nextHandle == old(nextHandle) + 1 && effects == old(effects) + [CreateRouter(old(nextHandle))]
    {
      if !InheritedLookup(rooms, roomName) {
        JoinConsistent(rooms, peers, transports, producers, consumers, s, roomName, nextHandle);
      }
      var router := CreateRoom(roomName, s);
      if router.None? {
        halted := true;
        return None;
      }
      peers := peers[s := Peer(roomName, PeerDetails("", false))];
      reply := router;
    }

    /** `addTransport` */
    method AddTransport(socketId: SocketId, transport: Handle, roomName: RoomName, consumer: bool)
      modifies this`transports
      ensures transports == old(transports) + [TransportRecord(socketId, transport, roomName, consumer)]
    {
      transports := transports + [TransportRecord(socketId, transport, roomName, consumer)];
    }

    /** `addProducer` */
    method AddProducer(socketId: SocketId, producer: Handle, roomName: RoomName)
      modifies this`producers
      ensures producers == old(producers) + [ProducerRecord(socketId, producer, roomName)]
    {
      producers := producers + [ProducerRecord(socketId, producer, roomName)];
    }

    /** `addConsumer` */
    method AddConsumer(socketId: SocketId, consumer: Handle, roomName: RoomName)
      modifies this`consumers
      ensures consumers == old(consumers) + [ConsumerRecord(socketId, consumer, roomName)]
    {
      consumers := consumers + [ConsumerRecord(socketId, consumer, roomName)];
    }

    /** `createWebRtcTransport`: a transport on the room's router, recorded
        with the client's consumer flag. For a socket that has not joined,
        reading its room throws inside the async handler: the rejection is
        unhandled and the process ends before anything else happens. */
    method CreateWebRtcTransport(s: SocketId, consumer: bool) returns (reply: Option<Handle>)
      requires Valid() && !halted
      modifies this`transports, this`nextHandle, this`effects, this`halted
      ensures Valid()
      ensures s !in peers ==> reply == None && halted && transports == old(transports)
                              && nextHandle == old(nextHandle) && effects == old(effects)
      ensures s in peers ==>
                var id, roomName := old(nextHandle), peers[s].roomName;
                && !halted && reply == Some(id) && nextHandle == id + 1
                && transports == old(transports) + [TransportRecord(s, id, roomName, consumer)]
                && effects == old(effects) + [CreateTransport(rooms[roomName].router, id)]
    {
      if s !in peers {
        halted := true;
        return None;
      }
      var roomName := peers[s].roomName;
      var router := rooms[roomName].router;
      var id := NewHandle();
      TransportAddedConsistent(rooms, peers, transports, producers, consumers, TransportRecord(s, id, roomName, consumer));
      effects := effects + [CreateTransport(router, id)];
      reply := Some(id);
      AddTransport(s, id, roomName, consumer);
    }

    /** `getProducers`: the ids of the producers of the caller's room that
        other sockets own, in list order. For a socket that has not joined,
        the destructuring of its peer entry throws out of the listener,
        uncaught, and the process ends without an acknowledgement. */
    method GetProducers(s: SocketId) returns (reply: Option<seq<Handle>>)
      requires !halted
      modifies this`halted
      ensures s !in peers ==> reply == None && halted
      ensures s in peers ==> !halted && reply == Some(ProducerIds(OthersInRoom(producers, s, peers[s].roomName)))
    {
      if s !in peers {
        halted := true;
        return None;
      }
      var roomName := peers[s].roomName;
      var ps := producers;
      var producerIdList := [];
      var i := 0;
      while i < |ps|
        invariant 0 <= i <= |ps|
        invariant producerIdList == ProducerIds(OthersInRoom(ps[..i], s, roomName))
        invariant !halted
      {
        var p := ps[i];
        assert ps[..i + 1] == ps[..i] + [p];
        VisitProducer(ps[..i], p, s, roomName);
        if p.socketId != s && p.roomName == roomName {
          producerIdList := producerIdList + [p.producer];
        }
        i := i + 1;
      }
      assert ps[..i] == ps;
      reply := Some(producerIdList);
    }

    /** `informConsumers`: one `new-producer` emit to the owner of every
        producer record of the room that another socket owns. */
    method InformConsumers(roomName: RoomName, socketId: SocketId, producerId: Handle)
      requires forall p :: p in producers ==> p.socketId in peers
      modifies this`outbox
      ensures outbox == old(outbox) + NoticesFor(OthersInRoom(producers, socketId, roomName), producerId)
    {
      var ps := producers;
      var i := 0;
      while i < |ps|
        invariant 0 <= i <= |ps|
        invariant outbox == old(outbox) + NoticesFor(OthersInRoom(ps[..i], socketId, roomName), producerId)
      {
        var p := ps[i];
        assert ps[..i + 1] == ps[..i] + [p];
        VisitNotice(ps[..i], p, socketId, roomName, producerId);
        if p.socketId != socketId && p.roomName == roomName {
          assert p.socketId in peers by { assert ps[i] in producers; }
          outbox := outbox + [Message(p.socketId, NewProducer(producerId))];
        }
        i := i + 1;
      }
      assert ps[..i] == ps;
    }

    /** `transport-connect`: connect the socket's send transport, if it has one. */
    method TransportConnect(s: SocketId)
      requires !halted
      modifies this`effects
      ensures FindUnconsumedTransportBySocketId(transports, s).None? ==> effects == old(effects)
      ensures FindUnconsumedTransportBySocketId(transports, s).Some? ==>
                effects == old(effects) + [Connect(FindUnconsumedTransportBySocketId(transports, s).value.transport)]
    {
      var found := FindUnconsumedTransportBySocketId(transports, s);
      if found.None? {
        return;
      }
      effects := effects + [Connect(found.value.transport)];
    }

    /** `transport-produce`: produce on the socket's send transport, record
        the producer under the socket's current room, fan it out, and
        acknowledge with its id. `producersExist` is read after the new
        record is appended, so it is always true. Without a send transport
        nothing happens and no acknowledgement is sent. */
    method TransportProduce(s: SocketId, kind: string) returns (reply: Option<ProduceReply>)
      requires Valid() && !halted
      modifies this`nextHandle, this`effects, this`producers, this`outbox
      ensures Valid()
      ensures FindUnconsumedTransportBySocketId(transports, s).None? ==>
                && reply == None && nextHandle == old(nextHandle) && effects == old(effects)
                && producers == old(producers) && outbox == old(outbox)
      ensures FindUnconsumedTransportBySocketId(transports, s).Some? ==>
                var send := FindUnconsumedTransportBySocketId(transports, s).value;
                var id, roomName := old(nextHandle), peers[s].roomName;
                && reply == Some(ProduceReply(id, true))
                && nextHandle == id + 1
                && effects == old(effects) + [Produce(send.transport, kind, id)]
                && producers == old(producers) + [ProducerRecord(s, id, roomName)]
                && outbox == old(outbox) + NoticesFor(OthersInRoom(old(producers), s, roomName), id)
    {
      var found := FindUnconsumedTransportBySocketId(transports, s);
      if found.None? {
        return None;
      }
      assert found.value in transports;
      var roomName := peers[s].roomName;
      ghost var before := producers;
      var id := CreateProducer(s, roomName, found.value.transport, kind);
      OthersInRoomSnoc(before, ProducerRecord(s, id, roomName), s, roomName);
      InformConsumers(roomName, s, id);
      reply := Some(ProduceReply(id, |producers| > 0));
    }

    /** The first part of `transport-produce`: a producer on the send
        transport, recorded under the socket's room. */
    method CreateProducer(s: SocketId, roomName: RoomName, transport: Handle, kind: string) returns (id: Handle)
      requires Valid() && s in peers
      modifies this`nextHandle, this`effects, this`producers
      ensures Valid()
      ensures id == old(nextHandle) && nextHandle == id + 1
      ensures effects == old(effects) + [Produce(transport, kind, id)]
      ensures producers == old(producers) + [ProducerRecord(s, id, roomName)]
    {
      id := NewHandle();
      ProduceConsistent(rooms, peers, transports, producers, consumers, ProducerRecord(s, id, roomName));
      effects := effects + [Produce(transport, kind, id)];
      AddProducer(s, id, roomName);
    }

    /** `transport-recv-connect`: connect the receive transport with that id,
        if there is one. */
    method TransportRecvConnect(serverConsumerTransportId: Handle)
      requires !halted
      modifies this`effects
      ensures FindConsumedTransportById(transports, serverConsumerTransportId).None? ==> effects == old(effects)
      ensures FindConsumedTransportById(transports, serverConsumerTransportId).Some? ==>
                effects == old(effects) + [Connect(serverConsumerTransportId)]
    {
      var found := FindConsumedTransportById(transports, serverConsumerTransportId);
      if found.None? {
        return;
      }
      effects := effects + [Connect(found.value.transport)];
    }

    /** `consume`: on the receive transport with the given id, and only if
        the room's router can consume the producer, create a paused
        consumer, register its `producerclose` listener, record it and
        acknowledge. An unknown transport or an incompatible producer end
        the handler without acknowledgement; a socket that has not joined
        throws inside the `try`, which acknowledges with the error. */
    method Consume(s: SocketId, rtpCapabilities: Capabilities, remoteProducerId: Handle, serverConsumerTransportId: Handle)
      returns (reply: Option<ConsumeReply>)
      requires Valid() && !halted
      modifies this`nextHandle, this`effects, this`consumers, this`listeners
      ensures Valid()
      ensures s !in peers ==> reply == Some(ConsumeError)
      ensures (s !in peers || FindConsumedTransportById(transports, serverConsumerTransportId).None?
               || !canConsume(rooms[peers[s].roomName].router, remoteProducerId, rtpCapabilities)) ==>
                && (s in peers ==> reply == None)
                && nextHandle == old(nextHandle) && effects == old(effects)
                && consumers == old(consumers) && listeners == old(listeners)
      ensures (&& s in peers && FindConsumedTransportById(transports, serverConsumerTransportId).Some?
               && canConsume(rooms[peers[s].roomName].router, remoteProducerId, rtpCapabilities)) ==>
                var id := old(nextHandle);
                && reply == Some(ConsumeOk(id, remoteProducerId, id))
                && nextHandle == id + 1
                && effects == old(effects) + [EngineCall.Consume(serverConsumerTransportId, remoteProducerId, id, true)]
                && consumers == old(consumers) + [ConsumerRecord(s, id, peers[s].roomName)]
                && listeners == old(listeners) + [ProducerCloseListener(s, serverConsumerTransportId, id, remoteProducerId)]
    {
      if s !in peers {
        return Some(ConsumeError);
      }
      var roomName := peers[s].roomName;
      var router := rooms[roomName].router;
      var found := FindConsumedTransportById(transports, serverConsumerTransportId);
      if found.None? {
        return None;
      }
      var consumerTransport := found.value.transport;
      if !canConsume(router, remoteProducerId, rtpCapabilities) {
        return None;
      }
      var id := CreateConsumer(s, roomName, consumerTransport, remoteProducerId);
      reply := Some(ConsumeOk(id, remoteProducerId, id));
    }

    /** The success path of `consume`: a paused consumer on the transport,
        its `producerclose` listener, and its record. */
    method CreateConsumer(s: SocketId, roomName: RoomName, transport: Handle, remoteProducerId: Handle) returns (id: Handle)
      requires Valid() && s in peers
      modifies this`nextHandle, this`effects, this`consumers, this`listeners
      ensures Valid()
      ensures id == old(nextHandle) && nextHandle == id + 1
      ensures effects == old(effects) + [EngineCall.Consume(transport, remoteProducerId, id, true)]
      ensures consumers == old(consumers) + [ConsumerRecord(s, id, roomName)]
      ensures listeners == old(listeners) + [ProducerCloseListener(s, transport, id, remoteProducerId)]
    {
      id := NewHandle();
      ConsumerAddedConsistent(rooms, peers, transports, producers, consumers, ConsumerRecord(s, id, roomName));
      effects := effects + [EngineCall.Consume(transport, remoteProducerId, id, true)];
      listeners := listeners + [ProducerCloseListener(s, transport, id, remoteProducerId)];
      AddConsumer(s, id, roomName);
    }

    /** The `producerclose` listener of a consumer: tell the consuming socket,
        close and forget exactly that receive transport and that consumer.
        The engine fires it at most once, and only while the consumer is
        open: closing the transport closes every consumer on it, so their
        listeners are dropped too. */
    method OnProducerClose(l: ProducerCloseListener)
      requires Valid() && !halted && l in listeners
      modifies this`outbox, this`effects, this`transports, this`consumers, this`listeners
      ensures Valid()
      ensures listeners == Exclude(old(listeners), ListenerTransport, l.transport)
      ensures l !in listeners
      ensures outbox == old(outbox) + [Message(l.socketId, ProducerClosed(l.remoteProducerId))]
      ensures effects == old(effects) + [Close(l.transport), Close(l.consumer)]
      ensures transports == Exclude(old(transports), TransportId, l.transport)
      ensures consumers == Exclude(old(consumers), ConsumerId, l.consumer)
    {
      ProducerCloseConsistent(rooms, peers, transports, producers, consumers, l.transport, l.consumer);
      ExcludeMembers(listeners, ListenerTransport, l.transport);
      var ts, cs := Exclude(transports, TransportId, l.transport), Exclude(consumers, ConsumerId, l.consumer);
      outbox := outbox + [Message(l.socketId, ProducerClosed(l.remoteProducerId))];
      effects := effects + [Close(l.transport), Close(l.consumer)];
      transports, consumers := ts, cs;
      listeners := Exclude(listeners, ListenerTransport, l.transport);
    }

    /** `consumer-resume`: resume the consumer with that id, whoever owns it,
        if there is one. */
    method ConsumerResume(serverConsumerId: Handle)
      requires !halted
      modifies this`effects
      ensures FindConsumerById(consumers, serverConsumerId).None? ==> effects == old(effects)
      ensures FindConsumerById(consumers, serverConsumerId).Some? ==> effects == old(effects) + [Resume(serverConsumerId)]
    {
      var found := FindConsumerById(consumers, serverConsumerId);
      if found.None? {
        return;
      }
      effects := effects + [Resume(found.value.consumer)];
    }
  }
}
