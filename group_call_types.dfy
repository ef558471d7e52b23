/** The records the group-call server keeps (backend-node/src/types.ts) and
    the vocabulary of its side effects: calls into the media engine, socket
    emits, and the replies handed to socket.io acknowledgement callbacks. */
module GroupCallTypes {

  type SocketId = string
  type RoomName = string

  /** The properties every plain JavaScript object inherits from
      `Object.prototype`. The server's `rooms` registry is such an object, so
      looking one of these names up finds a truthy value even though no room
      was ever stored under it. */
  const InheritedKeys: set<string> := {
    "constructor", "__proto__", "__defineGetter__", "__defineSetter__", "__lookupGetter__",
    "__lookupSetter__", "hasOwnProperty", "isPrototypeOf", "propertyIsEnumerable",
    "toLocaleString", "toString", "valueOf"
  }

  /** The id of a media-engine object (router, transport, producer or
      consumer). The engine mints them; the model draws them from a counter. */
  type Handle = nat

  /** The client's RTP capabilities, passed through to the engine untouched. */
  type Capabilities = string

  /** `IRoom`: the room's router and its member list, in join order and with
      repetitions (a socket that joins twice is listed twice). */
  datatype Room = Room(router: Handle, peers: seq<SocketId>)

  datatype PeerDetails = PeerDetails(name: string, isAdmin: bool)

  /** `IPeer` as the server actually fills it in on join. */
  datatype Peer = Peer(roomName: RoomName, peerDetails: PeerDetails)

  /** `ITransport`; `consumer` is the client's flag: true for a receive
      transport, false for the send transport. */
  datatype TransportRecord = TransportRecord(socketId: SocketId, transport: Handle, roomName: RoomName, consumer: bool)

  /** `IProducer` */
  datatype ProducerRecord = ProducerRecord(socketId: SocketId, producer: Handle, roomName: RoomName)

  /** `IConsumer` */
  datatype ConsumerRecord = ConsumerRecord(socketId: SocketId, consumer: Handle, roomName: RoomName)

  /** The media-engine methods the server invokes, in the order it invokes them. */
  datatype EngineCall =
    | CreateRouter(router: Handle)
    | CreateTransport(onRouter: Handle, transport: Handle)
    | Connect(transport: Handle)
    | Produce(onTransport: Handle, kind: string, producer: Handle)
    | Consume(onTransport: Handle, producerId: Handle, consumer: Handle, paused: bool)
    | Resume(consumer: Handle)
    | Close(handle: Handle)

  /** Server-to-client notifications. */
  datatype Event =
    | ConnectionSuccess(socketId: SocketId)
    | NewProducer(producerId: Handle)
    | ProducerClosed(remoteProducerId: Handle)

  datatype Message = Message(to: SocketId, event: Event)

  /** What `transport-produce` acknowledges with. */
  datatype ProduceReply = ProduceReply(id: Handle, producersExist: bool)

  /** What `consume` acknowledges with: the new consumer, or the caught error. */
  datatype ConsumeReply =
    | ConsumeOk(id: Handle, producerId: Handle, serverConsumerId: Handle)
    | ConsumeError

  /** The state captured by the `producerclose` listener that `consume`
      registers on a new consumer. */
  datatype ProducerCloseListener =
    ProducerCloseListener(socketId: SocketId, transport: Handle, consumer: Handle, remoteProducerId: Handle)
}
