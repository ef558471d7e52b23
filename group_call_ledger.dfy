/** The value-level meaning of the group-call server's registries: what each
    handler does to the room map and to the three flat record lists, stated
    as functions, with the properties the handlers are meant to have proved
    about them. The class in GroupCall is specified by these functions. */
module GroupCallLedger {
  import opened Collections
  import opened GroupCallTypes

  // Keys the handlers filter and search by.
  function TransportOwner(t: TransportRecord): SocketId { t.socketId }
  function TransportId(t: TransportRecord): Handle { t.transport }
  function ProducerOwner(p: ProducerRecord): SocketId { p.socketId }
  function ProducerRoom(p: ProducerRecord): RoomName { p.roomName }
  function ProducerId(p: ProducerRecord): Handle { p.producer }
  function ConsumerOwner(c: ConsumerRecord): SocketId { c.socketId }
  function ConsumerId(c: ConsumerRecord): Handle { c.consumer }
  function Member(s: SocketId): SocketId { s }
  function MessageTarget(m: Message): SocketId { m.to }
  function ListenerOwner(l: ProducerCloseListener): SocketId { l.socketId }
  function ListenerTransport(l: ProducerCloseListener): Handle { l.transport }

  /** The `producerclose` listeners still live after socket `s` disconnects
      and the transports in `closed` are closed. The socket's own consumers
      are closed, and closing a transport closes every consumer on it,
      whoever consumes through it, so the listeners of both kinds go. */
  function ListenersAfterDisconnect(ls: seq<ProducerCloseListener>, s: SocketId, closed: seq<TransportRecord>)
    : (r: seq<ProducerCloseListener>)
    ensures forall l :: l in r <==> l in ls && l.socketId != s && forall t :: t in closed ==> t.transport != l.transport
    decreases |closed|
  {
    if closed == [] then
      ExcludeMembers(ls, ListenerOwner, s);
      Exclude(ls, ListenerOwner, s)
    else
      var init, last := closed[..|closed| - 1], closed[|closed| - 1];
      assert closed == init + [last];
      var rest := ListenersAfterDisconnect(ls, s, init);
      ExcludeMembers(rest, ListenerTransport, last.transport);
      Exclude(rest, ListenerTransport, last.transport)
  }

  /*** Rooms ***/

  /** `this.rooms[r]` finds an inherited property instead of a room: the
      truthiness test in `createRoom` then skips creation, and reading the
      missing router's id throws. */
  predicate InheritedLookup(rooms: map<RoomName, Room>, r: RoomName) {
    r !in rooms && r in InheritedKeys
  }

  /** What `createRoom` does to the room map, `newRouter` being the router the
      engine hands out if one is needed. When the lookup finds an inherited
      property, `createRoom` throws before it changes anything. */
  function JoinRooms(rooms: map<RoomName, Room>, r: RoomName, s: SocketId, newRouter: Handle): (m: map<RoomName, Room>)
    ensures InheritedLookup(rooms, r) ==> m == rooms
    ensures !InheritedLookup(rooms, r) ==>
              && r in m && m[r].peers == (if r in rooms then rooms[r].peers else []) + [s]
              && m[r].router == (if r in rooms then rooms[r].router else newRouter)
    ensures forall q :: q != r ==> (q in m <==> q in rooms) && (q in m ==> m[q] == rooms[q])
  {
    if r in rooms then rooms[r := rooms[r].(peers := rooms[r].peers + [s])]
    else if r in InheritedKeys then rooms
    else rooms[r := Room(newRouter, [s])]
  }

  /** Joining is not idempotent: a second join of the same socket keeps the
      router of the first and lists the socket once more. */
  lemma JoinTwiceDuplicates(rooms: map<RoomName, Room>, r: RoomName, s: SocketId, router1: Handle, router2: Handle)
    requires !InheritedLookup(rooms, r)
    ensures var once := JoinRooms(rooms, r, s, router1);
            var twice := JoinRooms(once, r, s, router2);
            && twice[r].router == once[r].router
            && twice[r].peers == once[r].peers + [s]
            && multiset(twice[r].peers)[s] == multiset(if r in rooms then rooms[r].peers else [])[s] + 2
  {
  }

  /** `joinRoom` overwrites the peer entry, so after a socket has joined
      room `a` and then room `b`, `disconnect` only cleans `b`: the socket
      stays listed in `a`. */
  lemma RejoinLeavesStaleMember(rooms: map<RoomName, Room>, a: RoomName, b: RoomName, s: SocketId,
                                router1: Handle, router2: Handle)
    requires a != b && !InheritedLookup(rooms, a) && !InheritedLookup(rooms, b)
    ensures var joined := JoinRooms(JoinRooms(rooms, a, s, router1), b, s, router2);
            && a in LeaveRoom(joined, b, s)
            && s in LeaveRoom(joined, b, s)[a].peers
  {
    var once := JoinRooms(rooms, a, s, router1);
    assert once[a].peers[|once[a].peers| - 1] == s;
  }

  /** What `disconnect` does to the room map of a joined socket: every
      occurrence of the socket leaves the list, and the room goes exactly
      when its list has become empty. */
  function LeaveRoom(rooms: map<RoomName, Room>, r: RoomName, s: SocketId): (m: map<RoomName, Room>)
    requires r in rooms
    ensures r in m <==> Exclude(rooms[r].peers, Member, s) != []
    ensures r in m ==> m[r] == Room(rooms[r].router, Exclude(rooms[r].peers, Member, s))
    ensures forall q :: q != r ==> (q in m <==> q in rooms) && (q in m ==> m[q] == rooms[q])
  {
    var remaining := Exclude(rooms[r].peers, Member, s);
    if |remaining| == 0 then rooms - {r} else rooms[r := rooms[r].(peers := remaining)]
  }

  /** After leaving, the socket is nowhere in the room's list, every other
      member keeps its multiplicity, and they keep their join order. */
  lemma LeaveRoomMembership(rooms: map<RoomName, Room>, r: RoomName, s: SocketId)
    requires r in rooms
    ensures var m := LeaveRoom(rooms, r, s);
            r in m ==> && s !in m[r].peers
                       && (forall q :: q != s ==> multiset(m[r].peers)[q] == multiset(rooms[r].peers)[q])
                       && IsSubsequence(m[r].peers, rooms[r].peers)
    ensures var m := LeaveRoom(rooms, r, s);
            r !in m <==> forall i :: 0 <= i < |rooms[r].peers| ==> rooms[r].peers[i] == s
  {
    var l := rooms[r].peers;
    ExcludeMembers(l, Member, s);
    forall q | q != s
      ensures multiset(Exclude(l, Member, s))[q] == multiset(l)[q]
    {
      ExcludeMultiplicity(l, Member, s, q);
    }
    ExcludeIsSubsequence(l, Member, s);
    if Exclude(l, Member, s) == [] {
      forall i | 0 <= i < |l| ensures l[i] == s {
        assert l[i] in l;
      }
    } else {
      var x := Exclude(l, Member, s)[0];
      assert x in l && x != s;
    }
  }

  /*** The three record lists ***/

  /** The `close()` calls made on the given records, one per record, in order. */
  function CloseEach<T>(items: seq<T>, handle: T -> Handle): seq<EngineCall>
  {
    seq(|items|, i requires 0 <= i < |items| => Close(handle(items[i])))
  }

  /** `removeItems` closes the handle of every record it removes and of no
      other record. */
  lemma RemovedAreClosed<T(!new)>(items: seq<T>, owner: T -> SocketId, handle: T -> Handle, s: SocketId)
    ensures forall x :: x in items && owner(x) == s ==> Close(handle(x)) in CloseEach(Select(items, owner, s), handle)
    ensures forall c :: c in CloseEach(Select(items, owner, s), handle) ==>
              exists x :: x in items && owner(x) == s && c == Close(handle(x))
  {
    var sel := Select(items, owner, s);
    SelectMembers(items, owner, s);
    var closes := CloseEach(sel, handle);
    forall x | x in items && owner(x) == s
      ensures Close(handle(x)) in closes
    {
      assert x in sel;
      var i :| 0 <= i < |sel| && sel[i] == x;
      assert closes[i] == Close(handle(x));
    }
    forall c | c in closes
      ensures exists x :: x in items && owner(x) == s && c == Close(handle(x))
    {
      var i :| 0 <= i < |closes| && closes[i] == c;
      assert sel[i] in sel;
    }
  }

  /** The producer records of room `room` owned by sockets other than `s`,
      in list order: the records `getProducers` and `informConsumers` visit. */
  function OthersInRoom(ps: seq<ProducerRecord>, s: SocketId, room: RoomName): seq<ProducerRecord>
  {
    Exclude(Select(ps, ProducerRoom, room), ProducerOwner, s)
  }

  /** `OthersInRoom` holds exactly the room's records of other sockets. */
  lemma OthersInRoomMembers(ps: seq<ProducerRecord>, s: SocketId, room: RoomName)
    ensures forall p :: p in OthersInRoom(ps, s, room) <==> p in ps && p.socketId != s && p.roomName == room
  {
    SelectMembers(ps, ProducerRoom, room);
    ExcludeMembers(Select(ps, ProducerRoom, room), ProducerOwner, s);
  }

  /** Appending one record extends `OthersInRoom` by that record exactly when
      it is in the room and owned by someone else. */
  lemma OthersInRoomSnoc(ps: seq<ProducerRecord>, p: ProducerRecord, s: SocketId, room: RoomName)
    ensures OthersInRoom(ps + [p], s, room)
         == OthersInRoom(ps, s, room) + (if p.socketId != s && p.roomName == room then [p] else [])
  {
    assert (ps + [p])[..|ps|] == ps;
    var sel := Select(ps, ProducerRoom, room);
    if p.roomName == room {
      ExcludeAppend(sel, [p], ProducerOwner, s);
      assert [p][..0] == [];
    }
  }

  /** `OthersInRoom` keeps list order. */
  lemma OthersInRoomOrder(ps: seq<ProducerRecord>, s: SocketId, room: RoomName)
    ensures IsSubsequence(OthersInRoom(ps, s, room), ps)
  {
    var sel := Select(ps, ProducerRoom, room);
    ExcludeIsSubsequence(sel, ProducerOwner, s);
    SelectIsSubsequence(ps, ProducerRoom, room);
    SubsequenceTransitive(OthersInRoom(ps, s, room), sel, ps);
  }

  /** The producer ids of the given records, in order. */
  function ProducerIds(rs: seq<ProducerRecord>): (ids: seq<Handle>)
    ensures |ids| == |rs|
    ensures forall i :: 0 <= i < |rs| ==> ids[i] == rs[i].producer
  {
    seq(|rs|, i requires 0 <= i < |rs| => rs[i].producer)
  }

  /** One step of the `getProducers` loop: visiting record `p` appends its
      id exactly when it belongs to another socket in the room. */
  lemma VisitProducer(ps: seq<ProducerRecord>, p: ProducerRecord, s: SocketId, room: RoomName)
    ensures ProducerIds(OthersInRoom(ps + [p], s, room))
         == ProducerIds(OthersInRoom(ps, s, room)) + (if p.socketId != s && p.roomName == room then [p.producer] else [])
  {
    OthersInRoomSnoc(ps, p, s, room);
    var before, after := OthersInRoom(ps, s, room), OthersInRoom(ps + [p], s, room);
    if p.socketId != s && p.roomName == room {
      assert after == before + [p];
      assert ProducerIds(before + [p]) == ProducerIds(before) + [p.producer];
    } else {
      assert after == before;
    }
  }

  /** The `new-producer` emits of the fan-out: one to the owner of each
      visited record, carrying the new producer's id. */
  function NoticesFor(rs: seq<ProducerRecord>, producerId: Handle): (ms: seq<Message>)
    ensures |ms| == |rs|
    ensures forall m :: m in ms ==> m.event == NewProducer(producerId)
  {
    seq(|rs|, i requires 0 <= i < |rs| => Message(rs[i].socketId, NewProducer(producerId)))
  }

  /** One step of the `informConsumers` loop: visiting record `p` emits to
      its owner exactly when it belongs to another socket in the room. */
  lemma VisitNotice(ps: seq<ProducerRecord>, p: ProducerRecord, s: SocketId, room: RoomName, producerId: Handle)
    ensures NoticesFor(OthersInRoom(ps + [p], s, room), producerId)
         == NoticesFor(OthersInRoom(ps, s, room), producerId)
            + (if p.socketId != s && p.roomName == room then [Message(p.socketId, NewProducer(producerId))] else [])
  {
    OthersInRoomSnoc(ps, p, s, room);
    var before, after := OthersInRoom(ps, s, room), OthersInRoom(ps + [p], s, room);
    if p.socketId != s && p.roomName == room {
      assert after == before + [p];
      NoticesForAppend(before, [p], producerId);
      assert NoticesFor([p], producerId) == [Message(p.socketId, NewProducer(producerId))];
    } else {
      assert after == before;
    }
  }

  lemma NoticesForAppend(a: seq<ProducerRecord>, b: seq<ProducerRecord>, producerId: Handle)
    ensures NoticesFor(a + b, producerId) == NoticesFor(a, producerId) + NoticesFor(b, producerId)
  {
    assert forall i :: 0 <= i < |a + b| ==> NoticesFor(a + b, producerId)[i] == (NoticesFor(a, producerId) + NoticesFor(b, producerId))[i];
  }

  /** The number of emits addressed to `t`. */
  function CountTo(ms: seq<Message>, t: SocketId): nat
  {
    |Select(ms, MessageTarget, t)|
  }

  /** The number of producer records `t` owns in `room`. */
  function OwnedIn(ps: seq<ProducerRecord>, t: SocketId, room: RoomName): nat
  {
    |Select(Select(ps, ProducerRoom, room), ProducerOwner, t)|
  }

  lemma CountToAppend(a: seq<Message>, b: seq<Message>, t: SocketId)
    ensures CountTo(a + b, t) == CountTo(a, t) + CountTo(b, t)
  {
    SelectAppend(a, b, MessageTarget, t);
  }

  lemma OwnedInSnoc(ps: seq<ProducerRecord>, p: ProducerRecord, t: SocketId, room: RoomName)
    ensures OwnedIn(ps + [p], t, room) == OwnedIn(ps, t, room) + if p.roomName == room && p.socketId == t then 1 else 0
  {
    assert (ps + [p])[..|ps|] == ps;
    var sel := Select(ps, ProducerRoom, room);
    if p.roomName == room {
      assert Select(ps + [p], ProducerRoom, room) == sel + [p];
      SelectAppend(sel, [p], ProducerOwner, t);
      assert [p][..0] == [];
    }
  }

  /** The fan-out follows producer records, not room members: a socket gets
      one `new-producer` per producer record it owns in the room, so a
      socket owning none gets nothing and the producing socket gets nothing. */
  lemma {:induction false} FanOutCount(ps: seq<ProducerRecord>, s: SocketId, room: RoomName, producerId: Handle, t: SocketId)
    ensures CountTo(NoticesFor(OthersInRoom(ps, s, room), producerId), t)
         == if t == s then 0 else OwnedIn(ps, t, room)
    decreases |ps|
  {
    if ps != [] {
      var init, p := ps[..|ps| - 1], ps[|ps| - 1];
      assert ps == init + [p];
      FanOutCount(init, s, room, producerId, t);
      OthersInRoomSnoc(init, p, s, room);
      OwnedInSnoc(init, p, t, room);
      var extra := if p.socketId != s && p.roomName == room then [p] else [];
      NoticesForAppend(OthersInRoom(init, s, room), extra, producerId);
      CountToAppend(NoticesFor(OthersInRoom(init, s, room), producerId), NoticesFor(extra, producerId), t);
      if extra != [] {
        var m := Message(p.socketId, NewProducer(producerId));
        assert NoticesFor(extra, producerId) == [m];
        assert [m][..0] == [];
        assert CountTo([m], t) == if p.socketId == t then 1 else 0;
      } else {
        assert NoticesFor(extra, producerId) == [];
      }
    }
  }

  /*** Consistency of the registries ***/

  /** What the handlers rely on: a joined socket's room exists and lists
      it, no room is left empty, and every record belongs to a joined
      socket. It keeps `this.rooms[roomName]` in `disconnect` and
      `this.peers[p.socketId]` in the fan-out defined. */
  ghost predicate Consistent(rooms: map<RoomName, Room>, peers: map<SocketId, Peer>,
                             ts: seq<TransportRecord>, ps: seq<ProducerRecord>, cs: seq<ConsumerRecord>)
  {
    && (forall s :: s in peers ==> peers[s].roomName in rooms && s in rooms[peers[s].roomName].peers)
    && (forall r :: r in rooms ==> rooms[r].peers != [])
    && (forall t :: t in ts ==> t.socketId in peers)
    && (forall p :: p in ps ==> p.socketId in peers)
    && (forall c :: c in cs ==> c.socketId in peers)
  }

  /** `disconnect` keeps the registries consistent, joined socket or not. */
  lemma DisconnectConsistent(rooms: map<RoomName, Room>, peers: map<SocketId, Peer>,
                             ts: seq<TransportRecord>, ps: seq<ProducerRecord>, cs: seq<ConsumerRecord>, s: SocketId)
    requires Consistent(rooms, peers, ts, ps, cs)
    ensures var ts', ps', cs' := Exclude(ts, TransportOwner, s), Exclude(ps, ProducerOwner, s), Exclude(cs, ConsumerOwner, s);
            && (s !in peers ==> Consistent(rooms, peers, ts', ps', cs'))
            && (s in peers ==> Consistent(LeaveRoom(rooms, peers[s].roomName, s), peers - {s}, ts', ps', cs'))
  {
    ExcludeMembers(ts, TransportOwner, s);
    ExcludeMembers(ps, ProducerOwner, s);
    ExcludeMembers(cs, ConsumerOwner, s);
    if s in peers {
      var r := peers[s].roomName;
      ExcludeMembers(rooms[r].peers, Member, s);
      var rooms', peers' := LeaveRoom(rooms, r, s), peers - {s};
      forall q | q in peers'
        ensures peers'[q].roomName in rooms' && q in rooms'[peers'[q].roomName].peers
      {
        if peers[q].roomName == r {
          assert q in Exclude(rooms[r].peers, Member, s);
        }
      }
    }
  }

  /** Joining keeps the registries consistent. */
  lemma JoinConsistent(rooms: map<RoomName, Room>, peers: map<SocketId, Peer>,
                       ts: seq<TransportRecord>, ps: seq<ProducerRecord>, cs: seq<ConsumerRecord>,
                       s: SocketId, r: RoomName, newRouter: Handle)
    requires Consistent(rooms, peers, ts, ps, cs) && !InheritedLookup(rooms, r)
    ensures Consistent(JoinRooms(rooms, r, s, newRouter), peers[s := Peer(r, PeerDetails("", false))], ts, ps, cs)
  {
    var rooms' := JoinRooms(rooms, r, s, newRouter);
    var peers' := peers[s := Peer(r, PeerDetails("", false))];
    forall q | q in peers'
      ensures peers'[q].roomName in rooms' && q in rooms'[peers'[q].roomName].peers
    {
      if q != s && peers[q].roomName == r {
        assert q in rooms[r].peers;
      }
    }
  }

  /** Recording a producer of a joined socket keeps the registries consistent. */
  lemma ProduceConsistent(rooms: map<RoomName, Room>, peers: map<SocketId, Peer>,
                          ts: seq<TransportRecord>, ps: seq<ProducerRecord>, cs: seq<ConsumerRecord>, p: ProducerRecord)
    requires Consistent(rooms, peers, ts, ps, cs) && p.socketId in peers
    ensures Consistent(rooms, peers, ts, ps + [p], cs)
  {
  }

  /** Recording a transport of a joined socket keeps the registries consistent. */
  lemma TransportAddedConsistent(rooms: map<RoomName, Room>, peers: map<SocketId, Peer>,
                                 ts: seq<TransportRecord>, ps: seq<ProducerRecord>, cs: seq<ConsumerRecord>, t: TransportRecord)
    requires Consistent(rooms, peers, ts, ps, cs) && t.socketId in peers
    ensures Consistent(rooms, peers, ts + [t], ps, cs)
  {
  }

  /** Recording a consumer of a joined socket keeps the registries consistent. */
  lemma ConsumerAddedConsistent(rooms: map<RoomName, Room>, peers: map<SocketId, Peer>,
                                ts: seq<TransportRecord>, ps: seq<ProducerRecord>, cs: seq<ConsumerRecord>, c: ConsumerRecord)
    requires Consistent(rooms, peers, ts, ps, cs) && c.socketId in peers
    ensures Consistent(rooms, peers, ts, ps, cs + [c])
  {
  }

  /** The `producerclose` listener, which forgets one transport and one
      consumer by id, keeps the registries consistent. */
  lemma ProducerCloseConsistent(rooms: map<RoomName, Room>, peers: map<SocketId, Peer>,
                                ts: seq<TransportRecord>, ps: seq<ProducerRecord>, cs: seq<ConsumerRecord>,
                                transport: Handle, consumer: Handle)
    requires Consistent(rooms, peers, ts, ps, cs)
    ensures Consistent(rooms, peers, Exclude(ts, TransportId, transport), ps, Exclude(cs, ConsumerId, consumer))
  {
    ExcludeMembers(ts, TransportId, transport);
    ExcludeMembers(cs, ConsumerId, consumer);
  }

  /*** Lookups ***/

  /** `findUnconsumedTransportBySocketId`: the first transport of `s` whose
      consumer flag is false, i.e. its send transport. */
  function FindUnconsumedTransportBySocketId(ts: seq<TransportRecord>, s: SocketId): (r: Option<TransportRecord>)
    ensures r.None? <==> forall t :: t in ts ==> t.socketId != s || t.consumer
    ensures r.Some? ==> exists i :: 0 <= i < |ts| && ts[i] == r.value && r.value.socketId == s && !r.value.consumer
                                    && forall j :: 0 <= j < i ==> ts[j].socketId != s || ts[j].consumer
  {
    Find(ts, (t: TransportRecord) => t.socketId == s && !t.consumer)
  }

  /** `findConsumedTransportById`: the first receive transport with that id,
      whoever owns it. */
  function FindConsumedTransportById(ts: seq<TransportRecord>, id: Handle): (r: Option<TransportRecord>)
    ensures r.None? <==> forall t :: t in ts ==> t.transport != id || !t.consumer
    ensures r.Some? ==> exists i :: 0 <= i < |ts| && ts[i] == r.value && r.value.transport == id && r.value.consumer
                                    && forall j :: 0 <= j < i ==> ts[j].transport != id || !ts[j].consumer
  {
    Find(ts, (t: TransportRecord) => t.transport == id && t.consumer)
  }

  /** The lookup of `consumer-resume`: the first consumer record with that
      id, whoever owns it. */
  function FindConsumerById(cs: seq<ConsumerRecord>, id: Handle): (r: Option<ConsumerRecord>)
    ensures r.None? <==> forall c :: c in cs ==> c.consumer != id
    ensures r.Some? ==> exists i :: 0 <= i < |cs| && cs[i] == r.value && r.value.consumer == id
                                    && forall j :: 0 <= j < i ==> cs[j].consumer != id
  {
    Find(cs, (c: ConsumerRecord) => c.consumer == id)
  }
}
