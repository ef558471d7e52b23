/** The room registry of backend-node/src/roomManager.js: a module-level map
    from room id to a room holding its type and a set of user ids, with
    get-or-create, add-user and remove-user (deleting the room once its last
    user has gone). */
module RoomManager {

  type RoomId = string
  type UserId = string

  /** A room of the map. `kind` is the JavaScript `type` field. */
  datatype Room = Room(kind: string, users: set<UserId>)

  /** The type `addUserToRoom` and `removeUserFromRoom` create rooms with. */
  const DefaultKind := "p2p"

  /** Rooms agree everywhere except possibly at `id`. */
  ghost predicate SameElsewhere(m: map<RoomId, Room>, rooms: map<RoomId, Room>, id: RoomId) {
    forall q :: q != id ==> (q in m <==> q in rooms) && (q in m ==> m[q] == rooms[q])
  }

  /** The room `getOrCreateRoom(id, kind)` finds or makes. */
  function RoomOrNew(rooms: map<RoomId, Room>, id: RoomId, kind: string): Room {
    if id in rooms then rooms[id] else Room(kind, {})
  }

  /** The map after `getOrCreateRoom(id, kind)`: an absent id gets an empty
      room of that type; a present one is left as it is, type included. */
  function Created(rooms: map<RoomId, Room>, id: RoomId, kind: string): (m: map<RoomId, Room>)
    ensures id in m && m[id] == RoomOrNew(rooms, id, kind)
    ensures id in rooms ==> m == rooms
    ensures SameElsewhere(m, rooms, id)
  {
    rooms[id := RoomOrNew(rooms, id, kind)]
  }

  /** The map after `addUserToRoom(id, u)`. */
  function WithUser(rooms: map<RoomId, Room>, id: RoomId, u: UserId): (m: map<RoomId, Room>)
    ensures id in m && m[id].kind == RoomOrNew(rooms, id, DefaultKind).kind
    ensures m[id].users == RoomOrNew(rooms, id, DefaultKind).users + {u}
    ensures SameElsewhere(m, rooms, id)
  {
    var room := RoomOrNew(rooms, id, DefaultKind);
    rooms[id := room.(users := room.users + {u})]
  }

  /** The map after `removeUserFromRoom(id, u)`: the user leaves, and the
      room is deleted exactly when no user is left in it. */
  function WithoutUser(rooms: map<RoomId, Room>, id: RoomId, u: UserId): (m: map<RoomId, Room>)
    ensures id in m <==> RoomOrNew(rooms, id, DefaultKind).users - {u} != {}
    ensures id in m ==> m[id] == rooms[id].(users := rooms[id].users - {u})
    ensures SameElsewhere(m, rooms, id)
  {
    var room := RoomOrNew(rooms, id, DefaultKind);
    var left := room.(users := room.users - {u});
    if left.users == {} then rooms - {id} else rooms[id := left]
  }

  /** Every room in the map has a user. */
  ghost predicate NoEmptyRooms(rooms: map<RoomId, Room>) {
    forall id :: id in rooms ==> rooms[id].users != {}
  }

  class RoomRegistry {
    var rooms: map<RoomId, Room>

    constructor ()
      ensures rooms == map[]
    {
      rooms := map[];
    }

    /** `getOrCreateRoom` */
    method GetOrCreateRoom(id: RoomId, kind: string) returns (room: Room)
      modifies this`rooms
      ensures rooms == Created(old(rooms), id, kind)
      ensures room == rooms[id]
    {
      if id !in rooms {
        rooms := rooms[id := Room(kind, {})];
      }
      room := rooms[id];
    }

    /** `addUserToRoom`: returns the room with the user in it. */
    method AddUserToRoom(roomId: RoomId, userId: UserId) returns (room: Room)
      modifies this`rooms
      ensures rooms == WithUser(old(rooms), roomId, userId)
      ensures room == rooms[roomId]
    {
      room := GetOrCreateRoom(roomId, DefaultKind);
      room := room.(users := room.users + {userId});
      rooms := rooms[roomId := room];
    }

    /** `removeUserFromRoom`: returns the room without the user, also when
        the room has just been deleted from the map. */
    method RemoveUserFromRoom(roomId: RoomId, userId: UserId) returns (room: Room)
      modifies this`rooms
      ensures rooms == WithoutUser(old(rooms), roomId, userId)
      ensures room.kind == RoomOrNew(old(rooms), roomId, DefaultKind).kind
      ensures room.users == RoomOrNew(old(rooms), roomId, DefaultKind).users - {userId}
    {
      ghost var before := rooms;
      room := GetOrCreateRoom(roomId, DefaultKind);
      room := room.(users := room.users - {userId});
      rooms := rooms[roomId := room];
      if room.users == {} {
        rooms := rooms - {roomId};
        assert rooms == before - {roomId};
      } else {
        assert rooms == before[roomId := room];
      }
    }
  }

  /** An existing room's type is never overwritten by a later get-or-create. */
  lemma GetOrCreateKeepsKind(rooms: map<RoomId, Room>, id: RoomId, k1: string, k2: string)
    ensures Created(Created(rooms, id, k1), id, k2) == Created(rooms, id, k1)
    ensures Created(Created(rooms, id, k1), id, k2)[id].kind == RoomOrNew(rooms, id, k1).kind
  {
  }

  /** Adding the same user twice is the same as adding it once. */
  lemma AddUserIdempotent(rooms: map<RoomId, Room>, id: RoomId, u: UserId)
    ensures WithUser(WithUser(rooms, id, u), id, u) == WithUser(rooms, id, u)
  {
    var once := WithUser(rooms, id, u);
    assert once[id].users + {u} == once[id].users;
    assert once[id := once[id].(users := once[id].users + {u})] == once;
  }

  /** Removing from an unknown room creates it and deletes it again, leaving
      the map as it was. */
  lemma RemoveFromUnknownRoom(rooms: map<RoomId, Room>, id: RoomId, u: UserId)
    requires id !in rooms
    ensures WithoutUser(rooms, id, u) == rooms
  {
    assert rooms - {id} == rooms;
  }

  /** Adding a user to a new room and removing it again restores the map. */
  lemma AddThenRemoveRestores(rooms: map<RoomId, Room>, id: RoomId, u: UserId)
    requires id !in rooms
    ensures WithoutUser(WithUser(rooms, id, u), id, u) == rooms
  {
    var added := WithUser(rooms, id, u);
    assert added[id].users == {u};
    assert added - {id} == rooms;
  }

  /** Adding and removing users never leave an empty room behind; only a
      bare `getOrCreateRoom` does. */
  lemma UsersKeepRoomsNonEmpty(rooms: map<RoomId, Room>, id: RoomId, u: UserId)
    requires NoEmptyRooms(rooms)
    ensures NoEmptyRooms(WithUser(rooms, id, u))
    ensures NoEmptyRooms(WithoutUser(rooms, id, u))
    ensures id !in rooms ==> !NoEmptyRooms(Created(rooms, id, DefaultKind))
  {
    assert u in WithUser(rooms, id, u)[id].users;
  }
}
