/** The room directory (`RoomManager`): room id to member set. Rooms are
    created lazily and evicted when their last member leaves. */
module Rooms {
  import opened Common

  datatype Room = Room(id: RoomId, users: set<UserId>)

  datatype RoomManager = RoomManager(rooms: map<RoomId, Room>)

  /** What `createRoom` and `addUserToRoom` hand back: the directory after
      the call and the room it returned. */
  datatype Entered = Entered(manager: RoomManager, room: Room)

  /** `new RoomManager()`: no rooms, so every room id has no members. */
  function EmptyManager(): (m: RoomManager)
    ensures m.rooms == map[]
    ensures WellKeyed(m) && NoEmptyRooms(m)
    ensures forall id :: Members(m, id) == {}
  {
    RoomManager(map[])
  }

  /** Each room is filed under its own id. */
  predicate WellKeyed(m: RoomManager) {
    forall k :: k in m.rooms ==> m.rooms[k].id == k
  }

  /** No room outlives its last member. */
  predicate NoEmptyRooms(m: RoomManager) {
    forall k :: k in m.rooms ==> m.rooms[k].users != {}
  }

  /** The members of a room, empty for a room that does not exist. */
  function Members(m: RoomManager, roomId: RoomId): set<UserId> {
    if roomId in m.rooms then m.rooms[roomId].users else {}
  }

  /** `createRoom`: returns the existing room unchanged, or files a new room
      with no members. */
  function CreateRoom(m: RoomManager, roomId: RoomId): (r: Entered)
    ensures roomId in m.rooms ==> r.manager == m && r.room == m.rooms[roomId]
    ensures roomId !in m.rooms ==>
      r.manager.rooms == m.rooms[roomId := Room(roomId, {})] && r.room == Room(roomId, {})
    ensures roomId in r.manager.rooms && r.manager.rooms[roomId] == r.room
    ensures WellKeyed(m) ==> WellKeyed(r.manager) && r.room.id == roomId
  {
    if roomId in m.rooms then Entered(m, m.rooms[roomId])
    else
      var room := Room(roomId, {});
      Entered(RoomManager(m.rooms[roomId := room]), room)
  }

  /** `getRoom`. */
  function GetRoom(m: RoomManager, roomId: RoomId): (r: Option<Room>)
    ensures r.Some? <==> roomId in m.rooms
    ensures r.Some? ==> r.value == m.rooms[roomId]
  {
    if roomId in m.rooms then Some(m.rooms[roomId]) else None
  }

  /** `addUserToRoom`: the room exists afterwards and `userId` is one of its
      members; its other members and every other room are as before. */
  function AddUserToRoom(m: RoomManager, roomId: RoomId, userId: UserId): (r: Entered)
    ensures roomId in r.manager.rooms && r.manager.rooms[roomId] == r.room
    ensures r.room.users == Members(m, roomId) + {userId}
    ensures r.manager.rooms.Keys == m.rooms.Keys + {roomId}
    ensures forall k :: k in m.rooms && k != roomId ==> r.manager.rooms[k] == m.rooms[k]
    ensures WellKeyed(m) ==> WellKeyed(r.manager)
    ensures NoEmptyRooms(m) ==> NoEmptyRooms(r.manager)
  {
    var created := CreateRoom(m, roomId);
    var room := created.room.(users := created.room.users + {userId});
    Entered(RoomManager(created.manager.rooms[roomId := room]), room)
  }

  /** `removeUserFromRoom`: takes `userId` out of the room and deletes the
      room once it has no members; an unknown room id changes nothing.
      Afterwards the room is either gone or still has members. */
  function RemoveUserFromRoom(m: RoomManager, roomId: RoomId, userId: UserId): (r: RoomManager)
    ensures roomId !in m.rooms ==> r == m
    ensures roomId in r.rooms ==> r.rooms[roomId].users != {}
    ensures Members(r, roomId) == Members(m, roomId) - {userId}
    ensures roomId in m.rooms ==> (roomId in r.rooms <==> m.rooms[roomId].users - {userId} != {})
    ensures forall k :: k != roomId ==> (k in r.rooms <==> k in m.rooms)
    ensures forall k :: k in m.rooms && k != roomId ==> r.rooms[k] == m.rooms[k]
    ensures WellKeyed(m) ==> WellKeyed(r)
    ensures NoEmptyRooms(m) ==> NoEmptyRooms(r)
  {
    if roomId in m.rooms then
      var room := m.rooms[roomId];
      var users := room.users - {userId};
      if users == {} then RoomManager(m.rooms - {roomId})
      else RoomManager(m.rooms[roomId := room.(users := users)])
    else m
  }

  /** `getRoomUsers`: every member exactly once, nothing for an unknown room. */
  method GetRoomUsers(m: RoomManager, roomId: RoomId) returns (r: seq<UserId>)
    ensures roomId !in m.rooms ==> r == []
    ensures forall u :: u in r <==> u in Members(m, roomId)
    ensures forall i, j :: 0 <= i < j < |r| ==> r[i] != r[j]
    ensures |r| == |Members(m, roomId)|
  {
    if roomId in m.rooms {
      r := SetToSeq(m.rooms[roomId].users);
    } else {
      r := [];
    }
  }

  /** `getAllRooms`: every room id exactly once. */
  method GetAllRooms(m: RoomManager) returns (r: seq<RoomId>)
    ensures forall k :: k in r <==> k in m.rooms
    ensures forall i, j :: 0 <= i < j < |r| ==> r[i] != r[j]
    ensures |r| == GetRoomCount(m)
  {
    r := SetToSeq(m.rooms.Keys);
  }

  /** `getRoomCount`: the number of rooms. */
  function GetRoomCount(m: RoomManager): (n: nat)
    ensures n == 0 <==> m.rooms == map[]
  {
    |m.rooms|
  }

  // ---------------------------------------------------------------------
  // Properties relating several calls
  // ---------------------------------------------------------------------

  /** `createRoom` twice is `createRoom` once. */
  lemma CreateRoomIdempotent(m: RoomManager, roomId: RoomId)
    ensures CreateRoom(CreateRoom(m, roomId).manager, roomId) == CreateRoom(m, roomId)
  {
  }

  /** A user joining a room that did not exist and then leaving it leaves
      the directory exactly as it was. */
  lemma JoinThenLeaveRestores(m: RoomManager, roomId: RoomId, userId: UserId)
    requires roomId !in m.rooms
    ensures RemoveUserFromRoom(AddUserToRoom(m, roomId, userId).manager, roomId, userId) == m
  {
    var added := AddUserToRoom(m, roomId, userId).manager;
    assert added.rooms[roomId].users == {userId};
    assert added.rooms - {roomId} == m.rooms;
  }

  /** Joining is idempotent: adding a member twice is adding them once. */
  lemma AddUserToRoomIdempotent(m: RoomManager, roomId: RoomId, userId: UserId)
    ensures var once := AddUserToRoom(m, roomId, userId);
      AddUserToRoom(once.manager, roomId, userId) == once
  {
    var once := AddUserToRoom(m, roomId, userId);
    assert once.manager.rooms[roomId := once.room] == once.manager.rooms;
  }
}
