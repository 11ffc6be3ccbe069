/** The room bookkeeping the relay relies on from its socket library: a map
    from room name to the sockets in it. `join` and `leave` are called by the
    relay's handlers; removing a socket from every room when it disconnects is
    done by the library itself and is modelled here as an assumption about
    it. A room that becomes empty is dropped from the map, as the library
    does. */
module Rooms {

  type SocketId = string

  type RoomMap = map<string, set<SocketId>>

  /** No room is kept with nobody in it. */
  predicate NoEmptyRoom(rooms: RoomMap) {
    forall name :: name in rooms ==> rooms[name] != {}
  }

  /** Who is in a room; an unknown room has nobody. */
  function Members(rooms: RoomMap, name: string): set<SocketId> {
    if name in rooms then rooms[name] else {}
  }

  /** `socket.join(name)`: adds exactly this socket to exactly this room. */
  function Join(rooms: RoomMap, name: string, id: SocketId): (r: RoomMap)
    ensures Members(r, name) == Members(rooms, name) + {id}
    ensures forall other :: other != name ==> Members(r, other) == Members(rooms, other)
    ensures NoEmptyRoom(rooms) ==> NoEmptyRoom(r)
  {
    rooms[name := Members(rooms, name) + {id}]
  }

  /** `socket.leave(name)`: removes exactly this socket from exactly this room. */
  function Leave(rooms: RoomMap, name: string, id: SocketId): (r: RoomMap)
    ensures Members(r, name) == Members(rooms, name) - {id}
    ensures forall other :: other != name ==> Members(r, other) == Members(rooms, other)
    ensures NoEmptyRoom(rooms) ==> NoEmptyRoom(r)
  {
    var rest := Members(rooms, name) - {id};
    if rest == {} then rooms - {name} else rooms[name := rest]
  }

  /** The library's cleanup on disconnect: the socket leaves every room and
      nobody else moves. */
  function LeaveAll(rooms: RoomMap, id: SocketId): (r: RoomMap)
    ensures forall name :: Members(r, name) == Members(rooms, name) - {id}
    ensures NoEmptyRoom(r)
  {
    map name | name in rooms && rooms[name] - {id} != {} :: rooms[name] - {id}
  }

  /** Joining a room the socket is already in changes nothing, so a repeated
      `sub` for the same channel is harmless. */
  lemma JoinIdempotent(rooms: RoomMap, name: string, id: SocketId)
    ensures Members(Join(Join(rooms, name, id), name, id), name) == Members(Join(rooms, name, id), name)
  {
  }

  /** Leave undoes a Join of a socket that was not there before. */
  lemma LeaveUndoesJoin(rooms: RoomMap, name: string, id: SocketId, any: string)
    requires id !in Members(rooms, name)
    ensures Members(Leave(Join(rooms, name, id), name, id), any) == Members(rooms, any)
  {
  }

  /** After a join and the disconnect cleanup, the socket is in no room. */
  lemma JoinThenLeaveAll(rooms: RoomMap, name: string, id: SocketId, any: string)
    ensures id !in Members(LeaveAll(Join(rooms, name, id), id), any)
  {
  }
}
