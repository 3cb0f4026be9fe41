/**
 * The relay server of server.js: the shared room table and the messages the
 * socket handlers emit, kept as an outbox in emission order. Each handler
 * runs to completion before the next one starts.
 */
module Relay {
  import opened Rooms

  class Server {
    /** Every live connection's rooms, in the order it joined them. */
    var rooms: Registry
    /** The messages emitted so far, oldest first. */
    var outbox: seq<Emit>

    ghost predicate Valid()
      reads this
    {
      WellFormed(rooms)
    }

    constructor ()
      ensures Valid() && rooms == map[] && outbox == []
    {
      rooms := map[];
      outbox := [];
    }

    /** A new connection arrives; the transport puts it in its default room. */
    method Connect(id: Id)
      requires Valid() && id !in rooms
      modifies this`rooms
      ensures Valid() && rooms == old(rooms)[id := [id]]
    {
      rooms := rooms[id := [id]];
    }

    /**
     * `ready(target)` from `requester`: an unknown target is ignored; a target
     * in at most two rooms is joined with the requester in the room named by
     * the target's identifier followed by the requester's, and the room hears
     * `start game`; otherwise the requester alone hears `room full`.
     */
    method OnReady(requester: Id, target: Id)
      requires Valid() && requester in rooms
      modifies this
      ensures Valid()
      ensures rooms == ReadyRooms(old(rooms), requester, target, SourceLimit)
      ensures outbox == old(outbox) + ReadyEmits(old(rooms), requester, target, SourceLimit)
    {
      var roomName := target + requester;
      if target in rooms {
        if |rooms[target]| <= 2 {
          ReadyPairs(rooms, requester, target, SourceLimit);
          rooms := rooms[requester := Join(rooms[requester], roomName)];
          rooms := rooms[target := Join(rooms[target], roomName)];
          outbox := outbox + [Emit(ToRoom(roomName), StartGame)];
        } else {
          outbox := outbox + [Emit(ToSocket(requester), RoomFull)];
        }
      }
    }

    /** Forward `event` from `sender` to the rest of its first room that is not its default room. */
    method Forward(sender: Id, event: Event)
      requires Valid() && sender in rooms
      modifies this`outbox
      ensures Valid()
      ensures outbox == old(outbox) + RelayEmits(rooms, sender, event)
    {
      var roomName := OtherRoom(sender, rooms[sender]);
      if roomName.Some? {
        outbox := outbox + [Emit(ToRoomExcept(roomName.value, sender), event)];
      }
    }

    /** `play(data)`: the payload goes to the peer as it came. */
    method OnPlay(sender: Id, data: int)
      requires Valid() && sender in rooms
      modifies this`outbox
      ensures Valid()
      ensures outbox == old(outbox) + RelayEmits(rooms, sender, Play(data))
    {
      Forward(sender, Play(data));
    }

    /** `new game` goes to the peer. */
    method OnNewGame(sender: Id)
      requires Valid() && sender in rooms
      modifies this`outbox
      ensures Valid()
      ensures outbox == old(outbox) + RelayEmits(rooms, sender, NewGame)
    {
      Forward(sender, NewGame);
    }

    /** A connection is closing, still in its rooms: its peer hears `player left`. */
    method OnDisconnecting(sender: Id)
      requires Valid() && sender in rooms
      modifies this`outbox
      ensures Valid()
      ensures outbox == old(outbox) + RelayEmits(rooms, sender, PlayerLeft)
    {
      Forward(sender, PlayerLeft);
    }

    /** After `disconnecting`, the transport removes the connection from all its rooms. */
    method Disconnect(id: Id)
      requires Valid()
      modifies this`rooms
      ensures Valid() && rooms == Leave(old(rooms), id) && id !in rooms
    {
      LeaveSilencesPeer(rooms, id, id);
      rooms := rooms - {id};
    }
  }
}
