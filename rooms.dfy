/**
 * The room table behind the relay server (server.js): every live connection
 * with the ordered list of rooms it is in, the rooms' members, and what the
 * `ready` and relay handlers do to the table and which messages they emit.
 */
module Rooms {
  import opened Wrappers

  /** The identifier the transport gives a connection. */
  type Id = string

  type RoomName = string

  /** Each live connection's rooms, in the order it joined them. */
  type Registry = map<Id, seq<RoomName>>

  predicate Distinct(rooms: seq<RoomName>) {
    forall i, j :: 0 <= i < j < |rooms| ==> rooms[i] != rooms[j]
  }

  /** A connection's first room is its own identifier, its default room, and it is in no room twice. */
  predicate EntryOk(id: Id, rooms: seq<RoomName>) {
    |rooms| >= 1 && rooms[0] == id && Distinct(rooms)
  }

  predicate WellFormed(reg: Registry) {
    forall id :: id in reg ==> EntryOk(id, reg[id])
  }

  /** Joining a room appends it unless the connection is already in it. */
  function Join(rooms: seq<RoomName>, room: RoomName): (joined: seq<RoomName>)
    ensures |rooms| <= |joined| <= |rooms| + 1 && joined[..|rooms|] == rooms
    ensures forall n :: n in joined <==> n in rooms || n == room
    ensures |joined| == |rooms| <==> room in rooms
  {
    if room in rooms then rooms else rooms + [room]
  }

  /** Joining keeps the default room first and never lists a room twice. */
  lemma JoinKeepsEntry(id: Id, rooms: seq<RoomName>, room: RoomName)
    requires EntryOk(id, rooms)
    ensures EntryOk(id, Join(rooms, room))
  {
  }

  /**
   * The relay handlers' search for the connection's room: the first room in
   * the list that is not the connection's own identifier.
   */
  function OtherRoom(id: Id, rooms: seq<RoomName>): (r: Option<RoomName>)
    ensures r.Some? ==> r.value != id && r.value in rooms
    ensures r.Some? ==> exists k :: 0 <= k < |rooms| && rooms[k] == r.value && forall j :: 0 <= j < k ==> rooms[j] == id
    ensures r.None? <==> forall j :: 0 <= j < |rooms| ==> rooms[j] == id
  {
    if rooms == [] then None
    else if rooms[0] != id then Some(rooms[0])
    else OtherRoom(id, rooms[1..])
  }

  /** For a well-formed entry the search finds the second room, the one joined after the default room, if any. */
  lemma OtherRoomIsSecond(id: Id, rooms: seq<RoomName>)
    requires EntryOk(id, rooms)
    ensures OtherRoom(id, rooms) == if |rooms| >= 2 then Some(rooms[1]) else None
  {
  }

  /** The connections in a room. */
  function Members(reg: Registry, room: RoomName): set<Id> {
    set id | id in reg && room in reg[id]
  }

  /** Who a message is addressed to: a whole room, a room but its sender, or one connection. */
  datatype Audience = ToRoom(room: RoomName) | ToRoomExcept(room: RoomName, sender: Id) | ToSocket(id: Id)

  /** The messages the server emits. `Play` carries the client's payload, which the server never inspects. */
  datatype Event = StartGame | RoomFull | Play(data: int) | NewGame | PlayerLeft

  datatype Emit = Emit(to: Audience, event: Event)

  /** The connections a message reaches, given the room table when it is emitted. */
  function Recipients(reg: Registry, audience: Audience): set<Id> {
    match audience
    case ToRoom(room) => Members(reg, room)
    case ToRoomExcept(room, sender) => Members(reg, room) - {sender}
    case ToSocket(id) => {id}
  }

  // ---------------------------------------------------------------------
  // ready(target)
  // ---------------------------------------------------------------------

  /** The bound on the target's room count in server.js: at most two rooms. */
  const SourceLimit: nat := 2

  /** The bound that admits only a target that is in its default room alone. */
  const ExclusiveLimit: nat := 1

  /** The name of the room for a pairing: the target's identifier, then the requester's. */
  function PairRoom(requester: Id, target: Id): RoomName {
    target + requester
  }

  /** The target is live and in at most `limit` rooms. */
  predicate Admits(reg: Registry, target: Id, limit: nat) {
    target in reg && |reg[target]| <= limit
  }

  /** The table after `ready(target)` from `requester`: both join the pair room when the target is admitted. */
  function ReadyRooms(reg: Registry, requester: Id, target: Id, limit: nat): (after: Registry)
    requires requester in reg
    ensures after.Keys == reg.Keys
    ensures !Admits(reg, target, limit) ==> after == reg
    ensures Admits(reg, target, limit) ==>
      PairRoom(requester, target) in after[requester] && PairRoom(requester, target) in after[target] &&
      forall id :: id in reg ==>
        (forall n :: n in after[id] <==> n in reg[id] || (n == PairRoom(requester, target) && (id == requester || id == target))) &&
        |reg[id]| <= |after[id]| && after[id][..|reg[id]|] == reg[id]
  {
    if Admits(reg, target, limit) then
      var name := PairRoom(requester, target);
      var withRequester := reg[requester := Join(reg[requester], name)];
      withRequester[target := Join(withRequester[target], name)]
    else reg
  }

  /** What `ready(target)` emits: nothing for an unknown target, `start game` to the pair room, or `room full` to the requester. */
  function ReadyEmits(reg: Registry, requester: Id, target: Id, limit: nat): (emits: seq<Emit>)
    ensures |emits| <= 1
    ensures emits == [] <==> target !in reg
    ensures forall e :: e in emits ==> (e.event == StartGame <==> Admits(reg, target, limit))
    ensures forall e :: e in emits && e.event == StartGame ==> e.to == ToRoom(PairRoom(requester, target))
    ensures forall e :: e in emits && e.event != StartGame ==> e == Emit(ToSocket(requester), RoomFull)
  {
    if target !in reg then []
    else if Admits(reg, target, limit) then [Emit(ToRoom(PairRoom(requester, target)), StartGame)]
    else [Emit(ToSocket(requester), RoomFull)]
  }

  /** A `ready` naming no live connection changes nothing and emits nothing. */
  lemma ReadyUnknownTarget(reg: Registry, requester: Id, target: Id, limit: nat)
    requires requester in reg && target !in reg
    ensures ReadyRooms(reg, requester, target, limit) == reg
    ensures ReadyEmits(reg, requester, target, limit) == []
  {
  }

  /**
   * When the target is admitted, the requester and the target are added to the
   * pair room, no other room's members change, every other connection's entry
   * is untouched, the table stays well formed, and `start game` is emitted once,
   * reaching the pair room's members.
   */
  lemma ReadyPairs(reg: Registry, requester: Id, target: Id, limit: nat)
    requires WellFormed(reg) && requester in reg && Admits(reg, target, limit)
    ensures var after := ReadyRooms(reg, requester, target, limit);
      var name := PairRoom(requester, target);
      WellFormed(after) && after.Keys == reg.Keys &&
      Members(after, name) == Members(reg, name) + {requester, target} &&
      (forall n :: n != name ==> Members(after, n) == Members(reg, n)) &&
      (forall id :: id in reg && id != requester && id != target ==> after[id] == reg[id]) &&
      ReadyEmits(reg, requester, target, limit) == [Emit(ToRoom(name), StartGame)] &&
      Recipients(after, ToRoom(name)) == Members(reg, name) + {requester, target}
  {
  }

  /** When the target is live but over the bound, only the requester hears `room full` and the table is unchanged. */
  lemma ReadyRoomFull(reg: Registry, requester: Id, target: Id, limit: nat)
    requires requester in reg && target in reg && !Admits(reg, target, limit)
    ensures ReadyRooms(reg, requester, target, limit) == reg
    ensures ReadyEmits(reg, requester, target, limit) == [Emit(ToSocket(requester), RoomFull)]
    ensures Recipients(reg, ToSocket(requester)) == {requester}
  {
  }

  /** Only the target's entry decides the outcome of `ready`: the requester's own rooms are never looked at. */
  lemma ReadyChecksOnlyTarget(reg1: Registry, reg2: Registry, requester: Id, target: Id, limit: nat)
    requires requester in reg1 && requester in reg2
    requires (target in reg1 <==> target in reg2) && (target in reg1 ==> reg1[target] == reg2[target])
    ensures ReadyEmits(reg1, requester, target, limit) == ReadyEmits(reg2, requester, target, limit)
    ensures Admits(reg1, target, limit) ==>
      PairRoom(requester, target) in ReadyRooms(reg1, requester, target, limit)[requester] &&
      PairRoom(requester, target) in ReadyRooms(reg2, requester, target, limit)[requester]
  {
  }

  /**
   * A connection that names itself joins a room named twice its identifier,
   * alone unless someone else is already in it, and `start game` reaches it.
   */
  lemma SelfReady(reg: Registry, id: Id, limit: nat)
    requires WellFormed(reg) && id in reg && reg[id] == [id] && id != "" && limit >= 1
    ensures var after := ReadyRooms(reg, id, id, limit);
      after[id] == [id, id + id] &&
      ReadyEmits(reg, id, id, limit) == [Emit(ToRoom(id + id), StartGame)] &&
      Recipients(after, ToRoom(id + id)) == Members(reg, id + id) + {id}
  {
  }

  // ---------------------------------------------------------------------
  // play, new game, disconnecting
  // ---------------------------------------------------------------------

  /**
   * What a relay handler emits: the event, to the other members of the first
   * room of the sender that is not its default room; nothing when there is no
   * such room.
   */
  function RelayEmits(reg: Registry, sender: Id, event: Event): (emits: seq<Emit>)
    requires sender in reg
    ensures |emits| <= 1
    ensures emits == [] <==> forall j :: 0 <= j < |reg[sender]| ==> reg[sender][j] == sender
    ensures forall e :: e in emits ==>
      e.event == event && e.to.ToRoomExcept? && e.to.sender == sender &&
      e.to.room != sender && e.to.room in reg[sender]
  {
    match OtherRoom(sender, reg[sender])
    case None => []
    case Some(room) => [Emit(ToRoomExcept(room, sender), event)]
  }

  /**
   * A relayed event reaches the other members of the sender's second room and
   * never the sender itself, unchanged; an unpaired sender's event is dropped.
   */
  lemma RelayReachesPeers(reg: Registry, sender: Id, event: Event)
    requires WellFormed(reg) && sender in reg
    ensures var emits := RelayEmits(reg, sender, event);
      (|reg[sender]| == 1 ==> emits == []) &&
      (|reg[sender]| >= 2 ==>
        |emits| == 1 && emits[0].event == event &&
        sender !in Recipients(reg, emits[0].to) &&
        Recipients(reg, emits[0].to) == Members(reg, reg[sender][1]) - {sender})
  {
    OtherRoomIsSecond(sender, reg[sender]);
  }

  /**
   * Two fresh connections a and b, b naming a: both get `start game`, and from
   * then on what either relays reaches exactly the other one.
   */
  lemma PairedPlayersRelay(reg: Registry, a: Id, b: Id, event: Event)
    requires WellFormed(reg) && a in reg && b in reg && a != b
    requires reg[a] == [a] && reg[b] == [b] && Members(reg, a + b) == {}
    ensures var after := ReadyRooms(reg, b, a, SourceLimit);
      ReadyEmits(reg, b, a, SourceLimit) == [Emit(ToRoom(a + b), StartGame)] &&
      Recipients(after, ToRoom(a + b)) == {a, b} &&
      RelayEmits(after, a, event) == [Emit(ToRoomExcept(a + b, a), event)] &&
      RelayEmits(after, b, event) == [Emit(ToRoomExcept(a + b, b), event)] &&
      Recipients(after, ToRoomExcept(a + b, a)) == {b} &&
      Recipients(after, ToRoomExcept(a + b, b)) == {a}
  {
    var after := ReadyRooms(reg, b, a, SourceLimit);
    ReadyPairs(reg, b, a, SourceLimit);
    assert after[a] == [a, a + b] && after[b] == [b, a + b];
    OtherRoomIsSecond(a, after[a]);
    OtherRoomIsSecond(b, after[b]);
  }

  /** The transport's cleanup once a connection is gone: its entry leaves the table. */
  function Leave(reg: Registry, id: Id): Registry {
    reg - {id}
  }

  /**
   * After a connection leaves, it is in no room, so nothing relayed by the
   * others reaches it; the other entries are unchanged.
   */
  lemma LeaveSilencesPeer(reg: Registry, id: Id, room: RoomName)
    requires WellFormed(reg)
    ensures WellFormed(Leave(reg, id)) && id !in Leave(reg, id)
    ensures Members(Leave(reg, id), room) == Members(reg, room) - {id}
  {
  }

  // ---------------------------------------------------------------------
  // Sessions
  // ---------------------------------------------------------------------

  /** Every connection is in at most one room besides its default room. */
  predicate AtMostOneSession(reg: Registry) {
    forall id :: id in reg ==> |reg[id]| <= 2
  }

  /**
   * With the bound of server.js a target that is already paired (its default
   * room and one pair room) is admitted again: the requester hears
   * `start game` instead of `room full`, and unless it asked for the same
   * pair room again the target ends up in two pair rooms.
   */
  lemma PairedTargetAdmittedAgain(reg: Registry, requester: Id, target: Id)
    requires WellFormed(reg) && requester in reg && target in reg && |reg[target]| == 2
    ensures Admits(reg, target, SourceLimit)
    ensures ReadyEmits(reg, requester, target, SourceLimit) == [Emit(ToRoom(PairRoom(requester, target)), StartGame)]
    ensures PairRoom(requester, target) !in reg[target] ==>
      |ReadyRooms(reg, requester, target, SourceLimit)[target]| == 3 &&
      !AtMostOneSession(ReadyRooms(reg, requester, target, SourceLimit))
  {
    var name := PairRoom(requester, target);
    if name !in reg[target] {
      var after := ReadyRooms(reg, requester, target, SourceLimit);
      assert after[target][..2] == reg[target] && name in after[target];
      assert after[target] == reg[target] + [name];
    }
  }

  /**
   * An example of the above: after b and then c name a, both get
   * `start game` and a is in two pair rooms.
   */
  lemma ThirdPlayerAdmitted()
    ensures var reg: Registry := map["a" := ["a"], "b" := ["b"], "c" := ["c"]];
      var paired := ReadyRooms(reg, "b", "a", SourceLimit);
      var after := ReadyRooms(paired, "c", "a", SourceLimit);
      AtMostOneSession(reg) && AtMostOneSession(paired) &&
      ReadyEmits(paired, "c", "a", SourceLimit) == [Emit(ToRoom("ac"), StartGame)] &&
      after["a"] == ["a", "ab", "ac"] && !AtMostOneSession(after)
  {
    var reg: Registry := map["a" := ["a"], "b" := ["b"], "c" := ["c"]];
    assert PairRoom("b", "a") == "ab" && PairRoom("c", "a") == "ac";
    assert "ab" != "a" && "ab" != "b" && "ac" != "a" && "ac" != "c" && "ac" != "ab";
    var paired := ReadyRooms(reg, "b", "a", SourceLimit);
    assert Join(["b"], "ab") == ["b", "ab"] && Join(["a"], "ab") == ["a", "ab"];
    assert paired["a"] == ["a", "ab"] && paired["b"] == ["b", "ab"] && paired["c"] == ["c"];
    var after := ReadyRooms(paired, "c", "a", SourceLimit);
    assert Join(["c"], "ac") == ["c", "ac"] && Join(["a", "ab"], "ac") == ["a", "ab", "ac"];
    assert after["a"] == ["a", "ab", "ac"];
  }

  /**
   * With the exclusive bound, a requester that is not yet paired (the client
   * sends `ready` once, on load) can never put any connection in two pair
   * rooms, and a target that is already paired answers `room full`.
   */
  lemma ExclusiveReadyKeepsOneSession(reg: Registry, requester: Id, target: Id)
    requires WellFormed(reg) && AtMostOneSession(reg) && requester in reg && |reg[requester]| == 1
    ensures AtMostOneSession(ReadyRooms(reg, requester, target, ExclusiveLimit))
    ensures target in reg && |reg[target]| == 2 ==>
      ReadyEmits(reg, requester, target, ExclusiveLimit) == [Emit(ToSocket(requester), RoomFull)]
  {
  }
}
