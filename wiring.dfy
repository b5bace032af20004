/** The room dictionary `Game.create_rooms` builds: four room objects wired to each other as
    the fixed map of `World` says, each holding its starting items. */
module Wiring {
  import opened Common
  import opened Items
  import opened Replies
  import opened Rooms
  import opened World

  /** The dictionary `create_rooms` returns, with one entry per room of the map; `Get` is
      `self.rooms[name]` for the room's registered name. */
  datatype RoomTable = RoomTable(hall: Room, library: Room, armory: Room, secret: Room)
  {
    function Get(room: RoomId): Room {
      match room
      case EntranceHall => hall
      case Library => library
      case Armory => armory
      case SecretRoom => secret
    }

    ghost function Objects(): set<Room> {
      {hall, library, armory, secret}
    }
  }

  /** The exits of the fixed map as objects: each target replaced by the room registered for it. */
  ghost function ObjectExits(fixed: seq<(string, RoomId)>, rooms: RoomTable): (r: seq<(string, Room)>)
    ensures |r| == |fixed|
    ensures forall i :: 0 <= i < |fixed| ==> r[i] == (fixed[i].0, rooms.Get(fixed[i].1))
  {
    if fixed == [] then [] else [(fixed[0].0, rooms.Get(fixed[0].1))] + ObjectExits(fixed[1..], rooms)
  }

  /** Following an exit of the object graph lands in the room the fixed map names. */
  lemma {:induction false} LookupExits(fixed: seq<(string, RoomId)>, rooms: RoomTable, direction: string)
    ensures Lookup(ObjectExits(fixed, rooms), direction) ==
      match Lookup(fixed, direction) case Some(next) => Some(rooms.Get(next)) case None => None
    decreases |fixed|
  {
    if fixed != [] && fixed[0].0 != direction {
      LookupExits(fixed[1..], rooms, direction);
    }
  }

  /** One room of the table carries its name and the exits of the fixed map. */
  ghost predicate RoomWired(rooms: RoomTable, room: RoomId)
    reads rooms.Get(room)`exits
  {
    rooms.Get(room).name == Name(room) && rooms.Get(room).exits == ObjectExits(FixedExits(room), rooms)
  }

  /** The table as `create_rooms` wires it: each room carries its own name and the exits of the
      fixed map. Written as one equation between the names and exits the rooms hold and the ones
      the map prescribes. */
  ghost predicate Wired(rooms: RoomTable)
    reads rooms.Objects()`exits
  {
    (rooms.hall.name, rooms.library.name, rooms.armory.name, rooms.secret.name,
     rooms.hall.exits, rooms.library.exits, rooms.armory.exits, rooms.secret.exits)
    == (Name(EntranceHall), Name(Library), Name(Armory), Name(SecretRoom),
     ObjectExits(FixedExits(EntranceHall), rooms), ObjectExits(FixedExits(Library), rooms),
     ObjectExits(FixedExits(Armory), rooms), ObjectExits(FixedExits(SecretRoom), rooms))
  }

  /** Their names tell the four rooms apart. */
  lemma WiredDistinct(rooms: RoomTable)
    requires Wired(rooms)
    ensures rooms.hall != rooms.library && rooms.hall != rooms.armory && rooms.hall != rooms.secret
    ensures rooms.library != rooms.armory && rooms.library != rooms.secret && rooms.armory != rooms.secret
  {
    assert Name(EntranceHall)[0] == 'E' && Name(Library)[0] == 'L';
    assert Name(Armory)[0] == 'A' && Name(SecretRoom)[0] == 'S';
  }

  /** Every room of a wired table is wired. */
  lemma WiredRoom(rooms: RoomTable, room: RoomId)
    requires Wired(rooms)
    ensures RoomWired(rooms, room)
  {
    match room
    case EntranceHall =>
    case Library =>
    case Armory =>
    case SecretRoom =>
  }

  /** The item lists of the rooms, as values. */
  ghost function Contents(rooms: RoomTable): Placement
    reads rooms.Objects()`items
  {
    Placement(rooms.hall.items, rooms.library.items, rooms.armory.items, rooms.secret.items)
  }

  /** Each room carries the description `create_rooms` gives it. */
  predicate Described(rooms: RoomTable) {
    && rooms.hall.description == Description(EntranceHall)
    && rooms.library.description == Description(Library)
    && rooms.armory.description == Description(Armory)
    && rooms.secret.description == Description(SecretRoom)
  }

  /** The first half of `create_rooms`: four new, empty rooms and their exits. */
  method NewRooms() returns (rooms: RoomTable)
    ensures Wired(rooms) && Described(rooms)
    ensures Contents(rooms) == Placement([], [], [], [])
    ensures fresh(rooms.Objects())
  {
    var entranceHall := new Room(Name(EntranceHall), Description(EntranceHall));
    var library := new Room(Name(Library), Description(Library));
    var armory := new Room(Name(Armory), Description(Armory));
    var secretRoom := new Room(Name(SecretRoom), Description(SecretRoom));

    entranceHall.exits := [("north", library), ("east", armory)];
    library.exits := [("south", entranceHall), ("east", secretRoom)];
    armory.exits := [("west", entranceHall)];
    secretRoom.exits := [("west", library)];

    rooms := RoomTable(entranceHall, library, armory, secretRoom);
    assert entranceHall.exits == ObjectExits(FixedExits(EntranceHall), rooms);
    assert library.exits == ObjectExits(FixedExits(Library), rooms);
    assert armory.exits == ObjectExits(FixedExits(Armory), rooms);
    assert secretRoom.exits == ObjectExits(FixedExits(SecretRoom), rooms);
  }

  /** `create_rooms`: the rooms and exits, then the three items placed with `add_item`. */
  method CreateRooms(v: Variant) returns (rooms: RoomTable)
    ensures Wired(rooms) && Described(rooms)
    ensures Contents(rooms) == InitialPlacement(v)
    ensures fresh(rooms.Objects())
  {
    rooms := NewRooms();
    rooms.library.AddItem(KeyItem(v));
    rooms.armory.AddItem(SwordItem());
    rooms.secret.AddItem(TreasureItem(v));
  }
}
