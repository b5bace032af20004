/** The fixed world that `Game.create_rooms` builds, and the value view of a game in progress. */
module World {
  import opened Common
  import opened Items
  import opened Replies

  /** The four rooms of the map; `Name` gives the name `create_rooms` registers each under. */
  datatype RoomId = EntranceHall | Library | Armory | SecretRoom

  function Name(room: RoomId): string {
    match room
    case EntranceHall => "Entrance Hall"
    case Library => "Library"
    case Armory => "Armory"
    case SecretRoom => "Secret Room"
  }

  const HallText := "A large hall with doors to the north and east."
  const LibraryText := "A dusty room filled with old books. There is a locked chest here."
  const ArmoryText := "An armory with a sword on the wall."
  const SecretRoomText := "A hidden room filled with treasures."

  function Description(room: RoomId): string {
    match room
    case EntranceHall => HallText
    case Library => LibraryText
    case Armory => ArmoryText
    case SecretRoom => SecretRoomText
  }

  /** The exits of each room, in the order `create_rooms` writes them. */
  function FixedExits(room: RoomId): seq<(string, RoomId)> {
    match room
    case EntranceHall => [("north", Library), ("east", Armory)]
    case Library => [("south", EntranceHall), ("east", SecretRoom)]
    case Armory => [("west", EntranceHall)]
    case SecretRoom => [("west", Library)]
  }

  /** Every room has an exit, its directions are distinct as the keys of a dict are, and no exit
      leads back into the room itself. */
  lemma ExitsShape(room: RoomId)
    ensures FixedExits(room) != []
    ensures forall i, j :: 0 <= i < j < |FixedExits(room)| ==> FixedExits(room)[i].0 != FixedExits(room)[j].0
    ensures forall i :: 0 <= i < |FixedExits(room)| ==> FixedExits(room)[i].1 != room
  {
  }

  /** The key: only the console engine marks it usable in the Library. */
  function KeyItem(v: Variant): Item {
    Item("Key", "A small rusty key.", if v == Console then Some(Name(Library)) else None)
  }

  function SwordItem(): Item {
    Item("Sword", "A shiny sword with intricate designs.", None)
  }

  function TreasureItem(v: Variant): Item {
    if v == Console then Item("Treasure", "A chest filled with Golds and Jewels", None)
    else Item("Treasure", "A chest filled with gold and jewels.", None)
  }

  /** The three items: only the console key is usable anywhere, and only in the Library. */
  lemma ItemsShape(v: Variant)
    ensures KeyItem(v).name == "Key" && SwordItem().name == "Sword" && TreasureItem(v).name == "Treasure"
    ensures KeyItem(v).usableInRoom.Some? <==> v == Console
    ensures KeyItem(v).usableInRoom.Some? ==> KeyItem(v).usableInRoom.value == Name(Library)
    ensures SwordItem().usableInRoom == None && TreasureItem(v).usableInRoom == None
  {
  }

  /** The item list of every room. */
  datatype Placement = Placement(hall: seq<Item>, library: seq<Item>, armory: seq<Item>, secret: seq<Item>)
  {
    function At(room: RoomId): seq<Item> {
      match room
      case EntranceHall => hall
      case Library => library
      case Armory => armory
      case SecretRoom => secret
    }

    /** The same lists with `room`'s replaced. */
    function With(room: RoomId, items: seq<Item>): (r: Placement)
      ensures r.At(room) == items
      ensures forall other | other != room :: r.At(other) == At(other)
    {
      match room
      case EntranceHall => this.(hall := items)
      case Library => this.(library := items)
      case Armory => this.(armory := items)
      case SecretRoom => this.(secret := items)
    }
  }

  /** The items each room starts with, in `add_item` order. */
  function InitialPlacement(v: Variant): Placement {
    Placement([], [KeyItem(v)], [SwordItem()], [TreasureItem(v)])
  }

  /** At the start the Entrance Hall is empty and each other room holds its one item. */
  lemma StartingPlacement(v: Variant)
    ensures InitialPlacement(v).At(EntranceHall) == []
    ensures InitialPlacement(v).At(Library) == [KeyItem(v)]
    ensures InitialPlacement(v).At(Armory) == [SwordItem()]
    ensures InitialPlacement(v).At(SecretRoom) == [TreasureItem(v)]
  {
  }

  /** Every item of the game, once each. */
  function InitialItems(v: Variant): multiset<Item> {
    multiset{KeyItem(v), SwordItem(), TreasureItem(v)}
  }

  /** A game as values: the player's room, the inventory in pickup order, and the item list of
      every room. */
  datatype Snapshot = Snapshot(room: RoomId, inventory: seq<Item>, placed: Placement)

  /** The player starts in the Entrance Hall with nothing. */
  function Initial(v: Variant): Snapshot {
    Snapshot(EntranceHall, [], InitialPlacement(v))
  }

  /** All items held anywhere: in the inventory or in one of the four rooms. */
  function Everything(s: Snapshot): multiset<Item> {
    multiset(s.inventory) + multiset(s.placed.hall) + multiset(s.placed.library)
      + multiset(s.placed.armory) + multiset(s.placed.secret)
  }

  /** In how many of the five places (the inventory and the four rooms) `x` is found. */
  function Places(s: Snapshot, x: Item): nat {
    (if x in s.inventory then 1 else 0) + (if x in s.placed.hall then 1 else 0)
      + (if x in s.placed.library then 1 else 0) + (if x in s.placed.armory then 1 else 0)
      + (if x in s.placed.secret then 1 else 0)
  }

  /** At the start the three items lie in their rooms and nothing is held. */
  lemma InitialEverything(v: Variant)
    ensures Everything(Initial(v)) == InitialItems(v)
  {
  }

  /** The three items are different, so each is there once. */
  lemma InitialItemsOnce(v: Variant, x: Item)
    ensures InitialItems(v)[x] == if x in InitialItems(v) then 1 else 0
  {
    assert KeyItem(v).name != SwordItem().name;
    assert KeyItem(v).name != TreasureItem(v).name && SwordItem().name != TreasureItem(v).name;
  }

  /** Where the item count is at most one, the item lies in exactly that many places. */
  lemma PlacesOfSingle(s: Snapshot, x: Item)
    requires Everything(s)[x] <= 1
    ensures Places(s, x) == Everything(s)[x]
  {
    assert x in s.inventory <==> multiset(s.inventory)[x] > 0;
    assert x in s.placed.hall <==> multiset(s.placed.hall)[x] > 0;
    assert x in s.placed.library <==> multiset(s.placed.library)[x] > 0;
    assert x in s.placed.armory <==> multiset(s.placed.armory)[x] > 0;
    assert x in s.placed.secret <==> multiset(s.placed.secret)[x] > 0;
  }

  /** Moving items between the inventory and one room, without losing or adding any, keeps
      every item of the game. */
  lemma EverythingWith(s: Snapshot, room: RoomId, inventory: seq<Item>, items: seq<Item>)
    requires multiset(inventory) + multiset(items) == multiset(s.inventory) + multiset(s.placed.At(room))
    ensures Everything(Snapshot(s.room, inventory, s.placed.With(room, items))) == Everything(s)
  {
    var s' := Snapshot(s.room, inventory, s.placed.With(room, items));
    forall x
      ensures Everything(s')[x] == Everything(s)[x]
    {
      var before := multiset(s.inventory) + multiset(s.placed.At(room));
      var after := multiset(inventory) + multiset(items);
      assert after[x] == before[x];
    }
  }
}
