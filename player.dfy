/** `class Player`: the current room and the inventory, updated in place by `move` and
    `take_item`; `use_item` and the inventory display only read them. */
module Players {
  import opened Common
  import opened Strings
  import opened Items
  import opened Replies
  import opened Rooms

  class Player {
    var currentRoom: Room
    var inventory: seq<Item>

    constructor (startRoom: Room)
      ensures currentRoom == startRoom && inventory == []
    {
      currentRoom := startRoom;
      inventory := [];
    }

    /** `move`: follows the exit named `direction` when the room has one; otherwise nothing changes. */
    method Move(v: Variant, direction: string) returns (reply: Reply)
      modifies this`currentRoom
      ensures currentRoom == (match Lookup(old(currentRoom.exits), direction)
        case Some(next) => next
        case None => old(currentRoom))
      ensures reply == MoveReply(v, direction, match Lookup(old(currentRoom.exits), direction)
        case Some(next) => Some(next.name)
        case None => None)
    {
      match Lookup(currentRoom.exits, direction) {
        case Some(next) =>
          currentRoom := next;
          reply := MoveReply(v, direction, Some(currentRoom.name));
        case None =>
          reply := MoveReply(v, direction, None);
      }
    }

    /** `take_item`: the first item of the room whose lower-cased name is `itemName` is appended
        to the inventory and that one occurrence leaves the room; with no such item nothing changes.
        Nothing but this room's items and the inventory is touched. */
    method TakeItem(v: Variant, itemName: string) returns (reply: Reply)
      modifies this`inventory, currentRoom`items
      ensures match IndexOfName(old(currentRoom.items), itemName)
        case Some(i) =>
          && inventory == old(inventory) + [old(currentRoom.items)[i]]
          && currentRoom.items == old(currentRoom.items)[..i] + old(currentRoom.items)[i + 1..]
          && reply == TakeReply(v, itemName, true)
        case None =>
          && inventory == old(inventory)
          && currentRoom.items == old(currentRoom.items)
          && reply == TakeReply(v, itemName, false)
      ensures multiset(inventory) + multiset(currentRoom.items)
        == old(multiset(inventory) + multiset(currentRoom.items))
    {
      ghost var before := currentRoom.items;
      var item := currentRoom.GetItem(itemName);
      match item {
        case Some(it) =>
          ghost var i := IndexOfName(before, itemName).value;
          assert it == before[i];
          inventory := inventory + [it];
          RemoveFirstAt(before, i);
          currentRoom.RemoveItem(it);
          assert currentRoom.items == before[..i] + before[i + 1..];
          reply := TakeReply(v, itemName, true);
        case None =>
          reply := TakeReply(v, itemName, false);
      }
    }
  }

  /** Whether the first held item named `itemName` is marked usable in `roomName`
      (`item.usable_in_room == self.current_room.name`). */
  predicate UsableHere(inventory: seq<Item>, roomName: string, itemName: string) {
    match IndexOfName(inventory, itemName)
    case Some(i) => inventory[i].usableInRoom == Some(roomName)
    case None => false
  }

  /** An item can only be usable here when the player holds one of that name. */
  lemma UsableOnlyWhenHeld(inventory: seq<Item>, roomName: string, itemName: string)
    ensures UsableHere(inventory, roomName, itemName) ==>
      exists i :: 0 <= i < |inventory| && NameMatches(inventory[i], itemName)
  {
  }

  /** `Player.use_item` under either policy: the live engine accepts any held item, the console
      engine only one marked usable in the current room, and adds the treasure-map line for the
      key in the Library. State never changes. */
  function UseOutcome(v: Variant, inventory: seq<Item>, roomName: string, itemName: string): (r: Reply)
    ensures r.kind == NotHeld <==> forall i :: 0 <= i < |inventory| ==> !NameMatches(inventory[i], itemName)
    ensures v == Live ==> (r.kind == Used <==> exists i :: 0 <= i < |inventory| && NameMatches(inventory[i], itemName))
    ensures v == Console ==> (r.kind == Used <==> UsableHere(inventory, roomName, itemName))
    ensures r.kind == WrongLocation <==>
      v == Console && IndexOfName(inventory, itemName).Some? && !UsableHere(inventory, roomName, itemName)
    ensures HasTreasureMap(r.text) <==>
      v == Console && UsableHere(inventory, roomName, itemName) && itemName == "key" && roomName == "Library"
  {
    match IndexOfName(inventory, itemName)
    case None =>
      if v == Live then
        var text := "You don't have a " + itemName + ".";
        EndsInFullStop(text);
        Reply(NotHeld, "Item Not Found", text)
      else
        var text := "You don't have a " + itemName + " in your inventory.";
        EndsInFullStop(text);
        Reply(NotHeld, "", text)
    case Some(i) =>
      if v == Live then
        var text := "You used the " + itemName + ".";
        EndsInFullStop(text);
        Reply(Used, "Item Used", text)
      else if inventory[i].usableInRoom == Some(roomName) then
        assert UsableHere(inventory, roomName, itemName);
        var used := "You used the " + itemName + " in the " + roomName + ".";
        EndsInFullStop(used);
        if itemName == "key" && roomName == "Library" then
          var text := used + "\n" + TreasureMapLine;
          assert text[|text| - |TreasureMapLine|..] == TreasureMapLine;
          assert HasTreasureMap(text);
          assert v == Console;
          Reply(Used, "", text)
        else
          Reply(Used, "", used)
      else
        assert !UsableHere(inventory, roomName, itemName);
        var text := "The " + itemName + " can't be used here.";
        EndsInFullStop(text);
        assert v == Console;
        assert IndexOfName(inventory, itemName).Some?;
        Reply(WrongLocation, "", text)
  }

  /** What comes before the item names: the live dialog's f-string, or the console's first
      `print` argument followed by the separating space. */
  function InventoryPrefix(v: Variant): string {
    if v == Live then "Your inventory: " else "Inventory: "
  }

  /** `show_inventory_gui` (live) and `show_inventory` (console): the empty-inventory message
      exactly when nothing is held, otherwise the item names in pickup order. */
  function InventoryOutcome(v: Variant, inventory: seq<Item>): (r: Reply)
    ensures r.kind == Listed
    ensures r.text == EmptyInventoryText <==> inventory == []
    ensures inventory != [] ==> r.text == InventoryPrefix(v) + Join(Names(inventory), ", ")
  {
    if inventory == [] then Say(v, Listed, "Inventory", EmptyInventoryText)
    else
      var text := InventoryPrefix(v) + Join(Names(inventory), ", ");
      assert text[0] != EmptyInventoryText[0] || text[14] != EmptyInventoryText[14];
      Say(v, Listed, "Inventory", text)
  }

  /** Picking up an item adds its name at the end of the inventory listing. */
  lemma ListingAfterPickup(inventory: seq<Item>, x: Item)
    ensures Join(Names(inventory + [x]), ", ") ==
      if inventory == [] then x.name else Join(Names(inventory), ", ") + ", " + x.name
  {
    assert Names(inventory + [x]) == Names(inventory) + [x.name];
    JoinSnoc(Names(inventory), x.name, ", ");
  }
}
