/** `class Room`: a node of the room graph whose exits and item list are updated in place. */
module Rooms {
  import opened Common
  import opened Strings
  import opened Items

  class Room {
    const name: string
    const description: string
    /** `exits`: direction to neighbouring room, in insertion order. */
    var exits: seq<(string, Room)>
    var items: seq<Item>

    constructor (name: string, description: string)
      ensures this.name == name && this.description == description
      ensures exits == [] && items == []
    {
      this.name := name;
      this.description := description;
      exits := [];
      items := [];
    }

    /** `add_item`: appends, with no duplicate check. */
    method AddItem(item: Item)
      modifies this`items
      ensures items == old(items) + [item]
    {
      items := items + [item];
    }

    /** `remove_item`: `list.remove`, which raises when the item is missing; its one caller
        passes an item it has just found in the list. */
    method RemoveItem(item: Item)
      requires item in items
      modifies this`items
      ensures Some(items) == Remove(old(items), item)
      ensures |items| == |old(items)| - 1 && multiset(items) == multiset(old(items)) - multiset{item}
    {
      RemoveCounts(items, item);
      items := Remove(items, item).value;
    }

    /** `get_item`: the first item in list order whose lower-cased name is `itemName`, if any. */
    method GetItem(itemName: string) returns (r: Option<Item>)
      ensures r.None? <==> forall i :: 0 <= i < |items| ==> !NameMatches(items[i], itemName)
      ensures r.Some? ==> NameMatches(r.value, itemName)
      ensures match IndexOfName(items, itemName)
        case Some(i) => r == Some(items[i])
        case None => r == None
    {
      var i := 0;
      while i < |items|
        invariant 0 <= i <= |items|
        invariant forall j :: 0 <= j < i ==> !NameMatches(items[j], itemName)
      {
        if NameMatches(items[i], itemName) {
          return Some(items[i]);
        }
        i := i + 1;
      }
      return None;
    }

    /** `describe`: name, description, the exit directions in insertion order, and the item
        names when there are any. */
    function Describe(): (r: string)
      reads this
      ensures |r| > |name| && r[..|name|] == name
    {
      var text := name + "\n" + description + "\nExits: " + Join(Keys(exits), ", ");
      if items != [] then text + "\nItems: " + Join(Names(items), ", ") else text
    }
  }

  /** Read back line by line, a description is the room's name, its description, the exits line,
      and an items line that is there exactly when the room holds items. */
  lemma DescribeLines(room: Room)
    requires NoNewline(room.name) && NoNewline(room.description)
    requires forall i :: 0 <= i < |room.exits| ==> NoNewline(room.exits[i].0)
    requires forall i :: 0 <= i < |room.items| ==> NoNewline(room.items[i].name)
    ensures Lines(room.Describe()) ==
      [room.name, room.description, "Exits: " + Join(Keys(room.exits), ", ")]
      + (if room.items == [] then [] else ["Items: " + Join(Names(room.items), ", ")])
    ensures |Lines(room.Describe())| == 4 <==> room.items != []
  {
    var exitsList, itemsList := Join(Keys(room.exits), ", "), Join(Names(room.items), ", ");
    JoinNoNewline(Keys(room.exits), ", ");
    JoinNoNewline(Names(room.items), ", ");
    DescriptionText(room.name, room.description, exitsList, itemsList, room.items != []);
  }

  /** The text `describe` builds, read back line by line. */
  lemma DescriptionText(name: string, description: string, exitsList: string, itemsList: string, withItems: bool)
    requires NoNewline(name) && NoNewline(description) && NoNewline(exitsList) && NoNewline(itemsList)
    ensures var text := name + "\n" + description + "\nExits: " + exitsList;
      Lines(if withItems then text + "\nItems: " + itemsList else text) ==
      [name, description, "Exits: " + exitsList] + (if withItems then ["Items: " + itemsList] else [])
  {
    var exitsLine := "Exits: " + exitsList;
    assert NoNewline(exitsLine);
    var text := name + "\n" + description + "\nExits: " + exitsList;
    assert "\nExits: " == "\n" + "Exits: ";
    assert text == name + "\n" + (description + "\n" + exitsLine);
    if withItems {
      var itemsLine := "Items: " + itemsList;
      assert NoNewline(itemsLine);
      assert "\nItems: " == "\n" + "Items: ";
      assert text + "\nItems: " + itemsList == name + "\n" + (description + "\n" + (exitsLine + "\n" + itemsLine));
      ThreeLines(name, description, exitsLine + "\n" + itemsLine);
      LinesOfLine(itemsLine);
      LinesAppend(exitsLine, itemsLine);
    } else {
      ThreeLines(name, description, exitsLine);
      LinesOfLine(exitsLine);
    }
  }

  /** Two lines without a newline in front of the rest of a text. */
  lemma ThreeLines(a: string, b: string, rest: string)
    requires NoNewline(a) && NoNewline(b)
    ensures Lines(a + "\n" + (b + "\n" + rest)) == [a, b] + Lines(rest)
  {
    LinesAppend(b, rest);
    LinesAppend(a, b + "\n" + rest);
  }
}
