/** Items and the list operations the game performs on them: the case-insensitive,
    first-match name lookup of `Room.get_item` and `Player.use_item`, and `list.remove`. */
module Items {
  import opened Common
  import opened Strings

  /** An item. The live engine's `Item` has no `usable_in_room` attribute; its items carry `None`. */
  datatype Item = Item(name: string, description: string, usableInRoom: Option<string>)

  /** `item.name.lower() == item_name`: the argument is compared as given, not lower-cased. */
  predicate NameMatches(item: Item, itemName: string) {
    Lower(item.name) == itemName
  }

  /** The position of the first item in list order whose lower-cased name equals `itemName`. */
  function IndexOfName(items: seq<Item>, itemName: string): (r: Option<nat>)
    ensures r.None? <==> forall i :: 0 <= i < |items| ==> !NameMatches(items[i], itemName)
    ensures r.Some? ==> r.value < |items| && NameMatches(items[r.value], itemName)
    ensures r.Some? ==> forall j :: 0 <= j < r.value ==> !NameMatches(items[j], itemName)
  {
    if items == [] then None
    else if NameMatches(items[0], itemName) then Some(0)
    else match IndexOfName(items[1..], itemName)
      case None => None
      case Some(i) => Some(i + 1)
  }

  /** `[item.name for item in items]`. */
  function Names(items: seq<Item>): (r: seq<string>)
    ensures |r| == |items|
    ensures forall i :: 0 <= i < |items| ==> r[i] == items[i].name
  {
    if items == [] then [] else [items[0].name] + Names(items[1..])
  }

  /** `items.remove(x)`: `None` stands for the ValueError raised when `x` is not in the list;
      otherwise the list without its first element equal to `x`. */
  function Remove(items: seq<Item>, x: Item): Option<seq<Item>> {
    if x in items then Some(RemoveFirst(items, x)) else None
  }

  /** The list without its first element equal to `x`. Where `x` does not occur this returns the
      list as it is, a convenience of the model: `Remove` reports that case as the error. */
  function RemoveFirst(items: seq<Item>, x: Item): seq<Item> {
    if items == [] then []
    else if items[0] == x then items[1..]
    else [items[0]] + RemoveFirst(items[1..], x)
  }

  /** `list.remove` fails exactly when the item is absent; otherwise it takes out one occurrence
      of it and nothing else. */
  lemma RemoveCounts(items: seq<Item>, x: Item)
    ensures Remove(items, x).None? <==> x !in items
    ensures x in items ==>
      |Remove(items, x).value| == |items| - 1 && multiset(Remove(items, x).value) == multiset(items) - multiset{x}
  {
    RemoveFirstCounts(items, x);
  }

  /** `RemoveFirst` takes out one occurrence of `x` when there is one, and nothing otherwise. */
  lemma {:induction false} RemoveFirstCounts(items: seq<Item>, x: Item)
    ensures x in items ==>
      |RemoveFirst(items, x)| == |items| - 1 && multiset(RemoveFirst(items, x)) == multiset(items) - multiset{x}
    ensures x !in items ==> RemoveFirst(items, x) == items
  {
    if items != [] {
      assert items == [items[0]] + items[1..];
      RemoveFirstCounts(items[1..], x);
    }
  }

  /** Removing the value at a position where it occurs for the first time takes out exactly that position. */
  lemma {:induction false} RemoveFirstAt(items: seq<Item>, i: nat)
    requires i < |items|
    requires forall j :: 0 <= j < i ==> items[j] != items[i]
    ensures RemoveFirst(items, items[i]) == items[..i] + items[i + 1..]
  {
    if i == 0 {
      assert items[..0] == [];
    } else {
      var tail := items[1..];
      assert tail[i - 1] == items[i];
      assert forall j :: 0 <= j < i - 1 ==> tail[j] != tail[i - 1] by {
        forall j | 0 <= j < i - 1
          ensures tail[j] != tail[i - 1]
        {
          assert tail[j] == items[j + 1];
        }
      }
      RemoveFirstAt(tail, i - 1);
      assert items[..i] + items[i + 1..] == [items[0]] + (tail[..i - 1] + tail[i..]) by {
        assert items[..i] == [items[0]] + tail[..i - 1];
        assert items[i + 1..] == tail[i..];
      }
    }
  }

  /** Whatever the list, a name holding an upper-case letter is never found: matching only works
      for a caller that has lower-cased the argument first. */
  lemma UpperCaseNameNeverMatches(items: seq<Item>, itemName: string, k: nat)
    requires k < |itemName| && IsUpper(itemName[k])
    ensures IndexOfName(items, itemName).None?
  {
  }
}
