/** One command applied to the value view of a game: the specification `Game.handle_input`
    is proved against, and what follows from it over any run of commands. The effect of a
    command on the game and the reply it shows are given separately; only the reply depends
    on which engine runs. */
module Session {
  import opened Common
  import opened Strings
  import opened Items
  import opened Replies
  import opened Commands
  import opened World
  import opened Players

  /** What one command does to the game. Only `move` and `take` change anything. */
  function Next(s: Snapshot, c: Command): (r: Snapshot)
    ensures !(c.Move? || c.Take?) ==> r == s
  {
    match c
    case Move(direction) => MoveEffect(s, direction)
    case Take(itemName) => TakeEffect(s, itemName)
    case _ => s
  }

  /** `move` on the fixed map: the player changes room along a declared exit, and nothing else
      changes. */
  function MoveEffect(s: Snapshot, direction: string): (r: Snapshot)
    ensures r.inventory == s.inventory && r.placed == s.placed
    ensures r.room == (match Lookup(FixedExits(s.room), direction) case Some(next) => next case None => s.room)
  {
    match Lookup(FixedExits(s.room), direction)
    case Some(next) => s.(room := next)
    case None => s
  }

  /** `take` on the current room's list: the first item of that name moves to the end of the
      inventory; the player stays put and the other rooms are untouched. */
  function TakeEffect(s: Snapshot, itemName: string): (r: Snapshot)
    ensures r.room == s.room
    ensures forall room | room != s.room :: r.placed.At(room) == s.placed.At(room)
    ensures multiset(r.inventory) + multiset(r.placed.At(s.room))
      == multiset(s.inventory) + multiset(s.placed.At(s.room))
    ensures IndexOfName(s.placed.At(s.room), itemName).None? <==> r == s
  {
    var here := s.placed.At(s.room);
    match IndexOfName(here, itemName)
    case Some(i) =>
      assert here == here[..i] + [here[i]] + here[i + 1..];
      s.(inventory := s.inventory + [here[i]], placed := s.placed.With(s.room, here[..i] + here[i + 1..]))
    case None => s
  }

  /** `TakeEffect` is the outcome `take_item` describes on the current room's list. */
  lemma TakeAgrees(s: Snapshot, itemName: string, inventory: seq<Item>, items: seq<Item>)
    requires match IndexOfName(s.placed.At(s.room), itemName)
      case Some(i) =>
        inventory == s.inventory + [s.placed.At(s.room)[i]]
        && items == s.placed.At(s.room)[..i] + s.placed.At(s.room)[i + 1..]
      case None => inventory == s.inventory && items == s.placed.At(s.room)
    ensures TakeEffect(s, itemName) == Snapshot(s.room, inventory, s.placed.With(s.room, items))
  {
    if IndexOfName(s.placed.At(s.room), itemName).None? {
      assert s.placed.With(s.room, items) == s.placed;
    }
  }

  /** What one command shows, under either engine. */
  function Answer(v: Variant, s: Snapshot, c: Command): (r: Reply)
  {
    match c
    case Move(direction) =>
      MoveReply(v, direction, match Lookup(FixedExits(s.room), direction) case Some(next) => Some(Name(next)) case None => None)
    case Take(itemName) => TakeReply(v, itemName, IndexOfName(s.placed.At(s.room), itemName).Some?)
    case Use(itemName) => UseOutcome(v, s.inventory, Name(s.room), itemName)
    case ShowInventory => InventoryOutcome(v, s.inventory)
    case Help => HelpReply()
    case Blank => Reply(Ignored, "", "")
    case Invalid => InvalidReply(v)
    case Quit => QuitReply(v)
  }

  /** `move` and `take` report success exactly when they change the game. */
  lemma AnswerReportsChange(v: Variant, s: Snapshot, c: Command)
    ensures c.Move? ==> (Answer(v, s, c).kind == Moved <==> Next(s, c) != s)
    ensures c.Take? ==> (Answer(v, s, c).kind == Taken <==> Next(s, c) != s)
  {
    if c.Move? {
      ExitsShape(s.room);
    }
  }

  /** The game after a sequence of commands. */
  function Run(s: Snapshot, commands: seq<Command>): (r: Snapshot)
    decreases |commands|
  {
    if commands == [] then s
    else Next(Run(s, commands[..|commands| - 1]), commands[|commands| - 1])
  }

  /** One more command continues a run by one step. */
  lemma RunSnoc(s: Snapshot, commands: seq<Command>, c: Command)
    ensures Run(s, commands + [c]) == Next(Run(s, commands), c)
  {
    assert (commands + [c])[..|commands|] == commands;
  }

  /** Every exit of the fixed map can be walked back: the graph is symmetric. */
  lemma ExitsLeadBack(room: RoomId, direction: string)
    requires Lookup(FixedExits(room), direction).Some?
    ensures var next := Lookup(FixedExits(room), direction).value;
      exists back :: Lookup(FixedExits(next), back) == Some(room)
  {
    var next := Lookup(FixedExits(room), direction).value;
    match room
    case EntranceHall =>
      if next == Library {
        assert Lookup(FixedExits(next), "south") == Some(room);
      } else {
        assert Lookup(FixedExits(next), "west") == Some(room);
      }
    case Library =>
      if next == EntranceHall {
        assert Lookup(FixedExits(next), "north") == Some(room);
      } else {
        assert Lookup(FixedExits(next), "west") == Some(room);
      }
    case Armory =>
      assert Lookup(FixedExits(next), "east") == Some(room);
    case SecretRoom =>
      assert Lookup(FixedExits(next), "east") == Some(room);
  }

  /** A command moves items between places and never creates or destroys one. */
  lemma NextConserves(s: Snapshot, c: Command)
    ensures Everything(Next(s, c)) == Everything(s)
  {
    if c.Take? && IndexOfName(s.placed.At(s.room), c.itemName).Some? {
      var s' := TakeEffect(s, c.itemName);
      EverythingWith(s, s.room, s'.inventory, s'.placed.At(s.room));
      assert s' == Snapshot(s.room, s'.inventory, s.placed.With(s.room, s'.placed.At(s.room)));
    }
  }

  lemma {:induction false} RunConserves(s: Snapshot, commands: seq<Command>)
    ensures Everything(Run(s, commands)) == Everything(s)
    decreases |commands|
  {
    if commands != [] {
      var prefix := commands[..|commands| - 1];
      RunConserves(s, prefix);
      NextConserves(Run(s, prefix), commands[|commands| - 1]);
    }
  }

  /** After any commands from the start, every item of the game is in exactly one place (one
      room's list or the inventory) and nothing else is anywhere; in particular no item is both
      held and lying in a room. */
  lemma ExactlyOnePlace(v: Variant, commands: seq<Command>, x: Item)
    ensures Places(Run(Initial(v), commands), x) == (if x in InitialItems(v) then 1 else 0)
    ensures var s := Run(Initial(v), commands);
      forall room :: !(x in s.inventory && x in s.placed.At(room))
  {
    RunConserves(Initial(v), commands);
    InitialEverything(v);
    OnePlaceEach(v, Run(Initial(v), commands), x);
  }

  lemma OnePlaceEach(v: Variant, s: Snapshot, x: Item)
    requires Everything(s) == InitialItems(v)
    ensures Places(s, x) == (if x in InitialItems(v) then 1 else 0)
    ensures forall room :: !(x in s.inventory && x in s.placed.At(room))
  {
    InitialItemsOnce(v, x);
    PlacesOfSingle(s, x);
  }

  /** A command never adds an item to a room. */
  lemma NextShrinks(s: Snapshot, c: Command)
    ensures forall room :: multiset(Next(s, c).placed.At(room)) <= multiset(s.placed.At(room))
  {
    if c.Take? {
      var here := s.placed.At(s.room);
      if IndexOfName(here, c.itemName).Some? {
        var i := IndexOfName(here, c.itemName).value;
        assert here == here[..i] + [here[i]] + here[i + 1..];
        assert multiset(here) == multiset(here[..i] + here[i + 1..]) + multiset{here[i]};
      }
    }
  }

  /** Rooms only ever lose items. */
  lemma {:induction false} RoomsOnlyShrink(s: Snapshot, commands: seq<Command>)
    ensures forall room :: multiset(Run(s, commands).placed.At(room)) <= multiset(s.placed.At(room))
    decreases |commands|
  {
    if commands != [] {
      var prefix := commands[..|commands| - 1];
      RoomsOnlyShrink(s, prefix);
      NextShrinks(Run(s, prefix), commands[|commands| - 1]);
    }
  }

  /** No two items of a list share a lower-cased name. */
  predicate DistinctNames(items: seq<Item>) {
    forall i, j :: 0 <= i < j < |items| ==> Lower(items[i].name) != Lower(items[j].name)
  }

  /** Once `take` has found an item, taking the same name again in that room fails and changes
      nothing, provided no two items of the room share a name. */
  lemma TakeTwiceFails(s: Snapshot, itemName: string)
    requires DistinctNames(s.placed.At(s.room))
    requires IndexOfName(s.placed.At(s.room), itemName).Some?
    ensures var s' := TakeEffect(s, itemName);
      IndexOfName(s'.placed.At(s'.room), itemName).None? && TakeEffect(s', itemName) == s'
  {
    var here := s.placed.At(s.room);
    var i := IndexOfName(here, itemName).value;
    var rest := here[..i] + here[i + 1..];
    forall k | 0 <= k < |rest|
      ensures !NameMatches(rest[k], itemName)
    {
      if k >= i {
        assert rest[k] == here[k + 1];
      }
    }
  }

  /** In play the rooms hold at most one item each, so a second `take` of a name just taken
      always fails, under either engine. */
  lemma TakeTwiceFailsInPlay(v: Variant, commands: seq<Command>, itemName: string)
    requires Answer(v, Run(Initial(v), commands), Take(itemName)).kind == Taken
    ensures var s' := Next(Run(Initial(v), commands), Take(itemName));
      Answer(v, s', Take(itemName)) == TakeReply(v, itemName, false) && Next(s', Take(itemName)) == s'
  {
    var s := Run(Initial(v), commands);
    RoomsStaySmall(v, commands);
    assert DistinctNames(s.placed.At(s.room));
    assert IndexOfName(s.placed.At(s.room), itemName).Some?;
    TakeTwiceFails(s, itemName);
  }

  /** A list whose items are among another's is no longer than it. */
  lemma SubMultisetSize(xs: seq<Item>, ys: seq<Item>)
    requires multiset(xs) <= multiset(ys)
    ensures |xs| <= |ys|
  {
    var extra := multiset(ys) - multiset(xs);
    assert multiset(ys) == multiset(xs) + extra;
    assert |multiset(ys)| == |multiset(xs)| + |extra|;
  }

  /** No room ever holds more than one item. */
  lemma RoomsStaySmall(v: Variant, commands: seq<Command>)
    ensures forall room :: |Run(Initial(v), commands).placed.At(room)| <= 1
  {
    RoomsOnlyShrink(Initial(v), commands);
    forall room
      ensures |Run(Initial(v), commands).placed.At(room)| <= 1
    {
      SubMultisetSize(Run(Initial(v), commands).placed.At(room), Initial(v).placed.At(room));
    }
  }

  /** After a successful `take`, the inventory listing ends with the name of the item taken,
      after a comma when something was already held. */
  lemma ListingAfterTake(v: Variant, s: Snapshot, itemName: string)
    requires IndexOfName(s.placed.At(s.room), itemName).Some?
    ensures var x := s.placed.At(s.room)[IndexOfName(s.placed.At(s.room), itemName).value];
      Answer(v, Next(s, Take(itemName)), ShowInventory).text == InventoryPrefix(v)
        + if s.inventory == [] then x.name else Join(Names(s.inventory), ", ") + ", " + x.name
  {
    var here := s.placed.At(s.room);
    var i := IndexOfName(here, itemName).value;
    var x := here[i];
    var after := s.inventory + [x];
    assert TakeEffect(s, itemName).inventory == after;
    assert Answer(v, Next(s, Take(itemName)), ShowInventory) == InventoryOutcome(v, after);
    ListingAfterPickup(s.inventory, x);
  }

  /** The two `use_item` policies disagree: holding the key in the Entrance Hall, the live
      engine reports success, the console engine "can't be used here". */
  lemma UsePoliciesDiffer(inventory: seq<Item>)
    requires IndexOfName(inventory, "key") == Some(0) && inventory[0] == KeyItem(Console)
    ensures UseOutcome(Live, inventory, Name(EntranceHall), "key").kind == Used
    ensures UseOutcome(Console, inventory, Name(EntranceHall), "key").kind == WrongLocation
  {
  }

  /** In the console engine the key works exactly in the Library, and then reveals the map. */
  lemma ConsoleKeyOnlyInLibrary(s: Snapshot)
    requires IndexOfName(s.inventory, "key").Some?
    requires s.inventory[IndexOfName(s.inventory, "key").value] == KeyItem(Console)
    ensures var reply := Answer(Console, s, Use("key"));
      (reply.kind == Used <==> s.room == Library) && (HasTreasureMap(reply.text) <==> s.room == Library)
  {
    var here := Name(s.room);
    assert Answer(Console, s, Use("key")) == UseOutcome(Console, s.inventory, here, "key");
    assert UsableHere(s.inventory, here, "key") <==> here == "Library";
    assert here == "Library" <==> s.room == Library;
  }

  /** The console engine's walk to the key: north to the Library, where the key lies, and
      `take key` moves it into the inventory. */
  lemma ConsoleWalkToKey()
    ensures var s1 := Next(Initial(Console), Move("north"));
      var s2 := Next(s1, Take("key"));
      && s1.room == Library && s1.placed.library == [KeyItem(Console)]
      && Answer(Console, s1, Take("key")).kind == Taken
      && s2 == Snapshot(Library, [KeyItem(Console)], InitialPlacement(Console).(library := []))
  {
    var s1 := Next(Initial(Console), Move("north"));
    assert s1 == Snapshot(Library, [], InitialPlacement(Console));
    assert IndexOfName(s1.placed.library, "key") == Some(0);
  }

  /** ... then `use key` there reveals the treasure map, changes nothing, and `move south`
      leads back to the Entrance Hall. */
  lemma ConsoleWalkthrough()
    ensures var s2 := Next(Next(Initial(Console), Move("north")), Take("key"));
      var s3 := Next(s2, Use("key"));
      var s4 := Next(s3, Move("south"));
      && Answer(Console, s2, Use("key")).kind == Used && HasTreasureMap(Answer(Console, s2, Use("key")).text)
      && s3 == s2 && s4.room == EntranceHall && s4.inventory == [KeyItem(Console)]
  {
    ConsoleWalkToKey();
    var s2 := Next(Next(Initial(Console), Move("north")), Take("key"));
    assert IndexOfName(s2.inventory, "key") == Some(0);
    ConsoleKeyOnlyInLibrary(s2);
  }
}
