/** `class Game` of either engine: the room dictionary built by `create_rooms`, the player, and
    `handle_input`, which parses one line and hands the command to the player. Its state is
    proved to follow the value specification of `Session` command by command. */
module Games {
  import opened Common
  import opened Items
  import opened Replies
  import opened Commands
  import opened Rooms
  import opened Players
  import opened World
  import opened Wiring
  import opened Session

  class Game {
    const variant: Variant
    const rooms: RoomTable
    const player: Player
    /** The room the player stands in, and the commands handled so far. */
    ghost var here: RoomId
    ghost var history: seq<Command>

    /** The game as values: the player's room, the inventory and every room's items. */
    ghost function State(): Snapshot
      reads this`here, player`inventory, rooms.Objects()`items
    {
      Snapshot(here, player.inventory, Contents(rooms))
    }

    /** The rooms are wired as `create_rooms` wires them and the player stands in one of them. */
    ghost predicate Consistent()
      reads this`here, player`currentRoom, rooms.Objects()`exits
    {
      Wired(rooms) && player.currentRoom == rooms.Get(here)
    }

    /** ... and the game is where the commands handled so far lead from the start. */
    ghost predicate Valid()
      reads this, player, rooms.Objects()
    {
      Consistent() && State() == Run(Initial(variant), history)
    }

    /** `Game.__init__`: the rooms are created and the player starts in the Entrance Hall. */
    constructor (variant: Variant)
      ensures Valid() && this.variant == variant && history == []
      ensures State() == Initial(variant)
      ensures Described(rooms)
    {
      var created := CreateRooms(variant);
      var start := new Player(created.hall);
      this.variant := variant;
      rooms := created;
      player := start;
      here := EntranceHall;
      history := [];
    }

    /** `handle_input`: the line is parsed and the command applied; the game changes exactly as
        `Next` says and the reply is the one `Answer` gives. A blank line is ignored. */
    method HandleInput(line: string) returns (reply: Reply)
      requires Valid()
      modifies this`here, this`history, player, rooms.Objects()`items
      ensures Valid()
      ensures history == old(history) + [Parse(variant, line)]
      ensures State() == Next(old(State()), Parse(variant, line))
      ensures reply == Answer(variant, old(State()), Parse(variant, line))
    {
      reply := HandleCommand(Parse(variant, line));
    }

    /** The parsed command applied and recorded: the game stays where the recorded commands
        lead from the start. */
    method HandleCommand(command: Command) returns (reply: Reply)
      requires Valid()
      modifies this`here, this`history, player, rooms.Objects()`items
      ensures Valid()
      ensures history == old(history) + [command]
      ensures State() == Next(old(State()), command)
      ensures reply == Answer(variant, old(State()), command)
    {
      reply := Apply(command);
      ghost var after := State();
      RunSnoc(Initial(variant), history, command);
      history := history + [command];
      assert State() == after;
    }

    /** The dispatch of `handle_input` on a parsed command. */
    method Apply(command: Command) returns (reply: Reply)
      requires Consistent()
      modifies this`here, player, rooms.Objects()`items
      ensures Consistent()
      ensures State() == Next(old(State()), command)
      ensures reply == Answer(variant, old(State()), command)
    {
      match command {
        case Move(direction) =>
          reply := MoveCommand(direction);
        case Take(itemName) =>
          assert player.currentRoom in rooms.Objects();
          reply := TakeCommand(itemName);
        case _ =>
          reply := Respond(command);
      }
    }

    /** `move` through the player: the player walks the object graph, which agrees with the map. */
    method MoveCommand(direction: string) returns (reply: Reply)
      requires Consistent()
      modifies this`here, player`currentRoom
      ensures Consistent()
      ensures State() == Next(old(State()), Move(direction))
      ensures reply == Answer(variant, old(State()), Move(direction))
    {
      ghost var s := State();
      ghost var target := Lookup(FixedExits(here), direction);
      WiredRoom(rooms, here);
      LookupExits(FixedExits(here), rooms, direction);
      reply := player.Move(variant, direction);
      match target {
        case Some(next) =>
          here := next;
          WiredRoom(rooms, next);
          assert reply == MoveReply(variant, direction, Some(Name(next)));
        case None =>
          assert reply == MoveReply(variant, direction, None);
      }
      assert State() == MoveEffect(s, direction);
    }

    /** `take` through the player: the item moves from the current room's list to the inventory. */
    method TakeCommand(itemName: string) returns (reply: Reply)
      requires Consistent()
      modifies player`inventory, player.currentRoom`items
      ensures Consistent()
      ensures State() == Next(old(State()), Take(itemName))
      ensures reply == Answer(variant, old(State()), Take(itemName))
    {
      ghost var s := State();
      ghost var before := s.placed.At(here);
      assert player.currentRoom.items == before;
      WiredDistinct(rooms);
      reply := player.TakeItem(variant, itemName);
      assert Contents(rooms) == s.placed.With(here, player.currentRoom.items);
      TakeAgrees(s, itemName, player.inventory, player.currentRoom.items);
    }

    /** The commands that only show something: `use`, the inventory, help, a blank or invalid
        line, and `quit`. */
    method Respond(command: Command) returns (reply: Reply)
      requires Consistent() && !(command.Move? || command.Take?)
      ensures reply == Answer(variant, State(), command)
    {
      match command {
        case Use(itemName) =>
          WiredRoom(rooms, here);
          reply := UseOutcome(variant, player.inventory, player.currentRoom.name, itemName);
        case ShowInventory =>
          reply := InventoryOutcome(variant, player.inventory);
        case Help =>
          reply := HelpReply();
        case Blank =>
          reply := Reply(Ignored, "", "");
        case Invalid =>
          reply := InvalidReply(variant);
        case Quit =>
          reply := QuitReply(variant);
      }
    }

    /** The live engine's "Show Inventory" button: what the console `inventory` command shows,
        and nothing changes. */
    method InventoryButton() returns (reply: Reply)
      ensures reply == Answer(variant, State(), ShowInventory)
    {
      reply := InventoryOutcome(variant, player.inventory);
    }
  }

  /** However many lines have been handled, the game holds each of its three items exactly once. */
  lemma ItemsNeverDuplicated(g: Game, x: Item)
    requires g.Valid()
    ensures Everything(g.State()) == InitialItems(g.variant)
    ensures Places(g.State(), x) == (if x in InitialItems(g.variant) then 1 else 0)
  {
    RunConserves(Initial(g.variant), g.history);
    InitialEverything(g.variant);
    ExactlyOnePlace(g.variant, g.history, x);
  }
}
