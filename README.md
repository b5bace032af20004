# A text adventure, modelled in Dafny

`consolegame.py` is a small text adventure with four rooms: the Entrance Hall, the Library,
the Armory and the Secret Room. Each room holds at most one item: a key, a sword or a
treasure. The player types commands: `move <direction>`, `take <item>`, `use <item>` and
`quit`. The game answers in a dialog, or in the console engine by printing text.

The file holds two copies of the engine:

- the live tkinter engine (lines 159-308);
- an older console engine, commented out (lines 1-156).

The model covers both. `Replies.Variant` (`Live` or `Console`) selects where they differ:

- the command set;
- the `use` policy;
- the wording of the replies;
- the treasure's description.

The model is written in the source's own form:

- `Room`, `Player` and `Game` are classes whose fields change in place
  (`Rooms.Room`, `Players.Player`, `Games.Game`).
- The room dictionary that `create_rooms` returns is a record of the four room objects
  (`Wiring.RoomTable`). The rooms' exits point at the other room objects.
- A room's `exits` dictionary is a list of pairs, kept in insertion order.
- Items are values (`Items.Item`).

Beside the objects, the game is also described as values:

- `World.Snapshot` holds the player's room, the inventory and every room's item list.
- `Session.Next` gives what one command does to a snapshot.
- `Session.Answer` gives what the command shows.
- `Session.Run` gives where a sequence of commands leads.

`Game.HandleInput` is proved to follow `Next` and `Answer`, command by command. The game
keeps a ghost record of the commands handled so far. Its invariant `Valid` states that the
objects equal `Run` of that record from the initial state. Everything proved about `Run`
therefore holds of the objects, for example that no item is ever duplicated or lost.

The model states two weak points of the source:

- **Blank input.** The live `handle_input` reads `action_parts[0]` without checking that the
  line had a word, so a blank line raises `IndexError`. The console engine returns early on
  a blank line. The model keeps the code as written (`Commands.ParseLiveAsWritten`) and uses
  the guarded dispatcher (`Commands.Parse`) everywhere else.
- **Case in name matching.** `get_item` and `use_item` compare the lower-cased item name
  with the argument as given. A name holding a capital letter is therefore never found
  (`Items.UpperCaseNameNeverMatches`). The dispatcher lower-cases the whole line first, so
  every argument it passes on has no capitals (`Commands.ArgumentsAreLowerCase`).

## Model

| member | source | states |
|---|---|---|
| Common.Lookup | consolegame.py:244-245 | `direction in exits` then `exits[direction]`: there is no value exactly when no pair has the key; a value found belongs to a pair with that key |
| Common.Keys | consolegame.py:293 | `exits.keys()`: one key per pair, in insertion order |
| Strings.Lower | consolegame.py:217 | `str.lower()`: same length; each character is lower-cased and whitespace stays whitespace |
| Strings.Strip | consolegame.py:217 | `str.strip()`: the result is a slice of the input with only whitespace before and after it; it has no whitespace at either end, and it is empty exactly when the input is blank |
| Strings.Split | consolegame.py:222 | `str.split()`: every piece is a non-empty, whitespace-free token; which tokens they are is stated by `SplitStep` and `SplitSpaced` |
| Strings.SplitStep | consolegame.py:222 | leading whitespace is skipped, and a token followed by whitespace or the end of the text is the next word |
| Strings.SplitSpaced | consolegame.py:222 | tokens separated by any non-empty runs of whitespace, with any whitespace before and after, split back into exactly those tokens |
| Strings.SplitBlank | consolegame.py:53-55 | splitting gives no words exactly when the text is blank |
| Strings.SplitJoin | consolegame.py:222 | splitting inverts joining tokens with single spaces |
| Strings.JoinSnoc | consolegame.py:267 | `Join` models `sep.join(parts)`: joining one more part appends the separator and that part, and a single part is joined without a separator |
| Strings.SplitNoUpper | consolegame.py:217-222 | splitting a text with no capitals gives tokens with no capitals |
| Items.IndexOfName | consolegame.py:259 | the first item in list order whose lower-cased name equals the argument; none exactly when no item matches |
| Items.Names | consolegame.py:267 | the item names, one per item, in list order |
| Items.RemoveCounts | consolegame.py:283-284 | `list.remove` fails (the ValueError) exactly when the item is absent; otherwise it removes one occurrence: length minus one, multiset minus that item |
| Items.RemoveFirstAt | consolegame.py:250-253 | removing the value found at its first occurrence takes out exactly that position |
| Items.UpperCaseNameNeverMatches | consolegame.py:288 | an argument with an upper-case letter matches no item of any list |
| Commands.LowerStripTrimmed | consolegame.py:217 | the stripped, lower-cased line has no whitespace at either end, and is empty exactly when the line is blank |
| Commands.Parse | consolegame.py:216-230 | `handle_input`'s dispatch on one line, with the console's blank-line guard (lines 52-55): the result is `Blank` exactly when the line has no words; the rest of its meaning is stated by `ParseByWords`, `QuitIsTheOneWordQuit`, `TwoWordCommands` and `OneWordCommands` |
| Commands.Dispatch | consolegame.py:223-230 | the if/elif chain on the words (console lines 57-69) never gives `quit` or a blank line; its branches are stated by `DispatchTwoWords`, `DispatchOneWord` and `DispatchArgument` |
| Commands.ParseLiveAsWritten | consolegame.py:216-230 | the live dispatch as written never yields an ignored line; where it fails is stated by `LiveBlankLineRaises` |
| Commands.QuitIsTheOneWordQuit | consolegame.py:217-220 | the `quit` test on the whole stripped line accepts exactly the lines whose only word is `quit` |
| Commands.ParseByWords | consolegame.py:216-230 | the command depends only on the line's words: `quit`, no words, or the dispatch on the words |
| Commands.NoWordsIffBlank | consolegame.py:217-222 | the stripped, lower-cased line splits into no words exactly when the line is blank |
| Commands.BlankIffWhitespace | consolegame.py:52-55 | a line is ignored exactly when it is all whitespace |
| Commands.TwoWordCommands | consolegame.py:222-228 | `move`, `take` and `use` are dispatched with argument `a` exactly when the words are that verb and `a` |
| Commands.DispatchTwoWords | consolegame.py:223-228 | the same on the word list: each of the three verbs exactly for a two-word list starting with it |
| Commands.ArgumentsAreLowerCase | consolegame.py:217-228 | the argument of every dispatched `move`, `take` or `use` has no upper-case letter |
| Commands.DispatchArgument | consolegame.py:223-228 | the argument of a dispatched `move`, `take` or `use` is the second of exactly two words |
| Commands.OneWordCommands | consolegame.py:64-67 | `inventory` and `help` are commands only in the console engine, and only as the single word |
| Commands.DispatchOneWord | consolegame.py:64-67 | the same on the word list |
| Commands.LiveBlankLineRaises | consolegame.py:222-223 | the live dispatcher as written fails exactly on a blank line, the empty line included |
| Commands.LiveGuardOnlyAddsBlank | consolegame.py:222-223 | with the console's blank-line guard, the live dispatcher agrees with the code as written wherever that code does not fail, and ignores the failing lines |
| Rooms.Room.constructor | consolegame.py:274-278 | a room has the given name and description, no exits and no items |
| Rooms.Room.AddItem | consolegame.py:280-281 | the item is appended to the list |
| Rooms.Room.RemoveItem | consolegame.py:283-284 | the new list is what `list.remove` gives without error: the first occurrence of the item leaves the list, one element fewer, and the multiset loses exactly that item |
| Rooms.Room.GetItem | consolegame.py:286-290 | the loop returns the first item whose lower-cased name is the argument, and nothing exactly when no item matches |
| Rooms.Room.Describe | consolegame.py:292-296 | the description starts with the room's name and goes on after it; the full line structure is stated by `DescribeLines` |
| Rooms.DescribeLines | consolegame.py:292-296 | `describe` reads back as the name, the description, the exits line and an items line; there are four lines exactly when the room holds items |
| Rooms.DescriptionText | consolegame.py:293-295 | the text built from the four parts splits back into those lines |
| Players.Player.constructor | consolegame.py:239-241 | the player starts in the given room with an empty inventory |
| Players.Player.Move | consolegame.py:243-247 | through a declared exit the player enters that exit's room and the move succeeds; otherwise the player stays and gets "You can't go that way." |
| Players.Player.TakeItem | consolegame.py:249-256 | the first matching item is appended to the inventory and removed from that position in the room; with no match nothing changes; the items held plus the room's items stay the same multiset |
| Players.UseOutcome | consolegame.py:258-263 | `use_item` under both policies: "not held" exactly when no held item matches; the live engine accepts any held item; the console engine accepts only an item usable in the current room (lines 101-111), and shows the treasure map exactly for the key in the Library |
| Players.InventoryOutcome | consolegame.py:265-270 | the inventory dialog shows the empty-inventory message exactly when nothing is held, and otherwise "Your inventory: " (console "Inventory: ", line 115) followed by the item names joined by ", " in pickup order |
| Players.UsableOnlyWhenHeld | consolegame.py:102-104 | the console's `usable_in_room` test can only succeed for an item the player holds under that name |
| Players.ListingAfterPickup | consolegame.py:266-268 | an item picked up appears last in the inventory listing, after a comma |
| Session.ListingAfterTake | consolegame.py:265-268 | after a successful `take`, the inventory listing ends with the taken item's name, after ", " when something was already held |
| World.InitialItemsOnce | consolegame.py:180-182 | the three items are distinct, so the game holds each of them once |
| World.EverythingWith | consolegame.py:252-253 | moving items between the inventory and one room, without loss or gain, keeps every item of the game |
| World.ExitsShape | consolegame.py:175-178 | the exits of `FixedExits`: every room has one, each room's directions are distinct as dict keys are, and none leads back into the same room |
| World.ItemsShape | consolegame.py:180-182 | `KeyItem`, `SwordItem`, `TreasureItem`: the names Key, Sword and Treasure; only the console key (line 20) is usable somewhere, and only in the Library |
| World.StartingPlacement | consolegame.py:184-186 | `InitialPlacement`: the Entrance Hall starts empty, the Library holds the key, the Armory the sword, the Secret Room the treasure |
| Replies.MoveReplyKinds | consolegame.py:243-247 | `MoveReply`: a move is reported as done exactly when there was an exit; otherwise the text is "You can't go that way." (console lines 86-90) |
| Replies.TakeReplyKinds | consolegame.py:249-256 | `TakeReply`: a take is reported as done exactly when the item was found; console replies have no title (lines 94-99) |
| Replies.InvalidReplyHint | consolegame.py:229-230 | `InvalidReply`: an invalid command is answered with the hint to type `help` (console line 69) |
| Replies.HelpReplyShape | consolegame.py:71-77 | `HelpReply`: `show_help` prints the command list of lines 72-77 (`HelpText`), with no dialog title |
| Replies.QuitReplyText | consolegame.py:219-220 | `QuitReply`: `quit` ends the game; only the console engine says "Thank you for playing!" (lines 46-48) |
| Wiring.LookupExits | consolegame.py:244-245 | following an exit of the room objects lands on the object of the room the fixed map names |
| Wiring.WiredDistinct | consolegame.py:170-173 | the four rooms of the table are four different objects |
| Wiring.NewRooms | consolegame.py:170-178 | four fresh rooms with their names and descriptions, with exits wired as the map says, and still empty |
| Wiring.CreateRooms | consolegame.py:169-193 | the wired rooms, each holding its starting item: the key in the Library, the sword in the Armory, the treasure in the Secret Room |
| Session.Next | consolegame.py:216-232 | only `move` and `take` change the game |
| Session.MoveEffect | consolegame.py:243-247 | `move` changes only the room: to the exit's target when the exit exists, otherwise not at all |
| Session.TakeEffect | consolegame.py:249-256 | `take` keeps the room and the other rooms' items; it moves items between this room and the inventory without loss or gain; the game is unchanged exactly when no item matches |
| Session.AnswerReportsChange | consolegame.py:243-256 | `Answer`, the reply to one command: `move` and `take` report success exactly when they change the game |
| Session.TakeAgrees | consolegame.py:249-256 | `TakeEffect` is the outcome `take_item` gives on the current room's list: the first match appended to the inventory and cut out of the room, or nothing changed |
| Session.ExitsLeadBack | consolegame.py:175-178 | every exit of the map has a way back |
| Session.NextConserves | consolegame.py:249-254 | no command creates or destroys an item |
| Session.RunConserves | consolegame.py:249-254 | over any run of commands, the game keeps the same items |
| Session.ExactlyOnePlace | consolegame.py:180-186 | after any commands from the start, each item of the game is in exactly one place (the inventory or one room), and no item is both held and lying in a room |
| Session.NextShrinks | consolegame.py:280-284 | no command adds an item to a room: each room's items after a command are among its items before (multiset inclusion) |
| Session.RoomsOnlyShrink | consolegame.py:249-256 | over any run, rooms only lose items: each room's items at the end are among its items at the start (multiset inclusion) |
| Session.RoomsStaySmall | consolegame.py:184-186 | no room ever holds more than one item |
| Session.TakeTwiceFails | consolegame.py:249-256 | after a successful `take`, the same `take` in that room finds nothing and changes nothing, provided the room's names are distinct |
| Session.TakeTwiceFailsInPlay | consolegame.py:249-256 | in any game from the start, repeating a successful `take` reports "There is no ... here." and changes nothing, under either engine |
| Session.UsePoliciesDiffer | consolegame.py:258-263 | holding the console key in the Entrance Hall, the live engine reports success and the console engine "can't be used here" (lines 101-111) |
| Session.ConsoleKeyOnlyInLibrary | consolegame.py:101-107 | in the console engine, the key is used, and the treasure map shown, exactly in the Library |
| Session.ConsoleWalkToKey | consolegame.py:85-97 | console: `move north` from the start reaches the Library with the key there, and `take key` moves it into the inventory |
| Session.ConsoleWalkthrough | consolegame.py:101-107 | console: then `use key` reveals the treasure map and changes nothing, and `move south` leads back to the Entrance Hall holding the key |
| Games.Game.constructor | consolegame.py:163-165 | a new game: the rooms created as the map says, with the names and descriptions of `create_rooms` (`Described`), the player in the Entrance Hall with nothing, and no commands handled yet |
| Games.Game.HandleInput | consolegame.py:216-232 | the line is parsed and handled: the game changes exactly as `Next` says, the reply is `Answer`'s, and the invariant linking the objects to the run of commands holds again |
| Games.Game.HandleCommand | consolegame.py:219-230 | the command is applied and recorded, with the same guarantees |
| Games.Game.Apply | consolegame.py:223-230 | the dispatch on a command: the new objects match `Next` and the reply matches `Answer` |
| Games.Game.MoveCommand | consolegame.py:223-224 | `player.move` on the object graph does what `MoveEffect` does on the map |
| Games.Game.TakeCommand | consolegame.py:225-226 | `player.take_item` on the room objects does what `TakeEffect` does on the snapshot |
| Games.Game.Respond | consolegame.py:227-230 | `use`, invalid commands and `quit` answer as `Answer` says and change nothing |
| Games.Game.InventoryButton | consolegame.py:208 | the "Show Inventory" button shows what `Answer` gives for the inventory command, and changes nothing |
| Games.ItemsNeverDuplicated | consolegame.py:249-254 | in any game, however many lines have been handled, the game holds exactly its three items, each in exactly one place |

## Left out

- The tkinter window is not modelled: `create_window`, the label, the entry, the buttons,
  `update_room_display`, `mainloop` and `window.quit`. Each `messagebox.showinfo` dialog is
  modelled as a returned `Reply` value holding a title and a text.
- The console engine's `start_game` banners and its `print`/`input` loop are not modelled.
  One pass of `game_loop` (strip, lower-case, the `quit` test, then `handle_input`) is one
  `Parse` step. The text printed by one command is one reply, its lines joined by newlines.
- The room description that the console loop prints before each prompt, and that the live
  label shows, is modelled only as `Room.Describe` and its line-by-line lemma. It is not
  part of each reply.
- Only ASCII is modelled. `lower` changes only A-Z. `strip` and `split` treat as whitespace
  the ASCII characters Python does: space, 0x09-0x0D and 0x1C-0x1F. The non-ASCII
  whitespace Python also splits on (0x85, 0xA0 and the Unicode spaces) and Unicode case
  folding are not modelled.
- Rooms.Room.RemoveItem: `requires item in items` leaves out the ValueError that
  `list.remove` raises for a missing item. Its only caller, `take_item`, removes the item
  `get_item` has just found in the same list (lines 250-253), so the error cannot occur.
  `Items.Remove` models the error itself, as `None`.
- `Item.description` is kept as a field but nothing reads it, as in the source.
- Python's `list.remove` compares items by identity, since `Item` defines no `__eq__`. The
  model compares items as values. The item removed is always the first one `get_item`
  found, and that first value-equal position is the same position
  (`Items.RemoveFirstAt`), so the lists are the same.
- The `rooms` dictionary keyed by name is a record of the four rooms indexed by
  `World.RoomId`. `World.Name` is the key each room is registered under. Only
  `self.rooms['Entrance Hall']` is ever looked up.
- The live engine has no `inventory` or `help` command; its inventory is shown through the
  button (`Game.InventoryButton`). `show_help` exists only in the console engine and is one
  constant text.
- `Session.Answer`, `World.FixedExits`, the item and placement functions and the reply
  functions carry no `ensures` of their own. Their contracts are stated by separate lemmas
  (`AnswerReportsChange`, `ExitsShape`, `ItemsShape`, `StartingPlacement`, the `Replies`
  lemmas, `UseOutcome`, `InventoryOutcome`), which keeps the proofs that use them small.
- The model does not ask whether the object graph's exits are ever reassigned after
  creation: the source never does, and the methods' frames do not allow it.
- The `if __name__ == "__main__"` entry point is not modelled.

## Findings

| source | as written | input that shows it | evidently intended | confidence | as-written member | corrected member |
|---|---|---|---|---|---|---|
| consolegame.py:222-223 | the live `handle_input` reads `action_parts[0]` with no check that `command.split()` returned a word | the empty line, or a line of spaces, in the entry field: `IndexError` | ignore a blank line, as the console engine does at lines 53-55 | not executed | Commands.LiveBlankLineRaises | Commands.LiveGuardOnlyAddsBlank |
