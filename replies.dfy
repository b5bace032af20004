/** What the engine shows after a command. The live engine opens a `messagebox.showinfo(title, text)`
    dialog; the console engine prints text and has no titles. Both are returned here as values. */
module Replies {
  import opened Common

  /** Which copy of the engine: the live tkinter one or the commented-out console one. */
  datatype Variant = Live | Console

  datatype Kind =
    | Moved | NoExit
    | Taken | NotHere
    | Used | WrongLocation | NotHeld
    | Listed | HelpShown | InvalidCommand | Ignored | Farewell

  /** `title` is the dialog title ("" when no dialog opens, and always "" on the console);
      several lines printed by one console command are joined with newlines. */
  datatype Reply = Reply(kind: Kind, title: string, text: string)

  const TreasureMapLine := "The key unlocks the chest! Inside, you find a treasure map!"
  const EmptyInventoryText := "Your inventory is empty."
  const NoExitText := "You can't go that way."
  const HelpHint := "Type 'help' for a list of commands."
  const GoodbyeText := "Thank you for playing!"

  /** A reply whose dialog title only exists in the live engine. */
  function Say(v: Variant, kind: Kind, title: string, text: string): Reply {
    Reply(kind, if v == Live then title else "", text)
  }

  /** `Player.move`: the live engine shows nothing on success, the console one names the new room. */
  function MoveReply(v: Variant, direction: string, destination: Option<string>): Reply {
    match destination
    case Some(room) =>
      if v == Live then Reply(Moved, "", "")
      else Reply(Moved, "", "You move " + direction + " to the " + room + ".")
    case None => Say(v, NoExit, "Invalid Move", NoExitText)
  }

  /** `Player.take_item`: both messages quote the argument as typed, not the item's own name. */
  function TakeReply(v: Variant, itemName: string, found: bool): Reply {
    if found then Say(v, Taken, "Item Taken", "You picked up the " + itemName + ".")
    else Say(v, NotHere, "Item Not Found", "There is no " + itemName + " here.")
  }

  /** A move is reported as done exactly when there was an exit; otherwise the player is told
      there is no way. */
  lemma MoveReplyKinds(v: Variant, direction: string, destination: Option<string>)
    ensures MoveReply(v, direction, destination).kind == (if destination.Some? then Moved else NoExit)
    ensures destination.None? ==> MoveReply(v, direction, destination).text == NoExitText
  {
  }

  /** A take is reported as done exactly when the item was found; the console has no titles. */
  lemma TakeReplyKinds(v: Variant, itemName: string, found: bool)
    ensures TakeReply(v, itemName, found).kind == (if found then Taken else NotHere)
    ensures v == Console ==> TakeReply(v, itemName, found).title == ""
  {
  }

  function InvalidReply(v: Variant): Reply {
    if v == Live then Reply(InvalidCommand, "Invalid Command", HelpHint)
    else Reply(InvalidCommand, "", "Invalid command. " + HelpHint)
  }

  /** The console engine's command list, printed by `Game.show_help`. */
  const HelpText := "\nCommands:\n"
    + "  move [direction] - Move to a room in the specified direction (north, south, east, west).\n"
    + "  take [item] - Pick up an item in the current room.\n"
    + "  use [item] - Use an item from your inventory.\n"
    + "  inventory - Show your current inventory.\n"
    + "  quit - Exit the game."

  /** `Game.show_help` of the console engine. */
  function HelpReply(): Reply {
    Reply(HelpShown, "", HelpText)
  }

  /** `quit`: the live engine closes its window, the console loop says goodbye and stops. */
  function QuitReply(v: Variant): Reply {
    if v == Live then Reply(Farewell, "", "") else Reply(Farewell, "", GoodbyeText)
  }

  /** An invalid command is answered with the hint to type `help`. */
  lemma InvalidReplyHint(v: Variant)
    ensures InvalidReply(v).kind == InvalidCommand
    ensures |InvalidReply(v).text| >= |HelpHint|
    ensures InvalidReply(v).text[|InvalidReply(v).text| - |HelpHint|..] == HelpHint
  {
  }

  /** `show_help` prints the command list, with no dialog title. */
  lemma HelpReplyShape()
    ensures HelpReply().kind == HelpShown && HelpReply().title == ""
    ensures HelpReply().text == HelpText
  {
  }

  /** Only the console engine says goodbye on `quit`. */
  lemma QuitReplyText(v: Variant)
    ensures QuitReply(v).kind == Farewell
    ensures QuitReply(v).text == GoodbyeText <==> v == Console
  {
    assert GoodbyeText[0] == 'T';
  }

  /** True of a text whose last line is the treasure-map message. */
  predicate HasTreasureMap(text: string) {
    |text| >= |TreasureMapLine| && text[|text| - |TreasureMapLine|..] == TreasureMapLine
  }

  /** A text ending in a full stop cannot end with the treasure-map message, which ends in '!'. */
  lemma EndsInFullStop(text: string)
    requires text != [] && text[|text| - 1] == '.'
    ensures !HasTreasureMap(text)
  {
  }
}
