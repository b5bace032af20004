/** The command dispatcher of `Game.handle_input`: a line of input becomes one command. */
module Commands {
  import opened Common
  import opened Strings
  import opened Replies

  datatype Command =
    | Quit
    | Move(direction: string)
    | Take(itemName: string)
    | Use(itemName: string)
    | ShowInventory
    | Help
    | Blank
    | Invalid

  /** The words of a line after `.strip().lower()` and `.split()`. */
  function Tokens(line: string): seq<string> {
    Split(Lower(Strip(line)))
  }

  /** The if/elif chain on the first word and the word count. Only the console engine knows
      `inventory` and `help`. */
  function Dispatch(v: Variant, words: seq<string>): (r: Command)
    requires words != []
    ensures r != Quit && r != Blank
  {
    if words[0] == "move" && |words| == 2 then Move(words[1])
    else if words[0] == "take" && |words| == 2 then Take(words[1])
    else if words[0] == "use" && |words| == 2 then Use(words[1])
    else if v == Console && words[0] == "inventory" && |words| == 1 then ShowInventory
    else if v == Console && words[0] == "help" && |words| == 1 then Help
    else Invalid
  }

  /** The live `handle_input` as written: `quit` is recognised on the stripped, lower-cased line
      before splitting, and then `action_parts[0]` is read with no check that a word exists.
      `None` stands for the IndexError raised on a blank line. */
  function ParseLiveAsWritten(line: string): (r: Option<Command>)
    ensures r.Some? ==> r.value != Blank
  {
    var command := Lower(Strip(line));
    if command == "quit" then Some(Quit)
    else
      var actionParts := Split(command);
      if actionParts == [] then None else Some(Dispatch(Live, actionParts))
  }

  /** One command of either engine, with the console engine's guard against a blank line
      (`if not words: return`) applied to both. For the console engine this folds the
      `strip().lower()` and `quit` test of `game_loop` into the step. */
  function Parse(v: Variant, line: string): (r: Command)
    ensures r == Blank <==> Tokens(line) == []
  {
    var command := Lower(Strip(line));
    if command == "quit" then
      SplitToken(command);
      Quit
    else
      var words := Split(command);
      if words == [] then Blank else Dispatch(v, words)
  }

  /** The lower-cased, stripped line has no whitespace at either end. */
  lemma LowerStripTrimmed(line: string)
    ensures var c := Lower(Strip(line)); c == [] || (!IsSpace(c[0]) && !IsSpace(c[|c| - 1]))
    ensures Lower(Strip(line)) == [] <==> AllSpace(line)
  {
  }

  /** Recognising `quit` before splitting is the same as accepting exactly the one word `quit`. */
  lemma QuitIsTheOneWordQuit(v: Variant, line: string)
    ensures Parse(v, line) == Quit <==> Tokens(line) == ["quit"]
  {
    var command := Lower(Strip(line));
    LowerStripTrimmed(line);
    if command == "quit" {
      SplitToken("quit");
    } else if Split(command) == ["quit"] {
      StrippedSingleToken(command, "quit");
    }
  }

  /** What the line's words alone decide: the quit test made before splitting never disagrees
      with the words. */
  lemma ParseByWords(v: Variant, line: string)
    ensures Parse(v, line) ==
      if Tokens(line) == ["quit"] then Quit
      else if Tokens(line) == [] then Blank
      else Dispatch(v, Tokens(line))
  {
    QuitIsTheOneWordQuit(v, line);
  }

  /** A line has no words exactly when it is blank. */
  lemma NoWordsIffBlank(line: string)
    ensures Tokens(line) == [] <==> AllSpace(line)
  {
    var command := Lower(Strip(line));
    LowerStripTrimmed(line);
    SplitBlank(command);
    assert AllSpace(command) <==> command == [] by {
      if command != [] {
        assert !IsSpace(command[0]);
      }
    }
  }

  /** A line is ignored exactly when it is blank. */
  lemma BlankIffWhitespace(v: Variant, line: string)
    ensures Parse(v, line) == Blank <==> AllSpace(line)
  {
    NoWordsIffBlank(line);
  }

  /** `move`, `take` and `use` are dispatched exactly when the line holds that word and one more. */
  lemma TwoWordCommands(v: Variant, line: string, arg: string)
    ensures Parse(v, line) == Move(arg) <==> Tokens(line) == ["move", arg]
    ensures Parse(v, line) == Take(arg) <==> Tokens(line) == ["take", arg]
    ensures Parse(v, line) == Use(arg) <==> Tokens(line) == ["use", arg]
  {
    ParseByWords(v, line);
    var words := Tokens(line);
    if words != [] && words != ["quit"] {
      DispatchTwoWords(v, words, arg);
    }
  }

  lemma DispatchTwoWords(v: Variant, words: seq<string>, arg: string)
    requires words != []
    ensures Dispatch(v, words) == Move(arg) <==> words == ["move", arg]
    ensures Dispatch(v, words) == Take(arg) <==> words == ["take", arg]
    ensures Dispatch(v, words) == Use(arg) <==> words == ["use", arg]
  {
  }

  /** The argument of `move`, `take` and `use` comes from the lower-cased line, so it never holds
      an upper-case letter: the case-sensitive name match of `get_item` and `use_item` is safe
      for every command the dispatcher passes on. */
  lemma ArgumentsAreLowerCase(v: Variant, line: string)
    ensures match Parse(v, line)
      case Move(arg) => NoUpper(arg)
      case Take(arg) => NoUpper(arg)
      case Use(arg) => NoUpper(arg)
      case _ => true
  {
    ParseByWords(v, line);
    LowerNoUpper(Strip(line));
    SplitNoUpper(Lower(Strip(line)));
    var words := Tokens(line);
    if words != [] && words != ["quit"] {
      DispatchArgument(v, words);
    }
  }

  /** The argument of a dispatched command is the second of exactly two words. */
  lemma DispatchArgument(v: Variant, words: seq<string>)
    requires words != []
    ensures match Dispatch(v, words)
      case Move(arg) => |words| == 2 && arg == words[1]
      case Take(arg) => |words| == 2 && arg == words[1]
      case Use(arg) => |words| == 2 && arg == words[1]
      case _ => true
  {
  }

  /** `inventory` and `help` are console commands of exactly one word; the live dispatcher
      rejects them, although its invalid-command message tells the user to type `help`. */
  lemma OneWordCommands(v: Variant, line: string)
    ensures Parse(v, line) == ShowInventory <==> v == Console && Tokens(line) == ["inventory"]
    ensures Parse(v, line) == Help <==> v == Console && Tokens(line) == ["help"]
  {
    ParseByWords(v, line);
    var words := Tokens(line);
    if words != [] && words != ["quit"] {
      DispatchOneWord(v, words);
    }
  }

  lemma DispatchOneWord(v: Variant, words: seq<string>)
    requires words != []
    ensures Dispatch(v, words) == ShowInventory <==> v == Console && words == ["inventory"]
    ensures Dispatch(v, words) == Help <==> v == Console && words == ["help"]
  {
    if |words| == 1 {
      assert words == [words[0]];
    }
  }

  /** The live `handle_input` as written fails exactly on a blank line, the empty line included. */
  lemma LiveBlankLineRaises(line: string)
    ensures ParseLiveAsWritten(line).None? <==> AllSpace(line)
    ensures ParseLiveAsWritten("").None?
  {
    NoWordsIffBlank(line);
  }

  /** With the guard, the live dispatcher agrees with the code as written wherever that code does
      not fail, and turns the failing case into an ignored line. */
  lemma LiveGuardOnlyAddsBlank(line: string)
    ensures Parse(Live, line) == (match ParseLiveAsWritten(line) case Some(c) => c case None => Blank)
    ensures Parse(Live, line) == Blank <==> ParseLiveAsWritten(line).None?
  {
    var command := Lower(Strip(line));
    var words := Split(command);
    if command != "quit" && words != [] {
      assert Parse(Live, line) == Dispatch(Live, words);
      assert ParseLiveAsWritten(line) == Some(Dispatch(Live, words));
    }
  }
}
