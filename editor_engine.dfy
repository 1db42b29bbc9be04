/**
 * The key and ex-command handling of the stand-alone vim editor. Every
 * handler reads the shared store and rewrites it through the store's own
 * operations, so each handler is a method on an engine holding the store,
 * specified by a function that composes the store's transitions in the same
 * order.
 */
module EditorEngine {
  import opened JsText
  import opened JsArray
  import opened EditorStore

  /** An ex command: its first white-space separated word and the words after it. */
  datatype ParsedCommand = ParsedCommand(command: string, args: seq<string>)

  /** The state a handler leaves behind and the flag it returns (for `Enter`: whether to leave the editor). */
  datatype Outcome = Outcome(state: EditorState, result: bool)

  const NoFileName := "E32: No file name"
  const NoWrite := "E37: No write since last change (add ! to override)"
  const UnknownOption := "E518: Unknown option"
  const InvalidRange := "E16: Invalid range"

  /** The lines of the buffer. */
  function Lines(content: string): (lines: seq<string>)
    ensures |lines| >= 1
  {
    Split(content, "\n")
  }

  /** Split a command line at runs of white space: the first piece is the command, the rest are arguments. */
  function ParseCommand(commandString: string): (c: ParsedCommand)
    ensures NoSpace(c.command) && forall i :: 0 <= i < |c.args| ==> NoSpace(c.args[i])
    ensures [c.command] + c.args == SplitSpaces(commandString)
  {
    SplitSpacesPiecesHaveNoSpace(commandString);
    var parts := SplitSpaces(commandString);
    ParsedCommand(parts[0], parts[1..])
  }

  /** A single word parses as a command without arguments. */
  lemma ParseWord(w: string)
    requires NoSpace(w)
    ensures ParseCommand(w) == ParsedCommand(w, [])
  {
    SplitSpacesOfWord(w);
  }

  /** A command line that starts with white space parses as the empty command. */
  lemma ParseLeadingSpace(commandString: string)
    requires commandString != [] && IsSpace(commandString[0])
    ensures ParseCommand(commandString).command == ""
  {
  }

  /** `:w`: write the buffer, unless the editor has no file name. */
  function Save(s: EditorState): (o: Outcome)
    ensures o.result <==> s.filename != ""
    ensures o.result ==> o.state == Saved(s)
    ensures !o.result ==> o.state == StatusSet(s, NoFileName)
  {
    if s.filename == "" then Outcome(StatusSet(s, NoFileName), false)
    else Outcome(Saved(s), true)
  }

  /** `:q`: allowed only when nothing is unsaved; it changes nothing itself. */
  function Quit(s: EditorState): (o: Outcome)
    ensures o.result <==> !s.isModified
    ensures o.result ==> o.state == s
    ensures !o.result ==> o.state == StatusSet(s, NoWrite)
  {
    if s.isModified then Outcome(StatusSet(s, NoWrite), false)
    else Outcome(s, true)
  }

  /** The message each known `:set` option reports. */
  function OptionMessage(option: string): string {
    if option in {"number", "nu"} then "Line numbers enabled"
    else if option in {"nonumber", "nonu"} then "Line numbers disabled"
    else if option == "paste" then "Paste mode enabled"
    else if option == "nopaste" then "Paste mode disabled"
    else ""
  }

  /** `:set option`: only a message; an unknown or missing option is an error. */
  function SetOption(s: EditorState, args: seq<string>): (o: Outcome)
    ensures o.state == s.(statusMessage := o.state.statusMessage)
    ensures args == [] ==> o == Outcome(StatusSet(s, UnknownOption), false)
    ensures args != [] ==>
      (o.result <==> args[0] in {"number", "nu", "nonumber", "nonu", "paste", "nopaste"})
    ensures args != [] && !o.result ==> o.state.statusMessage == UnknownOption + ": " + args[0]
  {
    if |args| == 0 then Outcome(StatusSet(s, UnknownOption), false)
    else if args[0] in {"number", "nu", "nonumber", "nonu", "paste", "nopaste"} then
      Outcome(StatusSet(s, OptionMessage(args[0])), true)
    else Outcome(StatusSet(s, UnknownOption + ": " + args[0]), false)
  }

  /** `:e file`: open the named file on an empty buffer; a missing name is an error. */
  function Edit(s: EditorState, args: seq<string>): (o: Outcome)
    ensures o.result <==> args != [] && args[0] != ""
    ensures o.result ==> o.state == VimOpened(s, args[0], "")
    ensures !o.result ==> o.state == StatusSet(s, NoFileName)
  {
    if |args| == 0 || args[0] == "" then Outcome(StatusSet(s, NoFileName), false)
    else Outcome(VimOpened(s, args[0], ""), true)
  }

  /** `:N`: go to the start of line N, counted from 1, if the buffer has that line. */
  function LineJump(s: EditorState, n: int): (o: Outcome)
    ensures o.result <==> 1 <= n <= |Lines(s.content)|
    ensures o.result ==> o.state == CursorSet(s, n - 1, 0)
    ensures !o.result ==> o.state == StatusSet(s, InvalidRange)
  {
    if n < 1 || n > |Lines(s.content)| then Outcome(StatusSet(s, InvalidRange), false)
    else Outcome(CursorSet(s, n - 1, 0), true)
  }

  /** What an ex command does: a failure only reports, and only `:e` replaces the buffer. */
  function Executed(s: EditorState, commandString: string): (o: Outcome)
    ensures !o.result ==> o.state == s.(statusMessage := o.state.statusMessage)
    ensures o.state.content != s.content || o.state.history != s.history ==>
      ParseCommand(commandString).command in {"e", "edit"} && o.result && o.state.content == ""
  {
    var c := ParseCommand(commandString);
    if c.command in {"w", "write"} then Save(s)
    else if c.command in {"q", "quit"} then Quit(s)
    else if c.command in {"wq", "x"} then Save(s)
    else if c.command == "q!" then Outcome(s, true)
    else if c.command == "set" then SetOption(s, c.args)
    else if c.command in {"e", "edit"} then Edit(s, c.args)
    else if c.command == "help" then Outcome(StatusSet(s, "VIM - Vi IMproved"), true)
    else if c.command == "" then Outcome(StatusSet(s, ""), true)
    else if IsDigits(c.command) then LineJump(s, DigitsValue(c.command))
    else Outcome(StatusSet(s, "E492: Not an editor command: " + commandString), false)
  }

  /** The cases of the normal-mode key switch; keys without a case do nothing. */
  datatype NormalCommand =
    | InsertHere | AppendAfter | OpenBelow | OpenAbove | VisualMode | ReplaceMode | CommandLine
    | Left | Down | Up | Right | GoTo | LineStart | LineEnd | UndoKey | RedoKey | DeleteKey | Other

  /** The case a key name falls into. */
  function KeyCommand(key: string): NormalCommand {
    if key == "i" then InsertHere
    else if key == "a" then AppendAfter
    else if key == "o" then OpenBelow
    else if key == "O" then OpenAbove
    else if key == "v" then VisualMode
    else if key == "R" then ReplaceMode
    else if key == ":" then CommandLine
    else if key == "h" || key == "ArrowLeft" then Left
    else if key == "j" || key == "ArrowDown" then Down
    else if key == "k" || key == "ArrowUp" then Up
    else if key == "l" || key == "ArrowRight" then Right
    else if key == "g" then GoTo
    else if key == "0" then LineStart
    else if key == "$" then LineEnd
    else if key == "u" then UndoKey
    else if key == "r" then RedoKey
    else if key == "d" then DeleteKey
    else Other
  }

  /** The buffer written back after inserting an empty line at `at`. */
  function WithEmptyLine(lines: seq<string>, at: int): string {
    Join(Spliced(lines, at, 0, [""]), "\n")
  }

  /** The lines left after removing line `at`; never none. */
  function Remaining(lines: seq<string>, at: int): (r: seq<string>)
    ensures |r| >= 1
  {
    var removed := Spliced(lines, at, 1, []);
    if |removed| == 0 then [""] else removed
  }

  /** What a normal-mode key does: keys without a case do nothing, motions move only the cursor, and only the mode keys change the mode. */
  function NormalKey(s: EditorState, key: string, ctrlKey: bool, shiftKey: bool): (r: EditorState)
    ensures KeyCommand(key).Other? ==> r == s
    ensures KeyCommand(key) in {Left, Down, Up, Right, GoTo, LineStart, LineEnd} ==> r == s.(cursor := r.cursor)
    ensures r.mode != s.mode ==>
      KeyCommand(key) in {InsertHere, AppendAfter, OpenBelow, OpenAbove, VisualMode, ReplaceMode, CommandLine}
    ensures r.content != s.content ==> KeyCommand(key) in {OpenBelow, OpenAbove, UndoKey, RedoKey, DeleteKey}
  {
    var lines := Lines(s.content);
    var line := s.cursor.line;
    var column := s.cursor.column;
    match KeyCommand(key)
    case InsertHere => ModeSet(s, Insert)
    case AppendAfter => CursorSet(ModeSet(s, Insert), line, Min(column + 1, LineLength(lines, line)))
    case OpenBelow => CursorSet(ContentSet(ModeSet(s, Insert), WithEmptyLine(lines, line + 1)), line + 1, 0)
    case OpenAbove => CursorSet(ContentSet(ModeSet(s, Insert), WithEmptyLine(lines, line)), line, 0)
    case VisualMode => ModeSet(s, Visual)
    case ReplaceMode => ModeSet(s, Replace)
    case CommandLine => CommandBufferSet(ModeSet(s, Command), "")
    case Left => if column > 0 then CursorSet(s, line, column - 1) else s
    case Down => if line < |lines| - 1 then CursorSet(s, line + 1, Min(column, LineLength(lines, line + 1))) else s
    case Up => if line > 0 then CursorSet(s, line - 1, Min(column, LineLength(lines, line - 1))) else s
    case Right => if column < LineLength(lines, line) - 1 then CursorSet(s, line, column + 1) else s
    case GoTo => if shiftKey then CursorSet(s, |lines| - 1, 0) else CursorSet(s, 0, 0)
    case LineStart => CursorSet(s, line, 0)
    case LineEnd =>
      CursorSet(s, line, Max(0, (if LineLength(lines, line) == 0 then 1 else LineLength(lines, line)) - 1))
    case UndoKey => Undone(s)
    case RedoKey => if ctrlKey then Redone(s) else s
    case DeleteKey =>
      if shiftKey then
        var remaining := Remaining(lines, line);
        CursorSet(ContentSet(s, Join(remaining, "\n")), Min(line, |remaining| - 1), 0)
      else s
    case Other => s
  }

  /** What an insert-mode key does: only Escape is handled, and it pulls a cursor past the end back onto the line. */
  function InsertKey(s: EditorState, key: string): (r: EditorState)
    ensures key != "Escape" ==> r == s
    ensures key == "Escape" ==> r.mode == Normal && r.statusMessage == "" && r.cursor.line == s.cursor.line
    ensures key == "Escape" && s.cursor.column >= 0 ==>
      0 <= r.cursor.column <= Max(0, LineLength(Lines(s.content), s.cursor.line) - 1)
    ensures key == "Escape" && s.cursor.column < LineLength(Lines(s.content), s.cursor.line) ==>
      r.cursor == s.cursor
  {
    if key == "Escape" then
      var t := ModeSet(s, Normal);
      var lineLength := LineLength(Lines(t.content), t.cursor.line);
      if t.cursor.column > 0 && t.cursor.column >= lineLength then
        CursorSet(t, t.cursor.line, Max(0, lineLength - 1))
      else t
    else s
  }

  /** What a command-mode key does, and whether the editor should close. */
  function CommandKey(s: EditorState, key: string): (o: Outcome)
    ensures key != "Enter" ==> !o.result
    ensures key == "Enter" ==> o.result == Executed(s, s.commandBuffer).result
    ensures key in {"Escape", "Enter"} ==>
      o.state.mode == Normal && o.state.commandBuffer == "" && o.state.statusMessage == ""
    ensures key == "Backspace" && s.commandBuffer != [] ==>
      o.state == CommandBufferSet(s, s.commandBuffer[..|s.commandBuffer| - 1])
    ensures key == "Backspace" && s.commandBuffer == [] ==> o.state == ModeSet(s, Normal)
    ensures key !in {"Escape", "Enter", "Backspace"} && |key| == 1 ==>
      o.state == CommandBufferSet(s, s.commandBuffer + key)
    ensures key !in {"Escape", "Enter", "Backspace"} && |key| != 1 ==> o.state == s
  {
    if key == "Escape" then Outcome(CommandBufferSet(ModeSet(s, Normal), ""), false)
    else if key == "Enter" then
      var o := Executed(s, s.commandBuffer);
      Outcome(CommandBufferSet(ModeSet(o.state, Normal), ""), o.result)
    else if key == "Backspace" then
      if |s.commandBuffer| > 0 then Outcome(CommandBufferSet(s, Slice(s.commandBuffer, 0, -1)), false)
      else Outcome(ModeSet(s, Normal), false)
    else if |key| == 1 then Outcome(CommandBufferSet(s, s.commandBuffer + key), false)
    else Outcome(s, false)
  }

  /** The engine works on one shared store. */
  class Engine {
    const store: Store

    constructor (store: Store)
      ensures this.store == store
    {
      this.store := store;
    }

    /** Run an ex command; the result says whether the editor should close. */
    method ExecuteCommand(commandString: string) returns (ok: bool)
      modifies store
      ensures Outcome(store.state, ok) == Executed(old(store.state), commandString)
    {
      var command := ParseCommand(commandString);
      if command.command in {"w", "write"} {
        ok := HandleSave();
      } else if command.command in {"q", "quit"} {
        ok := HandleQuit();
      } else if command.command in {"wq", "x"} {
        ok := HandleSave();
      } else if command.command == "q!" {
        ok := true;
      } else if command.command == "set" {
        ok := HandleSet(command.args);
      } else if command.command in {"e", "edit"} {
        ok := HandleEdit(command.args);
      } else if command.command == "help" {
        store.SetStatusMessage("VIM - Vi IMproved");
        ok := true;
      } else if command.command == "" {
        store.SetStatusMessage("");
        ok := true;
      } else if IsDigits(command.command) {
        ok := HandleLineJump(DigitsValue(command.command));
      } else {
        store.SetStatusMessage("E492: Not an editor command: " + commandString);
        ok := false;
      }
    }

    method HandleSave() returns (ok: bool)
      modifies store
      ensures Outcome(store.state, ok) == Save(old(store.state))
    {
      if store.state.filename == "" {
        store.SetStatusMessage(NoFileName);
        return false;
      }
      store.SaveFile();
      return true;
    }

    method HandleQuit() returns (ok: bool)
      modifies store
      ensures Outcome(store.state, ok) == Quit(old(store.state))
    {
      if store.state.isModified {
        store.SetStatusMessage(NoWrite);
        return false;
      }
      return true;
    }

    method HandleSet(args: seq<string>) returns (ok: bool)
      modifies store
      ensures Outcome(store.state, ok) == SetOption(old(store.state), args)
    {
      if |args| == 0 {
        store.SetStatusMessage(UnknownOption);
        return false;
      }
      var option := args[0];
      if option in {"number", "nu", "nonumber", "nonu", "paste", "nopaste"} {
        store.SetStatusMessage(OptionMessage(option));
        return true;
      }
      store.SetStatusMessage(UnknownOption + ": " + option);
      return false;
    }

    method HandleEdit(args: seq<string>) returns (ok: bool)
      modifies store
      ensures Outcome(store.state, ok) == Edit(old(store.state), args)
    {
      if |args| == 0 || args[0] == "" {
        store.SetStatusMessage(NoFileName);
        return false;
      }
      store.OpenVim(args[0], "");
      return true;
    }

    method HandleLineJump(n: int) returns (ok: bool)
      modifies store
      ensures Outcome(store.state, ok) == LineJump(old(store.state), n)
    {
      var maxLine := |Lines(store.state.content)|;
      if n < 1 || n > maxLine {
        store.SetStatusMessage(InvalidRange);
        return false;
      }
      store.SetCursor(n - 1, 0);
      return true;
    }

    method ProcessNormalModeKey(key: string, ctrlKey: bool, shiftKey: bool)
      modifies store
      ensures store.state == NormalKey(old(store.state), key, ctrlKey, shiftKey)
    {
      var lines := Lines(store.state.content);
      var line := store.state.cursor.line;
      match KeyCommand(key) {
        case InsertHere | AppendAfter | OpenBelow | OpenAbove | VisualMode | ReplaceMode | CommandLine =>
          ProcessModeKey(key, ctrlKey, shiftKey);
        case Left | Down | Up | Right | GoTo | LineStart | LineEnd =>
          ProcessMotionKey(key, ctrlKey, shiftKey);
        case UndoKey =>
          store.Undo();
        case RedoKey =>
          if ctrlKey {
            store.Redo();
          }
        case DeleteKey =>
          if shiftKey {
            var remaining := Spliced(lines, line, 1, []);
            if |remaining| == 0 {
              remaining := [""];
            }
            assert remaining == Remaining(lines, line);
            store.SetContent(Join(remaining, "\n"));
            store.SetCursor(Min(line, |remaining| - 1), 0);
          }
        case Other =>
      }
    }

    /** The mode changes of the normal-mode switch, with the cursor moves and blank lines that go with them. */
    method ProcessModeKey(key: string, ctrlKey: bool, shiftKey: bool)
      requires KeyCommand(key).InsertHere? || KeyCommand(key).AppendAfter? || KeyCommand(key).OpenBelow?
        || KeyCommand(key).OpenAbove? || KeyCommand(key).VisualMode? || KeyCommand(key).ReplaceMode?
        || KeyCommand(key).CommandLine?
      modifies store
      ensures store.state == NormalKey(old(store.state), key, ctrlKey, shiftKey)
    {
      var lines := Lines(store.state.content);
      var line := store.state.cursor.line;
      var column := store.state.cursor.column;
      match KeyCommand(key) {
        case InsertHere =>
          store.SetMode(Insert);
        case AppendAfter =>
          store.SetMode(Insert);
          store.SetCursor(line, Min(column + 1, LineLength(lines, line)));
        case OpenBelow =>
          store.SetMode(Insert);
          store.SetContent(WithEmptyLine(lines, line + 1));
          store.SetCursor(line + 1, 0);
        case OpenAbove =>
          store.SetMode(Insert);
          store.SetContent(WithEmptyLine(lines, line));
          store.SetCursor(line, 0);
        case VisualMode =>
          store.SetMode(Visual);
        case ReplaceMode =>
          store.SetMode(Replace);
        case CommandLine =>
          store.SetMode(Command);
          store.SetCommandBuffer("");
        case _ =>
          assert false;
      }
    }

    /** The cursor motions of the normal-mode switch. */
    method ProcessMotionKey(key: string, ctrlKey: bool, shiftKey: bool)
      requires KeyCommand(key).Left? || KeyCommand(key).Down? || KeyCommand(key).Up? || KeyCommand(key).Right?
        || KeyCommand(key).GoTo? || KeyCommand(key).LineStart? || KeyCommand(key).LineEnd?
      modifies store
      ensures store.state == NormalKey(old(store.state), key, ctrlKey, shiftKey)
    {
      var lines := Lines(store.state.content);
      var line := store.state.cursor.line;
      var column := store.state.cursor.column;
      match KeyCommand(key) {
        case Left =>
          if column > 0 {
            store.SetCursor(line, column - 1);
          }
        case Down =>
          if line < |lines| - 1 {
            store.SetCursor(line + 1, Min(column, LineLength(lines, line + 1)));
          }
        case Up =>
          if line > 0 {
            store.SetCursor(line - 1, Min(column, LineLength(lines, line - 1)));
          }
        case Right =>
          if column < LineLength(lines, line) - 1 {
            store.SetCursor(line, column + 1);
          }
        case GoTo =>
          if shiftKey {
            store.SetCursor(|lines| - 1, 0);
          } else {
            store.SetCursor(0, 0);
          }
        case LineStart =>
          store.SetCursor(line, 0);
        case LineEnd =>
          store.SetCursor(line, Max(0, (if LineLength(lines, line) == 0 then 1 else LineLength(lines, line)) - 1));
        case _ =>
          assert false;
      }
    }

    method ProcessInsertModeKey(key: string)
      modifies store
      ensures store.state == InsertKey(old(store.state), key)
    {
      if key == "Escape" {
        store.SetMode(Normal);
        var lineLength: int := LineLength(Lines(store.state.content), store.state.cursor.line);
        if store.state.cursor.column > 0 && store.state.cursor.column >= lineLength {
          store.SetCursor(store.state.cursor.line, Max(0, lineLength - 1));
        }
      }
    }

    /** A command-mode key; the result says whether the editor should close. */
    method ProcessCommandModeKey(key: string) returns (shouldExit: bool)
      modifies store
      ensures Outcome(store.state, shouldExit) == CommandKey(old(store.state), key)
    {
      var buffer := store.state.commandBuffer;
      if key == "Escape" {
        store.SetMode(Normal);
        store.SetCommandBuffer("");
        return false;
      }
      if key == "Enter" {
        shouldExit := ExecuteCommand(buffer);
        store.SetMode(Normal);
        store.SetCommandBuffer("");
        return shouldExit;
      }
      if key == "Backspace" {
        if |buffer| > 0 {
          store.SetCommandBuffer(Slice(buffer, 0, -1));
        } else {
          store.SetMode(Normal);
        }
        return false;
      }
      if |key| == 1 {
        store.SetCommandBuffer(buffer + key);
      }
      return false;
    }
  }

  /** A cursor on an existing line, at most one column past its end. */
  predicate InBounds(s: EditorState) {
    var lines := Lines(s.content);
    0 <= s.cursor.line < |lines| && 0 <= s.cursor.column <= |lines[s.cursor.line]|
  }

  /** The cursor motions keep a cursor that is in bounds in bounds. */
  lemma MotionsKeepCursorInBounds(s: EditorState, key: string, ctrlKey: bool, shiftKey: bool)
    requires InBounds(s)
    requires KeyCommand(key) in {AppendAfter, Left, Down, Up, Right, GoTo, LineStart, LineEnd}
    ensures InBounds(NormalKey(s, key, ctrlKey, shiftKey))
  {
  }

  /** No normal-mode key breaks the modified flag, and only undo and redo touch the history, moving single entries. */
  lemma NormalKeysKeepConsistencyAndHistory(s: EditorState, key: string, ctrlKey: bool, shiftKey: bool)
    requires Consistent(s)
    ensures var r := NormalKey(s, key, ctrlKey, shiftKey);
            Consistent(r) &&
            |r.history.undo| + |r.history.redo| == |s.history.undo| + |s.history.redo|
    ensures key != "u" && key != "r" ==> NormalKey(s, key, ctrlKey, shiftKey).history == s.history
  {
    HistoryKeys(key);
    match KeyCommand(key)
    case UndoKey =>
    case RedoKey =>
    case DeleteKey =>
    case OpenBelow =>
    case OpenAbove =>
    case _ =>
  }

  /** Only `u` is the undo case and only `r` the redo case. */
  lemma HistoryKeys(key: string)
    ensures KeyCommand(key) == UndoKey <==> key == "u"
    ensures KeyCommand(key) == RedoKey <==> key == "r"
  {
  }

  /** Splitting the buffer written back from lines gives those lines, when none holds a newline. */
  lemma LinesOfJoin(lines: seq<string>)
    requires |lines| >= 1 && forall i :: 0 <= i < |lines| ==> '\n' !in lines[i]
    ensures Lines(Join(lines, "\n")) == lines
  {
    SplitJoin(lines, '\n');
  }

  /** `o` opens an empty line below the cursor line and puts the cursor at its start. */
  lemma OpenBelowInsertsEmptyLine(s: EditorState)
    requires InBounds(s)
    ensures var r := NormalKey(s, "o", false, false);
            var lines := Lines(s.content);
            Lines(r.content) == lines[..s.cursor.line + 1] + [""] + lines[s.cursor.line + 1..] &&
            r.mode == Insert && r.cursor == Cursor(s.cursor.line + 1, 0) && InBounds(r)
  {
    var lines := Lines(s.content);
    var k := s.cursor.line + 1;
    var withEmpty := lines[..k] + [""] + lines[k..];
    SplitPiecesExcludeSep(s.content, '\n');
    assert forall i :: 0 <= i < |withEmpty| ==> '\n' !in withEmpty[i] by {
      forall i | 0 <= i < |withEmpty| ensures '\n' !in withEmpty[i] {
        if i < k { assert withEmpty[i] == lines[i]; }
        else if i > k { assert withEmpty[i] == lines[i - 1]; }
      }
    }
    LinesOfJoin(withEmpty);
  }

  /** Shift-`d` removes the cursor line; the buffer keeps at least one line and the cursor stays in it. */
  lemma DeleteLineKeepsALine(s: EditorState)
    requires InBounds(s)
    ensures var r := NormalKey(s, "d", false, true);
            var lines := Lines(s.content);
            Lines(r.content) == (if |lines| == 1 then [""] else lines[..s.cursor.line] + lines[s.cursor.line + 1..]) &&
            r.cursor.column == 0 && InBounds(r)
  {
    var lines := Lines(s.content);
    var remaining := RemainingWithoutLine(lines, s.cursor.line);
    DeleteKeyState(s);
    RemainingHaveNoNewline(s.content, s.cursor.line);
    LinesOfJoin(remaining);
  }

  /** The lines left after a deletion still hold no newline. */
  lemma RemainingHaveNoNewline(content: string, k: int)
    requires 0 <= k < |Lines(content)|
    ensures var remaining := Remaining(Lines(content), k);
            forall i :: 0 <= i < |remaining| ==> '\n' !in remaining[i]
  {
    var lines := Lines(content);
    var remaining := RemainingWithoutLine(lines, k);
    SplitPiecesExcludeSep(content, '\n');
    if |lines| > 1 {
      forall i | 0 <= i < |remaining| ensures '\n' !in remaining[i] {
        if i < k { assert remaining[i] == lines[i]; }
        else { assert remaining[i] == lines[i + 1]; }
      }
    }
  }

  /** `Shift+d` (key `d` with shift) joins what `Remaining` leaves and puts the cursor at the start of a line. */
  lemma DeleteKeyState(s: EditorState)
    ensures var lines := Lines(s.content);
            var remaining := Remaining(lines, s.cursor.line);
            NormalKey(s, "d", false, true) ==
              CursorSet(ContentSet(s, Join(remaining, "\n")), Min(s.cursor.line, |remaining| - 1), 0)
  {
    assert KeyCommand("d") == DeleteKey;
  }

  /** Deleting a line leaves the other lines, or one empty line when none is left. */
  lemma RemainingWithoutLine(lines: seq<string>, k: int) returns (remaining: seq<string>)
    requires 0 <= k < |lines|
    ensures remaining == Remaining(lines, k)
    ensures remaining == (if |lines| == 1 then [""] else lines[..k] + lines[k + 1..])
  {
    remaining := Remaining(lines, k);
  }

  /** Escape from insert mode leaves a cursor that is in bounds in bounds. */
  lemma EscapeKeepsCursorInBounds(s: EditorState)
    requires InBounds(s)
    ensures InBounds(InsertKey(s, "Escape"))
  {
  }

  /** An all-digit command is a jump to that line. */
  lemma DigitsCommandJumps(s: EditorState, d: string)
    requires IsDigits(d)
    ensures Executed(s, d) == LineJump(s, DigitsValue(d))
  {
    assert NoSpace(d) by {
      forall i | 0 <= i < |d| ensures !IsSpace(d[i]) { assert '0' <= d[i] <= '9'; }
    }
    ParseWord(d);
  }

  /** The quit family: `:q!` always closes, `:q` closes iff nothing is unsaved, `:x` is `:wq`. */
  lemma QuitCommands(s: EditorState)
    ensures Executed(s, "q!") == Outcome(s, true)
    ensures Executed(s, "q").result <==> !s.isModified
    ensures Executed(s, "x") == Executed(s, "wq") == Save(s)
  {
    ExecutedWord(s, "q!");
    ExecutedWord(s, "q");
    ExecutedWord(s, "x");
    ExecutedWord(s, "wq");
  }

  /** A single word runs as a command without arguments. */
  lemma ExecutedWord(s: EditorState, w: string)
    requires w in {"q!", "q", "x", "wq"}
    ensures w == "q!" ==> Executed(s, w) == Outcome(s, true)
    ensures w == "q" ==> Executed(s, w) == Quit(s)
    ensures w in {"x", "wq"} ==> Executed(s, w) == Save(s)
  {
    ParseWord(w);
  }

  /** A command line that starts with white space runs as the empty command: nothing is written. */
  lemma LeadingSpaceRunsNothing(s: EditorState, rest: string)
    ensures Executed(s, " " + rest) == Outcome(StatusSet(s, ""), true)
  {
    ParseLeadingSpace(" " + rest);
  }

  /**
   * `Enter` in command mode resets the status after running the command, so
   * an error such as writing without a file name leaves no message behind.
   */
  lemma EnterWipesErrorMessage(s: EditorState)
    requires s.filename == "" && s.commandBuffer == "w"
    ensures var o := CommandKey(s, "Enter");
            !o.result && o.state.statusMessage == "" && o.state.savedContent == s.savedContent
  {
    ParseWord("w");
  }

  /** In command mode the status echoes the buffer after a colon. */
  predicate Echoes(s: EditorState) {
    s.mode == Command && s.statusMessage == ":" + s.commandBuffer
  }

  /** The state after typing the characters of `typed` one key at a time in command mode. */
  function TypeChars(s: EditorState, typed: string): EditorState
    decreases |typed|
  {
    if typed == [] then s else TypeChars(CommandKey(s, [typed[0]]).state, typed[1..])
  }

  /** Typing and `Backspace` keep the echo of the buffer while the buffer is not emptied. */
  lemma EditingKeepsEcho(s: EditorState, key: string)
    requires Echoes(s)
    requires key != "Escape" && key != "Enter"
    requires key == "Backspace" ==> s.commandBuffer != []
    ensures Echoes(CommandKey(s, key).state)
  {
  }

  /** Typing characters in command mode appends them to the buffer and to its echo. */
  lemma {:induction false} TypeCharsAppends(s: EditorState, typed: string)
    requires Echoes(s)
    ensures TypeChars(s, typed) == s.(commandBuffer := s.commandBuffer + typed,
                                      statusMessage := ":" + (s.commandBuffer + typed))
    decreases |typed|
  {
    if typed != [] {
      var t := CommandKey(s, [typed[0]]).state;
      var rest := typed[1..];
      TypeOneChar(s, typed[0]);
      TypeCharsAppends(t, rest);
      assert t.commandBuffer + rest == s.commandBuffer + typed by {
        ConcatAssociates(s.commandBuffer, [typed[0]], rest);
        HeadThenTail(typed);
      }
    }
  }

  /** One typed character is appended to the buffer and its echo. */
  lemma TypeOneChar(s: EditorState, c: char)
    requires Echoes(s)
    ensures CommandKey(s, [c]).state == s.(commandBuffer := s.commandBuffer + [c],
                                           statusMessage := ":" + (s.commandBuffer + [c]))
  {
    assert |[c]| == 1;
    assert [c] != "Escape" && [c] != "Enter" && [c] != "Backspace";
  }

  /** `:`, then the characters of a command, then `Enter` runs exactly that command. */
  lemma ColonTypeEnterRunsCommand(s: EditorState, typed: string)
    requires s.mode == Normal
    ensures var t := TypeChars(NormalKey(s, ":", false, false), typed);
            t.commandBuffer == typed &&
            CommandKey(t, "Enter").result == Executed(t, typed).result
  {
    TypeCharsAppends(NormalKey(s, ":", false, false), typed);
  }
}
