/**
 * The array-based vim emulator of the terminal view: a table of key bindings,
 * each a transition from the editor state to a partial update of it, plus the
 * insert-mode and command-mode key handlers and the viewport follower.
 */
module TerminalVimEngine {
  import opened Optional
  import opened JsText
  import opened JsArray
  import opened TerminalTypes

  /**
   * A `Partial<VimState>`: the fields a transition sets. Only the fields the
   * engine ever sets are present.
   */
  datatype VimChanges = VimChanges(
    mode: Option<VimMode>,
    content: Option<seq<string>>,
    cursorRow: Option<int>,
    cursorCol: Option<int>,
    savedContent: Option<seq<string>>,
    commandBuffer: Option<string>,
    visualStart: Option<Pos>,
    visualEnd: Option<Pos>,
    yankBuffer: Option<seq<string>>,
    showLineNumbers: Option<bool>)

  /** The empty update `{}`. */
  const NoChanges := VimChanges(None, None, None, None, None, None, None, None, None, None)

  /** `{ ...state, ...changes }`: every field the update sets replaces the state's. */
  function Merge(s: VimState, ch: VimChanges): (r: VimState)
    ensures r.filename == s.filename && r.viewportStart == s.viewportStart
    ensures r.lastCommand == s.lastCommand && r.marks == s.marks
    ensures ch.mode.Some? ==> r.mode == ch.mode.value
    ensures ch.mode.None? ==> r.mode == s.mode
    ensures ch.content.Some? ==> r.content == ch.content.value
    ensures ch.content.None? ==> r.content == s.content
    ensures ch.cursorRow.Some? ==> r.cursorRow == ch.cursorRow.value
    ensures ch.cursorRow.None? ==> r.cursorRow == s.cursorRow
    ensures ch.cursorCol.Some? ==> r.cursorCol == ch.cursorCol.value
    ensures ch.cursorCol.None? ==> r.cursorCol == s.cursorCol
    ensures ch.savedContent.Some? ==> r.savedContent == ch.savedContent.value
    ensures ch.savedContent.None? ==> r.savedContent == s.savedContent
    ensures ch.commandBuffer.Some? ==> r.commandBuffer == ch.commandBuffer.value
    ensures ch.commandBuffer.None? ==> r.commandBuffer == s.commandBuffer
    ensures ch.visualStart.Some? ==> r.visualStart == ch.visualStart
    ensures ch.visualStart.None? ==> r.visualStart == s.visualStart
    ensures ch.visualEnd.Some? ==> r.visualEnd == ch.visualEnd
    ensures ch.visualEnd.None? ==> r.visualEnd == s.visualEnd
    ensures ch.yankBuffer.Some? ==> r.yankBuffer == ch.yankBuffer.value
    ensures ch.yankBuffer.None? ==> r.yankBuffer == s.yankBuffer
    ensures ch.showLineNumbers.Some? ==> r.showLineNumbers == ch.showLineNumbers.value
    ensures ch.showLineNumbers.None? ==> r.showLineNumbers == s.showLineNumbers
    ensures ch == NoChanges ==> r == s
  {
    s.(mode := ch.mode.GetOr(s.mode),
       content := ch.content.GetOr(s.content),
       cursorRow := ch.cursorRow.GetOr(s.cursorRow),
       cursorCol := ch.cursorCol.GetOr(s.cursorCol),
       savedContent := ch.savedContent.GetOr(s.savedContent),
       commandBuffer := ch.commandBuffer.GetOr(s.commandBuffer),
       visualStart := if ch.visualStart.Some? then ch.visualStart else s.visualStart,
       visualEnd := if ch.visualEnd.Some? then ch.visualEnd else s.visualEnd,
       yankBuffer := ch.yankBuffer.GetOr(s.yankBuffer),
       showLineNumbers := ch.showLineNumbers.GetOr(s.showLineNumbers))
  }

  /** Spreading the same update twice changes nothing more than spreading it once. */
  lemma MergeIdempotent(s: VimState, ch: VimChanges)
    ensures Merge(Merge(s, ch), ch) == Merge(s, ch)
  {
  }

  /** The key actions of the default table, one per registered binding. */
  datatype Action =
    | EnterInsert | Append | OpenBelow | DeleteLine | YankLine | Paste
    | Left | Down | Up | Right | EnterVisual | EnterCommand

  /** A binding: the key, what it does, and the modes in which it is active. */
  datatype VimCommand = VimCommand(key: string, action: Action, modes: seq<VimMode>)

  /** `i`: insert mode, remembering the buffer. */
  function InsertAction(s: VimState): (ch: VimChanges)
    ensures Merge(s, ch) == s.(mode := Insert, savedContent := s.content)
  {
    NoChanges.(mode := Some(Insert), savedContent := Some(s.content))
  }

  /** `a`: insert mode one column to the right, but not past the end of the line. */
  function AppendAction(s: VimState): (ch: VimChanges)
    ensures ch.mode == Some(Insert) && ch.savedContent == Some(s.content)
    ensures ch.cursorCol.Some? && ch.cursorCol.value <= LineLength(s.content, s.cursorRow)
    ensures s.cursorCol < LineLength(s.content, s.cursorRow) ==> ch.cursorCol == Some(s.cursorCol + 1)
    ensures ch.content.None? && ch.cursorRow.None?
  {
    NoChanges.(mode := Some(Insert),
               cursorCol := Some(Min(s.cursorCol + 1, LineLength(s.content, s.cursorRow))),
               savedContent := Some(s.content))
  }

  /** `o`: a new empty line below the cursor row, entered in insert mode. */
  function OpenBelowAction(s: VimState): (ch: VimChanges)
    ensures ch.mode == Some(Insert) && ch.savedContent == Some(s.content)
    ensures ch.cursorRow == Some(s.cursorRow + 1) && ch.cursorCol == Some(0)
    ensures ch.content.Some? && |ch.content.value| == |s.content| + 1
    ensures 0 <= s.cursorRow < |s.content| ==>
      ch.content.value == s.content[..s.cursorRow + 1] + [""] + s.content[s.cursorRow + 1..]
  {
    NoChanges.(mode := Some(Insert),
               content := Some(Spliced(s.content, s.cursorRow + 1, 0, [""])),
               cursorRow := Some(s.cursorRow + 1),
               cursorCol := Some(0),
               savedContent := Some(s.content))
  }

  /** `dd`: cut the cursor line into the yank buffer; the buffer never becomes empty. */
  function DeleteLineAction(s: VimState): (ch: VimChanges)
    ensures ch.content.Some? && |ch.content.value| >= 1
    ensures ch.yankBuffer == Some(Removed(s.content, s.cursorRow, 1))
    ensures ch.cursorRow == Some(Min(s.cursorRow, |Spliced(s.content, s.cursorRow, 1, [])| - 1))
    ensures ch.cursorCol == Some(0) && ch.mode.None?
    ensures 0 <= s.cursorRow < |s.content| ==>
      ch.yankBuffer == Some([s.content[s.cursorRow]]) &&
      ch.content.value == (if |s.content| == 1 then [""]
                           else s.content[..s.cursorRow] + s.content[s.cursorRow + 1..])
  {
    var newContent := Spliced(s.content, s.cursorRow, 1, []);
    NoChanges.(content := Some(if |newContent| > 0 then newContent else [""]),
               cursorRow := Some(Min(s.cursorRow, |newContent| - 1)),
               cursorCol := Some(0),
               yankBuffer := Some(Removed(s.content, s.cursorRow, 1)))
  }

  /** `yy`: copy the cursor line into the yank buffer. */
  function YankLineAction(s: VimState): (ch: VimChanges)
    ensures Merge(s, ch) == s.(yankBuffer := [LineAt(s.content, s.cursorRow)])
  {
    NoChanges.(yankBuffer := Some([LineAt(s.content, s.cursorRow)]))
  }

  /** `p`: put the yank buffer below the cursor row and move onto its first line. */
  function PasteAction(s: VimState): (ch: VimChanges)
    ensures s.yankBuffer == [] ==> ch == NoChanges
    ensures s.yankBuffer != [] ==>
      ch.content.Some? && |ch.content.value| == |s.content| + |s.yankBuffer| &&
      ch.cursorRow == Some(s.cursorRow + 1) && ch.cursorCol.None? && ch.mode.None?
    ensures s.yankBuffer != [] && 0 <= s.cursorRow < |s.content| ==>
      ch.content.value == s.content[..s.cursorRow + 1] + s.yankBuffer + s.content[s.cursorRow + 1..]
  {
    if s.yankBuffer == [] then NoChanges
    else NoChanges.(content := Some(Spliced(s.content, s.cursorRow + 1, 0, s.yankBuffer)),
                    cursorRow := Some(s.cursorRow + 1))
  }

  /** `h`: one column left, never below column 0. */
  function LeftAction(s: VimState): (ch: VimChanges)
    ensures ch.cursorCol.Some? && ch.cursorCol.value >= 0
    ensures s.cursorCol >= 1 ==> ch.cursorCol.value == s.cursorCol - 1
    ensures Merge(s, ch) == s.(cursorCol := ch.cursorCol.value)
  {
    NoChanges.(cursorCol := Some(Max(0, s.cursorCol - 1)))
  }

  /** `j`: one row down, never past the last line; the column is capped by the target line. */
  function DownAction(s: VimState): (ch: VimChanges)
    ensures ch.cursorRow.Some? && ch.cursorCol.Some?
    ensures ch.cursorRow.value <= |s.content| - 1
    ensures s.cursorRow + 1 <= |s.content| - 1 ==> ch.cursorRow.value == s.cursorRow + 1
    ensures ch.cursorCol.value <= s.cursorCol
    ensures ch.cursorCol.value <= LineLength(s.content, ch.cursorRow.value)
    ensures Merge(s, ch) == s.(cursorRow := ch.cursorRow.value, cursorCol := ch.cursorCol.value)
  {
    var row := Min(|s.content| - 1, s.cursorRow + 1);
    NoChanges.(cursorRow := Some(row), cursorCol := Some(Min(s.cursorCol, LineLength(s.content, row))))
  }

  /** `k`: one row up, never above row 0; the column is capped by the target line. */
  function UpAction(s: VimState): (ch: VimChanges)
    ensures ch.cursorRow.Some? && ch.cursorCol.Some?
    ensures ch.cursorRow.value >= 0
    ensures s.cursorRow >= 1 ==> ch.cursorRow.value == s.cursorRow - 1
    ensures ch.cursorCol.value <= s.cursorCol
    ensures ch.cursorCol.value <= LineLength(s.content, ch.cursorRow.value)
    ensures Merge(s, ch) == s.(cursorRow := ch.cursorRow.value, cursorCol := ch.cursorCol.value)
  {
    var row := Max(0, s.cursorRow - 1);
    NoChanges.(cursorRow := Some(row), cursorCol := Some(Min(s.cursorCol, LineLength(s.content, row))))
  }

  /** `l`: one column right, up to (and including) the end of the line. */
  function RightAction(s: VimState): (ch: VimChanges)
    ensures ch.cursorCol.Some? && ch.cursorCol.value <= LineLength(s.content, s.cursorRow)
    ensures s.cursorCol < LineLength(s.content, s.cursorRow) ==> ch.cursorCol.value == s.cursorCol + 1
    ensures Merge(s, ch) == s.(cursorCol := ch.cursorCol.value)
  {
    NoChanges.(cursorCol := Some(Min(LineLength(s.content, s.cursorRow), s.cursorCol + 1)))
  }

  /** `v`: visual mode with the selection anchored at the cursor. */
  function VisualAction(s: VimState): (ch: VimChanges)
    ensures Merge(s, ch) == s.(mode := Visual,
                               visualStart := Some(Pos(s.cursorRow, s.cursorCol)),
                               visualEnd := Some(Pos(s.cursorRow, s.cursorCol)))
  {
    NoChanges.(mode := Some(Visual),
               visualStart := Some(Pos(s.cursorRow, s.cursorCol)),
               visualEnd := Some(Pos(s.cursorRow, s.cursorCol)))
  }

  /** `:`: command mode with the buffer holding the colon. */
  function CommandAction(s: VimState): (ch: VimChanges)
    ensures Merge(s, ch) == s.(mode := CommandMode, commandBuffer := ":")
  {
    NoChanges.(mode := Some(CommandMode), commandBuffer := Some(":"))
  }

  /**
   * What a bound action does to the state. Motions set only the cursor; only
   * `o`, `dd` and `p` set the lines, only `dd` and `yy` the yank buffer, and
   * only `i`, `a`, `o`, `v` and `:` the mode.
   */
  function Apply(a: Action, s: VimState): (r: VimChanges)
    ensures a in {Left, Down, Up, Right} ==> r == NoChanges.(cursorRow := r.cursorRow, cursorCol := r.cursorCol)
    ensures r.content.Some? ==> a in {OpenBelow, DeleteLine, Paste}
    ensures r.yankBuffer.Some? ==> a in {DeleteLine, YankLine}
    ensures r.mode.Some? ==> a in {EnterInsert, Append, OpenBelow, EnterVisual, EnterCommand}
  {
    match a
    case EnterInsert => InsertAction(s)
    case Append => AppendAction(s)
    case OpenBelow => OpenBelowAction(s)
    case DeleteLine => DeleteLineAction(s)
    case YankLine => YankLineAction(s)
    case Paste => PasteAction(s)
    case Left => LeftAction(s)
    case Down => DownAction(s)
    case Up => UpAction(s)
    case Right => RightAction(s)
    case EnterVisual => VisualAction(s)
    case EnterCommand => CommandAction(s)
  }

  /**
   * The bindings the engine registers when it is created: each binding is
   * filed under its own key.
   */
  function DefaultCommands(): (r: map<string, VimCommand>)
    ensures forall k :: k in r ==> r[k].key == k
  {
    map[
      "i" := VimCommand("i", EnterInsert, [Normal]),
      "a" := VimCommand("a", Append, [Normal]),
      "o" := VimCommand("o", OpenBelow, [Normal]),
      "dd" := VimCommand("dd", DeleteLine, [Normal]),
      "yy" := VimCommand("yy", YankLine, [Normal]),
      "p" := VimCommand("p", Paste, [Normal]),
      "h" := VimCommand("h", Left, [Normal, Visual]),
      "j" := VimCommand("j", Down, [Normal, Visual]),
      "k" := VimCommand("k", Up, [Normal, Visual]),
      "l" := VimCommand("l", Right, [Normal, Visual]),
      "v" := VimCommand("v", EnterVisual, [Normal]),
      ":" := VimCommand(":", EnterCommand, [Normal])
    ]
  }

  /** The engine: a mutable table from key to binding. */
  class VimEngine {
    var commands: map<string, VimCommand>

    constructor ()
      ensures commands == DefaultCommands()
    {
      commands := DefaultCommands();
    }

    /** Register a binding under its key, replacing any binding already there. */
    method RegisterCommand(command: VimCommand)
      modifies this
      ensures commands == old(commands)[command.key := command]
    {
      commands := commands[command.key := command];
    }

    /** The update a normal- or visual-mode key produces, or `None` when it is not bound in this mode. */
    function ExecuteCommand(key: string, s: VimState): (r: Option<VimChanges>)
      reads this
      ensures r.None? <==> key !in commands || s.mode !in commands[key].modes
      ensures r.Some? ==> r.value == Apply(commands[key].action, s)
    {
      if key in commands && s.mode in commands[key].modes then Some(Apply(commands[key].action, s))
      else None
    }
  }

  /** An insert-mode key: Escape leaves insert mode, Enter splits the line, Backspace deletes, anything else is typed. */
  function ProcessInsertModeKey(key: string, s: VimState): (ch: VimChanges)
    ensures key == "Escape" ==> ch == NoChanges.(mode := Some(Normal), savedContent := Some(s.content))
    ensures key == "Backspace" && s.cursorCol <= 0 ==> ch == NoChanges
    ensures key != "Escape" && !(key == "Backspace" && s.cursorCol <= 0) ==>
      ch.mode.None? && ch.content.Some? && |ch.content.value| >= 1
  {
    if key == "Escape" then NoChanges.(mode := Some(Normal), savedContent := Some(s.content))
    else
      var newContent := if |s.content| == 0 then [""] else s.content;
      var row := s.cursorRow;
      var col := s.cursorCol;
      var currentLine := LineAt(newContent, row);
      if key == "Enter" then
        var withBefore := AssignAt(newContent, row, Substring(currentLine, 0, col));
        NoChanges.(content := Some(Spliced(withBefore, row + 1, 0, [SubstringFrom(currentLine, col)])),
                   cursorRow := Some(row + 1),
                   cursorCol := Some(0))
      else if key == "Backspace" then
        if col > 0 then
          NoChanges.(content := Some(AssignAt(newContent, row,
                                              Substring(currentLine, 0, col - 1) + SubstringFrom(currentLine, col))),
                     cursorCol := Some(col - 1))
        else NoChanges
      else
        NoChanges.(content := Some(AssignAt(newContent, row,
                                            Substring(currentLine, 0, col) + key + SubstringFrom(currentLine, col))),
                   cursorCol := Some(col + |key|))
  }

  /** The update an ex command (the buffer without its colon) produces. */
  function ExecuteVimCommand(command: string): (ch: VimChanges)
    ensures ch.commandBuffer == Some("")
    ensures ch.mode == Some(if command in {"w", "wq", "q", "q!"} then Closed else Normal)
    ensures ch.showLineNumbers == (if command == "set number" then Some(true)
                                   else if command == "set nonumber" then Some(false) else None)
    ensures ch.content.None? && ch.cursorRow.None? && ch.cursorCol.None? && ch.savedContent.None?
  {
    if command == "w" || command == "wq" || command == "q" || command == "q!" then
      NoChanges.(mode := Some(Closed), commandBuffer := Some(""))
    else if command == "set number" then
      NoChanges.(mode := Some(Normal), commandBuffer := Some(""), showLineNumbers := Some(true))
    else if command == "set nonumber" then
      NoChanges.(mode := Some(Normal), commandBuffer := Some(""), showLineNumbers := Some(false))
    else
      NoChanges.(mode := Some(Normal), commandBuffer := Some(""))
  }

  /** A command-mode key: Escape aborts, Enter runs the buffer, Backspace erases, anything else is appended. */
  function ProcessCommandModeKey(key: string, s: VimState): (ch: VimChanges)
    ensures key == "Escape" ==> ch == NoChanges.(mode := Some(Normal), commandBuffer := Some(""))
    ensures key == "Enter" ==> ch == ExecuteVimCommand(SubstringFrom(s.commandBuffer, 1))
    ensures key == "Backspace" && |s.commandBuffer| > 1 ==>
      ch == NoChanges.(commandBuffer := Some(s.commandBuffer[..|s.commandBuffer| - 1]))
    ensures key == "Backspace" && |s.commandBuffer| <= 1 ==>
      ch == NoChanges.(mode := Some(Normal), commandBuffer := Some(""))
    ensures key !in {"Escape", "Enter", "Backspace"} ==> ch == NoChanges.(commandBuffer := Some(s.commandBuffer + key))
  {
    if key == "Escape" then NoChanges.(mode := Some(Normal), commandBuffer := Some(""))
    else if key == "Enter" then ExecuteVimCommand(SubstringFrom(s.commandBuffer, 1))
    else if key == "Backspace" then
      if |s.commandBuffer| > 1 then NoChanges.(commandBuffer := Some(Slice(s.commandBuffer, 0, -1)))
      else NoChanges.(mode := Some(Normal), commandBuffer := Some(""))
    else NoChanges.(commandBuffer := Some(s.commandBuffer + key))
  }

  /** The first visible row after scrolling just enough to show the cursor row. */
  function UpdateViewport(s: VimState, visibleLines: int): (v: int)
    ensures visibleLines >= 1 ==> v <= s.cursorRow < v + visibleLines
    ensures s.viewportStart <= s.cursorRow < s.viewportStart + visibleLines ==> v == s.viewportStart
  {
    if s.cursorRow < s.viewportStart then s.cursorRow
    else if s.cursorRow >= s.viewportStart + visibleLines then s.cursorRow - visibleLines + 1
    else s.viewportStart
  }

  /** A cursor on an existing line, at most one column past its end. */
  predicate CursorInBounds(s: VimState) {
    0 <= s.cursorRow < |s.content| && 0 <= s.cursorCol <= |s.content[s.cursorRow]|
  }

  /** The motions `h`, `j`, `k` and `l` keep a cursor that is in bounds in bounds. */
  lemma MotionsKeepCursorInBounds(s: VimState, a: Action)
    requires CursorInBounds(s)
    requires a in {Left, Down, Up, Right}
    ensures CursorInBounds(Merge(s, Apply(a, s)))
  {
  }

  /** Every binding that changes the buffer leaves at least one line in it. */
  lemma ActionsKeepContentNonEmpty(s: VimState, a: Action)
    requires |s.content| >= 1
    ensures |Merge(s, Apply(a, s)).content| >= 1
  {
  }

  /**
   * `dd` on a buffer of one line leaves one empty line, and the cursor row
   * becomes -1: the row is capped by the length of the spliced buffer, which is
   * empty, before the empty line is put back.
   */
  lemma DeleteOnlyLine(s: VimState)
    requires |s.content| == 1 && s.cursorRow == 0
    ensures Merge(s, DeleteLineAction(s)).content == [""]
    ensures Merge(s, DeleteLineAction(s)).cursorRow == -1
    ensures Merge(s, DeleteLineAction(s)).yankBuffer == s.content
  {
  }

  /** Yanking a line and putting it back duplicates the line below itself. */
  lemma YankThenPasteDuplicates(s: VimState)
    requires CursorInBounds(s)
    ensures var t := Merge(s, YankLineAction(s));
            var u := Merge(t, PasteAction(t));
            u.content == s.content[..s.cursorRow + 1] + [s.content[s.cursorRow]] + s.content[s.cursorRow + 1..] &&
            u.cursorRow == s.cursorRow + 1
  {
  }

  /** Moving down and then up returns to the starting row when there is a line below. */
  lemma DownThenUp(s: VimState)
    requires 0 <= s.cursorRow < |s.content| - 1
    ensures var t := Merge(s, DownAction(s));
            Merge(t, UpAction(t)).cursorRow == s.cursorRow
  {
  }

  /** The default bindings are active only in normal or visual mode. */
  lemma DefaultBindingsOnlyInNormalOrVisual(e: VimEngine, key: string, s: VimState)
    requires e.commands == DefaultCommands()
    requires s.mode !in {Normal, Visual}
    ensures e.ExecuteCommand(key, s).None?
  {
  }

  /** A line with the cursor in it: `Enter` cuts it in two at the cursor. */
  lemma EnterSplitsLine(s: VimState)
    requires CursorInBounds(s)
    ensures var t := Merge(s, ProcessInsertModeKey("Enter", s));
            var line := s.content[s.cursorRow];
            t.content == s.content[..s.cursorRow] + [line[..s.cursorCol], line[s.cursorCol..]] + s.content[s.cursorRow + 1..] &&
            t.content[s.cursorRow] + t.content[s.cursorRow + 1] == line &&
            t.cursorRow == s.cursorRow + 1 && t.cursorCol == 0 && CursorInBounds(t)
  {
    var line := s.content[s.cursorRow];
    var withBefore := s.content[s.cursorRow := line[..s.cursorCol]];
    assert Spliced(withBefore, s.cursorRow + 1, 0, [line[s.cursorCol..]])
        == withBefore[..s.cursorRow + 1] + [line[s.cursorCol..]] + withBefore[s.cursorRow + 1..];
    assert withBefore[..s.cursorRow + 1] == s.content[..s.cursorRow] + [line[..s.cursorCol]];
  }

  /** A key that is not one of the editing keys the insert mode interprets. */
  predicate IsTypedKey(key: string) {
    key != "Escape" && key != "Enter" && key != "Backspace"
  }

  /** Typing one character and then `Backspace` gives back the buffer and the cursor. */
  lemma TypeThenBackspace(s: VimState, c: char)
    requires CursorInBounds(s) && IsTypedKey([c])
    ensures var t := Merge(s, ProcessInsertModeKey([c], s));
            var line := s.content[s.cursorRow];
            t.content == s.content[s.cursorRow := line[..s.cursorCol] + [c] + line[s.cursorCol..]] &&
            t.cursorCol == s.cursorCol + 1 &&
            var u := Merge(t, ProcessInsertModeKey("Backspace", t));
            u.content == s.content && u.cursorRow == s.cursorRow && u.cursorCol == s.cursorCol
  {
    var line := s.content[s.cursorRow];
    var typed := line[..s.cursorCol] + [c] + line[s.cursorCol..];
    assert typed[..s.cursorCol] + typed[s.cursorCol + 1..] == line;
    assert s.content[s.cursorRow := typed][s.cursorRow := line] == s.content;
  }

  /** The command buffer after typing `keys` one at a time, each an ordinary key. */
  function TypeCommandKeys(keys: seq<string>, s: VimState): VimState {
    if keys == [] then s
    else TypeCommandKeys(keys[1..], Merge(s, ProcessCommandModeKey(keys[0], s)))
  }

  /** The concatenation of a sequence of keys. */
  function Concat(keys: seq<string>): string {
    if keys == [] then "" else keys[0] + Concat(keys[1..])
  }

  /** Typing ordinary keys in command mode appends them to the buffer and changes nothing else. */
  lemma {:induction false} TypingAppendsToBuffer(keys: seq<string>, s: VimState)
    requires forall i :: 0 <= i < |keys| ==> keys[i] !in {"Escape", "Enter", "Backspace"}
    ensures TypeCommandKeys(keys, s) == s.(commandBuffer := s.commandBuffer + Concat(keys))
  {
    if keys != [] {
      var t := Merge(s, ProcessCommandModeKey(keys[0], s));
      TypingAppendsToBuffer(keys[1..], t);
      assert s.commandBuffer + keys[0] + Concat(keys[1..]) == s.commandBuffer + Concat(keys);
    }
  }

  /** `:` followed by ordinary keys and `Enter` runs exactly the typed command. */
  lemma ColonKeysEnterRunsCommand(keys: seq<string>, s: VimState)
    requires s.mode == Normal
    requires forall i :: 0 <= i < |keys| ==> keys[i] !in {"Escape", "Enter", "Backspace"}
    ensures var t := TypeCommandKeys(keys, Merge(s, CommandAction(s)));
            ProcessCommandModeKey("Enter", t) == ExecuteVimCommand(Concat(keys))
  {
    TypingAppendsToBuffer(keys, Merge(s, CommandAction(s)));
    assert (":" + Concat(keys))[1..] == Concat(keys);
  }

  /** Once the cursor row is on screen, following it again changes nothing. */
  lemma UpdateViewportIdempotent(s: VimState, visibleLines: int)
    requires visibleLines >= 1
    ensures var v := UpdateViewport(s, visibleLines);
            UpdateViewport(s.(viewportStart := v), visibleLines) == v
  {
  }
}
