/**
 * The store that holds the terminal's vim session: a writable store whose
 * updates run the engine's transitions, and the two views derived from it
 * (the status line and the visible rows of the buffer).
 */
module TerminalVimStore {
  import opened Optional
  import opened JsText
  import opened JsArray
  import opened TerminalTypes
  import opened TerminalVimEngine

  /** The state of a closed editor. */
  const InitialState := VimState(Closed, "", [], 0, 0, 0, [], "", None, None, [], "", map[], false)

  /** The number of rows the editor shows. */
  const VisibleLines := 18

  /** The file name whose buffer is shown with line numbers. */
  const NumberedFile := "jwt.strategy.ts"

  /** The state after opening a file: a fresh normal-mode session on an empty buffer. */
  function Opened(filename: string): (r: VimState)
    ensures r.mode == Normal && r.filename == filename && r.content == []
    ensures r.showLineNumbers <==> Contains(filename, NumberedFile)
    ensures r.(mode := Closed, filename := "", showLineNumbers := false) == InitialState
  {
    InitialState.(mode := Normal, filename := filename, content := [],
                  showLineNumbers := Contains(filename, NumberedFile))
  }

  /** The state after inserting `text` at `row`, by default just below the cursor. */
  function AddedLine(s: VimState, text: string, row: Option<int>): (r: VimState)
    ensures |r.content| == |s.content| + 1
    ensures r == s.(content := r.content)
    ensures var k := row.GetOr(s.cursorRow + 1);
            0 <= k <= |s.content| ==> r.content == s.content[..k] + [text] + s.content[k..]
  {
    s.(content := Spliced(s.content, row.GetOr(s.cursorRow + 1), 0, [text]))
  }

  /** The state after replacing line `row`; a row past the end changes nothing. */
  function UpdatedLine(s: VimState, row: int, text: string): (r: VimState)
    ensures 0 <= row < |s.content| ==> r == s.(content := s.content[row := text])
    ensures !(0 <= row < |s.content|) ==> r == s
  {
    s.(content := if row < |s.content| then AssignAt(s.content, row, text) else s.content)
  }

  /** The state after placing the cursor, clamped to the buffer's rows and to non-negative columns. */
  function CursorSet(s: VimState, row: int, col: int): (r: VimState)
    ensures r == s.(cursorRow := r.cursorRow, cursorCol := r.cursorCol)
    ensures r.cursorRow >= 0 && r.cursorCol >= 0
    ensures |s.content| >= 1 ==> r.cursorRow < |s.content|
    ensures 0 <= row < |s.content| ==> r.cursorRow == row
    ensures col >= 0 ==> r.cursorCol == col
  {
    s.(cursorRow := Max(0, Min(row, |s.content| - 1)), cursorCol := Max(0, col))
  }

  /** The store. The engine is created with the store and keeps its default bindings. */
  class VimStore {
    const engine: VimEngine
    var state: VimState

    /** The store's invariant: the bindings of its engine are the default ones. */
    predicate Valid()
      reads this, engine
    {
      engine.commands == DefaultCommands()
    }

    constructor ()
      ensures Valid() && state == InitialState
    {
      engine := new VimEngine();
      state := InitialState;
    }

    method Open(filename: string)
      requires Valid()
      modifies this
      ensures Valid()
      ensures state == Opened(filename)
    {
      state := Opened(filename);
    }

    method Close()
      requires Valid()
      modifies this
      ensures Valid()
      ensures state == InitialState
    {
      state := InitialState;
    }

    /** A normal- or visual-mode key: the bound transition, or nothing when the key is not bound in this mode. */
    method ExecuteCommand(key: string)
      requires Valid()
      modifies this
      ensures Valid()
      ensures state == match engine.ExecuteCommand(key, old(state))
                       case Some(ch) => Merge(old(state), ch)
                       case None => old(state)
      ensures key !in DefaultCommands() || old(state).mode !in {Normal, Visual} ==> state == old(state)
    {
      if old(state).mode !in {Normal, Visual} {
        DefaultBindingsOnlyInNormalOrVisual(engine, key, state);
      }
      var changes := engine.ExecuteCommand(key, state);
      if changes.Some? {
        state := Merge(state, changes.value);
      }
    }

    method ProcessInsertKey(key: string)
      requires Valid()
      modifies this
      ensures Valid()
      ensures state == Merge(old(state), ProcessInsertModeKey(key, old(state)))
    {
      state := Merge(state, ProcessInsertModeKey(key, state));
    }

    method ProcessCommandKey(key: string)
      requires Valid()
      modifies this
      ensures Valid()
      ensures state == Merge(old(state), ProcessCommandModeKey(key, old(state)))
    {
      state := Merge(state, ProcessCommandModeKey(key, state));
    }

    method UpdateViewport(visibleLines: int)
      requires Valid()
      modifies this
      ensures Valid()
      ensures state == old(state).(viewportStart := TerminalVimEngine.UpdateViewport(old(state), visibleLines))
    {
      state := state.(viewportStart := TerminalVimEngine.UpdateViewport(state, visibleLines));
    }

    method SetMode(mode: VimMode)
      requires Valid()
      modifies this
      ensures Valid()
      ensures state == old(state).(mode := mode)
    {
      state := state.(mode := mode);
    }

    method SetContent(content: seq<string>)
      requires Valid()
      modifies this
      ensures Valid()
      ensures state == old(state).(content := content)
    {
      state := state.(content := content);
    }

    method AddLine(text: string, row: Option<int>)
      requires Valid()
      modifies this
      ensures Valid()
      ensures state == AddedLine(old(state), text, row)
    {
      state := AddedLine(state, text, row);
    }

    method UpdateLine(row: int, text: string)
      requires Valid()
      modifies this
      ensures Valid()
      ensures state == UpdatedLine(old(state), row, text)
    {
      state := UpdatedLine(state, row, text);
    }

    method SetCursor(row: int, col: int)
      requires Valid()
      modifies this
      ensures Valid()
      ensures state == CursorSet(old(state), row, col)
    {
      state := CursorSet(state, row, col);
    }
  }

  /** The status line: the mode text, the file name (marked when modified) and the 1-based position. */
  datatype StatusLine = StatusLine(mode: string, filename: string, position: string)

  /** Whether the buffer differs from the saved one, compared as newline-joined text. */
  predicate Modified(s: VimState) {
    Join(s.content, "\n") != Join(s.savedContent, "\n")
  }

  /** The status line of an open editor; a closed editor has none. */
  function StatusLineOf(s: VimState): (r: Option<StatusLine>)
    ensures r.None? <==> s.mode == Closed
    ensures r.Some? ==> (r.value.filename == s.filename + " [+]" <==> Modified(s))
    ensures r.Some? && !Modified(s) ==> r.value.filename == s.filename
    ensures r.Some? ==> r.value.position == IntToString(s.cursorRow + 1) + "," + IntToString(s.cursorCol + 1)
    ensures r.Some? ==> r.value.mode == (match s.mode
                                         case Insert => "-- INSERT --"
                                         case Visual => "-- VISUAL --"
                                         case CommandMode => s.commandBuffer
                                         case _ => "")
  {
    if s.mode == Closed then None
    else
      var filename := s.filename + (if Modified(s) then " [+]" else "");
      var position := IntToString(s.cursorRow + 1) + "," + IntToString(s.cursorCol + 1);
      var modeText := match s.mode
                      case Insert => "-- INSERT --"
                      case Visual => "-- VISUAL --"
                      case CommandMode => s.commandBuffer
                      case _ => "";
      Some(StatusLine(modeText, filename, position))
  }

  /** A buffer that equals the saved one is never marked as modified. */
  lemma UnchangedBufferIsNotMarked(s: VimState)
    requires s.mode != Closed && s.content == s.savedContent
    ensures StatusLineOf(s).value.filename == s.filename
  {
  }

  /**
   * The modified mark compares joined text, not lines: a line holding a newline
   * and the same text split over two lines are not told apart.
   */
  lemma JoinedComparisonMissesLineSplit(s: VimState)
    requires s.mode != Closed && s.content == ["a\nb"] && s.savedContent == ["a", "b"]
    ensures s.content != s.savedContent
    ensures StatusLineOf(s).value.filename == s.filename
  {
    assert Join(s.savedContent, "\n") == "a" + "\n" + Join(["b"], "\n");
  }

  /**
   * The position field can be read back: its two comma-separated numbers are the
   * 1-based row and column. Row -1, which `dd` on a one-line buffer leaves, reads as `0`.
   */
  lemma PositionReadsBack(s: VimState)
    requires s.mode != Closed && s.cursorRow >= -1 && s.cursorCol >= 0
    ensures var parts := Split(StatusLineOf(s).value.position, ",");
            |parts| == 2 && IsDigits(parts[0]) && IsDigits(parts[1]) &&
            DigitsValue(parts[0]) == s.cursorRow + 1 && DigitsValue(parts[1]) == s.cursorCol + 1
  {
    var a := NatToString(s.cursorRow + 1);
    var b := NatToString(s.cursorCol + 1);
    assert StatusLineOf(s).value.position == a + [','] + b;
    assert ',' !in a && ',' !in b;
    SplitTwo(a, b, ',');
    DigitsValueOfNatToString(s.cursorRow + 1);
    DigitsValueOfNatToString(s.cursorCol + 1);
  }

  /** One rendered row of the editor. Rows past the buffer show `~` and number -1. */
  datatype LineView = LineView(number: int, content: string, isCursor: bool, cursorCol: int)

  /** The filler row shown below the end of the buffer. */
  const Tilde := LineView(-1, "~", false, 0)

  /** Row `i` of the screen when the buffer is shown from `viewportStart`. */
  function RowView(s: VimState, i: int): LineView {
    var lineIndex := s.viewportStart + i;
    if lineIndex < |s.content| then
      LineView(lineIndex + 1, LineAt(s.content, lineIndex), lineIndex == s.cursorRow, s.cursorCol)
    else Tilde
  }

  /** Whether the screen shows the empty first line of a buffer being typed into. */
  predicate ShowsEmptyInsert(s: VimState) {
    |s.content| == 0 && s.mode == Insert
  }

  /**
   * Row `i` of the screen in every case. Only the first row of an empty buffer
   * being typed into, or the row of the cursor line, carries the cursor; a row
   * inside the buffer shows its line numbered from 1; a row past the end is `~`.
   */
  function ScreenRow(s: VimState, i: int): (r: LineView)
    ensures ShowsEmptyInsert(s) ==> (r.isCursor <==> i == 0)
    ensures !ShowsEmptyInsert(s) ==> (r.isCursor <==> s.viewportStart + i < |s.content| && s.viewportStart + i == s.cursorRow)
    ensures r.isCursor && !ShowsEmptyInsert(s) ==> r.cursorCol == s.cursorCol
    ensures !ShowsEmptyInsert(s) && 0 <= s.viewportStart + i < |s.content| ==>
      r.number == s.viewportStart + i + 1 && r.content == s.content[s.viewportStart + i]
    ensures s.viewportStart + i >= |s.content| && !(ShowsEmptyInsert(s) && i == 0) ==> r == Tilde
  {
    if ShowsEmptyInsert(s) then (if i == 0 then LineView(1, "", true, 0) else Tilde)
    else RowView(s, i)
  }

  /** The rows on screen: nothing when closed, otherwise exactly the screen height. */
  method VimLines(s: VimState) returns (lines: seq<LineView>)
    ensures s.mode == Closed ==> lines == []
    ensures s.mode != Closed ==> |lines| == VisibleLines &&
                                 forall i :: 0 <= i < VisibleLines ==> lines[i] == ScreenRow(s, i)
  {
    lines := [];
    if s.mode == Closed {
      return;
    }
    if |s.content| == 0 && s.mode == Insert {
      lines := lines + [LineView(1, "", true, 0)];
      for i := 1 to VisibleLines
        invariant |lines| == i
        invariant forall j :: 0 <= j < i ==> lines[j] == ScreenRow(s, j)
      {
        lines := lines + [Tilde];
      }
    } else {
      for i := 0 to VisibleLines
        invariant |lines| == i
        invariant forall j :: 0 <= j < i ==> lines[j] == ScreenRow(s, j)
      {
        var lineIndex := s.viewportStart + i;
        if lineIndex < |s.content| {
          lines := lines + [LineView(lineIndex + 1, LineAt(s.content, lineIndex), lineIndex == s.cursorRow, s.cursorCol)];
        } else {
          lines := lines + [Tilde];
        }
      }
    }
  }

  /** At most one row on screen carries the cursor. */
  lemma AtMostOneCursorRow(s: VimState, i: int, j: int)
    requires 0 <= i < VisibleLines && 0 <= j < VisibleLines
    requires ScreenRow(s, i).isCursor && ScreenRow(s, j).isCursor
    ensures i == j
  {
  }

  /**
   * The cursor is on screen exactly when its row is an existing line in the
   * window that starts at `viewportStart`, or when the empty buffer is typed into.
   */
  lemma CursorShownIff(s: VimState)
    requires !ShowsEmptyInsert(s)
    ensures (exists i :: 0 <= i < VisibleLines && ScreenRow(s, i).isCursor) <==>
            (s.cursorRow < |s.content| && s.viewportStart <= s.cursorRow < s.viewportStart + VisibleLines)
  {
    if s.cursorRow < |s.content| && s.viewportStart <= s.cursorRow < s.viewportStart + VisibleLines {
      assert ScreenRow(s, s.cursorRow - s.viewportStart).isCursor;
    }
  }

  /** After following the cursor with the screen height, a cursor on an existing line is on screen. */
  lemma FollowedCursorIsShown(s: VimState)
    requires 0 <= s.cursorRow < |s.content|
    ensures var t := s.(viewportStart := TerminalVimEngine.UpdateViewport(s, VisibleLines));
            ScreenRow(t, s.cursorRow - t.viewportStart).isCursor
  {
  }
}
