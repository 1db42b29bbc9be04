/**
 * The store of the stand-alone vim editor: the buffer is one string, the
 * store remembers the saved text, whether the buffer differs from it, a status
 * message, and undo/redo stacks of whole buffers.
 */
module EditorStore {

  /** The editor modes, including the replace mode the store knows a status text for. */
  datatype EditorMode = Normal | Insert | Visual | Replace | Command | Closed

  datatype Cursor = Cursor(line: int, column: int)

  /** Undo entries are pushed at the end; redo entries at the front. */
  datatype History = History(undo: seq<string>, redo: seq<string>)

  datatype EditorState = EditorState(
    mode: EditorMode,
    filename: string,
    content: string,
    cursor: Cursor,
    savedContent: string,
    isModified: bool,
    statusMessage: string,
    commandBuffer: string,
    searchTerm: string,
    history: History)

  const InitialState := EditorState(Normal, "", "", Cursor(0, 0), "", false, "", "", "", History([], []))

  /** The modified flag tells exactly whether the buffer differs from the saved text. */
  predicate Consistent(s: EditorState) {
    s.isModified == (s.content != s.savedContent)
  }

  /** The status text each mode shows when it is entered. */
  function ModeStatus(mode: EditorMode): string {
    match mode
    case Insert => "-- INSERT --"
    case Visual => "-- VISUAL --"
    case Replace => "-- REPLACE --"
    case Command => ":"
    case _ => ""
  }

  /** The state after opening `filename` with `content`: a fresh normal-mode session, saved and without history. */
  function VimOpened(s: EditorState, filename: string, content: string): (r: EditorState)
    ensures Consistent(r) && !r.isModified
    ensures r.mode == Normal && r.cursor == Cursor(0, 0) && r.history == History([], [])
    ensures r.content == content && r.savedContent == content && r.commandBuffer == ""
    ensures r.statusMessage == "\"" + filename + "\" " + (if content != "" then "[New File]" else "")
    ensures r.searchTerm == s.searchTerm
  {
    s.(filename := filename, content := content, savedContent := content, isModified := false,
       mode := Normal, cursor := Cursor(0, 0),
       statusMessage := "\"" + filename + "\" " + (if content != "" then "[New File]" else ""),
       commandBuffer := "", history := History([], []))
  }

  /** The state after switching mode; the status shows the new mode's text. */
  function ModeSet(s: EditorState, mode: EditorMode): (r: EditorState)
    ensures r.mode == mode
    ensures mode == Insert ==> r.statusMessage == "-- INSERT --"
    ensures mode == Visual ==> r.statusMessage == "-- VISUAL --"
    ensures mode == Replace ==> r.statusMessage == "-- REPLACE --"
    ensures mode == Command ==> r.statusMessage == ":"
    ensures mode in {Normal, Closed} ==> r.statusMessage == ""
    ensures r.(mode := s.mode, statusMessage := s.statusMessage) == s
  {
    s.(mode := mode, statusMessage := ModeStatus(mode))
  }

  /** The state after replacing the buffer; the modified flag is recomputed. */
  function ContentSet(s: EditorState, content: string): (r: EditorState)
    ensures Consistent(r) && r.content == content
    ensures r.(content := s.content, isModified := s.isModified) == s
  {
    s.(content := content, isModified := content != s.savedContent)
  }

  /** The state after moving the cursor; the position is stored as given, without clamping. */
  function CursorSet(s: EditorState, line: int, column: int): (r: EditorState)
    ensures r.cursor.line == line && r.cursor.column == column
    ensures r.(cursor := s.cursor) == s
  {
    s.(cursor := Cursor(line, column))
  }

  /** The state after replacing the command buffer; in command mode the status echoes it after a colon. */
  function CommandBufferSet(s: EditorState, buffer: string): (r: EditorState)
    ensures r.commandBuffer == buffer
    ensures s.mode == Command ==> r.statusMessage == ":" + buffer
    ensures s.mode != Command ==> r.statusMessage == s.statusMessage
    ensures r.(commandBuffer := s.commandBuffer, statusMessage := s.statusMessage) == s
  {
    s.(commandBuffer := buffer, statusMessage := if s.mode == Command then ":" + buffer else s.statusMessage)
  }

  function StatusSet(s: EditorState, message: string): (r: EditorState)
    ensures r.statusMessage == message && r.(statusMessage := s.statusMessage) == s
  {
    s.(statusMessage := message)
  }

  /** The state after writing the buffer: it becomes the saved text. */
  function Saved(s: EditorState): (r: EditorState)
    ensures Consistent(r) && !r.isModified && r.savedContent == s.content
    ensures r.statusMessage == "\"" + s.filename + "\" written"
    ensures r.(savedContent := s.savedContent, isModified := s.isModified, statusMessage := s.statusMessage) == s
  {
    s.(savedContent := s.content, isModified := false, statusMessage := "\"" + s.filename + "\" written")
  }

  /** The state after recording a buffer for undo: it is pushed and the redo stack is dropped. */
  function HistoryAdded(s: EditorState, content: string): (r: EditorState)
    ensures r.history.undo == s.history.undo + [content] && r.history.redo == []
    ensures r.(history := s.history) == s
  {
    s.(history := History(s.history.undo + [content], []))
  }

  /** Undo: the last recorded buffer comes back and the current one goes to the front of the redo stack. */
  function Undone(s: EditorState): (r: EditorState)
    ensures s.history.undo == [] ==> r == s
    ensures s.history.undo != [] ==>
      s.history.undo == r.history.undo + [r.content] &&
      r.history.redo == [s.content] + s.history.redo &&
      r.(content := s.content, history := s.history, isModified := s.isModified) == s
    ensures Consistent(s) ==> Consistent(r)
    ensures |r.history.undo| + |r.history.redo| == |s.history.undo| + |s.history.redo|
  {
    if |s.history.undo| == 0 then s
    else
      var previous := s.history.undo[|s.history.undo| - 1];
      s.(content := previous,
         history := History(s.history.undo[..|s.history.undo| - 1], [s.content] + s.history.redo),
         isModified := previous != s.savedContent)
  }

  /** Redo: the first undone buffer comes back and the current one is pushed for undo. */
  function Redone(s: EditorState): (r: EditorState)
    ensures s.history.redo == [] ==> r == s
    ensures s.history.redo != [] ==>
      s.history.redo == [r.content] + r.history.redo &&
      r.history.undo == s.history.undo + [s.content] &&
      r.(content := s.content, history := s.history, isModified := s.isModified) == s
    ensures Consistent(s) ==> Consistent(r)
    ensures |r.history.undo| + |r.history.redo| == |s.history.undo| + |s.history.redo|
  {
    if |s.history.redo| == 0 then s
    else
      var next := s.history.redo[0];
      s.(content := next,
         history := History(s.history.undo + [s.content], s.history.redo[1..]),
         isModified := next != s.savedContent)
  }

  /** The store: one state record that every operation rewrites. */
  class Store {
    var state: EditorState

    constructor ()
      ensures state == InitialState
    {
      state := InitialState;
    }

    method OpenVim(filename: string, content: string)
      modifies this
      ensures state == VimOpened(old(state), filename, content)
    {
      state := VimOpened(state, filename, content);
    }

    method CloseVim()
      modifies this
      ensures state == InitialState
    {
      state := InitialState;
    }

    method SetMode(mode: EditorMode)
      modifies this
      ensures state == ModeSet(old(state), mode)
    {
      state := ModeSet(state, mode);
    }

    method SetContent(content: string)
      modifies this
      ensures state == ContentSet(old(state), content)
    {
      state := ContentSet(state, content);
    }

    method SetCursor(line: int, column: int)
      modifies this
      ensures state == CursorSet(old(state), line, column)
    {
      state := CursorSet(state, line, column);
    }

    method SetCommandBuffer(buffer: string)
      modifies this
      ensures state == CommandBufferSet(old(state), buffer)
    {
      state := CommandBufferSet(state, buffer);
    }

    method SetStatusMessage(message: string)
      modifies this
      ensures state == StatusSet(old(state), message)
    {
      state := StatusSet(state, message);
    }

    method SaveFile()
      modifies this
      ensures state == Saved(old(state))
    {
      state := Saved(state);
    }

    method AddToHistory(content: string)
      modifies this
      ensures state == HistoryAdded(old(state), content)
    {
      state := HistoryAdded(state, content);
    }

    method Undo()
      modifies this
      ensures state == Undone(old(state))
    {
      state := Undone(state);
    }

    method Redo()
      modifies this
      ensures state == Redone(old(state))
    {
      state := Redone(state);
    }
  }

  /** The closed editor's state is consistent. */
  lemma InitialIsConsistent()
    ensures Consistent(InitialState)
  {
  }

  /** Every store operation keeps the modified flag consistent. */
  lemma OperationsPreserveConsistency(s: EditorState, filename: string, text: string, mode: EditorMode, line: int, column: int)
    requires Consistent(s)
    ensures Consistent(ModeSet(s, mode)) && Consistent(ContentSet(s, text)) && Consistent(CursorSet(s, line, column))
    ensures Consistent(CommandBufferSet(s, text)) && Consistent(StatusSet(s, text)) && Consistent(Saved(s))
    ensures Consistent(HistoryAdded(s, text)) && Consistent(Undone(s)) && Consistent(Redone(s))
    ensures Consistent(VimOpened(s, filename, text))
  {
  }

  /** Redo right after undo restores the buffer, both stacks and the flag exactly. */
  lemma RedoAfterUndo(s: EditorState)
    requires Consistent(s) && s.history.undo != []
    ensures Redone(Undone(s)) == s
  {
    var u := Undone(s);
    assert u.history.undo + [u.content] == s.history.undo;
  }

  /** Undo right after redo restores the buffer, both stacks and the flag exactly. */
  lemma UndoAfterRedo(s: EditorState)
    requires Consistent(s) && s.history.redo != []
    ensures Undone(Redone(s)) == s
  {
    var r := Redone(s);
    assert r.history.undo[..|r.history.undo| - 1] == s.history.undo;
    assert [r.content] + r.history.redo == s.history.redo;
  }

  /** Recording a buffer and undoing gives that buffer back and leaves it on the redo stack. */
  lemma UndoAfterRecord(s: EditorState, content: string)
    ensures var r := Undone(HistoryAdded(s, content));
            r.content == content && r.history == History(s.history.undo, [s.content])
  {
    assert (s.history.undo + [content])[..|s.history.undo|] == s.history.undo;
  }
}
