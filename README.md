# A verified model of the portfolio site's logic

The site is a portfolio written with Svelte, Qwik and a little Node tooling.
Its landing page shows a tilted terminal that plays a scripted session.
Part of that session opens a small vim emulator. Around the pages sit
locale routing, Content-Security-Policy builders, a hash collector for
inline scripts, mobile detection, a language switch, a menu and a career
timeline. This project models that logic in Dafny and proves what it
promises.

Each source file becomes one module. The module takes the file's own form:

- **Stores whose state is replaced step by step** are classes. Their
  methods `modify` the state. Each method is tied to a pure transition
  function, and the lemmas are proved about that function.
- **Loops** become methods with loop invariants, proved against a
  function that specifies their result.
- **Pure expressions** become functions and lemmas.

The modules:

- **Shared records**, in `TerminalTypes`: script lines, the array-based
  vim state, the terminal configuration and executor items.
- **Terminal log buffers**: `TerminalStore` and `TerminalViewStore` cover
  append, trim to the last N, clear, reset, typing state, perspective
  updates and command echo.
- **The array-based vim emulator**: `TerminalVimEngine` holds its key table
  and the insert-mode, command-mode and viewport handlers. `TerminalVimStore`
  holds the store, its status line and its 18-row view.
- **The string-based vim editor**: `EditorStore` covers save, the modified
  flag and undo/redo. `EditorEngine` covers ex-commands, normal-mode
  motions, and the insert- and command-mode keys.
- **Typing and queueing**: `TypingAnimator` and `TypeCommand` reveal text
  one character per tick. `CommandExecutor` is the FIFO queue of animation
  items.
- **The two script drivers**: `ScriptPlayback` holds what they share,
  `ScriptDriver` is the terminal view's driver, and `VimScriptDriver` is the
  driver that gathers editor lines. `VimKeystrokes` builds the keystroke
  sequence handed to the vim view.
- **Request-side code**:
  - `LocaleRouting` routes requests and parses Accept-Language, following
    section 12.5.4 of RFC 9110.
  - `CspConfig` and `CspHashes` build the policies, following section 2.2.1
    of Content Security Policy Level 3.
  - `CollectCspHashes` is the build-time collector of inline-script hashes.
  - `DeviceDetection` is the mobile check.
- **Page logic**: `LanguageSwitch`, `MenuItems`, `TimelineNode`,
  `EventCarousel` and `TimelinePointer`.
- **JavaScript helpers**: `JsText` and `JsArray` spell out the JavaScript
  string and array operations the code relies on, such as `split`, `join`,
  `trim`, `slice`, `splice`, `filter` and assignment past the end of an
  array. `Optional` holds the option type.

Timers are abstracted:

- Every `setTimeout` callback and typing tick is one atomic step. In the
  executor and the typing animator, each resumed `await` is one step too.
- The script drivers are coarser. One driver step runs a whole
  `runTerminalAnimation` call, with its awaited typing and its 300 ms and
  500 ms waits folded in. "## Left out" says what this leaves out.
- A pending timer is a value that a step can fire.
- Calls into code outside the model are recorded in an effect list, in
  order. These are the drivers' `executeCommand`,
  `window.__terminalWrapper.typeVimContent` and `window.location` writes.

## Model

| member | source | states |
|---|---|---|
| TerminalStore.Trimmed | src/views/pages/top/_component/terminal/stores/terminal.store.ts:50-52 | the trimmed buffer is a suffix of the old one and never longer |
| TerminalStore.TrimKeepsLast | src/views/pages/top/_component/terminal/stores/terminal.store.ts:47-54 | for a positive bound, `trimLines` keeps exactly the last min(length, bound) lines, in order |
| TerminalStore.TrimIdempotent | src/views/pages/top/_component/terminal/stores/terminal.store.ts:47-54 | trimming twice to the same positive bound is trimming once |
| TerminalStore.TrimZeroKeepsAll | src/views/pages/top/_component/terminal/stores/terminal.store.ts:50-52 | `trimLines(0)` keeps every line, because `slice(-0)` is `slice(0)` |
| TerminalStore.TrimNegativeDropsFront | src/views/pages/top/_component/terminal/stores/terminal.store.ts:50-52 | a negative bound drops lines from the front instead of keeping the last ones |
| TerminalStore.AppendThenTrimKeepsNewest | src/views/pages/top/_component/terminal/stores/terminal.store.ts:18-54 | a line added and then trimmed to a positive bound is still the last line shown |
| TerminalStore.CurrentCommand | src/views/pages/top/_component/terminal/stores/terminal.store.ts:100-104 | the derived command is the typed text while typing and empty otherwise |
| TerminalStore.Store.constructor | src/views/pages/top/_component/terminal/stores/terminal.store.ts:5-13 | the store starts with no lines, index 0, not typing, empty text, terminal mode |
| TerminalStore.Store.AddLine | src/views/pages/top/_component/terminal/stores/terminal.store.ts:18-23 | the line is appended and nothing else changes |
| TerminalStore.Store.UpdateTyping | src/views/pages/top/_component/terminal/stores/terminal.store.ts:25-31 | the typing flag and text are replaced, nothing else changes, and the derived command follows them |
| TerminalStore.Store.SetMode | src/views/pages/top/_component/terminal/stores/terminal.store.ts:33-38 | only the mode changes |
| TerminalStore.Store.ClearLines | src/views/pages/top/_component/terminal/stores/terminal.store.ts:40-45 | only the lines change, to none |
| TerminalStore.Store.TrimLines | src/views/pages/top/_component/terminal/stores/terminal.store.ts:47-54 | only the lines change, to their trimmed form |
| TerminalStore.Store.Reset | src/views/pages/top/_component/terminal/stores/terminal.store.ts:56-58 | the state is the initial state again |
| TerminalStore.PerspectiveUpdated | src/views/pages/top/_component/terminal/stores/terminal.store.ts:78-86 | each supplied rotation replaces the current one, omitted ones and the other settings stay |
| TerminalStore.PerspectiveUpdateIdempotent | src/views/pages/top/_component/terminal/stores/terminal.store.ts:78-86 | applying the same perspective update twice is applying it once |
| TerminalStore.ConfigStore.constructor | src/views/pages/top/_component/terminal/stores/terminal.store.ts:63-73 | the configuration starts at 18 visible lines, smooth scrolling and rotations (-15, 20, 0) |
| TerminalStore.ConfigStore.UpdatePerspective | src/views/pages/top/_component/terminal/stores/terminal.store.ts:78-86 | the configuration becomes the merged perspective update of the old one |
| TerminalStore.ConfigStore.SetVisibleLines | src/views/pages/top/_component/terminal/stores/terminal.store.ts:88-93 | only the number of visible lines changes |
| TerminalStore.TransformNamesEachRotation | src/views/pages/top/_component/terminal/stores/terminal.store.ts:106-113 | the derived transform reads back, blank by blank, as the fixed perspective and the X, Y and Z rotations with their own angles |
| TerminalViewStore.CommandLine | src/views/pages/top/_component/terminal-view/stores/terminal.store.ts:74-80 | the echo line carries the trimmed command, is a command line, has no delay and takes the clock value as id |
| TerminalViewStore.CommandExecuted | src/views/pages/top/_component/terminal-view/stores/terminal.store.ts:81-85 | executing appends the echo line and remembers the trimmed command; every other field is unchanged |
| TerminalViewStore.EchoOfEchoIsSame | src/views/pages/top/_component/terminal-view/stores/terminal.store.ts:73-87 | echoing an already echoed command gives the same text: trimming is idempotent |
| TerminalViewStore.CurrentCommand | src/views/pages/top/_component/terminal-view/stores/terminal.store.ts:142-143 | the derived command is the typed text while typing and empty otherwise |
| TerminalViewStore.Store.constructor | src/views/pages/top/_component/terminal-view/stores/terminal.store.ts:16-27 | the store starts empty, not typing, in terminal mode, with no last command, index 0 and not animating |
| TerminalViewStore.Store.AddLine | src/views/pages/top/_component/terminal-view/stores/terminal.store.ts:32-37 | the line is appended and nothing else changes |
| TerminalViewStore.Store.UpdateTyping | src/views/pages/top/_component/terminal-view/stores/terminal.store.ts:39-45 | only the typing flag and text change, and the derived command follows them |
| TerminalViewStore.Store.SetMode | src/views/pages/top/_component/terminal-view/stores/terminal.store.ts:47-52 | only the mode changes |
| TerminalViewStore.Store.ClearLines | src/views/pages/top/_component/terminal-view/stores/terminal.store.ts:54-59 | only the lines change, to none |
| TerminalViewStore.Store.TrimLines | src/views/pages/top/_component/terminal-view/stores/terminal.store.ts:61-67 | only the lines change, trimmed as in the terminal store |
| TerminalViewStore.Store.Reset | src/views/pages/top/_component/terminal-view/stores/terminal.store.ts:69-71 | the state is the initial state again |
| TerminalViewStore.Store.ExecuteCommand | src/views/pages/top/_component/terminal-view/stores/terminal.store.ts:73-88 | returns the trimmed command, and the new state is the executed-command state of the old one |
| TerminalViewStore.Store.SetAnimationIndex | src/views/pages/top/_component/terminal-view/stores/terminal.store.ts:90-92 | only the animation index changes |
| TerminalViewStore.Store.ResumeAnimation | src/views/pages/top/_component/terminal-view/stores/terminal.store.ts:94-96 | only the animating flag changes, to true |
| TerminalViewStore.Store.CompleteAnimation | src/views/pages/top/_component/terminal-view/stores/terminal.store.ts:98-100 | only the animating flag changes, to false |
| TerminalVimEngine.Merge | src/views/pages/top/_component/terminal/stores/vim.store.ts:42-61 | every field the update sets takes the update's value, every other field keeps the state's, and the empty update changes nothing |
| TerminalVimEngine.MergeIdempotent | src/views/pages/top/_component/terminal/stores/vim.store.ts:42-61 | spreading the same update a second time changes nothing more |
| TerminalVimEngine.InsertAction | src/views/pages/top/_component/terminal/services/vim-engine.ts:12-19 | `i` enters insert mode and remembers the buffer; nothing else changes |
| TerminalVimEngine.AppendAction | src/views/pages/top/_component/terminal/services/vim-engine.ts:21-29 | `a` enters insert mode one column right but never past the line's end, remembering the buffer |
| TerminalVimEngine.OpenBelowAction | src/views/pages/top/_component/terminal/services/vim-engine.ts:31-45 | `o` inserts an empty line below the cursor row, moves onto it at column 0 and enters insert mode |
| TerminalVimEngine.DeleteLineAction | src/views/pages/top/_component/terminal/services/vim-engine.ts:47-60 | `dd` moves the cursor line into the yank buffer, never leaves the buffer empty, and caps the row by the remaining length minus one |
| TerminalVimEngine.YankLineAction | src/views/pages/top/_component/terminal/services/vim-engine.ts:62-68 | `yy` sets the yank buffer to the cursor line (an empty line when there is none) and changes nothing else |
| TerminalVimEngine.PasteAction | src/views/pages/top/_component/terminal/services/vim-engine.ts:70-82 | `p` does nothing with an empty yank; otherwise it inserts the yank below the cursor row, grows the buffer by its length and moves one row down |
| TerminalVimEngine.LeftAction | src/views/pages/top/_component/terminal/services/vim-engine.ts:85-91 | `h` moves one column left and never below 0 |
| TerminalVimEngine.DownAction | src/views/pages/top/_component/terminal/services/vim-engine.ts:93-103 | `j` moves one row down but not past the last line, and caps the column by the target line's length |
| TerminalVimEngine.UpAction | src/views/pages/top/_component/terminal/services/vim-engine.ts:105-112 | `k` moves one row up but not above row 0, and caps the column by the target line's length |
| TerminalVimEngine.RightAction | src/views/pages/top/_component/terminal/services/vim-engine.ts:114-120 | `l` moves one column right, up to and including the line's length |
| TerminalVimEngine.VisualAction | src/views/pages/top/_component/terminal/services/vim-engine.ts:123-131 | `v` enters visual mode with both selection ends at the cursor |
| TerminalVimEngine.CommandAction | src/views/pages/top/_component/terminal/services/vim-engine.ts:134-141 | `:` enters command mode with the buffer holding the colon |
| TerminalVimEngine.Apply | src/views/pages/top/_component/terminal/services/vim-engine.ts:10-142 | the motions `h`, `j`, `k`, `l` set only the cursor; only `o`, `dd` and `p` set the lines, only `dd` and `yy` the yank buffer, and only `i`, `a`, `o`, `v` and `:` the mode |
| TerminalVimEngine.DefaultCommands | src/views/pages/top/_component/terminal/services/vim-engine.ts:10-142 | every default binding is filed under its own key |
| TerminalVimEngine.VimEngine.constructor | src/views/pages/top/_component/terminal/services/vim-engine.ts:6-8 | a new engine holds exactly the default bindings |
| TerminalVimEngine.VimEngine.RegisterCommand | src/views/pages/top/_component/terminal/services/vim-engine.ts:144-146 | registering stores the binding under its key and replaces any earlier binding for that key |
| TerminalVimEngine.VimEngine.ExecuteCommand | src/views/pages/top/_component/terminal/services/vim-engine.ts:148-154 | the result is null exactly when the key is unbound or the mode is not one of its modes; otherwise it is the binding's update |
| TerminalVimEngine.ProcessInsertModeKey | src/views/pages/top/_component/terminal/services/vim-engine.ts:156-207 | Escape returns to normal mode remembering the buffer; Backspace at column 0 changes nothing; every other key leaves a non-empty buffer |
| TerminalVimEngine.ExecuteVimCommand | src/views/pages/top/_component/terminal/services/vim-engine.ts:241-274 | every ex command clears the buffer; `w`, `wq`, `q` and `q!` close the editor and every other command, `x` included, returns to normal mode; only `set number` / `set nonumber` touch the line numbers |
| TerminalVimEngine.ProcessCommandModeKey | src/views/pages/top/_component/terminal/services/vim-engine.ts:209-239 | Escape aborts; Enter runs the buffer without its colon; Backspace erases one character, or leaves command mode when only the colon is left; any other key is appended |
| TerminalVimEngine.UpdateViewport | src/views/pages/top/_component/terminal/services/vim-engine.ts:276-283 | with at least one visible line the cursor row ends up on screen, and a viewport already showing it stays put |
| TerminalVimEngine.MotionsKeepCursorInBounds | src/views/pages/top/_component/terminal/services/vim-engine.ts:85-120 | `h`, `j`, `k` and `l` keep a cursor that is inside the buffer inside it |
| TerminalVimEngine.ActionsKeepContentNonEmpty | src/views/pages/top/_component/terminal/services/vim-engine.ts:10-142 | no default binding empties a non-empty buffer |
| TerminalVimEngine.DeleteOnlyLine | src/views/pages/top/_component/terminal/services/vim-engine.ts:50-59 | `dd` on a one-line buffer leaves one empty line and sets the cursor row to -1 |
| TerminalVimEngine.YankThenPasteDuplicates | src/views/pages/top/_component/terminal/services/vim-engine.ts:62-82 | `yy` then `p` duplicates the cursor line below itself and moves onto the copy |
| TerminalVimEngine.DownThenUp | src/views/pages/top/_component/terminal/services/vim-engine.ts:93-112 | `j` then `k` returns to the starting row when there is a line below |
| TerminalVimEngine.DefaultBindingsOnlyInNormalOrVisual | src/views/pages/top/_component/terminal/services/vim-engine.ts:10-154 | outside normal and visual mode no default binding fires |
| TerminalVimEngine.EnterSplitsLine | src/views/pages/top/_component/terminal/services/vim-engine.ts:174-185 | Enter splits the cursor line at the cursor: the two halves concatenate to the old line, the buffer grows by one and the cursor goes to the start of the next row |
| TerminalVimEngine.TypeThenBackspace | src/views/pages/top/_component/terminal/services/vim-engine.ts:187-206 | typing one character inserts it at the cursor and advances the column; Backspace then restores buffer and cursor |
| TerminalVimEngine.TypingAppendsToBuffer | src/views/pages/top/_component/terminal/services/vim-engine.ts:235-238 | ordinary keys typed in command mode are appended to the buffer and change nothing else |
| TerminalVimEngine.ColonKeysEnterRunsCommand | src/views/pages/top/_component/terminal/services/vim-engine.ts:134-221 | `:`, ordinary keys, then Enter runs exactly the typed command |
| TerminalVimEngine.UpdateViewportIdempotent | src/views/pages/top/_component/terminal/services/vim-engine.ts:276-283 | once the cursor row is on screen, following it again changes nothing |
| TerminalVimStore.Opened | src/views/pages/top/_component/terminal/stores/vim.store.ts:28-36 | opening starts a normal-mode session on an empty buffer for that file, with line numbers exactly when the name contains `jwt.strategy.ts`; everything else is initial |
| TerminalVimStore.AddedLine | src/views/pages/top/_component/terminal/stores/vim.store.ts:84-94 | the buffer grows by one line, inserted at the given row or just below the cursor; nothing else changes |
| TerminalVimStore.UpdatedLine | src/views/pages/top/_component/terminal/stores/vim.store.ts:96-107 | a row inside the buffer is replaced; any other row changes nothing |
| TerminalVimStore.CursorSet | src/views/pages/top/_component/terminal/stores/vim.store.ts:109-115 | the cursor is clamped to the buffer's rows and to non-negative columns, and a position inside the buffer is taken as given |
| TerminalVimStore.VimStore.constructor | src/views/pages/top/_component/terminal/stores/vim.store.ts:5-23 | the store starts closed with the initial state, its engine holding the default bindings (the invariant every method keeps) |
| TerminalVimStore.VimStore.Open | src/views/pages/top/_component/terminal/stores/vim.store.ts:28-36 | the state becomes the opened state for the file |
| TerminalVimStore.VimStore.Close | src/views/pages/top/_component/terminal/stores/vim.store.ts:38-40 | the state is the initial state again |
| TerminalVimStore.VimStore.ExecuteCommand | src/views/pages/top/_component/terminal/stores/vim.store.ts:42-47 | the engine's update is merged in when the key is bound in the current mode; with the default bindings, a key that is not one of them, or any key outside normal and visual mode, leaves the state unchanged; the engine keeps the default bindings |
| TerminalVimStore.VimStore.ProcessInsertKey | src/views/pages/top/_component/terminal/stores/vim.store.ts:49-54 | the insert-mode update is merged into the state |
| TerminalVimStore.VimStore.ProcessCommandKey | src/views/pages/top/_component/terminal/stores/vim.store.ts:56-61 | the command-mode update is merged into the state |
| TerminalVimStore.VimStore.UpdateViewport | src/views/pages/top/_component/terminal/stores/vim.store.ts:63-68 | only the viewport start changes, to the engine's followed value |
| TerminalVimStore.VimStore.SetMode | src/views/pages/top/_component/terminal/stores/vim.store.ts:70-75 | only the mode changes |
| TerminalVimStore.VimStore.SetContent | src/views/pages/top/_component/terminal/stores/vim.store.ts:77-82 | only the buffer changes |
| TerminalVimStore.VimStore.AddLine | src/views/pages/top/_component/terminal/stores/vim.store.ts:84-94 | the state becomes the added-line state |
| TerminalVimStore.VimStore.UpdateLine | src/views/pages/top/_component/terminal/stores/vim.store.ts:96-107 | the state becomes the updated-line state |
| TerminalVimStore.VimStore.SetCursor | src/views/pages/top/_component/terminal/stores/vim.store.ts:109-115 | the state becomes the clamped-cursor state |
| TerminalVimStore.StatusLineOf | src/views/pages/top/_component/terminal/stores/vim.store.ts:121-149 | no status line when closed; otherwise the file name gets ` [+]` exactly when the joined buffer differs from the joined saved one, the position is the 1-based row and column, and the mode text follows the mode |
| TerminalVimStore.UnchangedBufferIsNotMarked | src/views/pages/top/_component/terminal/stores/vim.store.ts:125-126 | a buffer equal to the saved one is never marked modified |
| TerminalVimStore.JoinedComparisonMissesLineSplit | src/views/pages/top/_component/terminal/stores/vim.store.ts:125 | a line holding a newline and the same text over two lines are different buffers, yet not marked modified |
| TerminalVimStore.PositionReadsBack | src/views/pages/top/_component/terminal/stores/vim.store.ts:127 | the position splits at the comma into the 1-based row and column in decimal, including row -1 (shown as `0`) that `dd` on a one-line buffer leaves |
| TerminalVimStore.VimLines | src/views/pages/top/_component/terminal/stores/vim.store.ts:151-198 | a closed editor shows no rows; an open one shows exactly 18, each the screen row for its index |
| TerminalVimStore.ScreenRow | src/views/pages/top/_component/terminal/stores/vim.store.ts:158-195 | only the first row of an empty buffer in insert mode, or the cursor line's row, carries the cursor (with the cursor's column); a row inside the buffer shows that line numbered from 1; a row past the end is the `~` filler |
| TerminalVimStore.AtMostOneCursorRow | src/views/pages/top/_component/terminal/stores/vim.store.ts:158-195 | at most one screen row carries the cursor |
| TerminalVimStore.CursorShownIff | src/views/pages/top/_component/terminal/stores/vim.store.ts:174-195 | outside the empty-insert case the cursor is on screen exactly when its row is an existing line inside the window |
| TerminalVimStore.FollowedCursorIsShown | src/views/pages/top/_component/terminal/stores/vim.store.ts:63-195 | after following the cursor with the screen height, a cursor on an existing line is on screen |
| EditorStore.VimOpened | src/views/pages/top/_component/vim/stores/vim.store.ts:23-36 | opening gives a consistent, unmodified normal-mode session at (0, 0) with empty history and command buffer; the status names the file and says `[New File]` exactly when the content is not empty |
| EditorStore.ModeSet | src/views/pages/top/_component/vim/stores/vim.store.ts:42-59 | the mode is set and the status shows that mode's text (empty for normal and closed); nothing else changes |
| EditorStore.ContentSet | src/views/pages/top/_component/vim/stores/vim.store.ts:61-67 | the buffer is replaced and the modified flag says exactly whether it differs from the saved text |
| EditorStore.CursorSet | src/views/pages/top/_component/vim/stores/vim.store.ts:69-74 | the cursor is stored as given, without clamping, and nothing else changes |
| EditorStore.CommandBufferSet | src/views/pages/top/_component/vim/stores/vim.store.ts:76-82 | the command buffer is replaced; in command mode the status echoes it after a colon, otherwise the status stays |
| EditorStore.StatusSet | src/views/pages/top/_component/vim/stores/vim.store.ts:84-89 | only the status message changes |
| EditorStore.Saved | src/views/pages/top/_component/vim/stores/vim.store.ts:91-98 | the buffer becomes the saved text, the state is unmodified, and the status says the file was written |
| EditorStore.HistoryAdded | src/views/pages/top/_component/vim/stores/vim.store.ts:100-108 | the buffer is pushed on the undo stack and the redo stack is emptied |
| EditorStore.Undone | src/views/pages/top/_component/vim/stores/vim.store.ts:110-127 | with an empty undo stack nothing changes; otherwise the last entry comes back, the current buffer goes to the front of the redo stack, the flag stays consistent and no entry is lost |
| EditorStore.Redone | src/views/pages/top/_component/vim/stores/vim.store.ts:129-146 | with an empty redo stack nothing changes; otherwise the first redo entry comes back, the current buffer is pushed for undo, the flag stays consistent and no entry is lost |
| EditorStore.Store.constructor | src/views/pages/top/_component/vim/stores/vim.store.ts:4-18 | the store starts in the initial state |
| EditorStore.Store.OpenVim | src/views/pages/top/_component/vim/stores/vim.store.ts:23-36 | the state becomes the opened state |
| EditorStore.Store.CloseVim | src/views/pages/top/_component/vim/stores/vim.store.ts:38-40 | the state is the initial state again |
| EditorStore.Store.SetMode | src/views/pages/top/_component/vim/stores/vim.store.ts:42-59 | the state becomes the mode-set state |
| EditorStore.Store.SetContent | src/views/pages/top/_component/vim/stores/vim.store.ts:61-67 | the state becomes the content-set state |
| EditorStore.Store.SetCursor | src/views/pages/top/_component/vim/stores/vim.store.ts:69-74 | the state becomes the cursor-set state |
| EditorStore.Store.SetCommandBuffer | src/views/pages/top/_component/vim/stores/vim.store.ts:76-82 | the state becomes the command-buffer-set state |
| EditorStore.Store.SetStatusMessage | src/views/pages/top/_component/vim/stores/vim.store.ts:84-89 | only the status message changes |
| EditorStore.Store.SaveFile | src/views/pages/top/_component/vim/stores/vim.store.ts:91-98 | the state becomes the saved state |
| EditorStore.Store.AddToHistory | src/views/pages/top/_component/vim/stores/vim.store.ts:100-108 | the state becomes the history-added state |
| EditorStore.Store.Undo | src/views/pages/top/_component/vim/stores/vim.store.ts:110-127 | the state becomes the undone state |
| EditorStore.Store.Redo | src/views/pages/top/_component/vim/stores/vim.store.ts:129-146 | the state becomes the redone state |
| EditorStore.InitialIsConsistent | src/views/pages/top/_component/vim/stores/vim.store.ts:4-15 | in the initial state the modified flag agrees with the buffer |
| EditorStore.OperationsPreserveConsistency | src/views/pages/top/_component/vim/stores/vim.store.ts:23-146 | every store operation keeps the modified flag equal to "buffer differs from saved text" |
| EditorStore.RedoAfterUndo | src/views/pages/top/_component/vim/stores/vim.store.ts:110-146 | redo right after undo restores the whole state |
| EditorStore.UndoAfterRedo | src/views/pages/top/_component/vim/stores/vim.store.ts:110-146 | undo right after redo restores the whole state |
| EditorStore.UndoAfterRecord | src/views/pages/top/_component/vim/stores/vim.store.ts:100-127 | recording a buffer and undoing brings that buffer back and leaves the previous one alone on the redo stack |
| EditorEngine.Lines | src/views/pages/top/_component/vim/services/vim-engine.ts:139-153 | splitting the buffer at newlines always gives at least one line |
| EditorEngine.ParseCommand | src/views/pages/top/_component/vim/services/vim-engine.ts:50-56 | the command and the arguments are blank-free, and together they are the pieces of the command line split at runs of white space |
| EditorEngine.ParseWord | src/views/pages/top/_component/vim/services/vim-engine.ts:50-56 | a single word parses as that command with no arguments |
| EditorEngine.ParseLeadingSpace | src/views/pages/top/_component/vim/services/vim-engine.ts:50-56 | a command line that starts with white space parses as the empty command |
| EditorEngine.Save | src/views/pages/top/_component/vim/services/vim-engine.ts:58-67 | `:w` succeeds exactly when there is a file name, and then saves; otherwise only the status reports the missing name |
| EditorEngine.Quit | src/views/pages/top/_component/vim/services/vim-engine.ts:69-77 | `:q` succeeds exactly when nothing is unsaved and then changes nothing; otherwise only the status reports the unsaved change |
| EditorEngine.SetOption | src/views/pages/top/_component/vim/services/vim-engine.ts:90-120 | `:set` only changes the status; it succeeds exactly for the six known options, and reports a missing or unknown option as an error naming it |
| EditorEngine.Edit | src/views/pages/top/_component/vim/services/vim-engine.ts:122-130 | `:e` succeeds exactly with a non-empty file name, and then opens it on an empty buffer; otherwise only the status reports the missing name |
| EditorEngine.LineJump | src/views/pages/top/_component/vim/services/vim-engine.ts:137-149 | a jump succeeds exactly for a line number from 1 to the number of lines, and then moves to that line's start; otherwise only the status reports an invalid range |
| EditorEngine.Executed | src/views/pages/top/_component/vim/services/vim-engine.ts:8-48 | a failing ex command changes only the status message, and only a successful `:e` replaces the buffer (with an empty one) or the undo history |
| EditorEngine.Remaining | src/views/pages/top/_component/vim/services/vim-engine.ts:258-262 | removing a line never leaves the buffer without lines |
| EditorEngine.NormalKey | src/views/pages/top/_component/vim/services/vim-engine.ts:151-268 | a key without a case changes nothing; motion keys change only the cursor; only the mode keys change the mode; only `o`, `O`, undo, redo and shift-`d` change the buffer |
| EditorEngine.InsertKey | src/views/pages/top/_component/vim/services/vim-engine.ts:270-280 | only Escape does anything: normal mode, an empty status, the same line, and a column pulled back onto the line when it was at or past its end |
| EditorEngine.CommandKey | src/views/pages/top/_component/vim/services/vim-engine.ts:282-312 | only Enter can close the editor, and then it closes as the command does; Escape and Enter return to normal mode with an empty buffer and status; Backspace erases or leaves command mode; one character is appended; longer keys do nothing |
| EditorEngine.Engine.constructor | src/views/pages/top/_component/vim/services/vim-engine.ts:5-6 | the engine works on the given store |
| EditorEngine.Engine.ExecuteCommand | src/views/pages/top/_component/vim/services/vim-engine.ts:8-48 | the result and the new store state are those of the command function on the old state |
| EditorEngine.Engine.HandleSave | src/views/pages/top/_component/vim/services/vim-engine.ts:58-67 | the result and the new state are those of `Save` |
| EditorEngine.Engine.HandleQuit | src/views/pages/top/_component/vim/services/vim-engine.ts:69-77 | the result and the new state are those of `Quit` |
| EditorEngine.Engine.HandleSet | src/views/pages/top/_component/vim/services/vim-engine.ts:90-120 | the result and the new state are those of `SetOption` |
| EditorEngine.Engine.HandleEdit | src/views/pages/top/_component/vim/services/vim-engine.ts:122-130 | the result and the new state are those of `Edit` |
| EditorEngine.Engine.HandleLineJump | src/views/pages/top/_component/vim/services/vim-engine.ts:137-149 | the result and the new state are those of `LineJump` |
| EditorEngine.Engine.ProcessNormalModeKey | src/views/pages/top/_component/vim/services/vim-engine.ts:151-268 | the new state is the normal-key function of the old state |
| EditorEngine.Engine.ProcessModeKey | src/views/pages/top/_component/vim/services/vim-engine.ts:158-196 | the keys that switch mode, including `o` and `O`, which first open an empty line, leave the state the normal-key function gives |
| EditorEngine.Engine.ProcessMotionKey | src/views/pages/top/_component/vim/services/vim-engine.ts:198-245 | the motion keys move the cursor as the normal-key function says |
| EditorEngine.Engine.ProcessInsertModeKey | src/views/pages/top/_component/vim/services/vim-engine.ts:270-280 | the new state is the insert-key function of the old state |
| EditorEngine.Engine.ProcessCommandModeKey | src/views/pages/top/_component/vim/services/vim-engine.ts:282-312 | the result and the new state are those of the command-key function |
| EditorEngine.MotionsKeepCursorInBounds | src/views/pages/top/_component/vim/services/vim-engine.ts:162-244 | `a`, `h`, `j`, `k`, `l`, `g`, `0` and `$` keep a cursor that is inside the buffer inside it |
| EditorEngine.NormalKeysKeepConsistencyAndHistory | src/views/pages/top/_component/vim/services/vim-engine.ts:151-268 | no normal-mode key breaks the modified flag; only `u` and `r` touch the history, and they only move entries |
| EditorEngine.LinesOfJoin | src/views/pages/top/_component/vim/services/vim-engine.ts:171-263 | a buffer written back from newline-free lines splits into the same lines |
| EditorEngine.OpenBelowInsertsEmptyLine | src/views/pages/top/_component/vim/services/vim-engine.ts:167-174 | `o` inserts an empty line below the cursor line, enters insert mode and moves to that line's start |
| EditorEngine.DeleteLineKeepsALine | src/views/pages/top/_component/vim/services/vim-engine.ts:256-266 | shift-`d` removes the cursor line, keeps at least one line and leaves the cursor at column 0 inside the buffer |
| EditorEngine.RemainingHaveNoNewline | src/views/pages/top/_component/vim/services/vim-engine.ts:258-262 | the lines left after a deletion still contain no newline |
| EditorEngine.EscapeKeepsCursorInBounds | src/views/pages/top/_component/vim/services/vim-engine.ts:270-280 | Escape from insert mode keeps a cursor that is inside the buffer inside it |
| EditorEngine.DigitsCommandJumps | src/views/pages/top/_component/vim/services/vim-engine.ts:41-44 | an all-digit command is a jump to that line number |
| EditorEngine.QuitCommands | src/views/pages/top/_component/vim/services/vim-engine.ts:16-88 | `:q!` always closes and changes nothing; `:q` closes exactly when nothing is unsaved; `:x` and `:wq` are both a save |
| EditorEngine.LeadingSpaceRunsNothing | src/views/pages/top/_component/vim/services/vim-engine.ts:37-56 | a command line that starts with white space succeeds as the empty command and clears the status |
| EditorEngine.EnterWipesErrorMessage | src/views/pages/top/_component/vim/services/vim-engine.ts:291-295 | running `:w` without a file name fails, but Enter then clears the status, so the error message is lost |
| EditorEngine.EditingKeepsEcho | src/views/pages/top/_component/vim/services/vim-engine.ts:298-309 | typing and Backspace keep the status echoing the command buffer while it is not emptied |
| EditorEngine.TypeCharsAppends | src/views/pages/top/_component/vim/services/vim-engine.ts:307-309 | characters typed in command mode are appended to the buffer and to its echo |
| EditorEngine.ColonTypeEnterRunsCommand | src/views/pages/top/_component/vim/services/vim-engine.ts:193-295 | `:`, the characters of a command, then Enter runs exactly that command |
| TypingAnimator.Prefixes | src/views/pages/top/_component/terminal/services/typing-animator.ts:21-33 | the k reports of a run are the text's prefixes of length 1 to k, shortest first |
| TypingAnimator.Step | src/views/pages/top/_component/terminal/services/typing-animator.ts:23-47 | a tick schedules another exactly while the run is live and unfinished; otherwise it resolves and reports nothing more; reports are only appended, one at most; the callback runs once more only at the end of a live run that has one |
| TypingAnimator.StepKeepsValid | src/views/pages/top/_component/terminal/services/typing-animator.ts:23-47 | one tick keeps the run invariant, and a live tick with characters left reports the next longer prefix |
| TypingAnimator.CancelledStepIsSilent | src/views/pages/top/_component/terminal/services/typing-animator.ts:24-30 | a tick after cancellation reports nothing, never runs the callback, and resolves without scheduling another tick |
| TypingAnimator.CancelKeepsValid | src/views/pages/top/_component/terminal/services/typing-animator.ts:50-55 | cancelling keeps the run invariant and resolves the promise |
| TypingAnimator.TicksReportPrefixes | src/views/pages/top/_component/terminal/services/typing-animator.ts:23-47 | after k ticks of a live run with 1 <= k <= length, the reports are the first k prefixes and another tick is due |
| TypingAnimator.TicksShift | src/views/pages/top/_component/terminal/services/typing-animator.ts:46 | n + 1 ticks are n ticks followed by one more |
| TypingAnimator.RunToCompletion | src/views/pages/top/_component/terminal/services/typing-animator.ts:23-47 | left alone, a run reports exactly one prefix per character, the last being the whole text, then runs the callback once if there is one and resolves |
| TypingAnimator.Animator.constructor | src/views/pages/top/_component/terminal/services/typing-animator.ts:3-4 | a new animator has no current animation |
| TypingAnimator.Animator.Cancel | src/views/pages/top/_component/terminal/services/typing-animator.ts:62-67 | the current run, if any, is cancelled and forgotten; earlier runs are untouched |
| TypingAnimator.Animator.Animate | src/views/pages/top/_component/terminal/services/typing-animator.ts:14-58 | the current run is cancelled first, then a new run starts with its first tick already done and becomes current |
| TypingAnimator.Animator.Tick | src/views/pages/top/_component/terminal/services/typing-animator.ts:46 | a due tick of any run, even a superseded one, advances exactly that run |
| TypingAnimator.InstantUpdates | src/views/pages/top/_component/terminal/services/typing-animator.ts:69-71 | typing instantly reports the whole text once |
| TypeCommand.RunAfterTicks | src/views/pages/top/_component/terminal/components/terminal-view/services/typing-animator.ts:4-14 | n ticks into a `typeCommand` run, the store has seen the first n prefixes; after the last tick the callback has run once |
| TypeCommand.TypeCommand | src/views/pages/top/_component/terminal/components/terminal-view/services/typing-animator.ts:4-14 | the published texts are every prefix in order, ending with the whole text; while typing, the derived command is the last published prefix, and afterwards the store is no longer typing and the derived command is empty |
| CommandExecutor.OrDefaultDelay | src/views/pages/top/_component/terminal/services/command-executor.ts:58-104 | a missing or zero delay means 100 ms; any other delay is kept |
| CommandExecutor.TypedUpdates | src/views/pages/top/_component/terminal/services/command-executor.ts:75-80 | each typed prefix is reported as a command item carrying the line and that prefix, in order |
| CommandExecutor.LineEntries | src/views/pages/top/_component/terminal/services/command-executor.ts:24-32 | `addSequence` makes one line item per log line, in order, lasting the line's delay |
| CommandExecutor.ImmediateUpdates | src/views/pages/top/_component/terminal/services/command-executor.ts:49-105 | a command item is reported unless its data is a number; a vim-key item is reported only when its data has a key; a delay reports nothing |
| CommandExecutor.PhaseAfter | src/views/pages/top/_component/terminal/services/command-executor.ts:57-105 | a delay item waits its duration or 100 ms; a keyed vim-key item waits its key delay or 100 ms; every other item is settled at once |
| CommandExecutor.InitialDelay | src/views/pages/top/_component/terminal/services/command-executor.ts:44-69 | the initial wait of a line item is `line.delay` of its data read as a line: a log line's delay, a vim-key object's own delay, and no wait for data without a `delay` field |
| CommandExecutor.Executor.constructor | src/views/pages/top/_component/terminal/services/command-executor.ts:4-15 | a new executor is idle with an empty queue and has reported nothing |
| CommandExecutor.Executor.CancelTyping | src/views/pages/top/_component/terminal/services/command-executor.ts:113-117 | cancelling the animator settles an awaited typing and changes nothing else |
| CommandExecutor.Executor.StartLine | src/views/pages/top/_component/terminal/services/command-executor.ts:72-88 | a command line starts typing its text and reports its first prefix; any other line is reported whole at once |
| CommandExecutor.Executor.ExecuteNext | src/views/pages/top/_component/terminal/services/command-executor.ts:34-64 | on an empty queue the executor goes idle and reports completion once; otherwise it takes the head, in FIFO order, and starts it; a line item first waits `line.delay` of its data, which for a vim-key object is the key's own delay |
| CommandExecutor.Executor.StartImmediate | src/views/pages/top/_component/terminal/services/command-executor.ts:48-104 | a command, vim-key or delay item reports what it reports at once and then resolves or waits, as the per-kind update and phase functions say, leaving the queue alone |
| CommandExecutor.Executor.AddToQueue | src/views/pages/top/_component/terminal/services/command-executor.ts:17-22 | the item is queued at the end, and an idle executor starts on it at once |
| CommandExecutor.Executor.AddSequence | src/views/pages/top/_component/terminal/services/command-executor.ts:24-32 | the lines are queued in order as line items, and the executor is busy afterwards when there was at least one |
| CommandExecutor.Executor.Continue | src/views/pages/top/_component/terminal/services/command-executor.ts:62-63 | after a settled wait the executor takes the next item or goes idle and reports completion |
| CommandExecutor.Executor.TimerFires | src/views/pages/top/_component/terminal/services/command-executor.ts:66-109 | a delay timer ends a wait; a line that was waiting is then shown |
| CommandExecutor.Executor.TypingTick | src/views/pages/top/_component/terminal/services/command-executor.ts:75-80 | a typing tick advances the animation and reports its new prefix as a command item |
| CommandExecutor.Executor.Clear | src/views/pages/top/_component/terminal/services/command-executor.ts:111-114 | the queue is emptied and the typing cancelled; nothing is reported |
| CommandExecutor.Executor.Pause | src/views/pages/top/_component/terminal/services/command-executor.ts:116-118 | only the typing is cancelled; the queue stays |
| CommandExecutor.Executor.Resume | src/views/pages/top/_component/terminal/services/command-executor.ts:120-124 | an idle executor with queued items would start on the head; in a reachable state the queue of an idle executor is empty, so nothing changes |
| VimKeystrokes.Chars | src/views/pages/top/_component/terminal/components/terminal-view/services/terminal-animation.ts:93-94 | a line becomes one character key per character, in order |
| VimKeystrokes.BuildTypingSequence | src/views/pages/top/_component/terminal/components/terminal-view/services/terminal-animation.ts:85-107 | the keys pushed line by line are the insert key, each line's characters with a newline key between lines, then escape, command mode and save-and-quit |
| VimKeystrokes.TypingSequenceShape | src/views/pages/top/_component/terminal/components/terminal-view/services/terminal-animation.ts:85-107 | the sequence (`TypingSequence`) starts with the insert key, holds only characters and newline keys in the middle, and ends with escape, command mode and save-and-quit |
| VimKeystrokes.NewlinesAppend | src/views/pages/top/_component/terminal/components/terminal-view/services/terminal-animation.ts:91-100 | newline keys of two key runs put together add up |
| VimKeystrokes.NoNewlineInChars | src/views/pages/top/_component/terminal/components/terminal-view/services/terminal-animation.ts:93-94 | a line's characters hold no newline key |
| VimKeystrokes.NewlineCount | src/views/pages/top/_component/terminal/components/terminal-view/services/terminal-animation.ts:96-99 | k collected lines give exactly k - 1 newline keys, and none when nothing was collected |
| VimKeystrokes.BodyNewlines | src/views/pages/top/_component/terminal/components/terminal-view/services/terminal-animation.ts:91-100 | the line part of the sequence has one newline key fewer than it has lines |
| VimKeystrokes.Prepend | src/views/pages/top/_component/terminal/components/terminal-view/services/terminal-animation.ts:91-100 | gluing a line to the front of the first decoded line keeps the count and the later lines |
| VimKeystrokes.Decode | src/views/pages/top/_component/terminal/components/terminal-view/services/terminal-animation.ts:85-107 | reading keys back always yields at least one line |
| VimKeystrokes.DecodeChars | src/views/pages/top/_component/terminal/components/terminal-view/services/terminal-animation.ts:93-94 | a line's characters followed by other keys read back as that line glued to the front of what follows |
| VimKeystrokes.DecodeLineThenNewline | src/views/pages/top/_component/terminal/components/terminal-view/services/terminal-animation.ts:93-99 | a line and a newline key read back as that line followed by whatever comes next |
| VimKeystrokes.DecodeOneLine | src/views/pages/top/_component/terminal/components/terminal-view/services/terminal-animation.ts:91-100 | the keys of a single line read back as that line glued to what follows |
| VimKeystrokes.BodyOfSeveral | src/views/pages/top/_component/terminal/components/terminal-view/services/terminal-animation.ts:91-100 | for two or more lines the keys are the first line, a newline key, then the keys of the rest |
| VimKeystrokes.DecodeBody | src/views/pages/top/_component/terminal/components/terminal-view/services/terminal-animation.ts:91-100 | the keys of any non-empty list of lines read back as those lines, the last glued to what follows |
| VimKeystrokes.DecodeSeveral | src/views/pages/top/_component/terminal/components/terminal-view/services/terminal-animation.ts:91-100 | the same for two or more lines, by induction on the list |
| VimKeystrokes.TypingSequenceRoundTrip | src/views/pages/top/_component/terminal/components/terminal-view/services/terminal-animation.ts:85-107 | dropping the control keys and splitting at newline keys gives back exactly the collected lines |
| VimKeystrokes.EmptyCollectionTypesOneEmptyLine | src/views/pages/top/_component/terminal/components/terminal-view/services/terminal-animation.ts:85-107 | with nothing collected only the four control keys are sent, and they read back as one empty line |
| ScriptPlayback.Scheduled | src/views/pages/top/_component/terminal-view/services/terminal-animation.ts:45-48 | a new timer takes a handle no pending timer has, so handles stay fresh |
| ScriptPlayback.Cancelled | src/views/pages/top/_component/terminal-view/services/terminal-animation.ts:51-56 | after clearing, exactly the timers with other handles remain, and an unknown handle clears nothing |
| ScriptPlayback.CancelledKeepsOrder | src/views/pages/top/_component/terminal-view/services/terminal-animation.ts:51-56 | clearing keeps the remaining timers in their order: it distributes over any split of the pending timers |
| ScriptPlayback.Dequeued | src/views/pages/top/_component/terminal-view/services/terminal-animation.ts:45-48 | a timer that fires leaves the pending ones, and only that one |
| ScriptPlayback.Paused | src/views/pages/top/_component/terminal-view/services/terminal-animation.ts:51-56 | pausing clears the stored timer and forgets its handle; without one it changes nothing; the index and the calls made stay |
| ScriptPlayback.ActionAt | src/views/pages/top/_component/terminal-view/services/terminal-animation.ts:9-41 | past the end the step completes; an index before the start fails; otherwise a `vim ` command launches vim, any other command runs, any other entry is shown, and the entry is the script's entry at the index |
| ScriptPlayback.AdvancedStep | src/views/pages/top/_component/terminal-view/services/terminal-animation.ts:29-48 | an ordinary step executes a command or adds any other entry to the log, moves the index on by one, and stores the handle of the next step timer scheduled after the entry's delay; nothing else changes |
| ScriptPlayback.PauseForgetsStoredTimer | src/views/pages/top/_component/terminal-view/services/terminal-animation.ts:51-56 | after a pause no pending timer carries the stored handle, every other timer stays, the index stays, and pausing again changes nothing |
| ScriptDriver.Shown | src/views/pages/top/_component/terminal-view/services/terminal-animation.ts:34-41 | the log gains at most one entry per step |
| ScriptDriver.Executions | src/views/pages/top/_component/terminal-view/services/terminal-animation.ts:30-33 | at most one command is executed per step |
| ScriptDriver.Stepped | src/views/pages/top/_component/terminal-view/services/terminal-animation.ts:9-49 | one call adds at most one entry to the log, executes at most one command and schedules at most one timer, and moves the index on by one only from an entry of the script |
| ScriptDriver.Fired | src/views/pages/top/_component/terminal-view/services/terminal-animation.ts:46-48 | a firing step timer is used up, so firing never adds to the pending timers, and handles stay fresh |
| ScriptDriver.Resumed | src/views/pages/top/_component/terminal-view/services/terminal-animation.ts:58-63 | resuming at an index inside the script plays that entry and stands after it; at an index outside it the index is stored and nothing is played |
| ScriptDriver.FinishOnlyCompletes | src/views/pages/top/_component/terminal-view/services/terminal-animation.ts:10-13 | past the end of the script a step only marks the animation complete |
| ScriptDriver.VimLaunchStops | src/views/pages/top/_component/terminal-view/services/terminal-animation.ts:18-27 | a `vim ` command is typed and executed, its successor index is stored in the terminal store, and no step is scheduled |
| ScriptDriver.StepAdvancesByOne | src/views/pages/top/_component/terminal-view/services/terminal-animation.ts:15-43 | every step on an entry moves the index on by exactly one; only a vim launch touches the stored index |
| ScriptDriver.StepPlaysEntry | src/views/pages/top/_component/terminal-view/services/terminal-animation.ts:29-48 | one step on an entry adds it to the log unless it is a command, and executes it if it is |
| ScriptDriver.StepsShowInOrder | src/views/pages/top/_component/terminal-view/services/terminal-animation.ts:29-48 | n steps from index i add exactly the non-command entries from i to i + n to the log, in script order |
| ScriptDriver.StepsReachIndex | src/views/pages/top/_component/terminal-view/services/terminal-animation.ts:29-48 | n steps from index i within the script move the index to i + n |
| ScriptDriver.StepsExecuteInOrder | src/views/pages/top/_component/terminal-view/services/terminal-animation.ts:29-48 | n steps from index i execute exactly the command entries among them, in script order |
| ScriptDriver.ResumeRewinds | src/views/pages/top/_component/terminal-view/services/terminal-animation.ts:58-63 | resuming at k plays entry k next |
| ScriptDriver.ResumeWithoutIndex | src/views/pages/top/_component/terminal-view/services/terminal-animation.ts:58-63 | resuming without an index is one step from where the driver stands |
| ScriptDriver.Driver.constructor | src/views/pages/top/_component/terminal-view/services/terminal-animation.ts:6-7 | a new driver stands at index 0 with no stored timer |
| ScriptDriver.Driver.Step | src/views/pages/top/_component/terminal-view/services/terminal-animation.ts:9-49 | one call of `runTerminalAnimation` changes the driver and the store exactly as the step function says |
| ScriptDriver.Driver.Fire | src/views/pages/top/_component/terminal-view/services/terminal-animation.ts:46-48 | a firing step timer leaves the pending ones and runs one step |
| ScriptDriver.Driver.Pause | src/views/pages/top/_component/terminal-view/services/terminal-animation.ts:51-56 | `pauseAnimation` leaves the driver as the pause function says |
| ScriptDriver.Driver.Resume | src/views/pages/top/_component/terminal-view/services/terminal-animation.ts:58-63 | `resumeAnimation` moves the index if one is given and steps at once |
| VimScriptDriver.FindExit | src/views/pages/top/_component/terminal/components/terminal-view/services/terminal-animation.ts:62-75 | the scan stops at the first `:wq` or `:x` entry that is not an editor line, at or after the start, and finds none only when there is none |
| VimScriptDriver.VimTexts | src/views/pages/top/_component/terminal/components/terminal-view/services/terminal-animation.ts:65-66 | at most one gathered text per entry |
| VimScriptDriver.VimTextsAppend | src/views/pages/top/_component/terminal/components/terminal-view/services/terminal-animation.ts:62-75 | gathering over two stretches of entries gathers the first stretch's texts, then the second's |
| VimScriptDriver.VimTextsOfEditorLines | src/views/pages/top/_component/terminal/components/terminal-view/services/terminal-animation.ts:65-66 | a stretch of editor lines gathers every text, in order |
| VimScriptDriver.Collected | src/views/pages/top/_component/terminal/components/terminal-view/services/terminal-animation.ts:57-76 | gathering never executes anything and never moves the index back or past the script; with no exit entry ahead it changes nothing; when it moves, it stands just past an exit entry; without a vim view no keystrokes are scheduled, with one exactly one timer is added |
| VimScriptDriver.Stepped | src/views/pages/top/_component/terminal/components/terminal-view/services/terminal-animation.ts:9-55 | one call adds at most one entry to the log, executes at most one command, schedules at most one timer, and never moves the index back |
| VimScriptDriver.Fired | src/views/pages/top/_component/terminal/components/terminal-view/services/terminal-animation.ts:51-113 | a firing timer is used up; a keystroke timer only hands its keys to the vim view and changes neither the log nor the index |
| VimScriptDriver.Resumed | src/views/pages/top/_component/terminal/components/terminal-view/services/terminal-animation.ts:123-132 | resuming stands at the given index, or where it stood, and schedules exactly one step timer 1000 ms later with a fresh handle |
| VimScriptDriver.FinishAddsNothing | src/views/pages/top/_component/terminal/components/terminal-view/services/terminal-animation.ts:10-13 | past the end of the script a step only marks the animation complete |
| VimScriptDriver.VimLaunchStopsStepping | src/views/pages/top/_component/terminal/components/terminal-view/services/terminal-animation.ts:18-33 | a `vim ` command is typed and executed, its successor index is stored in the terminal store, no step timer is scheduled, and only a keystroke timer may be added |
| VimScriptDriver.VimLaunchGathersEditorLines | src/views/pages/top/_component/terminal/components/terminal-view/services/terminal-animation.ts:57-76 | with an exit entry ahead the index moves just past the first one and, when the vim view is there, the keystrokes typing the editor lines in between are scheduled 300 ms later; without one the index stays just past the command and nothing is scheduled |
| VimScriptDriver.CollectedMovesPastExit | src/views/pages/top/_component/terminal/components/terminal-view/services/terminal-animation.ts:57-76 | gathering from an index moves just past the first exit entry and, with a vim view, schedules the keystrokes for the editor lines before it; with no exit entry it changes nothing |
| VimScriptDriver.GatheredLinesAreTyped | src/views/pages/top/_component/terminal/components/terminal-view/services/terminal-animation.ts:62-107 | the keystrokes handed to the vim view read back as exactly the gathered editor lines, with one newline fewer than lines |
| VimScriptDriver.TaggedExitIsGatheredAsText | src/views/pages/top/_component/terminal/components/terminal-view/services/terminal-animation.ts:65-67 | a `:wq` tagged as an editor line is gathered as text and does not end the gathering |
| VimScriptDriver.ColonXEndsGatheringButNotTheEditor | src/views/pages/top/_component/terminal/components/terminal-view/services/terminal-animation.ts:67 | `:x` ends the gathering, although the terminal editor's command handler treats it as unknown and only returns to normal mode |
| VimScriptDriver.ResumeMovesIndexOnlyWhenGiven | src/views/pages/top/_component/terminal/components/terminal-view/services/terminal-animation.ts:123-132 | resuming moves the index only when one is given and schedules one step 1000 ms later, changing nothing else |
| VimScriptDriver.Driver.constructor | src/views/pages/top/_component/terminal/components/terminal-view/services/terminal-animation.ts:6-7 | a new driver stands at index 0 with no stored timer |
| VimScriptDriver.Driver.TriggerVimTyping | src/views/pages/top/_component/terminal/components/terminal-view/services/terminal-animation.ts:78-114 | with a vim view the keystroke sequence is scheduled 300 ms later; without one nothing happens |
| VimScriptDriver.Driver.CollectVimContent | src/views/pages/top/_component/terminal/components/terminal-view/services/terminal-animation.ts:57-76 | the loop leaves the driver as the gathering function says: past the first exit with the lines before it typed, or unchanged |
| VimScriptDriver.Driver.Step | src/views/pages/top/_component/terminal/components/terminal-view/services/terminal-animation.ts:9-55 | one call of `runTerminalAnimation` changes the driver and the store exactly as the step function says |
| VimScriptDriver.Driver.LaunchVim | src/views/pages/top/_component/terminal/components/terminal-view/services/terminal-animation.ts:18-33 | a `vim ` command is typed and executed, its successor index stored, and the editor lines up to the exit gathered, as the step function says |
| VimScriptDriver.Driver.PlayEntry | src/views/pages/top/_component/terminal/components/terminal-view/services/terminal-animation.ts:35-55 | any other entry is typed and executed when a command and shown otherwise, then the next step is scheduled after its delay, as the step function says |
| VimScriptDriver.Driver.Fire | src/views/pages/top/_component/terminal/components/terminal-view/services/terminal-animation.ts:52-54 | a firing step timer runs one step; a firing keystroke timer hands its keys to the vim view |
| VimScriptDriver.Driver.Pause | src/views/pages/top/_component/terminal/components/terminal-view/services/terminal-animation.ts:116-121 | `pauseAnimation` leaves the driver as the pause function says |
| VimScriptDriver.Driver.Resume | src/views/pages/top/_component/terminal/components/terminal-view/services/terminal-animation.ts:123-132 | `resumeAnimation` moves the index if one is given and schedules the next step 1000 ms later |
| LocaleRouting.DigitPrefix | src/routes/plugin.ts:68 | the digit run is the longest prefix of decimal digits |
| LocaleRouting.FractionThousandths | src/routes/plugin.ts:68 | only the first three fraction digits count, so the value stays below a thousand thousandths |
| LocaleRouting.ParseQuality | src/routes/plugin.ts:68 | `parseFloat` of an empty quality is NaN, and every number it reads is non-negative |
| LocaleRouting.QualityOfQvalue | src/routes/plugin.ts:67-68 | a qvalue `0.ddd` reads as its thousandths, `1` as a thousand and `0.5` as five hundred |
| LocaleRouting.ParseEntry | src/routes/plugin.ts:66-69 | an entry's locale is the lower-cased text before the first `;q=` of the trimmed entry, and an entry without `;q=` has quality 1 |
| LocaleRouting.ParseEntries | src/routes/plugin.ts:64-69 | one preference per comma-separated entry, in order |
| LocaleRouting.InsertByQuality | src/routes/plugin.ts:70 | inserting into the sorted preferences keeps every one of them and adds the new one |
| LocaleRouting.SortByQuality | src/routes/plugin.ts:70 | sorting by quality is a permutation of the preferences |
| LocaleRouting.InsertKeepsDescending | src/routes/plugin.ts:70 | inserting a numeric preference keeps the order best quality first |
| LocaleRouting.SortIsDescending | src/routes/plugin.ts:70 | with numeric qualities the sorted preferences run from the best quality to the worst |
| LocaleRouting.SortKeepsOrderedEntries | src/routes/plugin.ts:70 | the sort is stable: preferences already in order, ties included, stay as they are |
| LocaleRouting.FindSupported | src/routes/plugin.ts:74-76 | the match is a supported locale that the range starts with or that starts with the range, the first such; none only when no supported locale matches |
| LocaleRouting.EmptyRangeMatchesFirst | src/routes/plugin.ts:74-76 | an empty range matches the first supported locale |
| LocaleRouting.FirstMatchOfTail | src/routes/plugin.ts:73-78 | when the first ranked entry misses, the first hit among the rest is the first hit overall, and all miss exactly when the rest all miss |
| LocaleRouting.FirstMatch | src/routes/plugin.ts:73-80 | a detected locale is supported, not empty, and the match of a ranked preference that every better-ranked preference misses; nothing is detected exactly when every preference misses |
| LocaleRouting.DetectLocaleFromHeader | src/routes/plugin.ts:60-81 | the loop over the ranked preferences returns the first supported match, as the detection function says |
| LocaleRouting.DetectedLocale | src/routes/plugin.ts:60-81 | a missing or empty header detects nothing; anything detected is a non-empty supported locale; a present header detects nothing exactly when none of its ranked entries hits a supported locale |
| LocaleRouting.SplitTrailingComma | src/routes/plugin.ts:64-65 | a trailing comma leaves an empty last entry |
| LocaleRouting.ParseBareEntries | src/routes/plugin.ts:66-69 | `fr` and the empty entry both get quality 1 |
| LocaleRouting.FrenchMatchesNothing | src/routes/plugin.ts:74-76 | `fr` matches no supported locale |
| LocaleRouting.FrenchThenEmptyRanked | src/routes/plugin.ts:64-70 | the header `fr,` ranks `fr` and then the empty range, both at quality 1 |
| LocaleRouting.TrailingCommaDetectsFirstLocale | src/routes/plugin.ts:60-81 | the header `fr,`, which names no supported language, still detects English through its empty entry |
| LocaleRouting.OrDefault | src/routes/plugin.ts:38-44 | a present, non-empty locale is kept; a missing or empty one becomes the default |
| LocaleRouting.SupportedEqual | src/routes/plugin.ts:19 | the supported locale equal to the parameter is found exactly when the parameter is supported |
| LocaleRouting.RootRedirectsToDefault | src/routes/plugin.ts:25-27 | the root path, without a valid route parameter, redirects with 302 to `/en/` |
| LocaleRouting.ParamPicksLocale | src/routes/plugin.ts:17-44 | a valid route parameter selects itself when supported and the default otherwise |
| LocaleRouting.SupportedSegmentProceeds | src/routes/plugin.ts:22-31 | a path whose first segment is any supported locale (`en`, `ko` or `ja`) proceeds with that locale and no redirect |
| LocaleRouting.SupportedSegmentRead | src/routes/plugin.ts:22 | the first path segment of `/<locale><rest>` is that locale, for every supported locale |
| LocaleRouting.SplitStopsAtSlash | src/routes/plugin.ts:22 | a slash-free word followed by nothing or a slash is the first piece of the split at `/` |
| LocaleRouting.OtherPathsRedirect | src/routes/plugin.ts:33-39 | any other path redirects with 302 to the locale detected from the header, or to `en` when none is detected (so always when the header is missing or empty), followed by the whole original path; the target is supported |
| LocaleRouting.Routed | src/routes/plugin.ts:10-45 | a request either proceeds with a supported locale or is redirected with 302 to a supported locale followed by the whole original path |
| LocaleRouting.ResponseHeaders.constructor | src/routes/plugin.ts:10 | the response starts with no headers |
| LocaleRouting.ResponseHeaders.Set | src/routes/plugin.ts:51-54 | setting a header replaces its value and keeps every other header |
| LocaleRouting.SetSecurityHeaders | src/routes/plugin.ts:51-54 | the four security headers are set with their fixed values and every other header is kept |
| LocaleRouting.OnRequest | src/routes/plugin.ts:10-55 | the handler's outcome is the routing decision; a redirect sets no header, and a request that proceeds gets exactly the four security headers |
| CspConfig.Names | src/utils/csp-config.ts:24-38 | the names of a record's directives, one per entry, in order |
| CspConfig.Quoted | src/utils/csp-config.ts:46 | each hash is wrapped in single quotes, in order |
| CspConfig.Assigned | src/utils/csp-config.ts:43-47 | assigning an existing name replaces its value in place; a new name goes last; names stay unique |
| CspConfig.Deleted | src/utils/csp-config.ts:64 | deleting never adds an entry |
| CspConfig.DeletedMembers | src/utils/csp-config.ts:64 | after deleting a name exactly the entries with other names remain; a name that is absent changes nothing |
| CspConfig.Pairs | src/utils/csp-config.ts:57-67 | each directive is serialised as its name, a blank and its value |
| CspConfig.DirectivesLayout | src/utils/csp-config.ts:22-51 | the record holds the thirteen base directives in order and then `script-src`, no name twice; in development `script-src` allows `'unsafe-inline'` |
| CspConfig.ProductionScriptSources | src/utils/csp-config.ts:46-47 | in production the script sources are `'self'`, `'wasm-unsafe-eval'`, then every collected hash quoted, in order |
| CspConfig.DropsOnlyFrameAncestors | src/utils/csp-config.ts:61-64 | in either mode, deleting `frame-ancestors` from the record removes its ninth entry and nothing else, and the name is gone |
| CspConfig.MetaDropsOnlyFrameAncestors | src/utils/csp-config.ts:61-64 | the meta policy's record is the production record with only `frame-ancestors`, its ninth entry, removed |
| CspConfig.DeletedUnique | src/utils/csp-config.ts:64 | in a record without repeated names, deleting the name at one position removes only that entry |
| CspConfig.Parsed | src/utils/csp-config.ts:56-58 | a user agent reads one trimmed piece per `;`-separated part of the policy |
| CspConfig.ParsedJoin | src/utils/csp-config.ts:56-58 | joining pieces with `; ` and parsing the result gives the pieces back when none holds `;` or starts or ends with a blank |
| CspConfig.SerializedPieces | src/utils/csp-config.ts:56-58 | the policy is the directive pairs followed by `upgrade-insecure-requests`, joined by `; ` |
| CspConfig.ScriptSrcSerialisable | src/utils/csp-config.ts:41-48 | in either mode `script-src` survives serialisation when the hashes are single tokens |
| CspConfig.SerializedParses | src/utils/csp-config.ts:53-59 | parsing a serialised record gives back each directive as `name value`, in order, then `upgrade-insecure-requests` |
| CspConfig.CspString | src/utils/csp-config.ts:53-59 | the header policy is the record's pairs and `upgrade-insecure-requests` joined by `; `, and it parses back into them when every directive is serialisable |
| CspConfig.CspMetaString | src/utils/csp-config.ts:61-69 | the meta policy is the same for the production record without `frame-ancestors`, and parses back into it likewise |
| CspConfig.PolicyOf | src/utils/csp-config.ts:56-58 | a non-empty record serialises to its pieces joined by `; `, and parses back when serialisable |
| CspConfig.MetaPolicyOf | src/utils/csp-config.ts:61-69 | the record without `frame-ancestors` keeps thirteen entries, so the meta policy serialises and parses as any non-empty record |
| CspConfig.DeletedSerialisable | src/utils/csp-config.ts:64 | deleting a name from a serialisable record leaves only serialisable directives |
| CspConfig.Record.constructor | src/utils/csp-config.ts:24 | a record holds the given entries |
| CspConfig.Record.Set | src/utils/csp-config.ts:43-47 | assignment changes the record as the assignment function says |
| CspConfig.Record.Delete | src/utils/csp-config.ts:64 | deletion changes the record as the deletion function says |
| CspConfig.GetCspDirectives | src/utils/csp-config.ts:22-51 | the directives are the base thirteen then the mode's `script-src` |
| CspConfig.GetCspString | src/utils/csp-config.ts:53-59 | the header policy is the serialised record for the mode |
| CspConfig.GetCspMetaString | src/utils/csp-config.ts:61-69 | the meta policy is the serialised production record without `frame-ancestors` |
| CspHashes.ScriptHashes | src/utils/csp.ts:8 | a missing snapshot or a missing hash list gives no hashes; a present list, even empty, is used as it is |
| CspHashes.HashSources | src/utils/csp.ts:10-12 | each hash becomes `'sha256-<hash>'`, in order |
| CspHashes.SegmentsShape | src/utils/csp.ts:14-30 | the policy has fifteen segments ending with `upgrade-insecure-requests`, and only `script-src` depends on the hashes |
| CspHashes.GenerateCspWithQwikHashes | src/utils/csp.ts:7-31 | the policy opens with `default-src` and then the trimmed `script-src` segment; with hashes, that segment is the fixed sources followed by every hash source, in order |
| CspHashes.PolicyStart | src/utils/csp.ts:14-30 | the joined segments start with `default-src` and then `script-src`; with hashes the trim keeps the whole hash list |
| CspHashes.MissingHashesAreNone | src/utils/csp.ts:8 | a missing snapshot or hash list builds the same policy as an empty hash list |
| CspHashes.NoHashesNoTrailingBlank | src/utils/csp.ts:16 | with no hashes the trimmed `script-src` segment ends with its last source and has no trailing blank |
| CspHashes.HashesKeptWhole | src/utils/csp.ts:16 | with hashes the trim changes nothing: the segment is the fixed sources, a blank and the hash sources |
| CspHashes.HashSourcesInOrder | src/utils/csp.ts:10-12 | splitting the hash sources at blanks gives each one back, in order |
| CspHashes.AgreesWithConfiguredPolicy | src/utils/csp.ts:7-31 | for the same hashes the render-time policy writes the same `script-src` directive as the configured production policy, second instead of last |
| CspHashes.Prefixed | src/utils/csp.ts:11 | each hash with `sha256-` in front, as the configured list holds them |
| CollectCspHashes.IndexOf | scripts/collect-csp-hashes.js:25 | the first position at or after the start holding the character, or none when no later position holds it |
| CollectCspHashes.MatchAt | scripts/collect-csp-hashes.js:25 | a match found at a position starts there and lies inside the page |
| CollectCspHashes.MatchAtIsMatch | scripts/collect-csp-hashes.js:25 | what is found at a position is a match of `<script[^>]*>([^<]+)</script>` |
| CollectCspHashes.NextMatch | scripts/collect-csp-hashes.js:29 | `exec` returns a match at or after `lastIndex`, inside the page |
| CollectCspHashes.NextMatchFound | scripts/collect-csp-hashes.js:29 | what `exec` returns is the match the pattern makes where it starts |
| CollectCspHashes.NextMatchIsLeftmost | scripts/collect-csp-hashes.js:29 | `exec` skips no match: none starts between `lastIndex` and what it returns, or anywhere after when it returns nothing |
| CollectCspHashes.Matches | scripts/collect-csp-hashes.js:29-34 | the successive matches all lie inside the page |
| CollectCspHashes.MatchesInOrder | scripts/collect-csp-hashes.js:29-34 | the successive matches start at or after the start and do not overlap |
| CollectCspHashes.MatchesFound | scripts/collect-csp-hashes.js:29-34 | each successive match is the one the pattern makes where it starts |
| CollectCspHashes.TrimmedBodies | scripts/collect-csp-hashes.js:30 | one trimmed captured body per match, in order |
| CollectCspHashes.KeptOf | scripts/collect-csp-hashes.js:31-32 | keeping never adds a content |
| CollectCspHashes.KeptOfMembers | scripts/collect-csp-hashes.js:31-32 | a content is kept exactly when it is not empty and does not mention `src=` |
| CollectCspHashes.ExtractInlineScripts | scripts/collect-csp-hashes.js:24-37 | the loop calling `exec` until it fails returns the page's inline scripts as the extraction function defines them |
| CollectCspHashes.BodyHasNoOpen | scripts/collect-csp-hashes.js:25 | a captured body holds no `<` |
| CollectCspHashes.TrimmedInside | scripts/collect-csp-hashes.js:30 | trimming is idempotent and adds no character |
| CollectCspHashes.InlineScriptsAreClean | scripts/collect-csp-hashes.js:24-37 | the scripts are exactly the trimmed captured bodies that are not empty and do not mention `src=`; each is trimmed and free of `<` |
| CollectCspHashes.CalculateHash | scripts/collect-csp-hashes.js:19-21 | every hash starts with `sha256-` |
| CollectCspHashes.HashesOf | scripts/collect-csp-hashes.js:74-77 | one hash per script, in order |
| CollectCspHashes.AddedHoldsEachOnce | scripts/collect-csp-hashes.js:67-76 | the set holds each hash once, and exactly the hashes added |
| CollectCspHashes.AddedConcat | scripts/collect-csp-hashes.js:70-78 | adding two runs of hashes is adding the first, then the second |
| CollectCspHashes.AddedOneMore | scripts/collect-csp-hashes.js:76 | adding a hash appends it unless the set already holds it |
| CollectCspHashes.HashesOfOneMore | scripts/collect-csp-hashes.js:74-77 | one more script gives one more hash at the end |
| CollectCspHashes.CollectedOneMorePage | scripts/collect-csp-hashes.js:70-78 | processing one more page adds that page's script hashes to the set so far |
| CollectCspHashes.LessIrreflexive | scripts/collect-csp-hashes.js:83 | no string sorts before itself |
| CollectCspHashes.LessTransitive | scripts/collect-csp-hashes.js:83 | the default string order is transitive |
| CollectCspHashes.LessTotal | scripts/collect-csp-hashes.js:83 | of two different strings one sorts before the other |
| CollectCspHashes.InsertSorted | scripts/collect-csp-hashes.js:83 | inserting keeps every element and adds the new one |
| CollectCspHashes.SortStrings | scripts/collect-csp-hashes.js:83 | sorting is a permutation |
| CollectCspHashes.InsertKeepsAscending | scripts/collect-csp-hashes.js:83 | inserting a new value keeps the list strictly ascending |
| CollectCspHashes.AscendingBelow | scripts/collect-csp-hashes.js:83 | in a strictly ascending list every earlier element sorts before every later one |
| CollectCspHashes.SortIsAscending | scripts/collect-csp-hashes.js:83 | sorting values that are each present once gives them in strictly ascending order |
| CollectCspHashes.ArrayLiteral | scripts/collect-csp-hashes.js:85-90 | the printed literal is the opening line, one line per hash and the closing line |
| CollectCspHashes.PrintArrayLiteral | scripts/collect-csp-hashes.js:85-90 | the printing loop produces the literal's lines |
| CollectCspHashes.ArrayLiteralReadsBack | scripts/collect-csp-hashes.js:86-89 | every printed element reads back as its hash, and exactly the elements before the last end with a comma |
| CollectCspHashes.AddHashes | scripts/collect-csp-hashes.js:74-77 | the inner loop adds the page's script hashes to the set, in order |
| CollectCspHashes.CollectHashes | scripts/collect-csp-hashes.js:55-98 | the outcome is the collection function's: no pages is the error exit; otherwise every page's script hashes are gathered into a set, counted, sorted and printed |
| CollectCspHashes.CollectedHashesAreSortedAndDistinct | scripts/collect-csp-hashes.js:67-90 | the printed hashes are exactly the hashes of the kept scripts of all pages, each once, in strictly ascending order, and the printed count is their number |
| DeviceDetection.MentionsAnyIff | src/lib/hooks/server/device-detection-handler.ts:13 | the alternation matches exactly when one of the names occurs in the text |
| DeviceDetection.IsMobile | src/lib/hooks/server/device-detection-handler.ts:11-17 | the client hint `?1` alone makes a request mobile; without it, a mobile verdict needs a user agent whose lower case contains one of the device names |
| DeviceDetection.IsMobileIff | src/lib/hooks/server/device-detection-handler.ts:11-17 | a request is mobile exactly when its lower-cased user agent contains one of the eight device names, or its client hint is exactly `?1` |
| DeviceDetection.NothingInEmpty | src/lib/hooks/server/device-detection-handler.ts:14 | no device name occurs in the empty text the missing agent is read as |
| DeviceDetection.MissingAgentLeavesHint | src/lib/hooks/server/device-detection-handler.ts:14-15 | without a user agent only the client hint decides |
| DeviceDetection.CaseIsIgnored | src/lib/hooks/server/device-detection-handler.ts:13 | the case of the user agent does not change the verdict |
| DeviceDetection.Locals.constructor | src/lib/hooks/server/device-detection-handler.ts:4 | the locals start with no verdict and nothing resolved |
| DeviceDetection.Locals.Resolve | src/lib/hooks/server/device-detection-handler.ts:5 | the rest of the chain runs with the locals as they stand |
| DeviceDetection.DeviceDetectionHandler | src/lib/hooks/server/device-detection-handler.ts:3-6 | the handler stores the verdict before resolving, so the rest of the chain sees it |
| MenuItems.MenuLinksDistinct | src/views/common/layout/with-nav/_components/menu-items.ts:13-30 | the four menu entries have four different links |
| MenuItems.GetMenuItems | src/views/common/layout/with-nav/_components/menu-items.ts:8-36 | on the server the list is empty; in a browser it holds only menu entries that do not link to the current path, never more than the four |
| MenuItems.RejectedAtMostOnce | src/views/common/layout/with-nav/_components/menu-items.ts:35 | the filter drops one entry when some link equals the path and none otherwise |
| MenuItems.MenuLeavesOutCurrentPage | src/views/common/layout/with-nav/_components/menu-items.ts:8-36 | on the server the menu is empty; in a browser it is exactly the entries whose link is not the current path, three on a menu page and four elsewhere |
| MenuItems.OtherPageKeepsAll | src/views/common/layout/with-nav/_components/menu-items.ts:32-35 | on a page that is not in the menu all entries stay, in order |
| LanguageSwitch.CurrentLang | src/components/ui/LanguageSwitch.tsx:106 | the language read from the path is never empty and never holds a slash, and any language but English is the path's first segment |
| LanguageSwitch.Find | src/components/ui/LanguageSwitch.tsx:107 | the option found has the given code; none is found only when no option has it |
| LanguageSwitch.ShownOptionIsActiveOne | src/components/ui/LanguageSwitch.tsx:106-107 | the button shows one of the three options: the active one when some option is active, the only active one, and English when none is |
| LanguageSwitch.NewPath | src/components/ui/LanguageSwitch.tsx:113-117 | for a language without a slash, the new path splits back into the old segments with the first one assigned the language, past the end included |
| LanguageSwitch.AssignedSplitsBack | src/components/ui/LanguageSwitch.tsx:113-117 | no assigned segment holds a slash, so joining them at `/` and splitting again gives them back |
| LanguageSwitch.NewPathReplacesFirstSegment | src/components/ui/LanguageSwitch.tsx:113-117 | the new path has the old path's segments, the first one replaced by the chosen language, and at least two segments |
| LanguageSwitch.SelectThenRead | src/components/ui/LanguageSwitch.tsx:106-120 | after choosing a language the language read back from the new path is the one chosen |
| LanguageSwitch.Switch.constructor | src/components/ui/LanguageSwitch.tsx:104 | the dropdown starts closed, on the given path, with no navigation |
| LanguageSwitch.Switch.ToggleDropdown | src/components/ui/LanguageSwitch.tsx:109-111 | toggling flips the open flag and changes nothing else |
| LanguageSwitch.Switch.SelectLanguage | src/components/ui/LanguageSwitch.tsx:113-121 | choosing navigates to the rewritten path and leaves the dropdown and the current path as they were |
| TimelineNode.XPositionIsChronological | src/components/timeline/TimelineNode.tsx:80-83 | for months 1 to 12 one date lies left of another exactly when it comes earlier |
| TimelineNode.XPositionInjective | src/components/timeline/TimelineNode.tsx:80-83 | no two dates with real months share a position |
| TimelineNode.XPositionSteps | src/components/timeline/TimelineNode.tsx:80-83 | January 2022 is at 0; the next month is 100 pixels further, the next year 1200, and January follows December by 100 |
| TimelineNode.XPosition | src/components/timeline/TimelineNode.tsx:80-83 | a real month lies inside its year's 1200-pixel band, and January at the band's start |
| TimelineNode.NodeColorByCategory | src/components/timeline/TimelineNode.tsx:70-78 | each of the four categories gets its own colour, none the grey fallback, and every other category gets the fallback |
| TimelineNode.NodeColor | src/components/timeline/TimelineNode.tsx:70-78 | the colour is never empty: one of the four category colours or the grey fallback, which every unknown category gets |
| TimelineNode.NodeClassSlots | src/components/timeline/TimelineNode.tsx:110 | split at blanks the class list reads as the fixed class, the position, `highlight` exactly when the event is highlighted, and `hovered` exactly when the node is hovered |
| TimelineNode.NodeClass | src/components/timeline/TimelineNode.tsx:110 | the class list starts with the fixed class and the position, and ends with ` hovered` exactly as the hover flag says, with a bare blank otherwise |
| TimelineNode.FourSlots | src/components/timeline/TimelineNode.tsx:110 | the four slots joined by blanks are the class list as the template writes it |
| TimelineNode.Node.constructor | src/components/timeline/TimelineNode.tsx:68 | a node starts not hovered |
| TimelineNode.Node.MouseEnter | src/components/timeline/TimelineNode.tsx:88-90 | entering the node sets it hovered |
| TimelineNode.Node.MouseLeave | src/components/timeline/TimelineNode.tsx:92-94 | leaving the node clears the hover |
| EventCarousel.YearEventsSelect | src/components/timeline/EventCarousel.tsx:202 | without events there are none for the year; otherwise the year's events are exactly the given events of that year |
| EventCarousel.YearEventsKeepOrder | src/components/timeline/EventCarousel.tsx:202 | the filter keeps the given order |
| EventCarousel.HighlightedAreCurrentMonth | src/components/timeline/EventCarousel.tsx:261 | among the year's events the highlighted ones are exactly the events of the current year and month |
| EventCarousel.TechTagsAreFirstFour | src/components/timeline/EventCarousel.tsx:280-288 | a card shows the first four tags of its event, or all of them when there are fewer, and none without a list |
| EventCarousel.CardLinksShowPresentUrls | src/components/timeline/EventCarousel.tsx:290-313 | the link row exists exactly when the event has links; it holds the GitHub link exactly when that URL is non-empty, likewise the live link, GitHub first |
| EventCarousel.RenderShowsYearEvents | src/components/timeline/EventCarousel.tsx:254-325 | the no-events message appears exactly when the year has no events; otherwise there is one card per event of the year, in order, keyed by its id, highlighted exactly when its month is the current one |
| EventCarousel.Carousel.constructor | src/components/timeline/EventCarousel.tsx:198-199 | the first props count as already processed |
| EventCarousel.YearEvents | src/components/timeline/EventCarousel.tsx:202 | no events gives none; otherwise only given events of the current year, never more than were given |
| EventCarousel.Render | src/components/timeline/EventCarousel.tsx:254-325 | the no-events message exactly when the year has no events; otherwise one card per event of the year, keyed by its id, in order |
| EventCarousel.Carousel.VisibleTask | src/components/timeline/EventCarousel.tsx:204-215 | the visible task schedules a scroll exactly when cards are shown and the month or year changed, and then records the new pair; otherwise nothing changes |
| TimelinePointer.KoreanLabel | src/components/timeline/TimelinePointer.tsx:14-15 | under `ko` the label is two words, `<year>년` and `<month>월`, whose digits read back as the year and the month |
| TimelinePointer.FormatDate | src/components/timeline/TimelinePointer.tsx:11-20 | on the server the label is the runtime's date format with a zero-based month; under `ko` it ends with `월`, under `ja` with `月` |
| TimelinePointer.ServerReadsEnglish | src/components/timeline/TimelinePointer.tsx:12 | the empty path of a server render reads as English |
| TimelinePointer.JapaneseLabel | src/components/timeline/TimelinePointer.tsx:16-17 | under `ja` the label has no blank and, split at `年`, reads back as the year and `<month>月` |
| TimelinePointer.OtherLanguagesDelegate | src/components/timeline/TimelinePointer.tsx:11-20 | any other language, and every server render, leaves the label to the runtime's English date format with a zero-based month |
| TimelinePointer.DefaultKoreanLabel | src/components/timeline/TimelinePointer.tsx:8-15 | without props the marker shows January 2022, `2022년 1월` under `ko` |

## Left out

- Timer delays are not modelled. The random typing delays and the step and resume delays of the drivers are kept only as numbers on pending timers. The interleaving of timers with user input is not explored.
- `ScriptDriver.Stepped`, `VimScriptDriver.Stepped`, `VimScriptDriver.Driver.LaunchVim` and `VimScriptDriver.Driver.PlayEntry` fold the awaited `typeCommand` and the 300 ms and 500 ms waits into one atomic step, so these waits get no pending timer. The model therefore cannot show a pause or resume arriving while a command is typed or during those waits. In the source such a pause clears nothing, because `animationTimeout` is assigned only after the waits. A resume in that window starts a second, overlapping run, which the model does not capture.
- Clock and randomness are parameters. The clock reading behind `Date.now()` ids is one of them.
- Foreign code is a parameter or an effect:
  - the SHA-256 digest of the hash collector is a parameter;
  - `toLocaleDateString` is a parameter;
  - `validateLocale` is a request field;
  - the drivers' imported `executeCommand` is a recorded effect;
  - `window.__terminalWrapper.typeVimContent` is a recorded effect;
  - the navigation in `selectLanguage` is a recorded effect.
- Several runtime calls are not modelled: `locale()`, `setSpeakContext` and the thrown `redirect` in `src/routes/plugin.ts`. The handler returns its decision instead.
- The collector's file handling is left out: `findHtmlFiles`, `readFile`, the `try`/`catch` and `console`/`process.exit`. `CollectHashes` starts from the pages' texts, and the no-pages case is its error outcome.
- The `terminal/components/terminal-view/stores/terminal.store.ts` store, which one driver imports, is not part of this model. Both drivers are modelled against the terminal view's store.
- The script data files are not modelled. The drivers take any script as a parameter, and the one script fact proved is the tagged `:wq` case.
- `LocaleRouting.ParseQuality`: this is a weaker reading of `parseFloat`. It reads unsigned decimals only, keeps three fraction digits, and returns NaN for leading blanks, signs, exponents and `Infinity`. Real qvalues have at most three decimals (section 12.4.2 of RFC 9110).
- `LocaleRouting.SortByQuality`: the result is fixed as a stable insertion sort. With NaN qualities the comparator is inconsistent, so JavaScript leaves the order to the engine.
- `JsText.ToLower` folds ASCII letters only. Headers are looked up by their exact lower-case names, with no case-insensitive `Headers` lookup.
- Strings are sequences of code points, not UTF-16 code units. This covers comparison (including the default `sort()` order of the hash collector), `length`, indexing, slicing, the typed prefixes (`TypingAnimator.Prefixes`) and `split("")` (`VimKeystrokes.Chars`). A character outside the Basic Multilingual Plane, such as an emoji in a script, is one element here. In the source it is two code units: it is typed in two ticks, and `split("")` sends two keys.
- Holes are not modelled. An array assignment past the end fills the gap with empty strings, which is how the joined text shows them.
- `TerminalVimStore.ScreenRow`, `TerminalVimStore.VimLines`, `JsArray.AssignAt`, `JsArray.LineAt` and `TerminalVimEngine.YankLineAction` do not model the non-index property `"-1"` of a JavaScript array. Row -1 is reachable: `dd` on a one-line buffer sets the cursor row to -1, and following the cursor then sets the viewport start to -1. Typing in insert mode at row -1 writes the line to `content[-1]` in the source. The array keeps that property until the next keystroke copies the array, so it holds only what the last keystroke wrote there. Here the write is dropped and `content[-1]` reads as `""`. As a result, screen row -1 shows `""` where the source reads `undefined`, or that stored text after typing, and `yy` at row -1 yanks `""` where the source may yank the stored text.
- `TerminalStore.TerminalTransform`: rotations are integers. Non-integral angles and the number formatting of floats are not modelled.
- The derived stores that only read one field are not modelled. This covers the mode and visibility stores beside the terminal stores.
- The terminal view store's copy of the perspective configuration is not modelled. It duplicates the terminal store's.
- The unused `commandHistory` field is not modelled.
- `EventCarousel.Carousel.VisibleTask`: the delayed `scrollTo` and the container geometry are not modelled. This covers the 100 ms timer, the test whether the highlighted card is fully visible, and the two scroll offsets for a card hidden on the left or the right. The effect's scroll is counted, not computed, and the container ref is "cards are rendered".
- `TimelineNode.NodeClass` covers only the class attribute. Style strings are not modelled: the node's `left: calc(...)` offset is `XPosition`, and colours are not rendered into CSS.
- `TimelineNode.NodeColor` ignores JavaScript prototype keys such as `constructor` in `categoryColors`. They count as unknown categories.
- `TimelineNode.NodeClassSlots` reads the four slots back only for a position without blanks.
- `LanguageSwitch.SelectThenRead` holds only for a language without `/`. The three options satisfy this.
- `TimelinePointer.KoreanLabel` and `TimelinePointer.JapaneseLabel` read the digits back only for a non-negative year and month.
- `CspConfig.CspString` and `CspConfig.CspMetaString` state the parse-back only for records whose directives are all serialisable. `CspConfig.ScriptSrcSerialisable` proves this shape for `script-src` with any single-token hashes. The thirteen literal base values and the nine collected hash literals are not checked character by character.
