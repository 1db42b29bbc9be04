/**
 * The records shared by the terminal emulator: script lines, the state of the
 * array-based vim emulator, terminal configuration and executor queue items.
 */
module TerminalTypes {
  import opened Optional

  /** The kind of a script line; it selects the line's styling. */
  datatype LogType = Command | Info | Success | Error | Log | Warning | System | Vim

  /** One line of the scripted terminal session; `delay` is in milliseconds. */
  datatype LogLine = LogLine(id: int, text: string, kind: LogType, delay: int)

  /** The state of the terminal log buffer. */
  datatype TerminalState = TerminalState(
    displayedLines: seq<LogLine>,
    currentIndex: int,
    isTyping: bool,
    currentText: string,
    mode: TerminalMode)

  datatype TerminalMode = TerminalView | VimView

  datatype VimMode = Closed | Normal | Insert | Visual | CommandMode

  datatype Pos = Pos(row: int, col: int)

  /** The state of the array-based vim emulator: the buffer is a sequence of lines. */
  datatype VimState = VimState(
    mode: VimMode,
    filename: string,
    content: seq<string>,
    cursorRow: int,
    cursorCol: int,
    viewportStart: int,
    savedContent: seq<string>,
    commandBuffer: string,
    visualStart: Option<Pos>,
    visualEnd: Option<Pos>,
    yankBuffer: seq<string>,
    lastCommand: string,
    marks: map<string, Pos>,
    showLineNumbers: bool)

  datatype Perspective = Perspective(rotationX: int, rotationY: int, rotationZ: int)

  datatype ScrollBehavior = Smooth | Auto

  datatype TerminalConfig = TerminalConfig(
    visibleLines: int,
    scrollBehavior: ScrollBehavior,
    perspective: Perspective)

  datatype ItemType = LineItem | CommandItem | VimKeyItem | DelayItem

  /**
   * The payload of a queue item: a script line, a text (with the typed prefix so
   * far), a vim key (with its own delay), a bare number, or a script line
   * together with its typed prefix (`{ ...line, currentText }`).
   */
  datatype ItemData =
    | LineData(line: LogLine)
    | TextData(text: string, currentText: Option<string>)
    | KeyData(key: string, keyDelay: Option<int>)
    | NumberData(n: int)
    | TypedLineData(typed: LogLine, typedText: string)

  datatype AnimationQueueItem = Item(kind: ItemType, data: ItemData, duration: Option<int>)
}
