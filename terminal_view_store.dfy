/**
 * The log buffer of the terminal view: the same operations as the terminal
 * store, plus echoing an executed command and the position of the script
 * player.
 */
module TerminalViewStore {
  import opened Optional
  import opened JsText
  import opened TerminalTypes
  import TerminalStore

  datatype ViewState = ViewState(
    displayedLines: seq<LogLine>,
    currentIndex: int,
    isTyping: bool,
    currentText: string,
    mode: TerminalMode,
    lastCommand: Option<string>,
    animationIndex: int,
    isAnimating: bool)

  const InitialState := ViewState([], 0, false, "", TerminalView, None, 0, false)

  /** The log line that echoes an executed command: its trimmed text, typed as a command, with no delay. */
  function CommandLine(command: string, now: int): (line: LogLine)
    ensures line.text == Trim(command) && line.kind == Command && line.delay == 0 && line.id == now
  {
    LogLine(now, Trim(command), Command, 0)
  }

  /** The state after executing a command at time `now`: the echo is appended and remembered. */
  function CommandExecuted(s: ViewState, command: string, now: int): (r: ViewState)
    ensures r.displayedLines == s.displayedLines + [CommandLine(command, now)]
    ensures r.lastCommand == Some(Trim(command))
    ensures r.(displayedLines := s.displayedLines, lastCommand := s.lastCommand) == s
  {
    s.(displayedLines := s.displayedLines + [CommandLine(command, now)], lastCommand := Some(Trim(command)))
  }

  /** Executing the same command again echoes the same text: the echo is already trimmed. */
  lemma EchoOfEchoIsSame(command: string, now: int, later: int)
    ensures CommandLine(CommandLine(command, now).text, later).text == CommandLine(command, now).text
  {
    TrimIdempotent(command);
  }

  /** The text shown as the command being typed. */
  function CurrentCommand(s: ViewState): (r: string)
    ensures s.isTyping ==> r == s.currentText
    ensures !s.isTyping ==> r == ""
  {
    if s.isTyping then s.currentText else ""
  }

  /** The store. The clock reading that stamps an echoed command is a parameter. */
  class Store {
    var state: ViewState

    constructor ()
      ensures state == InitialState
    {
      state := InitialState;
    }

    method AddLine(line: LogLine)
      modifies this
      ensures state == old(state).(displayedLines := old(state).displayedLines + [line])
    {
      state := state.(displayedLines := state.displayedLines + [line]);
    }

    method UpdateTyping(isTyping: bool, currentText: string)
      modifies this
      ensures state == old(state).(isTyping := isTyping, currentText := currentText)
      ensures CurrentCommand(state) == if isTyping then currentText else ""
    {
      state := state.(isTyping := isTyping, currentText := currentText);
    }

    method SetMode(mode: TerminalMode)
      modifies this
      ensures state == old(state).(mode := mode)
    {
      state := state.(mode := mode);
    }

    method ClearLines()
      modifies this
      ensures state == old(state).(displayedLines := [])
    {
      state := state.(displayedLines := []);
    }

    method TrimLines(maxLines: int)
      modifies this
      ensures state == old(state).(displayedLines := TerminalStore.Trimmed(old(state).displayedLines, maxLines))
    {
      state := state.(displayedLines := TerminalStore.Trimmed(state.displayedLines, maxLines));
    }

    method Reset()
      modifies this
      ensures state == InitialState
    {
      state := InitialState;
    }

    /** Echo a command and return it trimmed. */
    method ExecuteCommand(command: string, now: int) returns (trimmed: string)
      modifies this
      ensures trimmed == Trim(command)
      ensures state == CommandExecuted(old(state), command, now)
    {
      trimmed := Trim(command);
      var commandLine := LogLine(now, trimmed, Command, 0);
      state := state.(displayedLines := state.displayedLines + [commandLine], lastCommand := Some(trimmed));
    }

    method SetAnimationIndex(index: int)
      modifies this
      ensures state == old(state).(animationIndex := index)
    {
      state := state.(animationIndex := index);
    }

    method ResumeAnimation()
      modifies this
      ensures state == old(state).(isAnimating := true)
    {
      state := state.(isAnimating := true);
    }

    method CompleteAnimation()
      modifies this
      ensures state == old(state).(isAnimating := false)
    {
      state := state.(isAnimating := false);
    }
  }
}
