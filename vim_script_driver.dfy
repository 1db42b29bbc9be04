/**
 * The terminal driver that plays a script through the terminal view and,
 * on a `vim ` command, gathers the lines meant for the editor and hands the
 * vim view a synthetic keystroke sequence. The waits between typing and
 * executing a command (300 ms) and before gathering the editor lines
 * (500 ms) are folded into the step that starts them.
 */
module VimScriptDriver {
  import opened Optional
  import opened JsText
  import opened TerminalTypes
  import opened VimKeystrokes
  import opened ScriptPlayback
  import TerminalViewStore
  import TerminalVimEngine
  import TypeCommand

  /** Whether an entry ends the editor lines: `:wq` or `:x` on an entry that is not itself an editor line. */
  predicate IsExit(e: LogLine) {
    e.kind != Vim && (e.text == ":wq" || e.text == ":x")
  }

  /** The first exit entry at or after `from`, if any. */
  function FindExit(script: seq<LogLine>, from: nat): (r: Option<nat>)
    ensures r.Some? ==> from <= r.value < |script| && IsExit(script[r.value]) &&
                        forall k :: from <= k < r.value ==> !IsExit(script[k])
    ensures r.None? ==> forall k :: from <= k < |script| ==> !IsExit(script[k])
    decreases |script| - from
  {
    if from >= |script| then None
    else if IsExit(script[from]) then Some(from)
    else FindExit(script, from + 1)
  }

  /** The texts of the editor lines among some entries, in order. */
  function VimTexts(entries: seq<LogLine>): (r: seq<string>)
    ensures |r| <= |entries|
  {
    if |entries| == 0 then []
    else (if entries[0].kind == Vim then [entries[0].text] else []) + VimTexts(entries[1..])
  }

  lemma {:induction false} VimTextsAppend(a: seq<LogLine>, b: seq<LogLine>)
    ensures VimTexts(a + b) == VimTexts(a) + VimTexts(b)
    decreases |a|
  {
    if |a| == 0 {
      assert a + b == b;
    } else {
      var head := if a[0].kind == Vim then [a[0].text] else [];
      assert (a + b)[0] == a[0] && (a + b)[1..] == a[1..] + b;
      VimTextsAppend(a[1..], b);
      calc {
        VimTexts(a + b);
        head + VimTexts(a[1..] + b);
        head + (VimTexts(a[1..]) + VimTexts(b));
        (head + VimTexts(a[1..])) + VimTexts(b);
        VimTexts(a) + VimTexts(b);
      }
    }
  }

  /** Entries that are all editor lines give all their texts. */
  lemma {:induction false} VimTextsOfEditorLines(entries: seq<LogLine>)
    requires forall k :: 0 <= k < |entries| ==> entries[k].kind == Vim
    ensures |VimTexts(entries)| == |entries|
    ensures forall k :: 0 <= k < |entries| ==> VimTexts(entries)[k] == entries[k].text
    decreases |entries|
  {
    if |entries| > 0 {
      VimTextsOfEditorLines(entries[1..]);
    }
  }

  /** `triggerVimTyping`: with a vim view present, its keystrokes are scheduled 300 ms later. */
  function Triggered(hasWrapper: bool, p: Playback, contentLines: seq<string>): Playback {
    if hasWrapper then Scheduled(p, 300, TypeVimContent(TypingSequence(contentLines))) else p
  }

  /**
   * `collectVimContent`: on finding an exit entry, type the editor lines before
   * it and move past it; with no exit entry ahead, nothing changes.
   */
  function Collected(script: seq<LogLine>, hasWrapper: bool, p: Playback): (r: Playback)
    requires 0 <= p.currentIndex <= |script|
    ensures r.effects == p.effects && r.animationTimeout == p.animationTimeout
    ensures p.currentIndex <= r.currentIndex <= |script|
    ensures r.currentIndex == p.currentIndex ==> r == p
    ensures r.currentIndex != p.currentIndex ==> IsExit(script[r.currentIndex - 1])
    ensures !hasWrapper ==> r.pending == p.pending
    ensures hasWrapper && r.currentIndex != p.currentIndex ==> |r.pending| == |p.pending| + 1
  {
    match FindExit(script, p.currentIndex)
    case None => p
    case Some(j) => Triggered(hasWrapper, p, VimTexts(script[p.currentIndex..j])).(currentIndex := j + 1)
  }

  /** A `vim ` command: typed and executed, then the editor lines after it are gathered. */
  function Launched(script: seq<LogLine>, hasWrapper: bool, f: Frame, e: LogLine): Frame
    requires 0 <= f.driver.currentIndex < |script|
  {
    var i := f.driver.currentIndex + 1;
    var d := f.driver.(currentIndex := i, effects := f.driver.effects + [Executed(e.text)]);
    Frame(Collected(script, hasWrapper, d), Typed(f.view).(animationIndex := i))
  }

  /**
   * One call of `runTerminalAnimation`: the log and the executed commands gain
   * at most one entry each, at most one timer is scheduled, and the index
   * never moves back.
   */
  function Stepped(script: seq<LogLine>, hasWrapper: bool, f: Frame): (r: Frame)
    ensures |f.view.displayedLines| <= |r.view.displayedLines| <= |f.view.displayedLines| + 1
    ensures |f.driver.effects| <= |r.driver.effects| <= |f.driver.effects| + 1
    ensures |f.driver.pending| <= |r.driver.pending| <= |f.driver.pending| + 1
    ensures f.driver.currentIndex <= r.driver.currentIndex
  {
    match ActionAt(script, f.driver.currentIndex)
    case Finish => f.(view := f.view.(isAnimating := false))
    case Fail => f
    case LaunchVim(e) => Launched(script, hasWrapper, f, e)
    case RunCommand(e) => Advanced(f, e)
    case Show(e) => Advanced(f, e)
  }

  /** The timer at position `i` fires: it is used up; a keystroke timer only hands its keys to the vim view. */
  function Fired(script: seq<LogLine>, hasWrapper: bool, f: Frame, i: nat): (r: Frame)
    requires i < |f.driver.pending|
    ensures |r.driver.pending| <= |f.driver.pending|
    ensures f.driver.pending[i].callback.TypeVimContent? ==>
      r.view == f.view && r.driver.currentIndex == f.driver.currentIndex &&
      r.driver.effects == f.driver.effects + [VimContentTyped(f.driver.pending[i].callback.keys)]
  {
    var d := Dequeued(f.driver, i);
    match f.driver.pending[i].callback
    case RunStep => Stepped(script, hasWrapper, f.(driver := d))
    case TypeVimContent(keys) => f.(driver := d.(effects := d.effects + [VimContentTyped(keys)]))
  }

  /** `resumeAnimation(index)`: move to `index` when one is given, and step again after 1000 ms. */
  function Resumed(p: Playback, index: Option<int>): (r: Playback)
    ensures r.currentIndex == (if index.Some? then index.value else p.currentIndex)
    ensures r.pending == p.pending + [Timer(p.nextId, 1000, RunStep)]
    ensures r.effects == p.effects && r.animationTimeout == p.animationTimeout
    ensures HandlesFresh(p) ==> HandlesFresh(r)
  {
    Scheduled(if index.Some? then p.(currentIndex := index.value) else p, 1000, RunStep)
  }

  /** Past the end of the script a step only marks the animation complete. */
  lemma FinishAddsNothing(script: seq<LogLine>, hasWrapper: bool, f: Frame)
    requires f.driver.currentIndex >= |script|
    ensures var r := Stepped(script, hasWrapper, f);
      r.driver == f.driver && r.view == f.view.(isAnimating := false)
  {
  }

  /** A `vim ` command is typed and executed, its successor index is stored, and no step timer is scheduled. */
  lemma VimLaunchStopsStepping(script: seq<LogLine>, hasWrapper: bool, f: Frame)
    requires 0 <= f.driver.currentIndex < |script| && IsVimLaunch(script[f.driver.currentIndex])
    ensures var i := f.driver.currentIndex;
            var r := Stepped(script, hasWrapper, f);
      && r.view == Typed(f.view).(animationIndex := i + 1)
      && r.driver.effects == f.driver.effects + [Executed(script[i].text)]
      && r.driver.animationTimeout == f.driver.animationTimeout
      && (forall t :: t in r.driver.pending ==> t in f.driver.pending || t.callback.TypeVimContent?)
      && r.driver.currentIndex > i
  {
    var i := f.driver.currentIndex;
    var d := f.driver.(currentIndex := i + 1, effects := f.driver.effects + [Executed(script[i].text)]);
    assert Stepped(script, hasWrapper, f).driver == Collected(script, hasWrapper, d);
  }

  /**
   * Gathering after a `vim ` command at `i`: when an exit entry follows, the
   * index moves just past the first one and, with a vim view present, the
   * keystrokes typing the editor lines between them are scheduled; otherwise
   * the index stays just past the command and nothing is scheduled.
   */
  lemma VimLaunchGathersEditorLines(script: seq<LogLine>, hasWrapper: bool, f: Frame)
    requires 0 <= f.driver.currentIndex < |script| && IsVimLaunch(script[f.driver.currentIndex])
    ensures var i := f.driver.currentIndex;
            var r := Stepped(script, hasWrapper, f).driver;
      match FindExit(script, i + 1)
      case None => r.currentIndex == i + 1 && r.pending == f.driver.pending
      case Some(j) =>
        && r.currentIndex == j + 1
        && r.pending == f.driver.pending +
             (if hasWrapper then [Timer(f.driver.nextId, 300, TypeVimContent(TypingSequence(VimTexts(script[i + 1..j]))))]
              else [])
  {
    var i := f.driver.currentIndex;
    var d := f.driver.(currentIndex := i + 1, effects := f.driver.effects + [Executed(script[i].text)]);
    assert Stepped(script, hasWrapper, f).driver == Launched(script, hasWrapper, f, script[i]).driver
      == Collected(script, hasWrapper, d);
    CollectedMovesPastExit(script, hasWrapper, d);
  }

  /** What gathering does from the playback's index: move past the first exit entry and schedule the keystrokes, if any. */
  lemma CollectedMovesPastExit(script: seq<LogLine>, hasWrapper: bool, p: Playback)
    requires 0 <= p.currentIndex <= |script|
    ensures var r := Collected(script, hasWrapper, p);
      match FindExit(script, p.currentIndex)
      case None => r == p
      case Some(j) =>
        && r.currentIndex == j + 1
        && r.pending == p.pending +
             (if hasWrapper then [Timer(p.nextId, 300, TypeVimContent(TypingSequence(VimTexts(script[p.currentIndex..j]))))]
              else [])
  {
  }


  /** The keystrokes handed to the vim view spell out exactly the editor lines gathered. */
  lemma GatheredLinesAreTyped(script: seq<LogLine>, from: nat, j: nat)
    requires FindExit(script, from) == Some(j) && VimTexts(script[from..j]) != []
    ensures Decode(TypingSequence(VimTexts(script[from..j]))) == VimTexts(script[from..j])
    ensures Newlines(TypingSequence(VimTexts(script[from..j]))) == |VimTexts(script[from..j])| - 1
  {
    TypingSequenceRoundTrip(VimTexts(script[from..j]));
    NewlineCount(VimTexts(script[from..j]));
  }

  /**
   * A `:wq` tagged as an editor line is gathered as text rather than taken
   * as the exit, so a script shaped like the one beside the array-variant
   * editor never leaves vim.
   */
  lemma TaggedExitIsGatheredAsText()
    ensures var script := [LogLine(79, "}", Vim, 60), LogLine(80, ":wq", Vim, 300), LogLine(81, "written", System, 100)];
      FindExit(script, 0).None? && VimTexts(script) == ["}", ":wq"]
  {
    var script := [LogLine(79, "}", Vim, 60), LogLine(80, ":wq", Vim, 300), LogLine(81, "written", System, 100)];
    assert !IsExit(script[0]) && !IsExit(script[1]) && !IsExit(script[2]);
    assert script[1..][1..][1..] == [];
    assert VimTexts(script[1..][1..]) == [];
  }

  /** `:x` ends the gathering, yet in the array-variant editor it only returns to normal mode. */
  lemma ColonXEndsGatheringButNotTheEditor(id: int, delay: int)
    ensures FindExit([LogLine(id, ":x", Command, delay)], 0) == Some(0)
    ensures TerminalVimEngine.ExecuteVimCommand("x").mode == Some(Normal)
  {
  }

  /** `resumeAnimation` moves the index only when one is given, and schedules one step 1000 ms later. */
  lemma ResumeMovesIndexOnlyWhenGiven(p: Playback, index: Option<int>)
    ensures var r := Resumed(p, index);
      && r.currentIndex == (if index.Some? then index.value else p.currentIndex)
      && r.pending == p.pending + [Timer(p.nextId, 1000, RunStep)]
      && r.animationTimeout == p.animationTimeout && r.effects == p.effects
  {
  }

  class Driver {
    const script: seq<LogLine>
    /** Whether `window.__terminalWrapper` offers `typeVimContent`. */
    const hasWrapper: bool
    const store: TerminalViewStore.Store
    var currentIndex: int
    var animationTimeout: Option<nat>
    var pending: seq<Timer>
    var nextId: nat
    var effects: seq<Effect>

    function Current(): Frame
      reads this, store
    {
      Frame(Playback(currentIndex, animationTimeout, pending, nextId, effects), store.state)
    }

    constructor (script: seq<LogLine>, hasWrapper: bool, store: TerminalViewStore.Store)
      ensures this.script == script && this.hasWrapper == hasWrapper && this.store == store
      ensures currentIndex == 0 && animationTimeout == None && pending == [] && nextId == 0 && effects == []
    {
      this.script := script;
      this.hasWrapper := hasWrapper;
      this.store := store;
      currentIndex := 0;
      animationTimeout := None;
      pending := [];
      nextId := 0;
      effects := [];
    }

    /** `triggerVimTyping`: build the keystrokes and schedule them for the vim view, if there is one. */
    method TriggerVimTyping(contentLines: seq<string>)
      modifies this
      ensures Current().driver == Triggered(hasWrapper, old(Current().driver), contentLines)
    {
      if hasWrapper {
        var typingSequence := BuildTypingSequence(contentLines);
        pending := pending + [Timer(nextId, 300, TypeVimContent(typingSequence))];
        nextId := nextId + 1;
      }
    }

    /** `collectVimContent`: scan forward for the exit entry, gathering editor lines on the way. */
    method CollectVimContent()
      requires 0 <= currentIndex <= |script|
      modifies this
      ensures Current().driver == Collected(script, hasWrapper, old(Current().driver))
    {
      var contentLines: seq<string> := [];
      var tempIndex: nat := currentIndex;
      while tempIndex < |script|
        invariant 0 <= currentIndex <= tempIndex <= |script|
        invariant contentLines == VimTexts(script[currentIndex..tempIndex])
        invariant FindExit(script, tempIndex) == FindExit(script, currentIndex)
        invariant Current().driver == old(Current().driver)
        decreases |script| - tempIndex
      {
        var sequence := script[tempIndex];
        if sequence.kind == Vim {
          contentLines := contentLines + [sequence.text];
        } else if sequence.text == ":wq" || sequence.text == ":x" {
          TriggerVimTyping(contentLines);
          currentIndex := tempIndex + 1;
          return;
        }
        VimTextsAppend(script[currentIndex..tempIndex], [sequence]);
        ExtendSlice(script, currentIndex, tempIndex);
        tempIndex := tempIndex + 1;
      }
    }

    /** `runTerminalAnimation`. */
    method Step()
      modifies this, store
      ensures Current() == Stepped(script, hasWrapper, old(Current()))
    {
      if currentIndex >= |script| {
        store.CompleteAnimation();
        return;
      }
      if currentIndex < 0 {
        return;
      }
      var sequence := script[currentIndex];
      if sequence.kind == Command && StartsWith(sequence.text, "vim ") {
        LaunchVim();
        return;
      }
      PlayEntry();
    }

    /** The `vim ` branch of `runTerminalAnimation`: type and run the command, then gather the editor lines. */
    method LaunchVim()
      requires 0 <= currentIndex < |script| && IsVimLaunch(script[currentIndex])
      modifies this, store
      ensures Current() == Stepped(script, hasWrapper, old(Current()))
    {
      var sequence := script[currentIndex];
      var _ := TypeCommand.TypeCommand(store, sequence.text);
      effects := effects + [Executed(sequence.text)];
      currentIndex := currentIndex + 1;
      store.SetAnimationIndex(currentIndex);
      CollectVimContent();
    }

    /** Any other entry: a command is typed and run, a line is shown; then the next step is scheduled. */
    method PlayEntry()
      requires 0 <= currentIndex < |script| && !IsVimLaunch(script[currentIndex])
      modifies this, store
      ensures Current() == Stepped(script, hasWrapper, old(Current()))
    {
      var sequence := script[currentIndex];
      if sequence.kind == Command {
        var _ := TypeCommand.TypeCommand(store, sequence.text);
        effects := effects + [Executed(sequence.text)];
      } else {
        store.AddLine(sequence);
      }
      currentIndex := currentIndex + 1;
      animationTimeout := Some(nextId);
      pending := pending + [Timer(nextId, sequence.delay, RunStep)];
      nextId := nextId + 1;
    }

    /** The pending timer at position `i` fires. */
    method Fire(i: nat)
      requires i < |pending|
      modifies this, store
      ensures Current() == Fired(script, hasWrapper, old(Current()), i)
    {
      var timer := pending[i];
      pending := pending[..i] + pending[i + 1..];
      match timer.callback {
        case RunStep => Step();
        case TypeVimContent(keys) => effects := effects + [VimContentTyped(keys)];
      }
    }

    /** `pauseAnimation`. */
    method Pause()
      modifies this
      ensures Current().driver == Paused(old(Current().driver))
    {
      if animationTimeout.Some? {
        pending := Cancelled(pending, animationTimeout.value);
        animationTimeout := None;
      }
    }

    /** `resumeAnimation(index)`. */
    method Resume(index: Option<int>)
      modifies this
      ensures Current().driver == Resumed(old(Current().driver), index)
    {
      if index.Some? {
        currentIndex := index.value;
      }
      pending := pending + [Timer(nextId, 1000, RunStep)];
      nextId := nextId + 1;
    }
  }
}
