/**
 * The terminal driver of the stand-alone terminal view: it plays a script
 * one entry per step and stops for good at a `vim ` command, leaving the
 * stored index for whoever resumes it. The 300 ms wait between typing and
 * executing a command is folded into the step that starts it.
 */
module ScriptDriver {
  import opened Optional
  import opened JsText
  import opened TerminalTypes
  import opened ScriptPlayback
  import TerminalViewStore
  import TypeCommand

  /**
   * One call of `runTerminalAnimation`: at most the current entry is added to
   * the log or executed, and the index moves on by one only from an entry.
   */
  function Stepped(script: seq<LogLine>, f: Frame): (r: Frame)
    ensures r.view.displayedLines == f.view.displayedLines
      || (0 <= f.driver.currentIndex < |script|
          && r.view.displayedLines == f.view.displayedLines + [script[f.driver.currentIndex]])
    ensures r.driver.effects == f.driver.effects
      || (0 <= f.driver.currentIndex < |script|
          && r.driver.effects == f.driver.effects + [Executed(script[f.driver.currentIndex].text)])
    ensures r.driver.currentIndex == f.driver.currentIndex
      || (0 <= f.driver.currentIndex < |script| && r.driver.currentIndex == f.driver.currentIndex + 1)
  {
    match ActionAt(script, f.driver.currentIndex)
    case Finish => f.(view := f.view.(isAnimating := false))
    case Fail => f
    case LaunchVim(e) =>
      var i := f.driver.currentIndex + 1;
      Frame(f.driver.(currentIndex := i, effects := f.driver.effects + [Executed(e.text)]),
            Typed(f.view).(animationIndex := i))
    case RunCommand(e) => Advanced(f, e)
    case Show(e) => Advanced(f, e)
  }

  /** The step timer at position `i` fires: it is used up, so the pending timers never grow. */
  function Fired(script: seq<LogLine>, f: Frame, i: nat): (r: Frame)
    requires i < |f.driver.pending|
    ensures |r.driver.pending| <= |f.driver.pending|
    ensures HandlesFresh(f.driver) ==> HandlesFresh(r.driver)
  {
    Stepped(script, f.(driver := Dequeued(f.driver, i)))
  }

  /** `resumeAnimation(index)`: move to `index` when one is given, and step at once. */
  function Resumed(script: seq<LogLine>, f: Frame, index: Option<int>): (r: Frame)
    ensures index.Some? && 0 <= index.value < |script| ==> r.driver.currentIndex == index.value + 1
    ensures index.Some? && !(0 <= index.value < |script|) ==> r.driver.currentIndex == index.value
  {
    Stepped(script, if index.Some? then f.(driver := f.driver.(currentIndex := index.value)) else f)
  }

  /** `n` successive `runTerminalAnimation` calls, each on the frame the previous one left. */
  function Steps(script: seq<LogLine>, f: Frame, n: nat): Frame
    decreases n
  {
    if n == 0 then f else Steps(script, Stepped(script, f), n - 1)
  }

  /** What one played entry adds to the log: the entry itself unless it is a command. */
  function ShownEntry(e: LogLine): seq<LogLine> {
    if e.kind != Command then [e] else []
  }

  /** What one played entry executes: the entry's text when it is a command. */
  function ExecutedEntry(e: LogLine): seq<Effect> {
    if e.kind == Command then [Executed(e.text)] else []
  }

  /** The entries a run of steps adds to the log: every entry that is not a command, in order. */
  function Shown(entries: seq<LogLine>): (r: seq<LogLine>)
    ensures |r| <= |entries|
  {
    if |entries| == 0 then []
    else ShownEntry(entries[0]) + Shown(entries[1..])
  }

  /** The commands a run of steps executes: every command entry, in order. */
  function Executions(entries: seq<LogLine>): (r: seq<Effect>)
    ensures |r| <= |entries|
  {
    if |entries| == 0 then []
    else ExecutedEntry(entries[0]) + Executions(entries[1..])
  }

  /** Past the end of the script a step only marks the animation complete. */
  lemma FinishOnlyCompletes(script: seq<LogLine>, f: Frame)
    requires f.driver.currentIndex >= |script|
    ensures Stepped(script, f) == f.(view := f.view.(isAnimating := false))
  {
  }

  /** A `vim ` command is typed and executed and its successor index stored; nothing is scheduled. */
  lemma VimLaunchStops(script: seq<LogLine>, f: Frame)
    requires 0 <= f.driver.currentIndex < |script| && IsVimLaunch(script[f.driver.currentIndex])
    ensures var i := f.driver.currentIndex;
            var r := Stepped(script, f);
      && r.driver.currentIndex == i + 1
      && r.view == Typed(f.view).(animationIndex := i + 1)
      && r.driver.effects == f.driver.effects + [Executed(script[i].text)]
      && r.driver.pending == f.driver.pending && r.driver.animationTimeout == f.driver.animationTimeout
  {
  }

  /** Every step on an entry of the script moves the index on by exactly one. */
  lemma StepAdvancesByOne(script: seq<LogLine>, f: Frame)
    requires 0 <= f.driver.currentIndex < |script|
    ensures Stepped(script, f).driver.currentIndex == f.driver.currentIndex + 1
    ensures Stepped(script, f).view.animationIndex == f.view.animationIndex ||
            IsVimLaunch(script[f.driver.currentIndex])
  {
    AdvancedStep(f, script[f.driver.currentIndex]);
  }

  /** One step on an entry: the log gains it unless it is a command, and a command is executed. */
  lemma StepPlaysEntry(script: seq<LogLine>, f: Frame)
    requires 0 <= f.driver.currentIndex < |script|
    ensures var e := script[f.driver.currentIndex];
            var g := Stepped(script, f);
      && g.driver.currentIndex == f.driver.currentIndex + 1
      && g.view.displayedLines == f.view.displayedLines + ShownEntry(e)
      && g.driver.effects == f.driver.effects + ExecutedEntry(e)
  {
    AdvancedStep(f, script[f.driver.currentIndex]);
  }

  /** A window of the script is its first entry followed by the rest of the window. */
  lemma WindowOfCons(script: seq<LogLine>, i: nat, n: nat)
    requires i + n <= |script| && n >= 1
    ensures Shown(script[i..i + n]) == ShownEntry(script[i]) + Shown(script[i + 1..i + n])
    ensures Executions(script[i..i + n]) ==
      ExecutedEntry(script[i]) + Executions(script[i + 1..i + n])
  {
    WindowHeadTail(script, i, n);
  }

  /** The entries that steps from index `i` add to the log, counted by index. */
  function ShownFrom(script: seq<LogLine>, i: nat, n: nat): seq<LogLine>
    requires i + n <= |script|
    decreases n
  {
    if n == 0 then [] else ShownEntry(script[i]) + ShownFrom(script, i + 1, n - 1)
  }

  /** The commands that steps from index `i` execute, counted by index. */
  function ExecutedFrom(script: seq<LogLine>, i: nat, n: nat): seq<Effect>
    requires i + n <= |script|
    decreases n
  {
    if n == 0 then [] else ExecutedEntry(script[i]) + ExecutedFrom(script, i + 1, n - 1)
  }

  /** Counting by index and taking the window of the script agree. */
  lemma {:induction false} ShownFromIsWindow(script: seq<LogLine>, i: nat, n: nat)
    requires i + n <= |script|
    ensures ShownFrom(script, i, n) == Shown(script[i..i + n])
    decreases n
  {
    if n == 0 {
      assert script[i..i] == [];
    } else {
      ShownFromIsWindow(script, i + 1, n - 1);
      WindowOfCons(script, i, n);
    }
  }

  /** Counting by index and taking the window of the script agree. */
  lemma {:induction false} ExecutedFromIsWindow(script: seq<LogLine>, i: nat, n: nat)
    requires i + n <= |script|
    ensures ExecutedFrom(script, i, n) == Executions(script[i..i + n])
    decreases n
  {
    if n == 0 {
      assert script[i..i] == [];
    } else {
      ExecutedFromIsWindow(script, i + 1, n - 1);
      WindowOfCons(script, i, n);
    }
  }


  /** Steps from an entry move the index on by one each. */
  lemma {:induction false} StepsReachIndex(script: seq<LogLine>, f: Frame, n: nat)
    requires 0 <= f.driver.currentIndex && f.driver.currentIndex + n <= |script|
    ensures Steps(script, f, n).driver.currentIndex == f.driver.currentIndex + n
    decreases n
  {
    if n > 0 {
      StepPlaysEntry(script, f);
      StepsReachIndex(script, Stepped(script, f), n - 1);
    }
  }

  /** Steps from index `i` add to the log the entries counted from `i` that are not commands. */
  lemma {:induction false} StepsShowFrom(script: seq<LogLine>, f: Frame, n: nat)
    requires 0 <= f.driver.currentIndex && f.driver.currentIndex + n <= |script|
    ensures Steps(script, f, n).view.displayedLines == f.view.displayedLines + ShownFrom(script, f.driver.currentIndex, n)
    decreases n
  {
    if n > 0 {
      var g := Stepped(script, f);
      StepPlaysEntry(script, f);
      StepsShowFrom(script, g, n - 1);
      AppendInTwo(f.view.displayedLines, ShownEntry(script[f.driver.currentIndex]), g.view.displayedLines,
                  ShownFrom(script, g.driver.currentIndex, n - 1), Steps(script, g, n - 1).view.displayedLines,
                  ShownFrom(script, f.driver.currentIndex, n));
    }
  }

  /** Steps from index `i` execute the command entries counted from `i`. */
  lemma {:induction false} StepsExecuteFrom(script: seq<LogLine>, f: Frame, n: nat)
    requires 0 <= f.driver.currentIndex && f.driver.currentIndex + n <= |script|
    ensures Steps(script, f, n).driver.effects == f.driver.effects + ExecutedFrom(script, f.driver.currentIndex, n)
    decreases n
  {
    if n > 0 {
      var g := Stepped(script, f);
      StepPlaysEntry(script, f);
      StepsExecuteFrom(script, g, n - 1);
      AppendInTwo(f.driver.effects, ExecutedEntry(script[f.driver.currentIndex]), g.driver.effects,
                  ExecutedFrom(script, g.driver.currentIndex, n - 1), Steps(script, g, n - 1).driver.effects,
                  ExecutedFrom(script, f.driver.currentIndex, n));
    }
  }

  /**
   * Steps from index `i` play the entries from `i` on in script order, each
   * once: the log gains exactly the entries that are not commands.
   */
  lemma StepsShowInOrder(script: seq<LogLine>, f: Frame, n: nat)
    requires 0 <= f.driver.currentIndex && f.driver.currentIndex + n <= |script|
    ensures var i := f.driver.currentIndex;
      Steps(script, f, n).view.displayedLines == f.view.displayedLines + Shown(script[i..i + n])
  {
    StepsShowFrom(script, f, n);
    ShownFromIsWindow(script, f.driver.currentIndex, n);
  }


  /** The same steps execute exactly the command entries, in script order. */
  lemma StepsExecuteInOrder(script: seq<LogLine>, f: Frame, n: nat)
    requires 0 <= f.driver.currentIndex && f.driver.currentIndex + n <= |script|
    ensures var i := f.driver.currentIndex;
      Steps(script, f, n).driver.effects == f.driver.effects + Executions(script[i..i + n])
  {
    StepsExecuteFrom(script, f, n);
    ExecutedFromIsWindow(script, f.driver.currentIndex, n);
  }


  /** `resumeAnimation(k)` replays from `k`: the next entry played is `script[k]`. */
  lemma ResumeRewinds(script: seq<LogLine>, f: Frame, k: int)
    requires 0 <= k < |script|
    ensures Resumed(script, f, Some(k)).driver.currentIndex == k + 1
    ensures script[k].kind != Command ==>
      Resumed(script, f, Some(k)).view.displayedLines == f.view.displayedLines + [script[k]]
  {
    AdvancedStep(f.(driver := f.driver.(currentIndex := k)), script[k]);
  }

  /** Without an index, `resumeAnimation` steps from where the driver stands. */
  lemma ResumeWithoutIndex(script: seq<LogLine>, f: Frame)
    ensures Resumed(script, f, None) == Stepped(script, f)
  {
  }

  class Driver {
    const script: seq<LogLine>
    const store: TerminalViewStore.Store
    var currentIndex: int
    var animationTimeout: Option<nat>
    var pending: seq<Timer>
    var nextId: nat
    var effects: seq<Effect>

    function Current(): Frame
      reads this, store
    {
      Frame(Playback(currentIndex, animationTimeout, pending, nextId, effects), store.state)
    }

    constructor (script: seq<LogLine>, store: TerminalViewStore.Store)
      ensures this.script == script && this.store == store
      ensures currentIndex == 0 && animationTimeout == None && pending == [] && nextId == 0 && effects == []
    {
      this.script := script;
      this.store := store;
      currentIndex := 0;
      animationTimeout := None;
      pending := [];
      nextId := 0;
      effects := [];
    }

    /** `runTerminalAnimation`. */
    method Step()
      modifies this, store
      ensures Current() == Stepped(script, old(Current()))
    {
      if currentIndex >= |script| {
        store.CompleteAnimation();
        return;
      }
      if currentIndex < 0 {
        return;
      }
      var sequence := script[currentIndex];
      if sequence.kind == Command && StartsWith(sequence.text, "vim ") {
        var _ := TypeCommand.TypeCommand(store, sequence.text);
        effects := effects + [Executed(sequence.text)];
        currentIndex := currentIndex + 1;
        store.SetAnimationIndex(currentIndex);
        return;
      }
      if sequence.kind == Command {
        var _ := TypeCommand.TypeCommand(store, sequence.text);
        effects := effects + [Executed(sequence.text)];
      } else {
        store.AddLine(sequence);
      }
      currentIndex := currentIndex + 1;
      animationTimeout := Some(nextId);
      pending := pending + [Timer(nextId, sequence.delay, RunStep)];
      nextId := nextId + 1;
    }

    /** The step timer at position `i` fires. */
    method Fire(i: nat)
      requires i < |pending|
      modifies this, store
      ensures Current() == Fired(script, old(Current()), i)
    {
      pending := pending[..i] + pending[i + 1..];
      Step();
    }

    /** `pauseAnimation`. */
    method Pause()
      modifies this
      ensures Current().driver == Paused(old(Current().driver))
    {
      if animationTimeout.Some? {
        pending := Cancelled(pending, animationTimeout.value);
        animationTimeout := None;
      }
    }

    /** `resumeAnimation(index)`. */
    method Resume(index: Option<int>)
      modifies this, store
      ensures Current() == Resumed(script, old(Current()), index)
    {
      if index.Some? {
        currentIndex := index.value;
      }
      Step();
    }
  }
}
