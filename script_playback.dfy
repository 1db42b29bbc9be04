/**
 * What the two terminal script drivers share: a fixed script of log lines
 * played one entry per step, the timers a step leaves behind, and the calls
 * into code outside the model. Each step timer's callback is one atomic
 * step, with the awaited typing and the short waits inside it folded in; a
 * timer is identified by the handle `setTimeout` returned.
 */
module ScriptPlayback {
  import opened Optional
  import opened JsText
  import opened TerminalTypes
  import opened VimKeystrokes
  import TerminalViewStore

  /** What a pending timer runs when it fires. */
  datatype Callback =
    | RunStep                            // `runTerminalAnimation()`
    | TypeVimContent(keys: seq<VimKey>)  // the vim view's `typeVimContent(keys)`

  datatype Timer = Timer(id: nat, delay: int, callback: Callback)

  /** A call into code outside the model. */
  datatype Effect =
    | Executed(command: string)           // the imported `executeCommand`
    | VimContentTyped(keys: seq<VimKey>)  // `window.__terminalWrapper.typeVimContent`

  /** A driver's module variables, its pending timers and the calls it has made, in order. */
  datatype Playback = Playback(
    currentIndex: int,
    animationTimeout: Option<nat>,
    pending: seq<Timer>,
    nextId: nat,
    effects: seq<Effect>)

  /** The driver and the terminal store it writes to. */
  datatype Frame = Frame(driver: Playback, view: TerminalViewStore.ViewState)

  /** Every pending timer has a handle older than the next one. */
  predicate HandlesFresh(p: Playback) {
    forall t :: t in p.pending ==> t.id < p.nextId
  }

  /** `setTimeout`: a timer with a fresh handle joins the pending ones. */
  function Scheduled(p: Playback, delay: int, callback: Callback): (r: Playback)
    ensures HandlesFresh(p) ==> HandlesFresh(r)
  {
    p.(pending := p.pending + [Timer(p.nextId, delay, callback)], nextId := p.nextId + 1)
  }

  /** `clearTimeout(id)`: the timer with that handle no longer fires; the others keep their order. */
  function Cancelled(pending: seq<Timer>, id: nat): (r: seq<Timer>)
    ensures |r| <= |pending|
    ensures forall t :: t in r <==> t in pending && t.id != id
    ensures (forall t :: t in pending ==> t.id != id) ==> r == pending
  {
    if |pending| == 0 then []
    else (if pending[0].id == id then [] else [pending[0]]) + Cancelled(pending[1..], id)
  }

  /**
   * Clearing keeps the order: the timers before and after any split point stay
   * before and after it.
   */
  lemma {:induction false} CancelledKeepsOrder(a: seq<Timer>, b: seq<Timer>, id: nat)
    ensures Cancelled(a + b, id) == Cancelled(a, id) + Cancelled(b, id)
  {
    if |a| == 0 {
      assert a + b == b;
    } else {
      var head := if a[0].id == id then [] else [a[0]];
      assert (a + b)[0] == a[0] && (a + b)[1..] == a[1..] + b;
      assert Cancelled(a + b, id) == head + Cancelled(a[1..] + b, id);
      assert Cancelled(a, id) == head + Cancelled(a[1..], id);
      CancelledKeepsOrder(a[1..], b, id);
      ConcatAssociates(head, Cancelled(a[1..], id), Cancelled(b, id));
    }
  }

  /** The timer at position `i` has fired and is no longer pending. */
  function Dequeued(p: Playback, i: nat): (r: Playback)
    requires i < |p.pending|
    ensures |r.pending| == |p.pending| - 1
    ensures multiset(r.pending) + multiset{p.pending[i]} == multiset(p.pending)
    ensures HandlesFresh(p) ==> HandlesFresh(r)
  {
    assert p.pending == p.pending[..i] + [p.pending[i]] + p.pending[i + 1..];
    p.(pending := p.pending[..i] + p.pending[i + 1..])
  }

  /** `pauseAnimation`: the stored step timer is cleared and forgotten. */
  function Paused(p: Playback): (r: Playback)
    ensures r.currentIndex == p.currentIndex && r.effects == p.effects && r.animationTimeout.None?
    ensures p.animationTimeout.Some? ==> forall t :: t in r.pending <==> t in p.pending && t.id != p.animationTimeout.value
    ensures p.animationTimeout.None? ==> r == p
    ensures HandlesFresh(p) ==> HandlesFresh(r)
  {
    match p.animationTimeout
    case None => p
    case Some(id) => p.(pending := Cancelled(p.pending, id), animationTimeout := None)
  }

  /** Whether a script entry is a command that opens the vim view. */
  predicate IsVimLaunch(e: LogLine) {
    e.kind == Command && StartsWith(e.text, "vim ")
  }

  /** What a step does with the entry at `index`. */
  datatype Action =
    | Finish                      // past the end: the animation is complete
    | Fail                        // before the start: the entry is undefined and the step rejects
    | LaunchVim(entry: LogLine)   // a `vim ` command
    | RunCommand(entry: LogLine)  // any other command: typed, then executed
    | Show(entry: LogLine)        // any other entry: added to the log as it is

  function ActionAt(script: seq<LogLine>, index: int): (a: Action)
    ensures a == Finish <==> index >= |script|
    ensures a == Fail <==> index < 0
    ensures 0 <= index < |script| ==> !a.Finish? && !a.Fail? && a.entry == script[index]
    ensures a.LaunchVim? <==> 0 <= index < |script| && IsVimLaunch(script[index])
    ensures a.RunCommand? <==> 0 <= index < |script| && script[index].kind == Command && !IsVimLaunch(script[index])
    ensures a.Show? <==> 0 <= index < |script| && script[index].kind != Command
  {
    if index >= |script| then Finish
    else if index < 0 then Fail
    else if IsVimLaunch(script[index]) then LaunchVim(script[index])
    else if script[index].kind == Command then RunCommand(script[index])
    else Show(script[index])
  }

  /** What `typeCommand` leaves in the store once its text is typed. */
  function Typed(s: TerminalViewStore.ViewState): TerminalViewStore.ViewState {
    s.(isTyping := false, currentText := "")
  }

  /**
   * An entry that neither ends the script nor opens vim: a command is typed
   * and executed, any other entry is added to the log; then the index moves
   * on and the next step is scheduled after the entry's delay.
   */
  function Advanced(f: Frame, e: LogLine): Frame {
    var d := f.driver;
    var acted :=
      if e.kind == Command then Frame(d.(effects := d.effects + [Executed(e.text)]), Typed(f.view))
      else Frame(d, f.view.(displayedLines := f.view.displayedLines + [e]));
    var next := Scheduled(acted.driver.(currentIndex := d.currentIndex + 1), e.delay, RunStep);
    Frame(next.(animationTimeout := Some(d.nextId)), acted.view)
  }

  /** What an ordinary step changes, and that it changes nothing else. */
  lemma AdvancedStep(f: Frame, e: LogLine)
    ensures var r := Advanced(f, e);
      && r.driver.currentIndex == f.driver.currentIndex + 1
      && r.driver.pending == f.driver.pending + [Timer(f.driver.nextId, e.delay, RunStep)]
      && r.driver.animationTimeout == Some(f.driver.nextId)
      && (e.kind == Command ==> r.driver.effects == f.driver.effects + [Executed(e.text)] &&
                                r.view.displayedLines == f.view.displayedLines)
      && (e.kind != Command ==> r.driver.effects == f.driver.effects &&
                                r.view.displayedLines == f.view.displayedLines + [e])
      && r.view.animationIndex == f.view.animationIndex && r.view.isAnimating == f.view.isAnimating
      && (HandlesFresh(f.driver) ==> HandlesFresh(r.driver))
  {
  }

  /** After a pause, no pending timer carries the handle that was stored, and nothing else changed. */
  lemma PauseForgetsStoredTimer(p: Playback)
    requires HandlesFresh(p)
    ensures var r := Paused(p);
      && (p.animationTimeout.Some? ==> forall t :: t in r.pending ==> t.id != p.animationTimeout.value)
      && (forall t :: t in p.pending && (p.animationTimeout.None? || t.id != p.animationTimeout.value) ==> t in r.pending)
      && r.currentIndex == p.currentIndex
      && Paused(r) == r
  {
  }
}
