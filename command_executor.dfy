/**
 * The command executor: a FIFO queue of animation items played one at a
 * time. Each `await` in the executor is a suspension point; what resumes it
 * (a timer, a typing tick, a settled promise) is a separate atomic step. The
 * `onUpdate` and `onComplete` callbacks are recorded as a trace.
 */
module CommandExecutor {
  import opened Optional
  import opened TerminalTypes
  import opened TypingAnimator

  /** Where the running `executeNext` is suspended. */
  datatype Phase =
    | Idle                          // nothing is running
    | Resolved                      // awaiting a settled promise; the next microtask runs `executeNext`
    | LineDelay(data: ItemData)     // `executeLine` waits for the line's delay before showing it
    | Delaying(ms: int)             // waiting for a timer, then `executeNext`
    | Typing(line: LogLine)         // awaiting the typing animation of a command line

  /** The log line inside an item's data, when the data is one. */
  function AsLogLine(data: ItemData): Option<LogLine> {
    match data
    case LineData(line) => Some(line)
    case TypedLineData(line, _) => Some(line)
    case _ => None
  }

  /**
   * `line.delay` of the data cast to a log line: a line's own delay, the
   * `delay` field of a vim-key object, and no wait (`undefined > 0` is false)
   * for data without a `delay` field.
   */
  function InitialDelay(data: ItemData): (r: int)
    ensures AsLogLine(data).Some? ==> r == AsLogLine(data).value.delay
    ensures data.KeyData? ==> r == if data.keyDelay.Some? then data.keyDelay.value else 0
    ensures data.TextData? || data.NumberData? ==> r == 0
  {
    match data
    case LineData(line) => line.delay
    case TypedLineData(line, _) => line.delay
    case KeyData(_, keyDelay) => if keyDelay.Some? then keyDelay.value else 0
    case _ => 0
  }

  /** `ms || 100`: a missing or zero delay means 100 ms. */
  function OrDefaultDelay(ms: Option<int>): (r: int)
    ensures ms.Some? && ms.value != 0 ==> r == ms.value
    ensures ms.None? || ms == Some(0) ==> r == 100
  {
    if ms.Some? && ms.value != 0 then ms.value else 100
  }

  /** Whether a line is typed out rather than shown at once. */
  predicate IsTypedLine(data: ItemData) {
    AsLogLine(data).Some? && AsLogLine(data).value.kind == Command
  }

  /** The update reporting `prefix` of a command line being typed. */
  function TypedUpdate(line: LogLine, prefix: string): AnimationQueueItem {
    Item(CommandItem, TypedLineData(line, prefix), None)
  }

  /** The updates reporting the given prefixes, in order. */
  function TypedUpdates(line: LogLine, prefixes: seq<string>): (r: seq<AnimationQueueItem>)
    ensures |r| == |prefixes| && forall i :: 0 <= i < |r| ==> r[i] == TypedUpdate(line, prefixes[i])
  {
    seq(|prefixes|, i requires 0 <= i < |prefixes| => TypedUpdate(line, prefixes[i]))
  }

  /** The queue item `addSequence` makes of a log line. */
  function LineEntry(line: LogLine): AnimationQueueItem {
    Item(LineItem, LineData(line), Some(line.delay))
  }

  /** The queue items `addSequence` makes of some log lines, in order. */
  function LineEntries(lines: seq<LogLine>): (r: seq<AnimationQueueItem>)
    ensures |r| == |lines| && forall i :: 0 <= i < |r| ==> r[i] == LineEntry(lines[i])
  {
    seq(|lines|, i requires 0 <= i < |lines| => LineEntry(lines[i]))
  }

  /**
   * The updates an item reports synchronously when it is taken from the queue,
   * except for a line, which may wait for its delay and may be typed.
   */
  function ImmediateUpdates(item: AnimationQueueItem): (r: seq<AnimationQueueItem>)
    requires item.kind != LineItem
    ensures item.kind == CommandItem ==> (r == [] <==> item.data.NumberData?)
    ensures item.kind == VimKeyItem ==> (r == [] <==> !item.data.KeyData?)
    ensures item.kind == DelayItem ==> r == []
    ensures r != [] ==> r == [Item(item.kind, item.data, None)]
  {
    match item.kind
    case CommandItem => if item.data.NumberData? then [] else [Item(CommandItem, item.data, None)]
    case VimKeyItem => if item.data.KeyData? then [Item(VimKeyItem, item.data, None)] else []
    case DelayItem => []
  }

  /** Where the executor waits after taking an item that is not a line. */
  function PhaseAfter(item: AnimationQueueItem): (p: Phase)
    requires item.kind != LineItem
    ensures item.kind == DelayItem ==> p == Delaying(OrDefaultDelay(item.duration))
    ensures item.kind == VimKeyItem && item.data.KeyData? ==> p == Delaying(OrDefaultDelay(item.data.keyDelay))
    ensures p != Resolved ==> p.Delaying?
  {
    match item.kind
    case CommandItem => Resolved
    case VimKeyItem => if item.data.KeyData? then Delaying(OrDefaultDelay(item.data.keyDelay)) else Resolved
    case DelayItem => Delaying(OrDefaultDelay(item.duration))
  }

  class Executor {
    var queue: seq<AnimationQueueItem>
    var isExecuting: bool
    var phase: Phase
    /** The typing animator's current animation, represented by its run. */
    var run: Run
    var hasRun: bool
    /** The arguments of every `onUpdate` call so far, in order. */
    var updates: seq<AnimationQueueItem>
    /** How many times `onComplete` has run. */
    var completions: nat
    /** Every item queued since the last `clear`, and those of them taken from the queue, in order. */
    ghost var enqueued: seq<AnimationQueueItem>
    ghost var started: seq<AnimationQueueItem>

    /** The invariant of every reachable state: an idle executor has nothing queued. */
    ghost predicate Valid()
      reads this
    {
      Inv() && (!isExecuting ==> queue == [])
    }

    /** What holds between the steps of a public call as well. */
    ghost predicate Inv()
      reads this
    {
      && (isExecuting <==> phase != Idle)
      && enqueued == started + queue
      && RunValid(run)
      && (phase.Typing? ==> hasRun && !run.resolved && !run.cancelled && run.text == phase.line.text)
      && (run.pendingTick && !run.cancelled ==> phase.Typing?)
      && (hasRun && !run.resolved ==> phase.Typing?)
    }

    constructor ()
      ensures Valid() && queue == [] && !isExecuting && updates == [] && completions == 0
    {
      queue := [];
      isExecuting := false;
      phase := Idle;
      run := Fresh("", false).(resolved := true);
      hasRun := false;
      updates := [];
      completions := 0;
      enqueued := [];
      started := [];
    }

    /** `typingAnimator.cancel()`: the awaited typing, if any, settles. */
    method CancelTyping()
      requires Valid()
      modifies this
      ensures Valid() && !hasRun && !phase.Typing?
      ensures queue == old(queue) && isExecuting == old(isExecuting) && updates == old(updates)
      ensures completions == old(completions) && enqueued == old(enqueued) && started == old(started)
      ensures old(phase).Typing? ==> phase == Resolved
      ensures !old(phase).Typing? ==> phase == old(phase)
    {
      if hasRun {
        CancelKeepsValid(run);
        run := CancelRun(run);
        hasRun := false;
        if phase.Typing? {
          phase := Resolved;
        }
      }
    }

    /** Show a line now: a command line starts typing, any other line is reported whole. */
    method StartLine(data: ItemData)
      requires Valid() && isExecuting && !phase.Typing?
      modifies this
      ensures Valid() && isExecuting
      ensures queue == old(queue) && completions == old(completions)
      ensures enqueued == old(enqueued) && started == old(started)
      ensures !IsTypedLine(data) ==> updates == old(updates) + [Item(LineItem, data, None)] && phase == Resolved
      ensures IsTypedLine(data) ==>
        var line := AsLogLine(data).value;
        run == Start(line.text, false) && hasRun &&
        updates == old(updates) + TypedUpdates(line, run.updates) &&
        phase == (if |line.text| == 0 then Resolved else Typing(line))
    {
      var line := AsLogLine(data);
      if line.Some? && line.value.kind == Command {
        CancelTyping();
        StepKeepsValid(Fresh(line.value.text, false));
        run := Start(line.value.text, false);
        hasRun := true;
        updates := updates + TypedUpdates(line.value, run.updates);
        if run.resolved {
          phase := Resolved;
        } else {
          phase := Typing(line.value);
        }
      } else {
        updates := updates + [Item(LineItem, data, None)];
        phase := Resolved;
      }
    }

    /** `executeNext`: report completion on an empty queue, otherwise take the head and start it. */
    method ExecuteNext()
      requires Inv() && !phase.Typing?
      modifies this
      ensures Valid()
      ensures old(queue) == [] ==>
        !isExecuting && completions == old(completions) + 1 && updates == old(updates) && started == old(started)
      ensures old(queue) != [] ==>
        isExecuting && completions == old(completions) &&
        queue == old(queue)[1..] && started == old(started) + [old(queue)[0]]
      ensures old(queue) != [] && old(queue)[0].kind != LineItem ==>
        updates == old(updates) + ImmediateUpdates(old(queue)[0]) && phase == PhaseAfter(old(queue)[0])
      ensures old(queue) != [] && old(queue)[0].kind == LineItem && InitialDelay(old(queue)[0].data) > 0 ==>
        phase == LineDelay(old(queue)[0].data) && updates == old(updates)
      ensures old(queue) != [] && old(queue)[0].kind == LineItem && InitialDelay(old(queue)[0].data) <= 0 &&
              !IsTypedLine(old(queue)[0].data) ==>
        phase == Resolved && updates == old(updates) + [Item(LineItem, old(queue)[0].data, None)]
      ensures enqueued == old(enqueued)
    {
      if |queue| == 0 {
        isExecuting := false;
        phase := Idle;
        completions := completions + 1;
        return;
      }
      isExecuting := true;
      var item := queue[0];
      queue := queue[1..];
      started := started + [item];
      match item.kind {
        case LineItem =>
          if InitialDelay(item.data) > 0 {
            phase := LineDelay(item.data);
          } else {
            phase := Resolved;
            StartLine(item.data);
          }
        case CommandItem | VimKeyItem | DelayItem =>
          StartImmediate(item);
      }
    }

    /** The cases of `executeNext` for items other than lines: report at once, then resolve or wait. */
    method StartImmediate(item: AnimationQueueItem)
      requires isExecuting && item.kind != LineItem
      requires enqueued == started + queue && RunValid(run)
      requires !(run.pendingTick && !run.cancelled) && !(hasRun && !run.resolved)
      modifies this
      ensures Valid() && isExecuting
      ensures queue == old(queue) && completions == old(completions)
      ensures enqueued == old(enqueued) && started == old(started)
      ensures updates == old(updates) + ImmediateUpdates(item) && phase == PhaseAfter(item)
    {
      match item.kind {
        case CommandItem =>
          if !item.data.NumberData? {
            updates := updates + [Item(CommandItem, item.data, None)];
          }
          phase := Resolved;
        case VimKeyItem =>
          if item.data.KeyData? {
            updates := updates + [Item(VimKeyItem, item.data, None)];
            phase := Delaying(OrDefaultDelay(item.data.keyDelay));
          } else {
            phase := Resolved;
          }
        case DelayItem =>
          phase := Delaying(OrDefaultDelay(item.duration));
      }
    }

    /** Queue an item; an idle executor starts on it at once. */
    method AddToQueue(item: AnimationQueueItem)
      requires Valid()
      modifies this
      ensures Valid() && isExecuting && enqueued == old(enqueued) + [item]
      ensures old(isExecuting) ==> queue == old(queue) + [item] && phase == old(phase) &&
                                   updates == old(updates) && started == old(started)
      ensures !old(isExecuting) ==> queue == [] && started == old(started) + [item]
      ensures completions == old(completions)
    {
      queue := queue + [item];
      enqueued := enqueued + [item];
      if !isExecuting {
        ExecuteNext();
      }
    }

    /** Queue one line item per log line, in order, each lasting the line's delay. */
    method AddSequence(lines: seq<LogLine>)
      requires Valid()
      modifies this
      ensures Valid() && enqueued == old(enqueued) + LineEntries(lines)
      ensures lines != [] ==> isExecuting
      ensures completions == old(completions)
    {
      for i := 0 to |lines|
        invariant Valid() && enqueued == old(enqueued) + LineEntries(lines[..i])
        invariant i > 0 ==> isExecuting
        invariant completions == old(completions)
      {
        AddToQueue(LineEntry(lines[i]));
        assert LineEntries(lines[..i + 1]) == LineEntries(lines[..i]) + [LineEntry(lines[i])];
      }
      assert lines[..|lines|] == lines;
    }

    /** The microtask after a settled `await`: run `executeNext`. */
    method Continue()
      requires Valid() && phase == Resolved
      modifies this
      ensures Valid()
      ensures old(queue) == [] ==> !isExecuting && completions == old(completions) + 1
      ensures old(queue) != [] ==> started == old(started) + [old(queue)[0]] && queue == old(queue)[1..]
    {
      ExecuteNext();
    }

    /** A delay timer fires: a waiting line is shown, any other wait is over. */
    method TimerFires()
      requires Valid() && (phase.LineDelay? || phase.Delaying?)
      modifies this
      ensures Valid() && queue == old(queue) && started == old(started) && completions == old(completions)
      ensures old(phase).Delaying? ==> phase == Resolved && updates == old(updates)
      ensures old(phase).LineDelay? && !IsTypedLine(old(phase).data) ==>
        updates == old(updates) + [Item(LineItem, old(phase).data, None)]
    {
      if phase.LineDelay? {
        StartLine(phase.data);
      } else {
        phase := Resolved;
      }
    }

    /** A typing tick fires: the next prefix is reported, and the end of the text settles the wait. */
    method TypingTick()
      requires Valid() && run.pendingTick
      modifies this
      ensures Valid() && queue == old(queue) && started == old(started) && completions == old(completions)
      ensures run == Step(old(run))
      ensures old(phase).Typing? ==> updates == old(updates) + TypedUpdates(old(phase).line, run.updates[|old(run).updates|..])
      ensures !old(phase).Typing? ==> updates == old(updates)
    {
      StepKeepsValid(run);
      var before := |run.updates|;
      run := Step(run);
      if phase.Typing? {
        updates := updates + TypedUpdates(phase.line, run.updates[before..]);
        if run.resolved {
          phase := Resolved;
        }
      } else {
        CancelledStepIsSilent(old(run));
      }
    }

    /** Empty the queue and cancel the typing; the item being played still finishes. */
    method Clear()
      requires Valid()
      modifies this
      ensures Valid() && queue == [] && !hasRun
      ensures updates == old(updates) && completions == old(completions) && isExecuting == old(isExecuting)
    {
      queue := [];
      enqueued := started;
      CancelTyping();
    }

    /** Cancel the typing only; the queue is untouched, so the next item follows. */
    method Pause()
      requires Valid()
      modifies this
      ensures Valid() && queue == old(queue) && !hasRun
      ensures updates == old(updates) && completions == old(completions) && isExecuting == old(isExecuting)
      ensures old(phase).Typing? ==> phase == Resolved
    {
      CancelTyping();
    }

    /** Start again when idle with queued items; an idle executor never has any, so this does nothing. */
    method Resume()
      requires Inv()
      modifies this
      ensures Valid()
      ensures old(!isExecuting && queue != []) ==> started == old(started) + [old(queue)[0]]
      ensures old(Valid()) ==> queue == old(queue) && isExecuting == old(isExecuting) && phase == old(phase) &&
                               updates == old(updates) && completions == old(completions)
    {
      if !isExecuting && |queue| > 0 {
        ExecuteNext();
      }
    }
  }
}
