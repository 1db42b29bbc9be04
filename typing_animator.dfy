/**
 * The typing animator: it reveals a text one character per timer tick,
 * reporting every growing prefix, and can be cancelled. Each tick of the
 * timer is one atomic step; the random delay between ticks is not modelled.
 */
module TypingAnimator {

  /** The first `k` prefixes of `text`, shortest first: `text[..1]`, ..., `text[..k]`. */
  function Prefixes(text: string, k: nat): (r: seq<string>)
    requires k <= |text|
    ensures |r| == k && forall i :: 0 <= i < k ==> r[i] == text[..i + 1]
  {
    seq(k, i requires 0 <= i < k => text[..i + 1])
  }

  /**
   * One call of `animate`: the variables its closure keeps, whether a tick is
   * scheduled, whether its promise is resolved, and what it reported: the
   * texts passed to `onUpdate` and how often the completion callback ran.
   */
  datatype Run = Run(
    text: string,
    charIndex: nat,
    currentText: string,
    cancelled: bool,
    resolved: bool,
    hasCallback: bool,
    pendingTick: bool,
    updates: seq<string>,
    callbacks: nat)

  /** The closure state right after `animate` creates it, before its first tick. */
  function Fresh(text: string, hasCallback: bool): Run {
    Run(text, 0, "", false, false, hasCallback, false, [], 0)
  }

  /** The invariant of a run: the typed text is the prefix reported last, and the callback ran at most once, at the end. */
  predicate RunValid(r: Run) {
    && r.charIndex <= |r.text|
    && r.currentText == r.text[..r.charIndex]
    && r.updates == Prefixes(r.text, r.charIndex)
    && r.callbacks <= 1
    && (r.callbacks == 1 ==> r.hasCallback && r.charIndex == |r.text| && !r.pendingTick)
    && (r.pendingTick ==> r.callbacks == 0)
  }

  /** One tick: type the next character and schedule the next tick, or finish. */
  function Step(r: Run): (s: Run)
    ensures s.text == r.text && s.cancelled == r.cancelled && s.hasCallback == r.hasCallback
    ensures s.pendingTick <==> !r.cancelled && r.charIndex < |r.text|
    ensures !s.pendingTick ==> s.resolved && s.updates == r.updates
    ensures r.updates <= s.updates && |s.updates| <= |r.updates| + 1
    ensures s.callbacks != r.callbacks ==>
      s.callbacks == r.callbacks + 1 && !r.cancelled && r.hasCallback && r.charIndex >= |r.text|
  {
    if r.cancelled || r.charIndex >= |r.text| then
      r.(callbacks := r.callbacks + (if !r.cancelled && r.hasCallback then 1 else 0),
         resolved := true, pendingTick := false)
    else
      var typed := r.currentText + [r.text[r.charIndex]];
      r.(currentText := typed, updates := r.updates + [typed], charIndex := r.charIndex + 1, pendingTick := true)
  }

  /** The closure state when the animator's cancel function runs. */
  function CancelRun(r: Run): Run {
    r.(cancelled := true, resolved := true)
  }

  /** The tick that `animate` runs at once. */
  function Start(text: string, hasCallback: bool): Run {
    Step(Fresh(text, hasCallback))
  }

  /** A tick keeps the invariant, and the `k`-th report is the first `k` characters. */
  lemma StepKeepsValid(r: Run)
    requires RunValid(r) && (r.pendingTick || r == Fresh(r.text, r.hasCallback))
    ensures RunValid(Step(r))
    ensures !r.cancelled && r.charIndex < |r.text| ==>
      Step(r).updates == r.updates + [r.text[..r.charIndex + 1]]
  {
    if !r.cancelled && r.charIndex < |r.text| {
      assert r.text[..r.charIndex] + [r.text[r.charIndex]] == r.text[..r.charIndex + 1];
      assert Prefixes(r.text, r.charIndex) + [r.text[..r.charIndex + 1]] == Prefixes(r.text, r.charIndex + 1);
    }
  }

  /** Once cancelled, a tick reports nothing and never runs the callback. */
  lemma CancelledStepIsSilent(r: Run)
    requires r.cancelled
    ensures Step(r).updates == r.updates && Step(r).callbacks == r.callbacks
    ensures Step(r).resolved && !Step(r).pendingTick
  {
  }

  /** Cancelling keeps the invariant and resolves the promise. */
  lemma CancelKeepsValid(r: Run)
    requires RunValid(r)
    ensures RunValid(CancelRun(r)) && CancelRun(r).resolved
  {
  }

  /** `n` ticks in a row. */
  function Ticks(r: Run, n: nat): Run
    decreases n
  {
    if n == 0 then r else Ticks(Step(r), n - 1)
  }

  /** After `k` ticks of a run that is not cancelled, the reports are the first `k` prefixes and another tick is due. */
  lemma {:induction false} TicksReportPrefixes(text: string, hasCallback: bool, k: nat)
    requires 1 <= k <= |text|
    ensures var r := Ticks(Fresh(text, hasCallback), k);
            RunValid(r) && r.charIndex == k && r.updates == Prefixes(text, k) &&
            r.pendingTick && !r.resolved && !r.cancelled && r.text == text && r.hasCallback == hasCallback
  {
    var f := Fresh(text, hasCallback);
    if k == 1 {
      StepKeepsValid(f);
    } else {
      TicksReportPrefixes(text, hasCallback, k - 1);
      var r := Ticks(f, k - 1);
      StepKeepsValid(r);
      TicksShift(f, k - 1);
    }
  }

  /** `n + 1` ticks are `n` ticks followed by one more. */
  lemma {:induction false} TicksShift(r: Run, n: nat)
    ensures Ticks(r, n + 1) == Step(Ticks(r, n))
    decreases n
  {
    if n > 0 {
      TicksShift(Step(r), n - 1);
    }
  }

  /**
   * Left alone, a run reports exactly `|text|` prefixes, the last one being the
   * whole text, then runs the callback once (if there is one) and resolves.
   */
  lemma RunToCompletion(text: string, hasCallback: bool)
    ensures var r := Ticks(Fresh(text, hasCallback), |text| + 1);
            RunValid(r) && r.updates == Prefixes(text, |text|) && r.resolved && !r.pendingTick &&
            r.callbacks == (if hasCallback then 1 else 0) &&
            !r.cancelled && r.text == text && r.hasCallback == hasCallback && r.charIndex == |text|
    ensures |text| > 0 ==> Ticks(Fresh(text, hasCallback), |text| + 1).updates[|text| - 1] == text
  {
    var f := Fresh(text, hasCallback);
    if |text| == 0 {
      StepKeepsValid(f);
    } else {
      TicksReportPrefixes(text, hasCallback, |text|);
      StepKeepsValid(Ticks(f, |text|));
      TicksShift(f, |text|);
    }
  }

  /** The animator. Every call of `animate` adds a run; the last run is the current animation while `hasCurrent` holds. */
  class Animator {
    var runs: seq<Run>
    var hasCurrent: bool

    predicate Valid()
      reads this
    {
      (hasCurrent ==> |runs| >= 1) &&
      forall i :: 0 <= i < |runs| ==> RunValid(runs[i])
    }

    constructor ()
      ensures Valid() && runs == [] && !hasCurrent
    {
      runs := [];
      hasCurrent := false;
    }

    /** Cancel the current animation, if there is one, and forget it. */
    method Cancel()
      requires Valid()
      modifies this
      ensures Valid() && !hasCurrent
      ensures old(hasCurrent) ==> runs == old(runs)[|old(runs)| - 1 := CancelRun(old(runs)[|old(runs)| - 1])]
      ensures !old(hasCurrent) ==> runs == old(runs)
    {
      if hasCurrent {
        var last := |runs| - 1;
        CancelKeepsValid(runs[last]);
        runs := runs[last := CancelRun(runs[last])];
        hasCurrent := false;
      }
    }

    /** Start typing `text`: the running animation is cancelled first, then the first tick runs at once. */
    method Animate(text: string, hasCallback: bool)
      requires Valid()
      modifies this
      ensures Valid() && hasCurrent
      ensures |runs| == |old(runs)| + 1 && runs[|runs| - 1] == Start(text, hasCallback)
      ensures old(hasCurrent) ==> runs[..|runs| - 1] == old(runs)[|old(runs)| - 1 := CancelRun(old(runs)[|old(runs)| - 1])]
      ensures !old(hasCurrent) ==> runs[..|runs| - 1] == old(runs)
    {
      Cancel();
      StepKeepsValid(Fresh(text, hasCallback));
      runs := runs + [Start(text, hasCallback)];
      hasCurrent := true;
    }

    /** A scheduled tick of run `i` fires; runs superseded by a later `animate` still get theirs. */
    method Tick(i: nat)
      requires Valid() && i < |runs| && runs[i].pendingTick
      modifies this
      ensures Valid() && hasCurrent == old(hasCurrent)
      ensures runs == old(runs)[i := Step(old(runs)[i])]
    {
      StepKeepsValid(runs[i]);
      runs := runs[i := Step(runs[i])];
    }
  }

  /** `typeInstant`: one report, the whole text. */
  function InstantUpdates(text: string): (r: seq<string>)
    ensures |r| == 1 && r[0] == text
  {
    [text]
  }
}
