/**
 * `typeCommand`: type a command into the terminal view through a private
 * typing animator, publishing every prefix as the text being typed and
 * clearing the typing state at the end. The timer ticks are run one after
 * another until none is due; nothing else can cancel the private animator.
 */
module TypeCommand {
  import opened TypingAnimator
  import TerminalViewStore

  /** What a run in the state of `n` ticks from its start has reported, as the store sees it. */
  lemma RunAfterTicks(text: string, n: nat)
    requires 1 <= n <= |text| + 1
    ensures var r := Ticks(Fresh(text, true), n);
            RunValid(r) && !r.cancelled && r.text == text && r.hasCallback &&
            r.charIndex == (if n <= |text| then n else |text|) &&
            r.updates == Prefixes(text, r.charIndex) &&
            (r.pendingTick <==> n <= |text|) &&
            r.callbacks == (if n <= |text| then 0 else 1)
  {
    if n <= |text| {
      TicksReportPrefixes(text, true, n);
    } else {
      RunToCompletion(text, true);
    }
  }

  /** Type `text` into the store; the result is the prefixes published, in order. */
  method TypeCommand(store: TerminalViewStore.Store, text: string) returns (published: seq<string>)
    modifies store
    ensures published == Prefixes(text, |text|)
    ensures |text| > 0 ==> published[|text| - 1] == text
    ensures store.state == old(store.state).(isTyping := false, currentText := "")
    ensures TerminalViewStore.CurrentCommand(store.state) == ""
  {
    var animator := new Animator();
    animator.Animate(text, true);
    ghost var n: nat := 1;
    RunAfterTicks(text, n);
    published := [];
    var callbacks := 0;
    if |animator.runs[0].updates| > |published| {
      published := published + [animator.runs[0].updates[|published|]];
      store.UpdateTyping(true, published[|published| - 1]);
    }
    if animator.runs[0].callbacks > callbacks {
      callbacks := callbacks + 1;
      store.UpdateTyping(false, "");
    }
    while animator.runs[0].pendingTick
      invariant animator.Valid() && |animator.runs| == 1 && fresh(animator)
      invariant 1 <= n <= |text| + 1 && animator.runs[0] == Ticks(Fresh(text, true), n)
      invariant published == animator.runs[0].updates && callbacks == animator.runs[0].callbacks
      invariant callbacks == 1 ==> store.state == old(store.state).(isTyping := false, currentText := "")
      invariant callbacks == 0 && published != [] ==>
        store.state == old(store.state).(isTyping := true, currentText := published[|published| - 1])
      invariant callbacks == 0 && published == [] ==> store.state == old(store.state)
      invariant callbacks == 0 && published != [] ==>
        TerminalViewStore.CurrentCommand(store.state) == published[|published| - 1]
      decreases |text| + 1 - n
    {
      RunAfterTicks(text, n);
      animator.Tick(0);
      TicksShift(Fresh(text, true), n);
      n := n + 1;
      RunAfterTicks(text, n);
      if |animator.runs[0].updates| > |published| {
        published := published + [animator.runs[0].updates[|published|]];
        store.UpdateTyping(true, published[|published| - 1]);
      }
      if animator.runs[0].callbacks > callbacks {
        callbacks := callbacks + 1;
        store.UpdateTyping(false, "");
      }
    }
    RunAfterTicks(text, n);
  }
}
