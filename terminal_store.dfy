/**
 * The terminal's log buffer: the lines shown so far, the command being typed,
 * and the display configuration of the tilted terminal window.
 */
module TerminalStore {
  import opened Optional
  import opened JsText
  import opened JsArray
  import opened TerminalTypes

  const InitialState := TerminalState([], 0, false, "", TerminalView)

  /** `lines.length > maxLines ? lines.slice(-maxLines) : lines`. */
  function Trimmed<T>(lines: seq<T>, maxLines: int): (r: seq<T>)
    ensures |r| <= |lines| && r == lines[|lines| - |r|..]
  {
    if |lines| > maxLines then SliceFrom(lines, -maxLines) else lines
  }

  /** With a positive bound, trimming keeps the last `min(n, maxLines)` lines, in order. */
  lemma TrimKeepsLast<T>(lines: seq<T>, maxLines: int)
    requires maxLines >= 1
    ensures |Trimmed(lines, maxLines)| == Min(|lines|, maxLines)
    ensures Trimmed(lines, maxLines) == lines[|lines| - Min(|lines|, maxLines)..]
  {
  }

  /** Trimming twice with the same positive bound is trimming once. */
  lemma TrimIdempotent<T>(lines: seq<T>, maxLines: int)
    requires maxLines >= 1
    ensures Trimmed(Trimmed(lines, maxLines), maxLines) == Trimmed(lines, maxLines)
  {
    TrimKeepsLast(lines, maxLines);
  }

  /** A bound of 0 keeps every line: `slice(-0)` is `slice(0)`. */
  lemma TrimZeroKeepsAll<T>(lines: seq<T>)
    ensures Trimmed(lines, 0) == lines
  {
  }

  /** A negative bound drops lines from the front instead: `slice(-m)` with `-m > 0`. */
  lemma TrimNegativeDropsFront<T>(lines: seq<T>, maxLines: int)
    requires maxLines < 0
    ensures Trimmed(lines, maxLines) == lines[Min(-maxLines, |lines|)..]
  {
  }

  /** A line appended and then trimmed to a positive bound is still the last line. */
  lemma AppendThenTrimKeepsNewest<T>(lines: seq<T>, line: T, maxLines: int)
    requires maxLines >= 1
    ensures var r := Trimmed(lines + [line], maxLines);
            |r| >= 1 && r[|r| - 1] == line
  {
    TrimKeepsLast(lines + [line], maxLines);
  }

  /** The text shown as the command being typed: the typed prefix while typing, nothing otherwise. */
  function CurrentCommand(s: TerminalState): (r: string)
    ensures s.isTyping ==> r == s.currentText
    ensures !s.isTyping ==> r == ""
  {
    if s.isTyping then s.currentText else ""
  }

  /** The log buffer store. */
  class Store {
    var state: TerminalState

    constructor ()
      ensures state == InitialState
    {
      state := InitialState;
    }

    method AddLine(line: LogLine)
      modifies this
      ensures state == old(state).(displayedLines := old(state).displayedLines + [line])
    {
      state := state.(displayedLines := state.displayedLines + [line]);
    }

    /** Set the typing flag and the typed prefix; callers that stop typing pass `""`. */
    method UpdateTyping(isTyping: bool, currentText: string)
      modifies this
      ensures state == old(state).(isTyping := isTyping, currentText := currentText)
      ensures CurrentCommand(state) == if isTyping then currentText else ""
    {
      state := state.(isTyping := isTyping, currentText := currentText);
    }

    method SetMode(mode: TerminalMode)
      modifies this
      ensures state == old(state).(mode := mode)
    {
      state := state.(mode := mode);
    }

    method ClearLines()
      modifies this
      ensures state == old(state).(displayedLines := [])
    {
      state := state.(displayedLines := []);
    }

    method TrimLines(maxLines: int)
      modifies this
      ensures state == old(state).(displayedLines := Trimmed(old(state).displayedLines, maxLines))
    {
      state := state.(displayedLines := Trimmed(state.displayedLines, maxLines));
    }

    method Reset()
      modifies this
      ensures state == InitialState
    {
      state := InitialState;
    }
  }

  const InitialConfig := TerminalConfig(18, Smooth, Perspective(-15, 20, 0))

  /** A `Partial` perspective: the rotations to overwrite. */
  datatype PerspectiveChanges = PerspectiveChanges(rotationX: Option<int>, rotationY: Option<int>, rotationZ: Option<int>)

  /** Each supplied rotation replaces the current one; the others stay. */
  function PerspectiveUpdated(c: TerminalConfig, ch: PerspectiveChanges): (r: TerminalConfig)
    ensures r.visibleLines == c.visibleLines && r.scrollBehavior == c.scrollBehavior
    ensures ch.rotationX.Some? ==> r.perspective.rotationX == ch.rotationX.value
    ensures ch.rotationX.None? ==> r.perspective.rotationX == c.perspective.rotationX
    ensures ch.rotationY.Some? ==> r.perspective.rotationY == ch.rotationY.value
    ensures ch.rotationY.None? ==> r.perspective.rotationY == c.perspective.rotationY
    ensures ch.rotationZ.Some? ==> r.perspective.rotationZ == ch.rotationZ.value
    ensures ch.rotationZ.None? ==> r.perspective.rotationZ == c.perspective.rotationZ
  {
    c.(perspective := Perspective(ch.rotationX.GetOr(c.perspective.rotationX),
                                  ch.rotationY.GetOr(c.perspective.rotationY),
                                  ch.rotationZ.GetOr(c.perspective.rotationZ)))
  }

  /** Applying the same perspective update twice is applying it once. */
  lemma PerspectiveUpdateIdempotent(c: TerminalConfig, ch: PerspectiveChanges)
    ensures PerspectiveUpdated(PerspectiveUpdated(c, ch), ch) == PerspectiveUpdated(c, ch)
  {
  }

  /** The display configuration store. */
  class ConfigStore {
    var config: TerminalConfig

    constructor ()
      ensures config == InitialConfig
    {
      config := InitialConfig;
    }

    method UpdatePerspective(ch: PerspectiveChanges)
      modifies this
      ensures config == PerspectiveUpdated(old(config), ch)
    {
      config := PerspectiveUpdated(config, ch);
    }

    method SetVisibleLines(lines: int)
      modifies this
      ensures config == old(config).(visibleLines := lines)
    {
      config := config.(visibleLines := lines);
    }
  }

  /** One `rotate<axis>(<angle>deg)` step of the transform. */
  function Rotation(axis: string, angle: int): string {
    "rotate" + axis + "(" + IntToString(angle) + "deg)"
  }

  /** The CSS transform of the terminal window. */
  function TerminalTransform(c: TerminalConfig): string {
    "perspective(1200px)" + " " + Rotation("X", c.perspective.rotationX) + " " + Rotation("Y", c.perspective.rotationY)
      + " " + Rotation("Z", c.perspective.rotationZ)
  }

  /**
   * Split at blanks, the transform is the fixed perspective followed by the
   * three rotations, each with its own angle, in the order X, Y, Z.
   */
  lemma TransformNamesEachRotation(c: TerminalConfig)
    ensures Split(TerminalTransform(c), " ") == [
      "perspective(1200px)",
      Rotation("X", c.perspective.rotationX),
      Rotation("Y", c.perspective.rotationY),
      Rotation("Z", c.perspective.rotationZ)]
  {
    var p := c.perspective;
    var x := Rotation("X", p.rotationX);
    var y := Rotation("Y", p.rotationY);
    var z := Rotation("Z", p.rotationZ);
    var parts := ["perspective(1200px)", x, y, z];
    JoinFour("perspective(1200px)", x, y, z, " ");
    PerspectiveHasNoBlank();
    RotationHasNoBlank("X", p.rotationX);
    RotationHasNoBlank("Y", p.rotationY);
    RotationHasNoBlank("Z", p.rotationZ);
    NoneHolds(parts, ' ');
    SplitJoin(parts, ' ');
  }

  lemma PerspectiveHasNoBlank()
    ensures ' ' !in "perspective(1200px)"
  {
  }

  lemma NoneHolds(parts: seq<string>, c: char)
    requires |parts| == 4 && c !in parts[0] && c !in parts[1] && c !in parts[2] && c !in parts[3]
    ensures forall i :: 0 <= i < |parts| ==> c !in parts[i]
  {
  }

  lemma JoinFour(a: string, b: string, c: string, d: string, sep: string)
    ensures Join([a, b, c, d], sep) == a + sep + b + sep + c + sep + d
  {
    var parts := [a, b, c, d];
    assert Join(parts[3..], sep) == d;
    assert Join(parts[2..], sep) == c + sep + d;
    assert Join(parts[1..], sep) == b + sep + (c + sep + d);
    ConcatAssociates(b + sep, c + sep, d);
    ConcatAssociates(b, sep, c + sep + d);
    ConcatAssociates(a + sep, b + sep + c + sep, d);
  }

  lemma RotationHasNoBlank(axis: string, angle: int)
    requires ' ' !in axis
    ensures ' ' !in Rotation(axis, angle)
  {
    if angle < 0 {
      assert IntToString(angle) == "-" + NatToString(-angle);
    }
  }
}
