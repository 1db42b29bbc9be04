/**
 * The synthetic keystroke sequence the terminal driver hands to the vim
 * view: enter insert mode, type every collected line character by
 * character with a newline between lines, leave insert mode, then save and
 * quit. The source spells the control keys as the strings `INSERT_MODE`,
 * `NEWLINE`, `ESCAPE`, `COMMAND_MODE` and `SAVE_QUIT` beside one-character
 * strings; since no character is one of those words, a datatype keeps them
 * apart without losing anything.
 */
module VimKeystrokes {
  import JsText

  datatype VimKey = InsertMode | Char(c: char) | Newline | Escape | CommandMode | SaveQuit

  /** `line.split("")`: one key per character, in order. */
  function Chars(line: string): (r: seq<VimKey>)
    ensures |r| == |line| && forall i :: 0 <= i < |r| ==> r[i] == Char(line[i])
  {
    seq(|line|, i requires 0 <= i < |line| => Char(line[i]))
  }

  /** The typed text of some lines: each line's characters, with a newline between consecutive lines. */
  function Body(lines: seq<string>): seq<VimKey>
    decreases |lines|
  {
    if |lines| == 0 then []
    else if |lines| == 1 then Chars(lines[0])
    else Chars(lines[0]) + [Newline] + Body(lines[1..])
  }

  /** The typed text holds nothing but characters and newlines. */
  lemma {:induction false} BodyIsText(lines: seq<string>)
    ensures forall k :: 0 <= k < |Body(lines)| ==> Body(lines)[k].Char? || Body(lines)[k] == Newline
    decreases |lines|
  {
    if |lines| > 1 {
      BodyIsText(lines[1..]);
    }
  }

  /** The whole sequence for some collected lines. */
  function TypingSequence(lines: seq<string>): seq<VimKey> {
    [InsertMode] + Body(lines) + [Escape, CommandMode, SaveQuit]
  }

  /**
   * The sequence enters insert mode first, then only types characters and
   * newlines, and ends by leaving insert mode, entering command mode and saving.
   */
  lemma TypingSequenceShape(lines: seq<string>)
    ensures var r := TypingSequence(lines);
      && |r| >= 4 && r[0] == InsertMode && r[|r| - 3..] == [Escape, CommandMode, SaveQuit]
      && forall k :: 1 <= k < |r| - 3 ==> r[k].Char? || r[k] == Newline
  {
    BodyIsText(lines);
    var r := TypingSequence(lines);
    forall k | 1 <= k < |r| - 3 ensures r[k].Char? || r[k] == Newline {
      assert r[k] == Body(lines)[k - 1];
    }
  }

  /** Build the sequence by pushing keys one line at a time, as the driver does. */
  method BuildTypingSequence(contentLines: seq<string>) returns (typingSequence: seq<VimKey>)
    ensures typingSequence == TypingSequence(contentLines)
  {
    typingSequence := [InsertMode];
    for index := 0 to |contentLines|
      invariant typingSequence + Body(contentLines[index..]) == [InsertMode] + Body(contentLines)
    {
      assert contentLines[index..][1..] == contentLines[index + 1..];
      typingSequence := typingSequence + Chars(contentLines[index]);
      if index < |contentLines| - 1 {
        typingSequence := typingSequence + [Newline];
      }
    }
    typingSequence := typingSequence + [Escape] + [CommandMode] + [SaveQuit];
  }

  /** How many `NEWLINE` keys a sequence holds. */
  function Newlines(keys: seq<VimKey>): nat {
    if |keys| == 0 then 0 else (if keys[0] == Newline then 1 else 0) + Newlines(keys[1..])
  }

  lemma {:induction false} NewlinesAppend(a: seq<VimKey>, b: seq<VimKey>)
    ensures Newlines(a + b) == Newlines(a) + Newlines(b)
    decreases |a|
  {
    if |a| > 0 {
      assert (a + b)[0] == a[0];
      assert (a + b)[1..] == a[1..] + b;
      NewlinesAppend(a[1..], b);
    } else {
      assert a + b == b;
    }
  }

  lemma {:induction false} NoNewlineInChars(line: string)
    ensures Newlines(Chars(line)) == 0
    decreases |line|
  {
    if |line| > 0 {
      assert Chars(line)[1..] == Chars(line[1..]);
      NoNewlineInChars(line[1..]);
    }
  }

  /** k collected lines give exactly k - 1 newlines; none at all when nothing was collected. */
  lemma {:induction false} NewlineCount(lines: seq<string>)
    ensures Newlines(TypingSequence(lines)) == if |lines| == 0 then 0 else |lines| - 1
    decreases |lines|
  {
    BodyNewlines(lines);
    NewlinesAppend([InsertMode], Body(lines));
    NewlinesAppend([InsertMode] + Body(lines), [Escape, CommandMode, SaveQuit]);
  }

  lemma {:induction false} BodyNewlines(lines: seq<string>)
    ensures Newlines(Body(lines)) == if |lines| == 0 then 0 else |lines| - 1
    decreases |lines|
  {
    if |lines| == 1 {
      NoNewlineInChars(lines[0]);
    } else if |lines| > 1 {
      BodyNewlines(lines[1..]);
      NoNewlineInChars(lines[0]);
      NewlinesAppend(Chars(lines[0]), [Newline]);
      NewlinesAppend(Chars(lines[0]) + [Newline], Body(lines[1..]));
    }
  }

  /** Glue `line` to the front of the first of some lines. */
  function Prepend(line: string, lines: seq<string>): (r: seq<string>)
    requires |lines| >= 1
    ensures |r| == |lines| && r[0] == line + lines[0] && r[1..] == lines[1..]
  {
    [line + lines[0]] + lines[1..]
  }

  /**
   * What a reader of the keys recovers: control keys are dropped and the
   * characters are split into lines at every `NEWLINE`.
   */
  function Decode(keys: seq<VimKey>): (r: seq<string>)
    ensures |r| >= 1
  {
    if |keys| == 0 then [""]
    else
      match keys[0]
      case Char(c) => Prepend([c], Decode(keys[1..]))
      case Newline => [""] + Decode(keys[1..])
      case _ => Decode(keys[1..])
  }

  lemma {:induction false} DecodeChars(line: string, rest: seq<VimKey>)
    ensures Decode(Chars(line) + rest) == Prepend(line, Decode(rest))
    decreases |line|
  {
    if |line| > 0 {
      var keys := Chars(line) + rest;
      assert keys[0] == Char(line[0]) && keys[1..] == Chars(line[1..]) + rest;
      DecodeChars(line[1..], rest);
      assert [line[0]] + (line[1..] + Decode(rest)[0]) == line + Decode(rest)[0];
    } else {
      assert line == [] && Chars(line) + rest == rest;
      assert line + Decode(rest)[0] == Decode(rest)[0];
      assert [Decode(rest)[0]] + Decode(rest)[1..] == Decode(rest);
    }
  }

  /** A line followed by a newline decodes to that line, then whatever follows. */
  lemma DecodeLineThenNewline(line: string, tail: seq<VimKey>)
    ensures Decode(Chars(line) + ([Newline] + tail)) == [line] + Decode(tail)
  {
    DecodeChars(line, [Newline] + tail);
    assert ([Newline] + tail)[0] == Newline && ([Newline] + tail)[1..] == tail;
    var d := Decode(tail);
    assert Decode([Newline] + tail) == [""] + d;
    assert line + "" == line && ([""] + d)[1..] == d;
  }

  lemma DecodeOneLine(lines: seq<string>, rest: seq<VimKey>)
    requires |lines| == 1
    ensures Decode(Body(lines) + rest) == lines[..0] + Prepend(lines[0], Decode(rest))
  {
    DecodeChars(lines[0], rest);
  }

  lemma BodyOfSeveral(lines: seq<string>, rest: seq<VimKey>)
    requires |lines| >= 2
    ensures Body(lines) + rest == Chars(lines[0]) + ([Newline] + (Body(lines[1..]) + rest))
  {
  }

  /** Decoding some lines' keys followed by `rest`: the lines, with the last glued to what `rest` starts with. */
  lemma {:induction false} DecodeBody(lines: seq<string>, rest: seq<VimKey>)
    requires |lines| >= 1
    ensures Decode(Body(lines) + rest) == lines[..|lines| - 1] + Prepend(lines[|lines| - 1], Decode(rest))
    decreases |lines|, 1
  {
    if |lines| == 1 {
      DecodeOneLine(lines, rest);
    } else {
      DecodeSeveral(lines, rest);
    }
  }

  lemma {:induction false} DecodeSeveral(lines: seq<string>, rest: seq<VimKey>)
    requires |lines| >= 2
    ensures Decode(Body(lines) + rest) == lines[..|lines| - 1] + Prepend(lines[|lines| - 1], Decode(rest))
    decreases |lines|, 0
  {
    var k := |lines|;
    var p := Prepend(lines[k - 1], Decode(rest));
    var t := Body(lines[1..]) + rest;
    var front := lines[1..][..k - 2];
    DecodeBody(lines[1..], rest);
    assert lines[1..][k - 2] == lines[k - 1];
    assert Decode(t) == front + p;
    BodyOfSeveral(lines, rest);
    DecodeLineThenNewline(lines[0], t);
    assert Decode(Body(lines) + rest) == [lines[0]] + (front + p);
    JsText.ConcatAssociates([lines[0]], front, p);
    JsText.FirstThenMiddle(lines);
  }

  /** Dropping the control keys and splitting at `NEWLINE` gives back the collected lines. */
  lemma TypingSequenceRoundTrip(lines: seq<string>)
    requires |lines| >= 1
    ensures Decode(TypingSequence(lines)) == lines
  {
    var k := |lines|;
    var tail: seq<VimKey> := [Escape, CommandMode, SaveQuit];
    assert Decode(tail[2..]) == [""];
    assert Decode(tail[1..]) == [""];
    assert Decode(tail) == [""];
    DecodeBody(lines, tail);
    var keys := [InsertMode] + (Body(lines) + tail);
    assert TypingSequence(lines) == keys;
    assert keys[0] == InsertMode && keys[1..] == Body(lines) + tail;
    assert lines[k - 1] + "" == lines[k - 1];
    assert Prepend(lines[k - 1], [""]) == [lines[k - 1]];
    assert lines[..k - 1] + [lines[k - 1]] == lines;
  }

  /** With nothing collected the reader sees one empty line: the round trip needs at least one line. */
  lemma EmptyCollectionTypesOneEmptyLine()
    ensures TypingSequence([]) == [InsertMode, Escape, CommandMode, SaveQuit]
    ensures Decode(TypingSequence([])) == [""]
  {
    assert TypingSequence([]) == [InsertMode, Escape, CommandMode, SaveQuit];
    assert Decode([SaveQuit]) == [""];
    assert Decode([CommandMode, SaveQuit]) == [""];
    assert Decode([Escape, CommandMode, SaveQuit]) == [""];
  }
}
