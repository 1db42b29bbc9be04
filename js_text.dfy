/**
 * The JavaScript string operations the site relies on, with ECMAScript
 * semantics. A JavaScript string is a sequence of UTF-16 code units; here a
 * string is a sequence of `char`s, each one Unicode code point.
 */
module JsText {

  /** Concatenation regroups freely; stated once so proofs need not re-derive it element by element. */
  lemma ConcatAssociates<T>(a: seq<T>, b: seq<T>, c: seq<T>)
    ensures (a + b) + c == a + (b + c)
  {
  }

  /** Appending a head and then a tail appends the whole they make up. */
  lemma AppendInTwo<T>(base: seq<T>, head: seq<T>, middle: seq<T>, tail: seq<T>, last: seq<T>, whole: seq<T>)
    requires middle == base + head && last == middle + tail && whole == head + tail
    ensures last == base + whole
  {
    ConcatAssociates(base, head, tail);
  }

  /*
   * Small facts about taking sequences apart and putting them back together,
   * stated once so that larger proofs can call them instead of re-deriving
   * each equality element by element.
   */

  lemma HeadThenTail<T>(s: seq<T>)
    requires |s| > 0
    ensures s == [s[0]] + s[1..]
  {
  }

  lemma InitThenLast<T>(s: seq<T>)
    requires |s| > 0
    ensures s[..|s| - 1] + [s[|s| - 1]] == s
  {
  }

  lemma FirstThenMiddle<T>(s: seq<T>)
    requires |s| >= 2
    ensures [s[0]] + s[1..][..|s| - 2] == s[..|s| - 1]
  {
  }

  lemma ExtendSlice<T>(s: seq<T>, i: nat, j: nat)
    requires i <= j < |s|
    ensures s[i..j + 1] == s[i..j] + [s[j]]
  {
  }

  lemma WindowHeadTail<T>(s: seq<T>, i: nat, n: nat)
    requires i + n <= |s| && n >= 1
    ensures s[i..i + n][0] == s[i] && s[i..i + n][1..] == s[i + 1..i + n]
  {
  }

  /** The first element, then the tail with its entry `k - 1` cut out, is the whole with entry `k` cut out. */
  lemma ConsSlices<T>(s: seq<T>, k: nat)
    requires 0 < k < |s|
    ensures [s[0]] + (s[1..][..k - 1] + s[1..][k..]) == s[..k] + s[k + 1..]
  {
    assert [s[0]] + s[1..][..k - 1] == s[..k];
    assert s[1..][k..] == s[k + 1..];
  }

  lemma SameElements<T>(a: seq<T>, b: seq<T>)
    requires |a| == |b| && forall i :: 0 <= i < |a| ==> a[i] == b[i]
    ensures a == b
  {
  }

  /** `Math.min` / `Math.max` on integers. */
  function Min(a: int, b: int): int { if a <= b then a else b }
  function Max(a: int, b: int): int { if a >= b then a else b }

  /** ECMAScript WhiteSpace or LineTerminator: what `trim()` removes and `\s` matches. */
  predicate IsSpace(c: char) {
    c == '\t' || c == '\n' || c == '\U{B}' || c == '\U{C}' || c == '\r' || c == ' ' ||
    c == '\U{A0}' || c == '\U{1680}' || ('\U{2000}' <= c <= '\U{200A}') ||
    c == '\U{2028}' || c == '\U{2029}' || c == '\U{202F}' || c == '\U{205F}' ||
    c == '\U{3000}' || c == '\U{FEFF}'
  }

  predicate NoSpace(s: string) { forall i :: 0 <= i < |s| ==> !IsSpace(s[i]) }

  /** Number of white-space characters at the start of `s`. */
  function LeadingSpaces(s: string): (n: nat)
    ensures n <= |s|
    ensures forall i :: 0 <= i < n ==> IsSpace(s[i])
    ensures n < |s| ==> !IsSpace(s[n])
  {
    if s == [] || !IsSpace(s[0]) then 0 else 1 + LeadingSpaces(s[1..])
  }

  /** Number of white-space characters at the end of `s`. */
  function TrailingSpaces(s: string): (n: nat)
    ensures n <= |s|
    ensures forall i :: |s| - n <= i < |s| ==> IsSpace(s[i])
    ensures n < |s| ==> !IsSpace(s[|s| - n - 1])
  {
    if s == [] || !IsSpace(s[|s| - 1]) then 0 else 1 + TrailingSpaces(s[..|s| - 1])
  }

  /** `String.prototype.trim`. */
  function Trim(s: string): (r: string)
    ensures r == [] || (!IsSpace(r[0]) && !IsSpace(r[|r| - 1]))
  {
    var t := s[LeadingSpaces(s)..];
    t[..|t| - TrailingSpaces(t)]
  }

  /** Trimming keeps a contiguous piece of the input and drops only white space around it. */
  lemma TrimIsInfix(s: string)
    ensures exists a, b ::
      0 <= a <= b <= |s| && Trim(s) == s[a..b] &&
      (forall i :: 0 <= i < a ==> IsSpace(s[i])) && (forall i :: b <= i < |s| ==> IsSpace(s[i]))
  {
    var a := LeadingSpaces(s);
    var t := s[a..];
    var b := a + |t| - TrailingSpaces(t);
    assert Trim(s) == s[a..b];
    assert forall i :: b <= i < |s| ==> IsSpace(s[i]) by {
      forall i | b <= i < |s| ensures IsSpace(s[i]) { assert s[i] == t[i - a]; }
    }
  }

  /** A string that neither starts nor ends with white space is its own trim. */
  lemma TrimOfTrimmed(s: string)
    requires s == [] || (!IsSpace(s[0]) && !IsSpace(s[|s| - 1]))
    ensures Trim(s) == s
  {
  }

  /** `trim()` is idempotent. */
  lemma TrimIdempotent(s: string)
    ensures Trim(Trim(s)) == Trim(s)
  {
    TrimOfTrimmed(Trim(s));
  }

  /** `s.startsWith(p)`. */
  predicate StartsWith(s: string, p: string) {
    |p| <= |s| && s[..|p|] == p
  }

  /** `s.includes(t)`. */
  predicate Contains(s: string, t: string)
    decreases |s|
  {
    StartsWith(s, t) || (s != [] && Contains(s[1..], t))
  }

  /** `t` occurs in `s` starting at index `i`. */
  predicate OccursAt(s: string, t: string, i: int) {
    0 <= i <= |s| - |t| && s[i..i + |t|] == t
  }

  /** `Contains` holds exactly when `t` occurs at some position of `s`. */
  lemma {:induction false} ContainsIff(s: string, t: string)
    ensures Contains(s, t) <==> exists i :: OccursAt(s, t, i)
    decreases |s|
  {
    if StartsWith(s, t) {
      assert OccursAt(s, t, 0);
    } else if s == [] {
    } else {
      ContainsIff(s[1..], t);
      if exists i :: OccursAt(s, t, i) {
        var i :| OccursAt(s, t, i);
        assert i != 0;
        assert s[1..][i - 1..i - 1 + |t|] == s[i..i + |t|];
        assert OccursAt(s[1..], t, i - 1);
      }
      if Contains(s[1..], t) {
        var i :| OccursAt(s[1..], t, i);
        assert s[i + 1..i + 1 + |t|] == s[1..][i..i + |t|];
        assert OccursAt(s, t, i + 1);
      }
    }
  }

  /** ASCII upper-case letters mapped to lower case; every other character kept. */
  function LowerChar(c: char): char {
    if 'A' <= c <= 'Z' then (c as int + 32) as char else c
  }

  /** `toLowerCase()` restricted to ASCII letters. */
  function ToLower(s: string): (r: string)
    ensures |r| == |s| && forall i :: 0 <= i < |s| ==> r[i] == LowerChar(s[i])
  {
    seq(|s|, i requires 0 <= i < |s| => LowerChar(s[i]))
  }

  /** `s.split(sep)` for a non-empty string separator: leftmost, non-overlapping occurrences. */
  function Split(s: string, sep: string): (parts: seq<string>)
    requires sep != []
    ensures |parts| >= 1
    decreases |s|
  {
    if |s| < |sep| then [s]
    else if s[..|sep|] == sep then [""] + Split(s[|sep|..], sep)
    else
      var rest := Split(s[1..], sep);
      [[s[0]] + rest[0]] + rest[1..]
  }

  /** `parts.join(sep)`. */
  function Join(parts: seq<string>, sep: string): string {
    if parts == [] then ""
    else if |parts| == 1 then parts[0]
    else parts[0] + sep + Join(parts[1..], sep)
  }

  /** Joining the pieces of a split with the same separator gives back the string. */
  lemma {:induction false} JoinSplit(s: string, sep: string)
    requires sep != []
    ensures Join(Split(s, sep), sep) == s
    decreases |s|
  {
    if |s| < |sep| {
    } else if s[..|sep|] == sep {
      JoinSplit(s[|sep|..], sep);
      JoinAfterEmpty(Split(s[|sep|..], sep), sep);
      PrefixThenRest(s, |sep|);
    } else {
      JoinSplit(s[1..], sep);
      JoinExtendFirst(s[0], Split(s[1..], sep), sep);
      HeadThenTail(s);
    }
  }

  lemma JoinAfterEmpty(rest: seq<string>, sep: string)
    requires |rest| >= 1
    ensures Join([""] + rest, sep) == sep + Join(rest, sep)
  {
    assert ([""] + rest)[1..] == rest;
  }

  lemma JoinExtendFirst(c: char, rest: seq<string>, sep: string)
    requires |rest| >= 1
    ensures Join([[c] + rest[0]] + rest[1..], sep) == [c] + Join(rest, sep)
  {
    var parts := [[c] + rest[0]] + rest[1..];
    if |rest| > 1 {
      assert parts[1..] == rest[1..];
    }
  }

  lemma PrefixThenRest<T>(s: seq<T>, k: nat)
    requires k <= |s|
    ensures s[..k] + s[k..] == s
  {
  }

  /** Splitting at a one-character separator that a string does not contain gives that string alone. */
  lemma {:induction false} SplitNoSep(p: string, c: char)
    requires c !in p
    ensures Split(p, [c]) == [p]
    decreases |p|
  {
    if p != [] {
      SplitNoSep(p[1..], c);
      assert p == [p[0]] + p[1..];
    }
  }

  /** A one-character separator after a piece that does not contain it ends that piece. */
  lemma {:induction false} SplitAfterPiece(p: string, c: char, rest: string)
    requires c !in p
    ensures Split(p + [c] + rest, [c]) == [p] + Split(rest, [c])
    decreases |p|
  {
    if p == [] {
      assert ([] + [c] + rest)[..1] == [c];
      assert ([] + [c] + rest)[1..] == rest;
    } else {
      var s := p + [c] + rest;
      assert s[..1] != [c] by { assert s[0] == p[0]; }
      assert s[1..] == p[1..] + [c] + rest;
      SplitAfterPiece(p[1..], c, rest);
      assert [p[0]] + p[1..] == p;
    }
  }

  /** Two pieces around one occurrence of a one-character separator split back into those pieces. */
  lemma SplitTwo(a: string, b: string, c: char)
    requires c !in a && c !in b
    ensures Split(a + [c] + b, [c]) == [a, b]
  {
    SplitAfterPiece(a, c, b);
    SplitNoSep(b, c);
  }

  /** No piece of a split at a one-character separator contains that character. */
  lemma {:induction false} SplitPiecesExcludeSep(s: string, c: char)
    ensures forall i :: 0 <= i < |Split(s, [c])| ==> c !in Split(s, [c])[i]
    decreases |s|
  {
    if |s| < 1 {
    } else if s[..1] == [c] {
      SplitPiecesExcludeSep(s[1..], c);
    } else {
      SplitPiecesExcludeSep(s[1..], c);
      var rest := Split(s[1..], [c]);
      assert s[0] != c by { assert s[..1][0] == s[0]; }
      assert c !in [s[0]] + rest[0];
    }
  }

  /** Splitting a join at a one-character separator that no piece contains gives back the pieces. */
  lemma {:induction false} SplitJoin(parts: seq<string>, c: char)
    requires |parts| >= 1
    requires forall i :: 0 <= i < |parts| ==> c !in parts[i]
    ensures Split(Join(parts, [c]), [c]) == parts
    decreases |parts|
  {
    if |parts| == 1 {
      SplitNoSep(parts[0], c);
    } else {
      SplitJoin(parts[1..], c);
      SplitAfterPiece(parts[0], c, Join(parts[1..], [c]));
      assert [parts[0]] + parts[1..] == parts;
    }
  }

  /** Drop the run of white space at the start of `s`. */
  function DropSpaces(s: string): (r: string)
    ensures |r| <= |s|
  {
    s[LeadingSpaces(s)..]
  }

  /** `s.split(/\s+/)`: the pieces between maximal runs of white space. */
  function SplitSpaces(s: string): (parts: seq<string>)
    ensures |parts| >= 1
    decreases |s|
  {
    if s == [] then [""]
    else if IsSpace(s[0]) then [""] + SplitSpaces(DropSpaces(s))
    else
      var rest := SplitSpaces(s[1..]);
      [[s[0]] + rest[0]] + rest[1..]
  }

  /** No piece of a white-space split contains white space. */
  lemma {:induction false} SplitSpacesPiecesHaveNoSpace(s: string)
    ensures forall i :: 0 <= i < |SplitSpaces(s)| ==> NoSpace(SplitSpaces(s)[i])
    decreases |s|
  {
    if s == [] {
    } else if IsSpace(s[0]) {
      SplitSpacesPiecesHaveNoSpace(DropSpaces(s));
    } else {
      SplitSpacesPiecesHaveNoSpace(s[1..]);
    }
  }

  /** A string without white space splits into itself alone. */
  lemma {:induction false} SplitSpacesOfWord(s: string)
    requires NoSpace(s)
    ensures SplitSpaces(s) == [s]
    decreases |s|
  {
    if s != [] {
      SplitSpacesOfWord(s[1..]);
      assert [s[0]] + s[1..] == s;
    }
  }

  /** Clamp an index into [0, n], as `substring` does. */
  function Clamp(i: int, n: nat): (r: nat)
    ensures r <= n
  {
    if i < 0 then 0 else if i > n then n else i
  }

  /** `s.substring(start, end)`: both ends clamped, swapped when reversed. */
  function Substring(s: string, start: int, end: int): (r: string)
    ensures |r| <= |s|
  {
    var a := Clamp(start, |s|);
    var b := Clamp(end, |s|);
    if a <= b then s[a..b] else s[b..a]
  }

  /** `s.substring(start)`. */
  function SubstringFrom(s: string, start: int): (r: string)
    ensures |r| <= |s|
  {
    s[Clamp(start, |s|)..]
  }

  /** The two halves of a string cut at any position join back to the string. */
  lemma SubstringSplit(s: string, k: int)
    ensures Substring(s, 0, k) + SubstringFrom(s, k) == s
  {
    assert s[..Clamp(k, |s|)] + s[Clamp(k, |s|)..] == s;
  }

  /** The decimal digits of a natural number, as `String(n)` writes them. */
  function NatToString(n: nat): (r: string)
    ensures |r| >= 1 && forall i :: 0 <= i < |r| ==> '0' <= r[i] <= '9'
    decreases n
  {
    if n < 10 then [Digit(n)] else NatToString(n / 10) + [Digit(n % 10)]
  }

  function Digit(d: nat): char
    requires d < 10
  {
    ('0' as int + d) as char
  }

  /** `String(n)` / `${n}` for an integer. */
  function IntToString(n: int): (r: string)
    ensures r != []
  {
    if n < 0 then "-" + NatToString(-n) else NatToString(n)
  }

  predicate IsDigits(s: string) {
    s != [] && forall i :: 0 <= i < |s| ==> '0' <= s[i] <= '9'
  }

  /** The value of a string of decimal digits, as `parseInt` reads it. */
  function DigitsValue(s: string): nat
    requires IsDigits(s)
    decreases |s|
  {
    var d := (s[|s| - 1] as int - '0' as int);
    if |s| == 1 then d else 10 * DigitsValue(s[..|s| - 1]) + d
  }

  /** Reading back the decimal form of a natural number gives the number. */
  lemma {:induction false} DigitsValueOfNatToString(n: nat)
    ensures IsDigits(NatToString(n)) && DigitsValue(NatToString(n)) == n
    decreases n
  {
    if n >= 10 {
      DigitsValueOfNatToString(n / 10);
      var s := NatToString(n);
      assert s[..|s| - 1] == NatToString(n / 10);
    }
  }
}
