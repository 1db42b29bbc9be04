/**
 * The build-time collector of inline-script hashes: it scans every HTML
 * page of a production build for `<script…>BODY</script>` with the global
 * pattern `<script[^>]*>([^<]+)<\/script>`, keeps each trimmed body that is
 * not empty and does not mention `src=`, hashes it with SHA-256, and prints
 * the distinct hashes, sorted, as a JavaScript array literal.
 */
module CollectCspHashes {
  import opened Optional
  import opened JsText

  // ---------------------------------------------------------------------
  // The pattern and its successive matches

  /** One match: `<script` at `start`, the captured body in `[bodyStart, bodyEnd)`, the match ending at `end`. */
  datatype Match = Match(start: nat, bodyStart: nat, bodyEnd: nat, end: nat)

  const ScriptOpen: string := "<script"
  const ScriptClose: string := "</script>"

  /** The first position at or after `i` holding `c`. */
  function IndexOf(s: string, c: char, i: nat): (r: Option<nat>)
    ensures r.Some? ==> i <= r.value < |s| && s[r.value] == c && forall k :: i <= k < r.value ==> s[k] != c
    ensures r.None? ==> forall k :: i <= k < |s| ==> s[k] != c
    decreases |s| - i
  {
    if i >= |s| then None else if s[i] == c then Some(i) else IndexOf(s, c, i + 1)
  }

  /** A well-formed match of the pattern in `s`. */
  predicate IsMatch(s: string, m: Match) {
    && m.start + |ScriptOpen| < m.bodyStart < m.bodyEnd && m.end == m.bodyEnd + |ScriptClose| <= |s|
    && s[m.start..m.start + |ScriptOpen|] == ScriptOpen
    && s[m.bodyStart - 1] == '>' && (forall k :: m.start + |ScriptOpen| <= k < m.bodyStart - 1 ==> s[k] != '>')
    && (forall k :: m.bodyStart <= k < m.bodyEnd ==> s[k] != '<')
    && s[m.bodyEnd..m.end] == ScriptClose
  }

  /** Where a match's captured body lies, and that it ends after it starts. */
  predicate Bounded(s: string, m: Match) {
    m.start < m.bodyStart <= m.bodyEnd < m.end <= |s|
  }

  /**
   * The match starting at `p`, if the pattern matches there. `[^>]*` can
   * only stop at the first `>`, and `[^<]+` only at the first `<` after it,
   * so there is at most one.
   */
  function MatchAt(s: string, p: nat): (r: Option<Match>)
    ensures r.Some? ==> r.value.start == p && Bounded(s, r.value)
  {
    if p + |ScriptOpen| > |s| || s[p..p + |ScriptOpen|] != ScriptOpen then None
    else
      match IndexOf(s, '>', p + |ScriptOpen|)
      case None => None
      case Some(q) =>
        match IndexOf(s, '<', q + 1)
        case None => None
        case Some(e) =>
          if e > q + 1 && e + |ScriptClose| <= |s| && s[e..e + |ScriptClose|] == ScriptClose
          then Some(Match(p, q + 1, e, e + |ScriptClose|))
          else None
  }

  /** What `MatchAt` finds is a match of the pattern, starting where it was asked to. */
  lemma MatchAtIsMatch(s: string, p: nat)
    requires MatchAt(s, p).Some?
    ensures IsMatch(s, MatchAt(s, p).value)
  {
  }

  /** `scriptRegex.exec(html)` from `lastIndex`: the leftmost match at or after it. */
  function NextMatch(s: string, from: nat): (r: Option<Match>)
    ensures r.Some? ==> from <= r.value.start && Bounded(s, r.value)
    decreases |s| + 1 - from
  {
    if from > |s| then None
    else match MatchAt(s, from)
      case Some(m) => Some(m)
      case None => NextMatch(s, from + 1)
  }

  /** What `exec` returns is the match the pattern makes where it starts. */
  lemma {:induction false} NextMatchFound(s: string, from: nat)
    requires NextMatch(s, from).Some?
    ensures MatchAt(s, NextMatch(s, from).value.start) == NextMatch(s, from)
    decreases |s| + 1 - from
  {
    if MatchAt(s, from).None? {
      NextMatchFound(s, from + 1);
    }
  }

  /** `exec` skips no match: the pattern matches nowhere between `from` and what it returns, or nowhere at all. */
  lemma {:induction false} NextMatchIsLeftmost(s: string, from: nat, p: nat)
    requires from <= p
    requires NextMatch(s, from).Some? ==> p < NextMatch(s, from).value.start
    ensures MatchAt(s, p).None?
    decreases p - from
  {
    if p > from {
      NextMatchIsLeftmost(s, from + 1, p);
    }
  }

  predicate AllBounded(s: string, ms: seq<Match>) {
    forall k :: 0 <= k < |ms| ==> Bounded(s, ms[k])
  }

  /** Matches that do not overlap, in document order. */
  predicate InOrder(ms: seq<Match>) {
    forall k :: 0 <= k < |ms| - 1 ==> ms[k].end <= ms[k + 1].start
  }

  /** The successive matches from `from` on, as the global pattern finds them. */
  function Matches(s: string, from: nat): (r: seq<Match>)
    ensures AllBounded(s, r)
    decreases |s| + 1 - from
  {
    match NextMatch(s, from)
    case None => []
    case Some(m) => [m] + Matches(s, m.end)
  }

  /** The successive matches start at or after `from` and do not overlap. */
  lemma {:induction false} MatchesInOrder(s: string, from: nat)
    ensures var r := Matches(s, from);
      (forall k :: 0 <= k < |r| ==> from <= r[k].start) && InOrder(r)
    decreases |s| + 1 - from
  {
    match NextMatch(s, from)
    case None =>
    case Some(m) =>
      var rest := Matches(s, m.end);
      MatchesInOrder(s, m.end);
      var r := Matches(s, from);
      assert r == [m] + rest;
      forall k | 1 <= k < |r| ensures r[k] == rest[k - 1] {
      }
  }

  /** Each of the successive matches is the one the pattern makes where it starts. */
  lemma {:induction false} MatchesFound(s: string, from: nat)
    ensures forall k :: 0 <= k < |Matches(s, from)| ==> MatchAt(s, Matches(s, from)[k].start) == Some(Matches(s, from)[k])
    decreases |s| + 1 - from
  {
    match NextMatch(s, from)
    case None =>
    case Some(m) =>
      NextMatchFound(s, from);
      var rest := Matches(s, m.end);
      MatchesFound(s, m.end);
      var r := Matches(s, from);
      assert r == [m] + rest;
      assert MatchAt(s, m.start) == Some(m);
      forall k | 0 <= k < |r| ensures MatchAt(s, r[k].start) == Some(r[k]) {
        if k > 0 {
          assert r[k] == rest[k - 1];
          assert MatchAt(s, rest[k - 1].start) == Some(rest[k - 1]);
        }
      }
  }

  function Body(s: string, m: Match): string
    requires Bounded(s, m)
  {
    s[m.bodyStart..m.bodyEnd]
  }

  /** The trimmed bodies of some matches, in their order. */
  function TrimmedBodies(s: string, ms: seq<Match>): (r: seq<string>)
    requires AllBounded(s, ms)
    ensures |r| == |ms| && forall k :: 0 <= k < |ms| ==> r[k] == Trim(Body(s, ms[k]))
  {
    seq(|ms|, k requires 0 <= k < |ms| => Trim(Body(s, ms[k])))
  }

  lemma TrimmedBodiesCons(s: string, m: Match, ms: seq<Match>)
    requires Bounded(s, m) && AllBounded(s, ms) && AllBounded(s, [m] + ms)
    ensures TrimmedBodies(s, [m] + ms) == [Trim(Body(s, m))] + TrimmedBodies(s, ms)
  {
    var l := TrimmedBodies(s, [m] + ms);
    var r := [Trim(Body(s, m))] + TrimmedBodies(s, ms);
    forall k | 0 <= k < |l| ensures l[k] == r[k] {
      if k > 0 {
        assert ([m] + ms)[k] == ms[k - 1];
      }
    }
    SameElements(l, r);
  }

  /** Whether a trimmed body is kept: it is not empty and does not mention `src=`. */
  predicate Keeps(content: string) {
    content != "" && !Contains(content, "src=")
  }

  /** The contents that are kept, in their order. */
  function KeptOf(contents: seq<string>): (r: seq<string>)
    ensures |r| <= |contents|
  {
    if |contents| == 0 then []
    else (if Keeps(contents[0]) then [contents[0]] else []) + KeptOf(contents[1..])
  }

  /** A content is kept exactly when it is among the given ones and qualifies. */
  lemma {:induction false} KeptOfMembers(contents: seq<string>)
    ensures forall x :: x in KeptOf(contents) <==> x in contents && Keeps(x)
    decreases |contents|
  {
    if |contents| > 0 {
      KeptOfMembers(contents[1..]);
      assert contents == [contents[0]] + contents[1..];
    }
  }

  /** What `extractInlineScripts(html)` returns. */
  function InlineScripts(html: string): seq<string> {
    KeptOf(TrimmedBodies(html, Matches(html, 0)))
  }

  /** `extractInlineScripts`: call `exec` until it fails, keeping the trimmed bodies that qualify. */
  method ExtractInlineScripts(html: string) returns (scripts: seq<string>)
    ensures scripts == InlineScripts(html)
  {
    scripts := [];
    var lastIndex := 0;
    var match_ := NextMatch(html, lastIndex);
    while match_.Some?
      invariant match_ == NextMatch(html, lastIndex)
      invariant scripts + KeptOf(TrimmedBodies(html, Matches(html, lastIndex))) == InlineScripts(html)
      decreases |html| + 1 - lastIndex
    {
      var m := match_.value;
      var rest := Matches(html, m.end);
      assert Matches(html, lastIndex) == [m] + rest;
      TrimmedBodiesCons(html, m, rest);
      var scriptContent := Trim(html[m.bodyStart..m.bodyEnd]);
      var bodies := TrimmedBodies(html, rest);
      assert ([scriptContent] + bodies)[1..] == bodies;
      ghost var kept := if Keeps(scriptContent) then [scriptContent] else [];
      assert KeptOf([scriptContent] + bodies) == kept + KeptOf(bodies);
      ghost var before := scripts;
      if scriptContent != "" && !Contains(scriptContent, "src=") {
        scripts := scripts + [scriptContent];
      }
      assert scripts == before + kept;
      ConcatAssociates(before, kept, KeptOf(bodies));
      lastIndex := m.end;
      match_ := NextMatch(html, lastIndex);
    }
    assert scripts + [] == scripts;
  }

  /** A captured body holds no `<`: `[^<]+` stops at the first one. */
  lemma BodyHasNoOpen(s: string, m: Match)
    requires MatchAt(s, m.start) == Some(m)
    ensures Bounded(s, m) && '<' !in Body(s, m)
  {
    MatchAtIsMatch(s, m.start);
    assert forall i :: 0 <= i < m.bodyEnd - m.bodyStart ==> Body(s, m)[i] == s[m.bodyStart + i];
  }

  /** A trimmed content lies inside what it was trimmed from, and trimming it again changes nothing. */
  lemma TrimmedInside(body: string)
    ensures Trim(Trim(body)) == Trim(body)
    ensures forall c :: c in Trim(body) ==> c in body
  {
    var content := Trim(body);
    TrimOfTrimmed(content);
    TrimIsInfix(body);
    var a, b :| 0 <= a <= b <= |body| && content == body[a..b];
    assert forall k :: 0 <= k < |content| ==> content[k] == body[a + k];
  }

  /**
   * The scripts of a page are exactly its trimmed captured bodies that are
   * not empty and do not mention `src=`; each is trimmed and free of `<`.
   */
  lemma InlineScriptsAreClean(html: string)
    ensures forall x :: x in InlineScripts(html) <==> x in TrimmedBodies(html, Matches(html, 0)) && Keeps(x)
    ensures forall x :: x in InlineScripts(html) ==> x != "" && Trim(x) == x && !Contains(x, "src=") && '<' !in x
  {
    var ms := Matches(html, 0);
    var bodies := TrimmedBodies(html, ms);
    KeptOfMembers(bodies);
    MatchesFound(html, 0);
    forall x | x in bodies ensures Trim(x) == x && '<' !in x {
      var k :| 0 <= k < |ms| && bodies[k] == x;
      BodyHasNoOpen(html, ms[k]);
      TrimmedInside(Body(html, ms[k]));
    }
  }

  // ---------------------------------------------------------------------
  // Hashing, de-duplication, sorting and the printed literal

  /** `calculateHash`: `sha256-` and the base64 digest, the digest being outside the model. */
  function CalculateHash(content: string, digest: string -> string): (h: string)
    ensures StartsWith(h, "sha256-")
  {
    "sha256-" + digest(content)
  }

  /** The scripts of the pages, page after page. */
  function AllScripts(htmlFiles: seq<string>): seq<string>
    decreases |htmlFiles|
  {
    if |htmlFiles| == 0 then [] else AllScripts(htmlFiles[..|htmlFiles| - 1]) + InlineScripts(htmlFiles[|htmlFiles| - 1])
  }

  /** The hashes of some scripts, in order. */
  function HashesOf(scripts: seq<string>, digest: string -> string): (r: seq<string>)
    ensures |r| == |scripts| && forall k :: 0 <= k < |r| ==> r[k] == CalculateHash(scripts[k], digest)
  {
    seq(|scripts|, k requires 0 <= k < |scripts| => CalculateHash(scripts[k], digest))
  }

  /** `set.add` for each value in turn: a value not seen before joins at the end. */
  function Added(acc: seq<string>, values: seq<string>): (r: seq<string>)
    decreases |values|
  {
    if |values| == 0 then acc
    else
      var a := Added(acc, values[..|values| - 1]);
      if values[|values| - 1] in a then a else a + [values[|values| - 1]]
  }

  predicate Distinct(xs: seq<string>) {
    forall i, j :: 0 <= i < j < |xs| ==> xs[i] != xs[j]
  }

  /** The set holds each value once: exactly those given, the earlier ones first. */
  lemma {:induction false} AddedHoldsEachOnce(acc: seq<string>, values: seq<string>)
    requires Distinct(acc)
    ensures Distinct(Added(acc, values))
    ensures forall x :: x in Added(acc, values) <==> x in acc || x in values
    decreases |values|
  {
    if |values| > 0 {
      var init := values[..|values| - 1];
      AddedHoldsEachOnce(acc, init);
      assert values == init + [values[|values| - 1]];
    }
  }

  lemma {:induction false} AddedConcat(acc: seq<string>, xs: seq<string>, ys: seq<string>)
    ensures Added(acc, xs + ys) == Added(Added(acc, xs), ys)
    decreases |ys|
  {
    if |ys| == 0 {
      assert xs + ys == xs;
    } else {
      var init := ys[..|ys| - 1];
      AddedConcat(acc, xs, init);
      assert (xs + ys)[..|xs + ys| - 1] == xs + init;
      assert (xs + ys)[|xs + ys| - 1] == ys[|ys| - 1];
    }
  }

  /** Adding one more value: it joins at the end unless it is already there. */
  lemma AddedOneMore(acc: seq<string>, values: seq<string>, v: string)
    ensures Added(acc, values + [v]) == if v in Added(acc, values) then Added(acc, values) else Added(acc, values) + [v]
  {
    assert (values + [v])[..|values|] == values;
  }

  /** The hashes of one more script: one more hash at the end. */
  lemma HashesOfOneMore(scripts: seq<string>, k: nat, digest: string -> string)
    requires k < |scripts|
    ensures HashesOf(scripts[..k + 1], digest) == HashesOf(scripts[..k], digest) + [CalculateHash(scripts[k], digest)]
  {
  }

  /** The hashes of one more page: the set so far, then the hashes of that page's scripts. */
  lemma CollectedOneMorePage(htmlFiles: seq<string>, f: nat, digest: string -> string)
    requires f < |htmlFiles|
    ensures Added([], HashesOf(AllScripts(htmlFiles[..f + 1]), digest)) ==
            Added(Added([], HashesOf(AllScripts(htmlFiles[..f]), digest)), HashesOf(InlineScripts(htmlFiles[f]), digest))
  {
    assert htmlFiles[..f + 1][..f] == htmlFiles[..f];
    var earlier := AllScripts(htmlFiles[..f]);
    var page := InlineScripts(htmlFiles[f]);
    assert AllScripts(htmlFiles[..f + 1]) == earlier + page;
    HashesOfConcat(earlier, page, digest);
    AddedConcat([], HashesOf(earlier, digest), HashesOf(page, digest));
  }

  lemma HashesOfConcat(xs: seq<string>, ys: seq<string>, digest: string -> string)
    ensures HashesOf(xs + ys, digest) == HashesOf(xs, digest) + HashesOf(ys, digest)
  {
  }

  /** JavaScript's default string comparison, character by character (code points here). */
  predicate Less(a: string, b: string)
    decreases |a|
  {
    |b| > 0 && (|a| == 0 || a[0] < b[0] || (a[0] == b[0] && Less(a[1..], b[1..])))
  }

  lemma {:induction false} LessIrreflexive(a: string)
    ensures !Less(a, a)
    decreases |a|
  {
    if |a| > 0 {
      LessIrreflexive(a[1..]);
    }
  }

  lemma {:induction false} LessTransitive(a: string, b: string, c: string)
    requires Less(a, b) && Less(b, c)
    ensures Less(a, c)
    decreases |a|
  {
    if |a| > 0 && a[0] == b[0] && b[0] == c[0] {
      LessTransitive(a[1..], b[1..], c[1..]);
    }
  }

  lemma {:induction false} LessTotal(a: string, b: string)
    requires a != b
    ensures Less(a, b) || Less(b, a)
    decreases |a|
  {
    if |a| > 0 && |b| > 0 && a[0] == b[0] {
      assert a == [a[0]] + a[1..] && b == [b[0]] + b[1..];
      LessTotal(a[1..], b[1..]);
    }
  }

  /** Put `x` before the first element it is below. */
  function InsertSorted(sorted: seq<string>, x: string): (r: seq<string>)
    ensures multiset(r) == multiset(sorted) + multiset{x}
    decreases |sorted|
  {
    if |sorted| == 0 then [x]
    else
      assert sorted == [sorted[0]] + sorted[1..];
      if Less(x, sorted[0]) || x == sorted[0] then [x] + sorted
    else [sorted[0]] + InsertSorted(sorted[1..], x)
  }

  /** `.sort()` with the default comparison. */
  function SortStrings(xs: seq<string>): (r: seq<string>)
    ensures multiset(r) == multiset(xs)
    decreases |xs|
  {
    if |xs| == 0 then []
    else
      assert xs == xs[..|xs| - 1] + [xs[|xs| - 1]];
      InsertSorted(SortStrings(xs[..|xs| - 1]), xs[|xs| - 1])
  }

  /** Each element is below the next one, so no element repeats. */
  predicate Ascending(xs: seq<string>) {
    forall i :: 0 <= i < |xs| - 1 ==> Less(xs[i], xs[i + 1])
  }

  lemma {:induction false} InsertKeepsAscending(sorted: seq<string>, x: string)
    requires Ascending(sorted) && x !in sorted
    ensures Ascending(InsertSorted(sorted, x))
    decreases |sorted|
  {
    if |sorted| > 0 {
      if Less(x, sorted[0]) || x == sorted[0] {
      } else {
        LessTotal(x, sorted[0]);
        InsertKeepsAscending(sorted[1..], x);
        FirstBelowInserted(sorted, x);
        ConsAscending(sorted[0], InsertSorted(sorted[1..], x));
      }
    }
  }

  /** The first element of an ascending list is below whatever inserting a greater value into its tail puts first. */
  lemma FirstBelowInserted(sorted: seq<string>, x: string)
    requires Ascending(sorted) && |sorted| > 0 && Less(sorted[0], x)
    ensures Less(sorted[0], InsertSorted(sorted[1..], x)[0])
  {
    var rest := InsertSorted(sorted[1..], x);
    assert rest[0] in multiset(rest);
    assert rest[0] == x || rest[0] in sorted[1..];
    if rest[0] != x {
      var j :| 1 <= j < |sorted| && sorted[j] == rest[0];
      AscendingBelow(sorted, 0, j);
    }
  }

  lemma ConsAscending(a: string, rest: seq<string>)
    requires Ascending(rest) && (|rest| > 0 ==> Less(a, rest[0]))
    ensures Ascending([a] + rest)
  {
    var r := [a] + rest;
    forall i | 0 <= i < |r| - 1 ensures Less(r[i], r[i + 1]) {
      if i > 0 {
        assert r[i] == rest[i - 1] && r[i + 1] == rest[i];
      }
    }
  }

  lemma {:induction false} AscendingBelow(xs: seq<string>, i: nat, j: nat)
    requires Ascending(xs) && i < j < |xs|
    ensures Less(xs[i], xs[j])
    decreases j - i
  {
    if j > i + 1 {
      AscendingBelow(xs, i + 1, j);
      LessTransitive(xs[i], xs[i + 1], xs[j]);
    }
  }

  /** Sorting values that are each present once gives them in strictly ascending order. */
  lemma {:induction false} SortIsAscending(xs: seq<string>)
    requires Distinct(xs)
    ensures Ascending(SortStrings(xs))
    decreases |xs|
  {
    if |xs| > 0 {
      var init := xs[..|xs| - 1];
      var x := xs[|xs| - 1];
      SortIsAscending(init);
      assert x !in multiset(init);
      assert x !in multiset(SortStrings(init));
      InsertKeepsAscending(SortStrings(init), x);
    }
  }

  /** One printed line of the array literal: the quoted hash, then a comma unless it is the last. */
  function ArrayLine(hash: string, isLast: bool): string {
    "  '" + hash + "'" + (if isLast then "" else ",")
  }

  /** The lines that print `const QWIK_SCRIPT_HASHES = [ … ];`. */
  function ArrayLiteral(hashArray: seq<string>): (r: seq<string>)
    ensures |r| == |hashArray| + 2
  {
    ["const QWIK_SCRIPT_HASHES = ["] +
    seq(|hashArray|, k requires 0 <= k < |hashArray| => ArrayLine(hashArray[k], k == |hashArray| - 1)) +
    ["];\n"]
  }

  /** `hashArray.forEach(...)` between the opening and closing lines. */
  method PrintArrayLiteral(hashArray: seq<string>) returns (lines: seq<string>)
    ensures lines == ArrayLiteral(hashArray)
  {
    lines := ["const QWIK_SCRIPT_HASHES = ["];
    for index := 0 to |hashArray|
      invariant |lines| == index + 1 && lines[0] == "const QWIK_SCRIPT_HASHES = ["
      invariant forall k :: 0 <= k < index ==> lines[k + 1] == ArrayLine(hashArray[k], k == |hashArray| - 1)
    {
      var comma := if index < |hashArray| - 1 then "," else "";
      lines := lines + ["  '" + hashArray[index] + "'" + comma];
    }
    lines := lines + ["];\n"];
  }

  /** Reading a printed line back: drop the indentation, the quotes and any comma. */
  function UnquotedLine(line: string): string {
    var t := if |line| > 0 && line[|line| - 1] == ',' then line[..|line| - 1] else line;
    if |t| >= 4 then t[3..|t| - 1] else ""
  }

  /** Every printed element reads back as its hash, and only the last has no comma. */
  lemma ArrayLiteralReadsBack(hashArray: seq<string>)
    ensures var lines := ArrayLiteral(hashArray);
      forall k :: 0 <= k < |hashArray| ==>
        && UnquotedLine(lines[k + 1]) == hashArray[k]
        && (lines[k + 1][|lines[k + 1]| - 1] == ',' <==> k < |hashArray| - 1)
  {
    var lines := ArrayLiteral(hashArray);
    forall k | 0 <= k < |hashArray|
      ensures UnquotedLine(lines[k + 1]) == hashArray[k]
      ensures lines[k + 1][|lines[k + 1]| - 1] == ',' <==> k < |hashArray| - 1
    {
      var q := "  '" + hashArray[k] + "'";
      assert q[3..|q| - 1] == hashArray[k];
      if k < |hashArray| - 1 {
        assert lines[k + 1] == q + ",";
        assert (q + ",")[..|q|] == q;
      } else {
        assert lines[k + 1] == q + "";
        assert q + "" == q;
      }
    }
  }

  /** What the collector ends with. */
  datatype Outcome =
    | NoHtmlFiles                                                     // reported, exit status 1
    | Printed(count: nat, hashArray: seq<string>, lines: seq<string>) // the count of distinct hashes and the literal

  /** What `collectHashes` prints for the pages of a build. */
  function Collected(htmlFiles: seq<string>, digest: string -> string): Outcome {
    if |htmlFiles| == 0 then NoHtmlFiles
    else
      var allHashes := Added([], HashesOf(AllScripts(htmlFiles), digest));
      var hashArray := SortStrings(allHashes);
      Printed(|allHashes|, hashArray, ArrayLiteral(hashArray))
  }

  /** `hashes.add(calculateHash(script))` for each script of a page, in order. */
  method AddHashes(hashes: seq<string>, scripts: seq<string>, digest: string -> string) returns (r: seq<string>)
    ensures r == Added(hashes, HashesOf(scripts, digest))
  {
    r := hashes;
    for k := 0 to |scripts|
      invariant r == Added(hashes, HashesOf(scripts[..k], digest))
    {
      var hash := CalculateHash(scripts[k], digest);
      HashesOfOneMore(scripts, k, digest);
      AddedOneMore(hashes, HashesOf(scripts[..k], digest), hash);
      if hash !in r {
        r := r + [hash];
      }
    }
    assert scripts[..|scripts|] == scripts;
  }

  /**
   * `collectHashes` once the pages are found and read: hash every inline
   * script of every page into a set, then sort the set and print it.
   */
  method CollectHashes(htmlFiles: seq<string>, digest: string -> string) returns (outcome: Outcome)
    ensures outcome == Collected(htmlFiles, digest)
  {
    if |htmlFiles| == 0 {
      return NoHtmlFiles;
    }
    var allHashes: seq<string> := [];
    for f := 0 to |htmlFiles|
      invariant allHashes == Added([], HashesOf(AllScripts(htmlFiles[..f]), digest))
    {
      var scripts := ExtractInlineScripts(htmlFiles[f]);
      allHashes := AddHashes(allHashes, scripts, digest);
      CollectedOneMorePage(htmlFiles, f, digest);
    }
    assert htmlFiles[..|htmlFiles|] == htmlFiles;
    var hashArray := SortStrings(allHashes);
    var lines := PrintArrayLiteral(hashArray);
    return Printed(|allHashes|, hashArray, lines);
  }

  /**
   * The printed hashes are exactly the hashes of the kept scripts of all
   * pages, each once, in ascending order, and the count is their number.
   */
  lemma CollectedHashesAreSortedAndDistinct(htmlFiles: seq<string>, digest: string -> string)
    requires |htmlFiles| > 0
    ensures var o := Collected(htmlFiles, digest);
      && o.Printed?
      && Ascending(o.hashArray) && o.count == |o.hashArray|
      && forall h :: h in o.hashArray <==> exists s :: s in AllScripts(htmlFiles) && h == CalculateHash(s, digest)
  {
    var hashes := HashesOf(AllScripts(htmlFiles), digest);
    var allHashes := Added([], hashes);
    AddedHoldsEachOnce([], hashes);
    SortIsAscending(allHashes);
    SortKeepsMembers(allHashes);
    HashesOfMembers(AllScripts(htmlFiles), digest);
  }

  /** Sorting keeps exactly the given elements. */
  lemma SortKeepsMembers(xs: seq<string>)
    ensures |SortStrings(xs)| == |xs|
    ensures forall h :: h in SortStrings(xs) <==> h in xs
  {
    assert |multiset(SortStrings(xs))| == |multiset(xs)|;
    forall h ensures h in SortStrings(xs) <==> h in xs {
      assert h in SortStrings(xs) <==> h in multiset(SortStrings(xs));
      assert h in xs <==> h in multiset(xs);
    }
  }

  /** The hashes of some scripts are exactly the hashes of those scripts' members. */
  lemma HashesOfMembers(scripts: seq<string>, digest: string -> string)
    ensures forall h :: h in HashesOf(scripts, digest) <==> exists s :: s in scripts && h == CalculateHash(s, digest)
  {
    var hashes := HashesOf(scripts, digest);
    forall h ensures h in hashes <==> exists s :: s in scripts && h == CalculateHash(s, digest) {
      if h in hashes {
        var k :| 0 <= k < |hashes| && hashes[k] == h;
        assert scripts[k] in scripts;
      }
      if exists s :: s in scripts && h == CalculateHash(s, digest) {
        var s :| s in scripts && h == CalculateHash(s, digest);
        var k :| 0 <= k < |scripts| && scripts[k] == s;
        assert hashes[k] == h;
      }
    }
  }
}
