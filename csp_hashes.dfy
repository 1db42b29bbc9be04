/**
 * The policy built at render time from the hashes of the inline scripts
 * the renderer emitted: fifteen fixed segments joined by `; `, where only
 * `script-src` depends on the hashes.
 */
module CspHashes {
  import opened Optional
  import opened JsText
  import CspConfig

  /** The parts of the renderer's result the builder reads. */
  datatype SnapshotResult = SnapshotResult(scriptHashes: Option<seq<string>>)
  datatype RenderOptions = RenderOptions(snapshotResult: Option<SnapshotResult>)

  /** `renderResult.snapshotResult?.scriptHashes || []`: an array, even an empty one, is kept. */
  function ScriptHashes(renderResult: RenderOptions): (r: seq<string>)
    ensures renderResult.snapshotResult.None? ==> r == []
    ensures renderResult.snapshotResult.Some? && renderResult.snapshotResult.value.scriptHashes.None? ==> r == []
    ensures renderResult.snapshotResult.Some? && renderResult.snapshotResult.value.scriptHashes.Some? ==>
      r == renderResult.snapshotResult.value.scriptHashes.value
  {
    match renderResult.snapshotResult
    case None => []
    case Some(snapshot) => snapshot.scriptHashes.GetOr([])
  }

  /** Each hash as a `'sha256-…'` source expression. */
  function HashSources(hashes: seq<string>): (r: seq<string>)
    ensures |r| == |hashes| && forall i :: 0 <= i < |r| ==> r[i] == "'sha256-" + hashes[i] + "'"
  {
    seq(|hashes|, i requires 0 <= i < |hashes| => "'sha256-" + hashes[i] + "'")
  }

  /** The `script-src` segment up to its hash sources. */
  const ScriptSrcSources: string := "script-src 'self' 'wasm-unsafe-eval'"

  /** The `default-src` segment, the only one before `script-src`. */
  const DefaultSrc: string := "default-src 'self'"
  const SegmentsBefore: seq<string> := [DefaultSrc]

  /** The thirteen segments after `script-src`. */
  const SegmentsAfter: seq<string> := [
    "style-src 'self' 'unsafe-inline'",
    "img-src 'self' data: https:",
    "font-src 'self' data:",
    "connect-src 'self' https://api.github.com https://api.linkedin.com",
    "media-src 'self'",
    "object-src 'none'",
    "frame-src 'none'",
    "frame-ancestors 'none'",
    "base-uri 'self'",
    "form-action 'self'",
    "worker-src 'self'",
    "manifest-src 'self'",
    "upgrade-insecure-requests"
  ]

  /** The `script-src` segment; `trim()` removes the blank left when there are no hashes. */
  function ScriptSrcSegment(hashes: seq<string>): string {
    Trim(ScriptSrcSources + " " + Join(HashSources(hashes), " "))
  }

  /** The fifteen segments, in order. */
  function Segments(hashes: seq<string>): seq<string> {
    SegmentsBefore + [ScriptSrcSegment(hashes)] + SegmentsAfter
  }

  /**
   * `generateCSPWithQwikHashes(renderResult)`: `default-src` comes first, and
   * right after it the `script-src` directive, which lists the fixed sources
   * and then every hash of the render, quoted, in order.
   */
  function GenerateCspWithQwikHashes(renderResult: RenderOptions): (r: string)
    ensures StartsWith(r, DefaultSrc + "; " + ScriptSrcSegment(ScriptHashes(renderResult)) + "; ")
    ensures |ScriptHashes(renderResult)| >= 1 ==>
      StartsWith(r, DefaultSrc + "; " + ScriptSrcSources + " " + Join(HashSources(ScriptHashes(renderResult)), " ") + "; ")
  {
    var hashes := ScriptHashes(renderResult);
    PolicyStart(hashes);
    Join(Segments(hashes), "; ")
  }

  /** The joined segments open with `default-src`, then `script-src`. */
  lemma PolicyStart(hashes: seq<string>)
    ensures Segments(hashes)[1] == ScriptSrcSegment(hashes)
    ensures StartsWith(Join(Segments(hashes), "; "), DefaultSrc + "; " + ScriptSrcSegment(hashes) + "; ")
    ensures |hashes| >= 1 ==> ScriptSrcSegment(hashes) == ScriptSrcSources + " " + Join(HashSources(hashes), " ")
  {
    if |hashes| >= 1 {
      HashesKeptWhole(hashes);
    }
    assert Segments(hashes) == [DefaultSrc, ScriptSrcSegment(hashes)] + SegmentsAfter;
    JoinOpensWithFirstTwo(DefaultSrc, ScriptSrcSegment(hashes), SegmentsAfter, "; ");
  }

  /** Joining at least three parts opens with the first two, each followed by the separator. */
  lemma JoinOpensWithFirstTwo(a: string, b: string, rest: seq<string>, sep: string)
    requires |rest| >= 1
    ensures StartsWith(Join([a, b] + rest, sep), a + sep + b + sep)
  {
    var parts := [a, b] + rest;
    assert parts[1..][1..] == rest;
    var p := a + sep + b + sep;
    assert Join(parts, sep) == p + Join(rest, sep);
  }

  /** Fifteen segments, ending with `upgrade-insecure-requests`; every one but `script-src` ignores the hashes. */
  lemma SegmentsShape(a: seq<string>, b: seq<string>)
    ensures |Segments(a)| == 15 && Segments(a)[14] == "upgrade-insecure-requests"
    ensures forall i :: 0 <= i < 15 && i != 1 ==> Segments(a)[i] == Segments(b)[i]
  {
  }

  /** A missing snapshot or hash list builds the same policy as an empty hash list. */
  lemma MissingHashesAreNone(renderResult: RenderOptions)
    requires renderResult.snapshotResult.None? || renderResult.snapshotResult.value.scriptHashes.None?
    ensures GenerateCspWithQwikHashes(renderResult) ==
            GenerateCspWithQwikHashes(RenderOptions(Some(SnapshotResult(Some([])))))
  {
  }

  /** Trimming a string that starts and ends with a non-blank, followed by one blank, drops that blank. */
  lemma TrimDropsTrailingBlank(x: string)
    requires x != [] && !IsSpace(x[0]) && !IsSpace(x[|x| - 1])
    ensures Trim(x + " ") == x
  {
    var s := x + " ";
    assert LeadingSpaces(s) == 0;
    assert s[..|s| - 1] == x;
    assert TrailingSpaces(s) == 1;
  }

  /** With no hashes the `script-src` segment has no trailing blank. */
  lemma NoHashesNoTrailingBlank()
    ensures Segments([])[1] == ScriptSrcSources
  {
    assert Join(HashSources([]), " ") == "";
    assert ScriptSrcSources + " " + "" == ScriptSrcSources + " ";
    TrimDropsTrailingBlank(ScriptSrcSources);
  }

  /** With hashes, `trim()` changes nothing: the segment is the sources, a blank, and the hash sources. */
  lemma HashesKeptWhole(hashes: seq<string>)
    requires |hashes| >= 1
    ensures Segments(hashes)[1] == ScriptSrcSources + " " + Join(HashSources(hashes), " ")
  {
    var q := HashSources(hashes);
    var s := ScriptSrcSources + " " + Join(q, " ");
    CspConfig.JoinEndsWithLast(q, " ");
    assert q[|q| - 1] == "'sha256-" + hashes[|q| - 1] + "'";
    assert s[|s| - 1] == '\'' && s[0] == 's';
    TrimOfTrimmed(s);
  }

  /** The hash sources read back, in order, by splitting at blanks. */
  lemma HashSourcesInOrder(hashes: seq<string>)
    requires |hashes| >= 1 && forall i :: 0 <= i < |hashes| ==> ' ' !in hashes[i]
    ensures Split(Join(HashSources(hashes), " "), " ") == HashSources(hashes)
  {
    var q := HashSources(hashes);
    forall i | 0 <= i < |q| ensures ' ' !in q[i] {
      assert q[i] == "'sha256-" + hashes[i] + "'";
      assert "'sha256-" + hashes[i] + "'" == "'sha256-" + (hashes[i] + "'");
    }
    SplitJoin(q, ' ');
  }

  /**
   * For the same hashes, given to the configured policy with `sha256-` in
   * front, both builders write the same `script-src` directive; the
   * render-time policy puts it second instead of last.
   */
  lemma AgreesWithConfiguredPolicy(hashes: seq<string>)
    requires |hashes| >= 1
    ensures var p := CspConfig.Pairs(CspConfig.DirectivesFor(false, Prefixed(hashes)));
      |p| == 14 && Segments(hashes)[1] == p[13]
  {
    CspConfig.DirectivesLayout(false, Prefixed(hashes));
    HashesKeptWhole(hashes);
    ScriptSourcesAgree(hashes);
    ScriptSrcPair(CspConfig.ScriptSrc(false, Prefixed(hashes)));
  }

  lemma ScriptSrcPair(v: string)
    ensures "script-src" + " " + v == "script-src " + v
  {
    assert "script-src" + " " == "script-src ";
  }

  /** The hashes with `sha256-` in front, as the configured list holds them. */
  function Prefixed(hashes: seq<string>): (r: seq<string>)
    ensures |r| == |hashes| && forall i :: 0 <= i < |r| ==> r[i] == "sha256-" + hashes[i]
  {
    seq(|hashes|, i requires 0 <= i < |hashes| => "sha256-" + hashes[i])
  }

  lemma ScriptSourcesAgree(hashes: seq<string>)
    ensures "script-src " + CspConfig.ScriptSrc(false, Prefixed(hashes)) == ScriptSrcSources + " " + Join(HashSources(hashes), " ")
  {
    QuotedPrefixed(hashes);
    SourcesHead();
    ConcatAssociates("script-src ", CspConfig.ScriptSrcHead, Join(HashSources(hashes), " "));
  }

  /** Quoting the prefixed hashes gives the hash sources. */
  lemma QuotedPrefixed(hashes: seq<string>)
    ensures CspConfig.Quoted(Prefixed(hashes)) == HashSources(hashes)
  {
    var q := CspConfig.Quoted(Prefixed(hashes));
    forall i | 0 <= i < |hashes| ensures q[i] == HashSources(hashes)[i] {
      ConcatAssociates("'", "sha256-", hashes[i]);
    }
    SameElements(q, HashSources(hashes));
  }

  lemma SourcesHead()
    ensures "script-src " + CspConfig.ScriptSrcHead == ScriptSrcSources + " "
  {
  }
}
