/**
 * The Content-Security-Policy of the site, as a record of directives in
 * insertion order (a JavaScript object with string keys enumerates them
 * that way) serialised as in section 2.2.1 of W3C Content Security Policy
 * Level 3: `name value` pairs joined by `; `. The `<meta>` form drops
 * `frame-ancestors`, which section 3.3 of that standard ignores there.
 */
module CspConfig {
  import opened JsText

  datatype Directive = Directive(name: string, value: string)

  function Names(record: seq<Directive>): (r: seq<string>)
    ensures |r| == |record| && forall i :: 0 <= i < |r| ==> r[i] == record[i].name
  {
    seq(|record|, i requires 0 <= i < |record| => record[i].name)
  }

  /** No two directives of a record share a name. */
  predicate UniqueNames(record: seq<Directive>) {
    forall i, j :: 0 <= i < j < |record| ==> record[i].name != record[j].name
  }

  /** The thirteen directives every policy starts with, in order. */
  const BaseDirectives: seq<Directive> := [
    Directive("default-src", "'self'"),
    Directive("style-src", "'self' 'unsafe-inline'"),
    Directive("img-src", "'self' data: https:"),
    Directive("font-src", "'self' data:"),
    Directive("connect-src", "'self' https://api.github.com https://api.linkedin.com"),
    Directive("media-src", "'self'"),
    Directive("object-src", "'none'"),
    Directive("frame-src", "'none'"),
    Directive("frame-ancestors", "'none'"),
    Directive("base-uri", "'self'"),
    Directive("form-action", "'self'"),
    Directive("worker-src", "'self'"),
    Directive("manifest-src", "'self'")]

  /** The inline-script hashes collected from a production build. */
  const QwikScriptHashes: seq<string> := [
    "sha256-RmhsvWJ/vH0gNZDxgfkzlEfeCB8C1mR73/k32nQjwTQ=",
    "sha256-15L/9YNAkAUAf8G3LGCo8yzw9Beqxadudqfyyq2V3MY=",
    "sha256-oyJPtGt6kb4NigoW+N1VRcyNRZQfjMBYl2psWraQTsA=",
    "sha256-L2VzofRwMKVb7ZeLc29Zs5ei5OG9KJ1eXSwz+w4q4/g=",
    "sha256-6WHWhiUFSczbUiBvl0gdiF+EeOdPRe66tRIT3FE3E8M=",
    "sha256-g01uwY0Xp3A6CVmaGXVUZb4BB5+qYIWzHD6zL4NT2+Q=",
    "sha256-aQN/mYK3Xk6MmCp/vuZHTafdvG3CjhZQ0Tn9uyLLB+I=",
    "sha256-EwODyXb+JyP/QFEaG9yjy11qmIlA9bcynhiLgeq19to=",
    "sha256-Ixeqw7WXt51vvnXJRZBZFStZ780P8hT5LzcDDydDTyk="]

  /** Each hash as a quoted source expression. */
  function Quoted(hashes: seq<string>): (r: seq<string>)
    ensures |r| == |hashes| && forall i :: 0 <= i < |r| ==> r[i] == "'" + hashes[i] + "'"
  {
    seq(|hashes|, i requires 0 <= i < |hashes| => "'" + hashes[i] + "'")
  }

  /** The sources `script-src` always starts with, and the blank after them. */
  const ScriptSrcHead: string := "'self' 'wasm-unsafe-eval' "

  /** The `script-src` value: inline scripts in development, only the listed hashes in production. */
  function ScriptSrc(isDev: bool, hashes: seq<string>): string {
    if isDev then ScriptSrcHead + "'unsafe-inline'"
    else ScriptSrcHead + Join(Quoted(hashes), " ")
  }

  /** `record[name] = value`: an existing entry keeps its place, a new one goes last. */
  function Assigned(record: seq<Directive>, name: string, value: string): (r: seq<Directive>)
    ensures name in Names(record) ==> |r| == |record| && Names(r) == Names(record)
    ensures name in Names(record) ==> forall i :: 0 <= i < |r| ==>
      r[i] == if record[i].name == name then Directive(name, value) else record[i]
    ensures name !in Names(record) ==> r == record + [Directive(name, value)]
    ensures UniqueNames(record) ==> UniqueNames(r)
  {
    if name in Names(record) then
      seq(|record|, i requires 0 <= i < |record| =>
        if record[i].name == name then Directive(name, value) else record[i])
    else record + [Directive(name, value)]
  }

  /** `delete record[name]`: the entry with that name is gone and the others keep their order. */
  function Deleted(record: seq<Directive>, name: string): (r: seq<Directive>)
    ensures |r| <= |record|
  {
    if |record| == 0 then []
    else (if record[0].name == name then [] else [record[0]]) + Deleted(record[1..], name)
  }

  /** Exactly the entries with another name remain. */
  lemma {:induction false} DeletedMembers(record: seq<Directive>, name: string)
    ensures forall d :: d in Deleted(record, name) <==> d in record && d.name != name
    ensures name !in Names(record) ==> Deleted(record, name) == record
    decreases |record|
  {
    if |record| > 0 {
      DeletedMembers(record[1..], name);
      HeadThenTail(record);
      if name !in Names(record) {
        AbsentFromTail(record, name);
      }
    }
  }

  lemma AbsentFromTail(record: seq<Directive>, name: string)
    requires |record| > 0 && name !in Names(record)
    ensures name !in Names(record[1..])
  {
    forall j | 0 <= j < |record| - 1 ensures record[1..][j].name != name {
      assert record[1..][j] == record[j + 1];
    }
  }

  /** What `getCSPDirectives` builds for a given hash list. */
  function DirectivesFor(isDev: bool, hashes: seq<string>): seq<Directive> {
    Assigned(BaseDirectives, "script-src", ScriptSrc(isDev, hashes))
  }

  function Directives(isDev: bool): seq<Directive> {
    DirectivesFor(isDev, QwikScriptHashes)
  }

  /** Each directive as `name value`. */
  function Pairs(record: seq<Directive>): (r: seq<string>)
    ensures |r| == |record| && forall i :: 0 <= i < |r| ==> r[i] == record[i].name + " " + record[i].value
  {
    seq(|record|, i requires 0 <= i < |record| => record[i].name + " " + record[i].value)
  }

  /** The serialised policy: the pairs joined by `; `, then `; upgrade-insecure-requests`. */
  function Serialized(record: seq<Directive>): string {
    Join(Pairs(record), "; ") + "; upgrade-insecure-requests"
  }

  /**
   * The header policy: the directives as `name value` pairs and then
   * `upgrade-insecure-requests`, joined by `; `, so that it parses back into
   * them whenever every directive is serialisable.
   */
  function CspString(isDev: bool): (r: string)
    ensures r == Join(Pairs(Directives(isDev)) + ["upgrade-insecure-requests"], "; ")
    ensures (forall i :: 0 <= i < |Directives(isDev)| ==> DirectiveSerialisable(Directives(isDev)[i])) ==>
      Parsed(r) == Pairs(Directives(isDev)) + ["upgrade-insecure-requests"]
  {
    PolicyOf(Directives(isDev));
    Serialized(Directives(isDev))
  }

  /** The meta policy: the same for the production directives without `frame-ancestors`. */
  function CspMetaString(): (r: string)
    ensures var record := Deleted(Directives(false), "frame-ancestors");
      r == Join(Pairs(record) + ["upgrade-insecure-requests"], "; ")
    ensures (forall i :: 0 <= i < |Directives(false)| ==> DirectiveSerialisable(Directives(false)[i])) ==>
      Parsed(r) == Pairs(Deleted(Directives(false), "frame-ancestors")) + ["upgrade-insecure-requests"]
  {
    MetaPolicyOf();
    Serialized(Deleted(Directives(false), "frame-ancestors"))
  }

  lemma MetaPolicyOf()
    ensures var record := Deleted(Directives(false), "frame-ancestors");
      Serialized(record) == Join(Pairs(record) + ["upgrade-insecure-requests"], "; ")
    ensures (forall i :: 0 <= i < |Directives(false)| ==> DirectiveSerialisable(Directives(false)[i])) ==>
      Parsed(Serialized(Deleted(Directives(false), "frame-ancestors"))) ==
        Pairs(Deleted(Directives(false), "frame-ancestors")) + ["upgrade-insecure-requests"]
  {
    var record := Deleted(Directives(false), "frame-ancestors");
    DropsOnlyFrameAncestors(false, QwikScriptHashes);
    assert |record| == 13;
    if forall i :: 0 <= i < |Directives(false)| ==> DirectiveSerialisable(Directives(false)[i]) {
      DeletedSerialisable(Directives(false), "frame-ancestors");
    }
    PolicyOf(record);
  }

  /** A non-empty record serialises to its pieces joined by `; `, and parses back when serialisable. */
  lemma PolicyOf(record: seq<Directive>)
    requires |record| >= 1
    ensures Serialized(record) == Join(Pairs(record) + ["upgrade-insecure-requests"], "; ")
    ensures (forall i :: 0 <= i < |record| ==> DirectiveSerialisable(record[i])) ==>
      Parsed(Serialized(record)) == Pairs(record) + ["upgrade-insecure-requests"]
  {
    SerializedPieces(record);
    if forall i :: 0 <= i < |record| ==> DirectiveSerialisable(record[i]) {
      SerializedParses(record);
    }
  }

  /** Deleting a name keeps a record of serialisable directives serialisable. */
  lemma DeletedSerialisable(record: seq<Directive>, name: string)
    requires forall i :: 0 <= i < |record| ==> DirectiveSerialisable(record[i])
    ensures forall i :: 0 <= i < |Deleted(record, name)| ==> DirectiveSerialisable(Deleted(record, name)[i])
  {
    DeletedMembers(record, name);
    var d := Deleted(record, name);
    forall i | 0 <= i < |d| ensures DirectiveSerialisable(d[i]) {
      assert d[i] in record;
    }
  }

  /** A name's length and first character, which tell the base names and `script-src` apart. */
  function NameKey(name: string): int {
    if name == [] then 0 else 1000 * |name| + name[0] as int
  }

  /** The keys of the base names, in order. */
  const BaseKeys: seq<int> := [11100, 9115, 7105, 8102, 11099, 9109, 10111, 9102, 15102, 8098, 11102, 10119, 12109]

  lemma BaseKeysOfNames()
    ensures forall i :: 0 <= i < |BaseDirectives| ==> NameKey(BaseDirectives[i].name) == BaseKeys[i]
  {
  }

  lemma BaseKeysDistinct()
    ensures forall i, j :: 0 <= i < j < |BaseKeys| ==> BaseKeys[i] != BaseKeys[j]
    ensures 10115 !in BaseKeys
  {
  }

  /** Names whose keys are pairwise different are pairwise different too. */
  lemma KeyedUnique(record: seq<Directive>, keys: seq<int>)
    requires |keys| == |record| && forall i, j :: 0 <= i < j < |keys| ==> keys[i] != keys[j]
    requires forall i :: 0 <= i < |record| ==> NameKey(record[i].name) == keys[i]
    ensures UniqueNames(record)
  {
  }

  /** A name whose key is not among the keys is not among the names. */
  lemma KeyedAbsent(record: seq<Directive>, keys: seq<int>, name: string)
    requires |keys| == |record| && NameKey(name) !in keys
    requires forall i :: 0 <= i < |record| ==> NameKey(record[i].name) == keys[i]
    ensures name !in Names(record)
  {
    forall i | 0 <= i < |record| ensures Names(record)[i] != name {
      assert keys[i] in keys;
    }
  }

  /** The base names are pairwise different and none of them is `script-src`. */
  lemma BaseNamesUnique()
    ensures UniqueNames(BaseDirectives) && "script-src" !in Names(BaseDirectives)
  {
    BaseKeysOfNames();
    BaseKeysDistinct();
    KeyedUnique(BaseDirectives, BaseKeys);
    assert NameKey("script-src") == 10115;
    KeyedAbsent(BaseDirectives, BaseKeys, "script-src");
  }

  /** `script-src` is the only name not among the base directives, so it goes last; no name repeats. */
  lemma DirectivesLayout(isDev: bool, hashes: seq<string>)
    ensures var r := DirectivesFor(isDev, hashes);
      && |r| == 14 && r[..13] == BaseDirectives && r[13] == Directive("script-src", ScriptSrc(isDev, hashes))
      && UniqueNames(r)
    ensures Directives(true)[13].value == "'self' 'wasm-unsafe-eval' " + "'unsafe-inline'"
  {
    BaseNamesUnique();
    var r := DirectivesFor(isDev, hashes);
    assert r == BaseDirectives + [Directive("script-src", ScriptSrc(isDev, hashes))];
    assert r[..13] == BaseDirectives;
  }

  /** A string with none of `c` in its pieces or separator has none of `c` at all. */
  lemma {:induction false} JoinExcludes(parts: seq<string>, sep: string, c: char)
    requires c !in sep && forall i :: 0 <= i < |parts| ==> c !in parts[i]
    ensures c !in Join(parts, sep)
    decreases |parts|
  {
    if |parts| > 1 {
      JoinExcludes(parts[1..], sep, c);
    }
  }

  lemma {:induction false} JoinAppend(parts: seq<string>, x: string, sep: string)
    requires |parts| >= 1
    ensures Join(parts + [x], sep) == Join(parts, sep) + sep + x
    decreases |parts|
  {
    if |parts| > 1 {
      assert (parts + [x])[1..] == parts[1..] + [x];
      JoinAppend(parts[1..], x, sep);
    }
  }

  /** A join ends the way its last piece does. */
  lemma JoinEndsWithLast(parts: seq<string>, sep: string)
    requires |parts| >= 1 && parts[|parts| - 1] != []
    ensures var j := Join(parts, sep); var l := parts[|parts| - 1];
      |j| >= |l| && j[|j| - 1] == l[|l| - 1]
  {
    if |parts| > 1 {
      var n := |parts|;
      assert parts == parts[..n - 1] + [parts[n - 1]];
      JoinAppend(parts[..n - 1], parts[n - 1], sep);
    }
  }

  lemma JoinCons(x: string, parts: seq<string>, sep: string)
    requires |parts| >= 1
    ensures Join([x] + parts, sep) == x + sep + Join(parts, sep)
  {
    assert ([x] + parts)[1..] == parts;
  }

  /** A hash that can stand in a policy: no blank to split sources at, no `;` to split directives at. */
  predicate HashToken(h: string) {
    ' ' !in h && ';' !in h
  }

  predicate HashTokens(hashes: seq<string>) {
    forall i :: 0 <= i < |hashes| ==> HashToken(hashes[i])
  }

  /** In production the script sources are `'self'`, `'wasm-unsafe-eval'`, then each hash quoted, in order. */
  lemma ProductionScriptSources(hashes: seq<string>)
    requires |hashes| >= 1 && HashTokens(hashes)
    ensures Split(ScriptSrc(false, hashes), " ") == ["'self'", "'wasm-unsafe-eval'"] + Quoted(hashes)
  {
    var q := Quoted(hashes);
    var parts := ["'self'", "'wasm-unsafe-eval'"] + q;
    HeadPieces();
    JoinTwoThen("'self'", "'wasm-unsafe-eval'", q, " ");
    forall i | 0 <= i < |parts| ensures ' ' !in parts[i] {
      if i >= 2 {
        assert parts[i] == "'" + hashes[i - 2] + "'";
      }
    }
    SplitJoin(parts, ' ');
  }

  /** The head of `script-src` is its two fixed sources, each followed by a blank. */
  lemma HeadPieces()
    ensures ScriptSrcHead == "'self'" + " " + "'wasm-unsafe-eval'" + " "
    ensures ';' !in ScriptSrcHead && ScriptSrcHead[0] == '\''
  {
  }

  lemma JoinTwoThen(a: string, b: string, q: seq<string>, sep: string)
    requires |q| >= 1
    ensures Join([a, b] + q, sep) == a + sep + b + sep + Join(q, sep)
  {
    var j := Join(q, sep);
    assert ([a, b] + q)[1..] == [b] + q;
    JoinCons(b, q, sep);
    JoinCons(a, [b] + q, sep);
    assert [a] + ([b] + q) == [a, b] + q;
    calc {
      a + sep + (b + sep + j);
      { ConcatAssociates(a + sep, b + sep, j); }
      (a + sep) + (b + sep) + j;
      { ConcatAssociates(a + sep, b, sep); }
      a + sep + b + sep + j;
    }
  }

  /** The `<meta>` policy is the production record with the ninth entry, `frame-ancestors`, cut out. */
  lemma MetaDropsOnlyFrameAncestors()
    ensures Deleted(Directives(false), "frame-ancestors") == Directives(false)[..8] + Directives(false)[9..]
    ensures "frame-ancestors" !in Names(Deleted(Directives(false), "frame-ancestors"))
  {
    DropsOnlyFrameAncestors(false, QwikScriptHashes);
  }

  /** Whatever the hashes, deleting `frame-ancestors` cuts out just the ninth entry. */
  lemma DropsOnlyFrameAncestors(isDev: bool, hashes: seq<string>)
    ensures var r := DirectivesFor(isDev, hashes);
      && |r| == 14
      && Deleted(r, "frame-ancestors") == r[..8] + r[9..]
      && "frame-ancestors" !in Names(Deleted(r, "frame-ancestors"))
  {
    FrameAncestorsNinth(isDev, hashes);
    DeletedUniqueName(DirectivesFor(isDev, hashes), 8);
  }

  lemma FrameAncestorsNinth(isDev: bool, hashes: seq<string>)
    ensures var r := DirectivesFor(isDev, hashes);
      |r| == 14 && r[8].name == "frame-ancestors" && UniqueNames(r)
  {
    DirectivesLayout(isDev, hashes);
    assert BaseDirectives[8].name == "frame-ancestors";
  }

  /** In a record without repeated names, deleting the name at one position leaves no entry of that name. */
  lemma DeletedUniqueName(record: seq<Directive>, k: nat)
    requires k < |record| && UniqueNames(record)
    ensures Deleted(record, record[k].name) == record[..k] + record[k + 1..]
    ensures record[k].name !in Names(Deleted(record, record[k].name))
  {
    var name := record[k].name;
    DeletedUnique(record, k);
    var m := Deleted(record, name);
    DeletedMembers(record, name);
    forall j | 0 <= j < |m| ensures Names(m)[j] != name {
      assert m[j] in m;
    }
  }

  /** Deleting the name at position `k` of a record without repeated names removes just that entry. */
  lemma {:induction false} DeletedUnique(record: seq<Directive>, k: nat)
    requires k < |record| && UniqueNames(record)
    ensures Deleted(record, record[k].name) == record[..k] + record[k + 1..]
    decreases |record|
  {
    var name := record[k].name;
    var tail := record[1..];
    if k == 0 {
      FirstNameNotInTail(record);
      DeletedMembers(tail, name);
      assert Deleted(record, name) == tail;
      assert record[..0] + record[1..] == tail;
    } else {
      assert record[0].name != name;
      UniqueTail(record);
      assert tail[k - 1] == record[k];
      DeletedUnique(tail, k - 1);
      assert Deleted(record, name) == [record[0]] + (tail[..k - 1] + tail[k..]);
      ConsSlices(record, k);
    }
  }

  lemma FirstNameNotInTail(record: seq<Directive>)
    requires |record| > 0 && UniqueNames(record)
    ensures record[0].name !in Names(record[1..])
  {
    var tail := record[1..];
    forall j | 0 <= j < |tail| ensures tail[j].name != record[0].name {
      assert tail[j] == record[j + 1];
    }
  }

  lemma UniqueTail(record: seq<Directive>)
    requires |record| > 0 && UniqueNames(record)
    ensures UniqueNames(record[1..])
  {
    var tail := record[1..];
    forall i, j | 0 <= i < j < |tail| ensures tail[i].name != tail[j].name {
      assert tail[i] == record[i + 1] && tail[j] == record[j + 1];
    }
  }

  // ---------------------------------------------------------------------
  // Reading a serialised policy back

  /** Splitting at `;` and trimming each piece, as a user agent parses a serialised policy. */
  function Parsed(policy: string): (r: seq<string>)
    ensures |r| == |Split(policy, ";")|
    ensures forall i :: 0 <= i < |r| ==> r[i] == Trim(Split(policy, ";")[i])
  {
    var pieces := Split(policy, ";");
    seq(|pieces|, i requires 0 <= i < |pieces| => Trim(pieces[i]))
  }

  /** A piece that survives the split and the trim unchanged. */
  predicate Serialisable(s: string) {
    ';' !in s && (s == [] || (!IsSpace(s[0]) && !IsSpace(s[|s| - 1])))
  }

  /** The pieces after the first, each with a blank in front. */
  function Spaced(parts: seq<string>): (r: seq<string>)
    ensures |r| == |parts| && forall i :: 0 <= i < |r| ==> r[i] == " " + parts[i]
  {
    seq(|parts|, i requires 0 <= i < |parts| => " " + parts[i])
  }

  lemma {:induction false} SpacedJoin(parts: seq<string>)
    requires |parts| >= 1
    ensures " " + Join(parts, "; ") == Join(Spaced(parts), ";")
    decreases |parts|
  {
    if |parts| > 1 {
      SpacedJoin(parts[1..]);
      assert Spaced(parts)[1..] == Spaced(parts[1..]);
      assert " " + (parts[0] + "; " + Join(parts[1..], "; ")) == (" " + parts[0]) + ";" + (" " + Join(parts[1..], "; "));
    }
  }

  lemma TrimAfterBlank(s: string)
    requires Serialisable(s)
    ensures Trim(" " + s) == s
  {
    var t := " " + s;
    assert t[1..] == s;
    assert LeadingSpaces(t) == 1;
    assert TrailingSpaces(s) == 0;
  }

  /** Joining with `; ` is joining with `;` after putting a blank before every piece but the first. */
  lemma JoinedAsSpaced(parts: seq<string>)
    requires |parts| >= 1
    ensures Join(parts, "; ") == Join([parts[0]] + Spaced(parts[1..]), ";")
  {
    if |parts| > 1 {
      var p0, tail := parts[0], parts[1..];
      var j := Join(tail, "; ");
      SpacedJoin(tail);
      JoinCons(p0, Spaced(tail), ";");
      calc {
        Join([p0] + Spaced(tail), ";");
        p0 + ";" + Join(Spaced(tail), ";");
        (p0 + ";") + (" " + j);
        { ConcatAssociates(p0 + ";", " ", j); }
        ((p0 + ";") + " ") + j;
        { ConcatAssociates(p0, ";", " "); assert ";" + " " == "; "; }
        (p0 + "; ") + j;
        Join(parts, "; ");
      }
    } else {
      assert [parts[0]] + Spaced(parts[1..]) == [parts[0]];
    }
  }

  /** Joining serialisable pieces with `; ` and parsing the result gives the pieces back. */
  lemma ParsedJoin(parts: seq<string>)
    requires |parts| >= 1 && forall i :: 0 <= i < |parts| ==> Serialisable(parts[i])
    ensures Parsed(Join(parts, "; ")) == parts
  {
    SplitSpacedJoin(parts);
    PiecesTrim(parts);
    var r := Parsed(Join(parts, "; "));
    forall i | 0 <= i < |r| ensures r[i] == parts[i] {
    }
    SameElements(r, parts);
  }

  /** Split at `;`, the join with `; ` gives the first piece and then the others, each after a blank. */
  lemma SplitSpacedJoin(parts: seq<string>)
    requires |parts| >= 1 && forall i :: 0 <= i < |parts| ==> Serialisable(parts[i])
    ensures Split(Join(parts, "; "), ";") == [parts[0]] + Spaced(parts[1..])
  {
    var pieces := [parts[0]] + Spaced(parts[1..]);
    JoinedAsSpaced(parts);
    forall i | 0 <= i < |pieces| ensures ';' !in pieces[i] {
      if i > 0 {
        assert pieces[i] == " " + parts[i];
      }
    }
    SplitJoin(pieces, ';');
  }

  lemma PiecesTrim(parts: seq<string>)
    requires |parts| >= 1 && forall i :: 0 <= i < |parts| ==> Serialisable(parts[i])
    ensures forall i :: 0 <= i < |parts| ==> Trim(([parts[0]] + Spaced(parts[1..]))[i]) == parts[i]
  {
    var pieces := [parts[0]] + Spaced(parts[1..]);
    forall i | 0 <= i < |parts| ensures Trim(pieces[i]) == parts[i] {
      if i > 0 {
        assert pieces[i] == " " + parts[i];
        TrimAfterBlank(parts[i]);
      } else {
        TrimOfTrimmed(parts[0]);
      }
    }
  }

  /** The serialised record is its pairs, then `upgrade-insecure-requests`, each a piece of its own. */
  lemma SerializedPieces(record: seq<Directive>)
    requires |record| >= 1
    ensures Serialized(record) == Join(Pairs(record) + ["upgrade-insecure-requests"], "; ")
  {
    JoinAppend(Pairs(record), "upgrade-insecure-requests", "; ");
    ConcatAssociates(Join(Pairs(record), "; "), "; ", "upgrade-insecure-requests");
    UpgradeSuffix();
  }

  lemma UpgradeSuffix()
    ensures "; " + "upgrade-insecure-requests" == "; upgrade-insecure-requests"
  {
  }

  /** A directive whose name and value are serialisable and non-empty gives a serialisable pair. */
  lemma PairSerialisable(d: Directive)
    requires d.name != [] && d.value != [] && Serialisable(d.name) && Serialisable(d.value)
    ensures Serialisable(d.name + " " + d.value)
  {
    var s := d.name + " " + d.value;
    assert s[0] == d.name[0] && s[|s| - 1] == d.value[|d.value| - 1];
  }

  predicate DirectiveSerialisable(d: Directive) {
    d.name != [] && d.value != [] && Serialisable(d.name) && Serialisable(d.value)
  }

  /** The head and a non-empty tail without `;`, ending in a non-blank, make a serialisable value. */
  lemma HeadThenSerialisable(tail: string)
    requires tail != [] && ';' !in tail && !IsSpace(tail[|tail| - 1])
    ensures Serialisable(ScriptSrcHead + tail) && ScriptSrcHead + tail != []
  {
    HeadPieces();
    var v := ScriptSrcHead + tail;
    assert v[0] == '\'' && v[|v| - 1] == tail[|tail| - 1];
  }

  lemma ScriptSrcNameSerialisable()
    ensures Serialisable("script-src") && "script-src" != []
  {
  }

  lemma DevScriptSrcSerialisable()
    ensures DirectiveSerialisable(Directive("script-src", ScriptSrc(true, [])))
  {
    ScriptSrcNameSerialisable();
    assert ';' !in "'unsafe-inline'";
    HeadThenSerialisable("'unsafe-inline'");
  }

  lemma ProductionScriptSrcSerialisable(hashes: seq<string>)
    requires |hashes| >= 1 && HashTokens(hashes)
    ensures DirectiveSerialisable(Directive("script-src", ScriptSrc(false, hashes)))
  {
    var q := Quoted(hashes);
    var j := Join(q, " ");
    forall i | 0 <= i < |q| ensures ';' !in q[i] {
      assert q[i] == "'" + hashes[i] + "'";
    }
    JoinExcludes(q, " ", ';');
    JoinEndsWithLast(q, " ");
    assert q[|q| - 1] == "'" + hashes[|q| - 1] + "'";
    ScriptSrcNameSerialisable();
    HeadThenSerialisable(j);
  }

  /** Whatever the mode, `script-src` is a serialisable directive when the hashes are tokens. */
  lemma ScriptSrcSerialisable(isDev: bool, hashes: seq<string>)
    requires isDev || (|hashes| >= 1 && HashTokens(hashes))
    ensures DirectiveSerialisable(Directive("script-src", ScriptSrc(isDev, hashes)))
  {
    if isDev {
      DevScriptSrcSerialisable();
    } else {
      ProductionScriptSrcSerialisable(hashes);
    }
  }

  /** Parsing the policy of a serialisable record gives its `name value` pairs, then `upgrade-insecure-requests`. */
  lemma {:induction false} SerializedParses(record: seq<Directive>)
    requires |record| >= 1 && forall i :: 0 <= i < |record| ==> DirectiveSerialisable(record[i])
    ensures Parsed(Serialized(record)) == Pairs(record) + ["upgrade-insecure-requests"]
  {
    var parts := Pairs(record) + ["upgrade-insecure-requests"];
    forall i | 0 <= i < |parts| ensures Serialisable(parts[i]) {
      if i < |record| {
        PairSerialisable(record[i]);
      }
    }
    SerializedPieces(record);
    ParsedJoin(parts);
  }

  // ---------------------------------------------------------------------
  // The record as `getCSPDirectives` fills it in place

  class Record {
    var entries: seq<Directive>

    constructor (entries: seq<Directive>)
      ensures this.entries == entries
    {
      this.entries := entries;
    }

    /** `record[name] = value`. */
    method Set(name: string, value: string)
      modifies this
      ensures entries == Assigned(old(entries), name, value)
    {
      entries := Assigned(entries, name, value);
    }

    /** `delete record[name]`. */
    method Delete(name: string)
      modifies this
      ensures entries == Deleted(old(entries), name)
    {
      entries := Deleted(entries, name);
    }
  }

  /** `getCSPDirectives(isDev)`: the base directives, then `script-src`. */
  method GetCspDirectives(isDev: bool) returns (directives: Record)
    ensures fresh(directives) && directives.entries == Directives(isDev)
  {
    directives := new Record(BaseDirectives);
    if isDev {
      directives.Set("script-src", ScriptSrcHead + "'unsafe-inline'");
    } else {
      var hashes := Join(Quoted(QwikScriptHashes), " ");
      directives.Set("script-src", ScriptSrcHead + hashes);
    }
  }

  /** `getCSPString(isDev)`. */
  method GetCspString(isDev: bool) returns (policy: string)
    ensures policy == CspString(isDev)
  {
    var directives := GetCspDirectives(isDev);
    policy := Join(Pairs(directives.entries), "; ") + "; upgrade-insecure-requests";
  }

  /** `getCSPMetaString()`: the production directives without `frame-ancestors`. */
  method GetCspMetaString() returns (policy: string)
    ensures policy == CspMetaString()
  {
    var directives := GetCspDirectives(false);
    directives.Delete("frame-ancestors");
    policy := Join(Pairs(directives.entries), "; ") + "; upgrade-insecure-requests";
  }
}
