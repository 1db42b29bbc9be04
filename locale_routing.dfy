/**
 * Locale routing for every request: a valid `lang` route parameter picks
 * the locale; otherwise the first path segment does if it names a
 * supported locale; otherwise the request is redirected to the locale the
 * Accept-Language header prefers (section 12.5.4 of RFC 9110), or to the
 * default. Quality values (section 12.4.2 of RFC 9110) are kept as integer
 * thousandths, which is all the precision a qvalue may carry.
 */
module LocaleRouting {
  import opened Optional
  import opened JsText

  /** The supported locales, in configuration order; the first is the default. */
  const Supported: seq<string> := ["en", "ko", "ja"]
  const Default: string := "en"

  // ---------------------------------------------------------------------
  // Quality values

  /** What `parseFloat` yields for a quality: a number, in thousandths, or NaN. */
  datatype Quality = Q(thousandths: int) | NaN

  predicate IsDigit(c: char) { '0' <= c <= '9' }

  function DigitValue(c: char): nat
    requires IsDigit(c)
  {
    c as int - '0' as int
  }

  /** The longest prefix of decimal digits. */
  function DigitPrefix(s: string): (r: string)
    ensures |r| <= |s| && r == s[..|r|]
    ensures forall i :: 0 <= i < |r| ==> IsDigit(r[i])
    ensures |r| < |s| ==> !IsDigit(s[|r|])
    decreases |s|
  {
    if |s| > 0 && IsDigit(s[0]) then [s[0]] + DigitPrefix(s[1..]) else ""
  }

  /** The value of a (possibly empty) run of digits. */
  function RunValue(ds: string): nat
    requires forall i :: 0 <= i < |ds| ==> IsDigit(ds[i])
    decreases |ds|
  {
    if |ds| == 0 then 0 else 10 * RunValue(ds[..|ds| - 1]) + DigitValue(ds[|ds| - 1])
  }

  /** The first three fraction digits, as thousandths; later digits are dropped. */
  function FractionThousandths(ds: string): (r: nat)
    requires forall i :: 0 <= i < |ds| ==> IsDigit(ds[i])
    ensures r < 1000
  {
    (if |ds| > 0 then 100 * DigitValue(ds[0]) else 0) +
    (if |ds| > 1 then 10 * DigitValue(ds[1]) else 0) +
    (if |ds| > 2 then DigitValue(ds[2]) else 0)
  }

  /**
   * `parseFloat(q)` for an unsigned decimal: the digits before the point,
   * then optionally a point and more digits; whatever follows the longest
   * such prefix is ignored, and a string with no digit there is NaN.
   */
  function ParseQuality(q: string): (r: Quality)
    ensures q == "" ==> r == NaN
    ensures r.Q? ==> r.thousandths >= 0
  {
    var whole := DigitPrefix(q);
    var rest := q[|whole|..];
    var frac := if |rest| > 0 && rest[0] == '.' then DigitPrefix(rest[1..]) else "";
    if whole == "" && frac == "" then NaN
    else Q(1000 * RunValue(whole) + FractionThousandths(frac))
  }

  /** A qvalue of the form `0.ddd` reads as its thousandths, and `1` as a thousand. */
  lemma QualityOfQvalue(d1: char, d2: char, d3: char)
    requires IsDigit(d1) && IsDigit(d2) && IsDigit(d3)
    ensures ParseQuality(['0', '.', d1, d2, d3]) == Q(100 * DigitValue(d1) + 10 * DigitValue(d2) + DigitValue(d3))
    ensures ParseQuality("1") == Q(1000)
    ensures ParseQuality("0.5") == Q(500)
  {
    var q := ['0', '.', d1, d2, d3];
    assert DigitPrefix(q[1..]) == "";
    assert DigitPrefix(q) == "0";
    assert q[1..] == ['.', d1, d2, d3];
    assert DigitPrefix([d1, d2, d3][1..][1..][1..]) == "";
    assert DigitPrefix(q[1..][1..]) == [d1, d2, d3];
    assert RunValue("0") == 0;
    assert DigitPrefix("1"[1..]) == "";
    assert RunValue("1") == 1;
    assert DigitPrefix("0.5"[1..]) == "";
    assert "0.5"[1..][1..] == "5";
    assert DigitPrefix("5"[1..]) == "";
  }

  // ---------------------------------------------------------------------
  // The Accept-Language header

  /** One entry of the header: a lower-cased language range and its quality. */
  datatype LanguagePref = LanguagePref(locale: string, quality: Quality)

  /** `lang.trim().split(";q=")`: the range before the first `;q=`, the quality after it (default `1`). */
  function ParseEntry(entry: string): (r: LanguagePref)
    ensures r.locale == ToLower(Split(Trim(entry), ";q=")[0])
    ensures |Split(Trim(entry), ";q=")| == 1 ==> r.quality == Q(1000)
  {
    var parts := Split(Trim(entry), ";q=");
    LanguagePref(ToLower(parts[0]), if |parts| >= 2 then ParseQuality(parts[1]) else ParseQuality("1"))
  }

  function ParseEntries(entries: seq<string>): (r: seq<LanguagePref>)
    ensures |r| == |entries| && forall i :: 0 <= i < |r| ==> r[i] == ParseEntry(entries[i])
  {
    seq(|entries|, i requires 0 <= i < |entries| => ParseEntry(entries[i]))
  }

  /**
   * Whether `b - a` is positive for the sort's comparator, i.e. whether
   * `b` must come before `a`; a NaN difference counts as zero.
   */
  predicate Outranks(b: LanguagePref, a: LanguagePref) {
    b.quality.Q? && a.quality.Q? && b.quality.thousandths > a.quality.thousandths
  }

  /** Put `x` after every element it does not outrank, scanning from the end. */
  function InsertByQuality(sorted: seq<LanguagePref>, x: LanguagePref): (r: seq<LanguagePref>)
    ensures multiset(r) == multiset(sorted) + multiset{x}
    decreases |sorted|
  {
    if |sorted| == 0 then [x]
    else if Outranks(x, sorted[|sorted| - 1]) then
      assert sorted == sorted[..|sorted| - 1] + [sorted[|sorted| - 1]];
      InsertByQuality(sorted[..|sorted| - 1], x) + [sorted[|sorted| - 1]]
    else sorted + [x]
  }

  /** `.sort((a, b) => b.quality - a.quality)`: a stable sort, best quality first. */
  function SortByQuality(prefs: seq<LanguagePref>): (r: seq<LanguagePref>)
    ensures multiset(r) == multiset(prefs)
    decreases |prefs|
  {
    if |prefs| == 0 then []
    else
      assert prefs == prefs[..|prefs| - 1] + [prefs[|prefs| - 1]];
      InsertByQuality(SortByQuality(prefs[..|prefs| - 1]), prefs[|prefs| - 1])
  }

  predicate AllNumeric(prefs: seq<LanguagePref>) {
    forall i :: 0 <= i < |prefs| ==> prefs[i].quality.Q?
  }

  /** No later entry outranks an earlier one. */
  predicate Descending(prefs: seq<LanguagePref>) {
    forall i, j :: 0 <= i < j < |prefs| ==> !Outranks(prefs[j], prefs[i])
  }

  /** An inserted sequence holds only the new entry and the old ones. */
  lemma InsertDrawsFrom(sorted: seq<LanguagePref>, x: LanguagePref, y: LanguagePref)
    requires y in InsertByQuality(sorted, x)
    ensures y == x || y in sorted
  {
    assert y in multiset(InsertByQuality(sorted, x));
  }

  lemma {:induction false} InsertKeepsDescending(sorted: seq<LanguagePref>, x: LanguagePref)
    requires AllNumeric(sorted) && x.quality.Q? && Descending(sorted)
    ensures Descending(InsertByQuality(sorted, x)) && AllNumeric(InsertByQuality(sorted, x))
    decreases |sorted|
  {
    if |sorted| == 0 {
      return;
    }
    var init := sorted[..|sorted| - 1];
    var last := sorted[|sorted| - 1];
    var r := InsertByQuality(sorted, x);
    if Outranks(x, last) {
      assert AllNumeric(init) && Descending(init) by {
        forall i | 0 <= i < |init| ensures init[i] == sorted[i] { }
      }
      InsertKeepsDescending(init, x);
      var ins := InsertByQuality(init, x);
      assert r == ins + [last];
      forall y | y in ins ensures !Outranks(last, y) {
        InsertDrawsFrom(init, x, y);
        if y != x {
          var i :| 0 <= i < |init| && init[i] == y;
          assert sorted[i] == y;
        }
      }
      forall i, j | 0 <= i < j < |r| ensures !Outranks(r[j], r[i]) {
        if j == |r| - 1 {
          assert r[i] == ins[i] && r[i] in ins;
        } else {
          assert r[i] == ins[i] && r[j] == ins[j];
        }
      }
    } else {
      assert r == sorted + [x];
      forall i, j | 0 <= i < j < |r| ensures !Outranks(r[j], r[i]) {
        if j == |r| - 1 {
          assert r[i] == sorted[i];
          if i < |sorted| - 1 {
            assert !Outranks(last, sorted[i]);
          }
        } else {
          assert r[i] == sorted[i] && r[j] == sorted[j];
        }
      }
    }
  }


  /** With numeric qualities, the sorted entries run from the best quality to the worst. */
  lemma {:induction false} SortIsDescending(prefs: seq<LanguagePref>)
    requires AllNumeric(prefs)
    ensures Descending(SortByQuality(prefs)) && AllNumeric(SortByQuality(prefs))
    decreases |prefs|
  {
    if |prefs| > 0 {
      SortIsDescending(prefs[..|prefs| - 1]);
      InsertKeepsDescending(SortByQuality(prefs[..|prefs| - 1]), prefs[|prefs| - 1]);
    }
  }

  /** An entry that does not outrank the last one goes at the end. */
  lemma InsertAtEnd(sorted: seq<LanguagePref>, x: LanguagePref)
    requires |sorted| == 0 || !Outranks(x, sorted[|sorted| - 1])
    ensures InsertByQuality(sorted, x) == sorted + [x]
  {
  }

  lemma DescendingPrefix(prefs: seq<LanguagePref>, n: nat)
    requires Descending(prefs) && n <= |prefs|
    ensures Descending(prefs[..n])
  {
    forall i, j | 0 <= i < j < n ensures !Outranks(prefs[..n][j], prefs[..n][i]) {
      assert prefs[..n][i] == prefs[i] && prefs[..n][j] == prefs[j];
    }
  }

  /** Two entries, the second not outranking the first, keep their order. */
  lemma SortPairInOrder(a: LanguagePref, b: LanguagePref)
    requires !Outranks(b, a)
    ensures SortByQuality([a, b]) == [a, b]
  {
    assert [a, b][..1] == [a];
    assert [a][..0] == [];
    InsertAtEnd([], a);
    InsertAtEnd([a], b);
  }

  /** Entries already in order stay as they are: equal qualities keep the header's order. */
  lemma {:induction false} SortKeepsOrderedEntries(prefs: seq<LanguagePref>)
    requires Descending(prefs)
    ensures SortByQuality(prefs) == prefs
    decreases |prefs|
  {
    if |prefs| > 0 {
      var n := |prefs| - 1;
      DescendingPrefix(prefs, n);
      SortKeepsOrderedEntries(prefs[..n]);
      if n > 0 {
        LastDoesNotOutrank(prefs);
      }
      InsertAtEnd(prefs[..n], prefs[n]);
      InitThenLast(prefs);
    }
  }

  lemma LastDoesNotOutrank(prefs: seq<LanguagePref>)
    requires Descending(prefs) && |prefs| >= 2
    ensures !Outranks(prefs[|prefs| - 1], prefs[..|prefs| - 1][|prefs| - 2])
  {
    assert prefs[..|prefs| - 1][|prefs| - 2] == prefs[|prefs| - 2];
  }

  /** The header's entries, parsed and sorted. */
  function Languages(acceptLanguage: string): seq<LanguagePref> {
    SortByQuality(ParseEntries(Split(acceptLanguage, ",")))
  }

  /** Whether a language range and a supported locale match by prefix, either way round. */
  predicate Matches(locale: string, supported: string) {
    StartsWith(locale, ToLower(supported)) || StartsWith(ToLower(supported), locale)
  }

  /** `supportedLocales.find(...)`: the first supported locale matching the range. */
  function FindSupported(locale: string, supportedLocales: seq<string>): (r: Option<string>)
    ensures r.Some? ==> r.value in supportedLocales && Matches(locale, r.value)
    ensures r.None? ==> forall s :: s in supportedLocales ==> !Matches(locale, s)
    ensures |supportedLocales| > 0 && Matches(locale, supportedLocales[0]) ==> r == Some(supportedLocales[0])
  {
    if |supportedLocales| == 0 then None
    else if Matches(locale, supportedLocales[0]) then Some(supportedLocales[0])
    else FindSupported(locale, supportedLocales[1..])
  }

  /** An empty range is a prefix of everything, so it matches the first supported locale. */
  lemma EmptyRangeMatchesFirst(supportedLocales: seq<string>)
    requires |supportedLocales| > 0
    ensures FindSupported("", supportedLocales) == Some(supportedLocales[0])
  {
    assert Matches("", supportedLocales[0]);
  }

  /** `if (match)`: the entry's range finds a supported locale that is not empty. */
  predicate Hits(pref: LanguagePref, supportedLocales: seq<string>) {
    var m := FindSupported(pref.locale, supportedLocales);
    m.Some? && m.value != ""
  }

  /**
   * The locale of the best-ranked entry that matches a supported locale (an
   * empty match is skipped): the match of the first entry that hits, and
   * nothing exactly when no entry hits.
   */
  function FirstMatch(prefs: seq<LanguagePref>, supportedLocales: seq<string>): (r: Option<string>)
    ensures r.Some? ==> r.value in supportedLocales && r.value != ""
    ensures r.Some? ==>
      exists k :: 0 <= k < |prefs| && FindSupported(prefs[k].locale, supportedLocales) == r &&
        forall j :: 0 <= j < k ==> !Hits(prefs[j], supportedLocales)
    ensures r.None? <==> forall k :: 0 <= k < |prefs| ==> !Hits(prefs[k], supportedLocales)
    decreases |prefs|
  {
    if |prefs| == 0 then None
    else
      var m := FindSupported(prefs[0].locale, supportedLocales);
      if m.Some? && m.value != "" then
        assert Hits(prefs[0], supportedLocales);
        m
      else
        var r := FirstMatch(prefs[1..], supportedLocales);
        FirstMatchOfTail(prefs, supportedLocales, r);
        r
  }

  /** When the first entry misses, the rest decide, with their positions shifted by one. */
  lemma FirstMatchOfTail(prefs: seq<LanguagePref>, supportedLocales: seq<string>, r: Option<string>)
    requires |prefs| > 0 && !Hits(prefs[0], supportedLocales)
    requires r.Some? ==>
      exists k :: 0 <= k < |prefs[1..]| && FindSupported(prefs[1..][k].locale, supportedLocales) == r &&
        forall j :: 0 <= j < k ==> !Hits(prefs[1..][j], supportedLocales)
    requires r.None? <==> forall k :: 0 <= k < |prefs[1..]| ==> !Hits(prefs[1..][k], supportedLocales)
    ensures r.Some? ==>
      exists k :: 0 <= k < |prefs| && FindSupported(prefs[k].locale, supportedLocales) == r &&
        forall j :: 0 <= j < k ==> !Hits(prefs[j], supportedLocales)
    ensures r.None? <==> forall k :: 0 <= k < |prefs| ==> !Hits(prefs[k], supportedLocales)
  {
    if r.Some? {
      var k :| 0 <= k < |prefs[1..]| && FindSupported(prefs[1..][k].locale, supportedLocales) == r &&
        forall j :: 0 <= j < k ==> !Hits(prefs[1..][j], supportedLocales);
      assert prefs[k + 1] == prefs[1..][k];
      forall j | 0 <= j < k + 1
        ensures !Hits(prefs[j], supportedLocales)
      {
        if j > 0 {
          assert prefs[j] == prefs[1..][j - 1];
        }
      }
    } else {
      forall k | 0 <= k < |prefs|
        ensures !Hits(prefs[k], supportedLocales)
      {
        if k > 0 {
          assert prefs[k] == prefs[1..][k - 1];
        }
      }
    }
  }

  /**
   * What `detectLocaleFromHeader` returns. A missing or empty header detects
   * nothing; anything detected is a supported locale; a present header detects
   * nothing exactly when none of its ranked entries hits.
   */
  function DetectedLocale(acceptLanguage: Option<string>, supportedLocales: seq<string>): (r: Option<string>)
    ensures acceptLanguage.None? || acceptLanguage == Some("") ==> r.None?
    ensures r.Some? ==> r.value in supportedLocales && r.value != ""
    ensures acceptLanguage.Some? && acceptLanguage.value != "" ==>
      (r.None? <==> forall k :: 0 <= k < |Languages(acceptLanguage.value)| ==> !Hits(Languages(acceptLanguage.value)[k], supportedLocales))
  {
    if acceptLanguage.None? || acceptLanguage.value == "" then None
    else FirstMatch(Languages(acceptLanguage.value), supportedLocales)
  }

  /** `detectLocaleFromHeader`: scan the ranked entries and return the first supported match. */
  method DetectLocaleFromHeader(acceptLanguage: Option<string>, supportedLocales: seq<string>) returns (r: Option<string>)
    ensures r == DetectedLocale(acceptLanguage, supportedLocales)
  {
    if acceptLanguage.None? || acceptLanguage.value == "" {
      return None;
    }
    var languages := Languages(acceptLanguage.value);
    for k := 0 to |languages|
      invariant FirstMatch(languages[k..], supportedLocales) == FirstMatch(languages, supportedLocales)
    {
      assert languages[k..][1..] == languages[k + 1..];
      var m := FindSupported(languages[k].locale, supportedLocales);
      if m.Some? && m.value != "" {
        return m;
      }
    }
    return None;
  }

  lemma SplitTrailingComma()
    ensures Split("fr,", ",") == ["fr", ""]
  {
    assert Split("", ",") == [""];
    assert ","[..1] == "," && ","[1..] == "";
    assert Split(",", ",") == ["", ""];
    assert "r,"[..1] == "r" && "r,"[1..] == "," && "r,"[..1] != ",";
    assert "r,"[0] == 'r' && ['r'] + "" == "r";
    assert Split("r,", ",") == ["r", ""];
    assert "fr,"[..1] == "f" && "fr,"[1..] == "r," && "fr,"[..1] != ",";
    assert "fr,"[0] == 'f' && ['f'] + "r" == "fr";
  }

  /** A short range without surrounding blanks or capitals parses as itself, at full quality. */
  lemma ParseBareEntry(w: string)
    requires |w| < 3 && (w == [] || (!IsSpace(w[0]) && !IsSpace(w[|w| - 1]))) && ToLower(w) == w
    ensures ParseEntry(w) == LanguagePref(w, Q(1000))
  {
    TrimOfTrimmed(w);
    assert Split(w, ";q=") == [w];
  }

  lemma ParseBareEntries()
    ensures ParseEntry("fr") == LanguagePref("fr", Q(1000))
    ensures ParseEntry("") == LanguagePref("", Q(1000))
  {
    assert ToLower("fr") == "fr";
    ParseBareEntry("fr");
    ParseBareEntry("");
  }

  lemma FrenchMatchesNothing()
    ensures FindSupported("fr", Supported) == None
  {
    assert ToLower("en") == "en" && ToLower("ko") == "ko" && ToLower("ja") == "ja";
    assert "fr"[..2] == "fr" && "fr"[0] == 'f';
    assert "fr" != "en" && "fr" != "ko" && "fr" != "ja";
    assert !Matches("fr", "en") && !Matches("fr", "ko") && !Matches("fr", "ja");
  }

  lemma ParseEntriesPair(a: string, b: string)
    ensures ParseEntries([a, b]) == [ParseEntry(a), ParseEntry(b)]
  {
  }

  lemma FrenchThenEmptyRanked()
    ensures Languages("fr,") == [LanguagePref("fr", Q(1000)), LanguagePref("", Q(1000))]
  {
    SplitTrailingComma();
    ParseBareEntries();
    var fr := LanguagePref("fr", Q(1000));
    var empty := LanguagePref("", Q(1000));
    ParseEntriesPair("fr", "");
    SortPairInOrder(fr, empty);
  }

  /** A header naming only unsupported languages, with a trailing comma, still detects English. */
  lemma TrailingCommaDetectsFirstLocale()
    ensures DetectedLocale(Some("fr,"), Supported) == Some("en")
  {
    FrenchThenEmptyRanked();
    FrenchMatchesNothing();
    EmptyRangeMatchesFirst(Supported);
    var prefs := [LanguagePref("fr", Q(1000)), LanguagePref("", Q(1000))];
    assert prefs[1..] == [LanguagePref("", Q(1000))];
    assert FirstMatch(prefs[1..], Supported) == Some("en");
  }

  // ---------------------------------------------------------------------
  // The request handler

  /** What the handler sees of a request. */
  datatype Request = Request(
    pathname: string,
    paramLang: Option<string>,
    paramLangValid: bool,          // what `validateLocale(params.lang)` answers
    acceptLanguage: Option<string>)

  datatype Outcome =
    | Redirect(status: int, location: string)
    | Proceed(locale: string)      // `locale(selectedLang)`, then the security headers are set

  /** The response headers set on every request that is not redirected. */
  const SecurityHeaders: map<string, string> := map[
    "X-Frame-Options" := "DENY",
    "X-Content-Type-Options" := "nosniff",
    "Referrer-Policy" := "strict-origin-when-cross-origin",
    "Permissions-Policy" := "camera=(), microphone=(), geolocation=()"]

  /** `pathname.split("/")[1]`, which is `undefined` when the path has no slash. */
  function PathnameLocale(pathname: string): Option<string> {
    var parts := Split(pathname, "/");
    if |parts| >= 2 then Some(parts[1]) else None
  }

  /** `x || config.defaultLocale.lang`. */
  function OrDefault(lang: Option<string>): (r: string)
    ensures lang.Some? && lang.value != "" ==> r == lang.value
    ensures lang.None? || lang == Some("") ==> r == Default
  {
    if lang.Some? && lang.value != "" then lang.value else Default
  }

  /** The supported locale equal to `lang`, if any. */
  function SupportedEqual(lang: string): (r: Option<string>)
    ensures r.Some? <==> lang in Supported
    ensures r.Some? ==> r.value == lang
  {
    if lang in Supported then Some(lang) else None
  }

  /**
   * What `onRequest` decides for a request: it proceeds only with a supported
   * locale, and every redirect is a 302 to a supported locale followed by the
   * whole original path.
   */
  function Routed(req: Request): (r: Outcome)
    ensures r.Proceed? ==> r.locale in Supported
    ensures r.Redirect? ==> r.status == 302 && exists target :: target in Supported && r.location == "/" + target + req.pathname
  {
    if req.paramLang.Some? && req.paramLang.value != "" && req.paramLangValid then
      Proceed(OrDefault(SupportedEqual(req.paramLang.value)))
    else if req.pathname == "/" then
      assert "/" + Default + "/" == "/" + Default + req.pathname;
      Redirect(302, "/" + Default + "/")
    else
      var pathnameLocale := PathnameLocale(req.pathname);
      if pathnameLocale.Some? && pathnameLocale.value in Supported then
        Proceed(OrDefault(pathnameLocale))
      else
        var target := OrDefault(DetectedLocale(req.acceptLanguage, Supported));
        assert target in Supported;
        Redirect(302, "/" + target + req.pathname)
  }

  /** The root path, without a valid route parameter, redirects to the default locale. */
  lemma RootRedirectsToDefault(req: Request)
    requires req.pathname == "/" && !(req.paramLang.Some? && req.paramLang.value != "" && req.paramLangValid)
    ensures Routed(req) == Redirect(302, "/en/")
  {
  }

  /** A valid route parameter picks the supported locale equal to it, or else the default. */
  lemma ParamPicksLocale(req: Request)
    requires req.paramLang.Some? && req.paramLang.value != "" && req.paramLangValid
    ensures Routed(req) == Proceed(if req.paramLang.value in Supported then req.paramLang.value else Default)
  {
  }

  /** A supported first path segment is the locale, with no redirect. */
  lemma SupportedSegmentProceeds(req: Request, l: string, rest: string)
    requires !(req.paramLang.Some? && req.paramLang.value != "" && req.paramLangValid)
    requires l in Supported
    requires req.pathname == "/" + l + rest && (rest == "" || rest[0] == '/')
    ensures Routed(req) == Proceed(l)
  {
    SupportedSegmentRead(l, rest);
  }

  /** The first segment of `/<l><rest>` is `l`. */
  lemma SupportedSegmentRead(l: string, rest: string)
    requires l in Supported
    requires rest == "" || rest[0] == '/'
    ensures PathnameLocale("/" + l + rest) == Some(l)
  {
    assert '/' !in l;
    SplitAfterPiece("", '/', l + rest);
    assert "/" + l + rest == "" + "/" + (l + rest);
    SplitStopsAtSlash(l, rest);
  }

  /** Splitting at `/` a word without a slash, followed by nothing or a slash, gives the word first. */
  lemma SplitStopsAtSlash(word: string, rest: string)
    requires '/' !in word
    requires rest == "" || rest[0] == '/'
    ensures Split(word + rest, "/")[0] == word
  {
    if rest == "" {
      assert word + rest == word;
      SplitNoSep(word, '/');
    } else {
      assert word + rest == word + "/" + rest[1..];
      SplitAfterPiece(word, '/', rest[1..]);
    }
  }

  /**
   * Any other path redirects with 302 to the locale detected from the
   * `Accept-Language` header, or to `en` when none is detected (in particular
   * when the header is missing or empty), followed by the whole path.
   */
  lemma OtherPathsRedirect(req: Request)
    requires !(req.paramLang.Some? && req.paramLang.value != "" && req.paramLangValid)
    requires req.pathname != "/"
    requires PathnameLocale(req.pathname).None? || PathnameLocale(req.pathname).value !in Supported
    ensures Routed(req).Redirect? && Routed(req).status == 302
    ensures exists target :: target in Supported && Routed(req).location == "/" + target + req.pathname
    ensures Routed(req) == Redirect(302, "/" + OrDefault(DetectedLocale(req.acceptLanguage, Supported)) + req.pathname)
    ensures DetectedLocale(req.acceptLanguage, Supported).None? ==> Routed(req).location == "/en" + req.pathname
    ensures req.acceptLanguage.None? || req.acceptLanguage == Some("") ==> Routed(req).location == "/en" + req.pathname
  {
    var target := OrDefault(DetectedLocale(req.acceptLanguage, Supported));
    assert target in Supported;
  }

  /** The response headers, as the handler sets them. */
  class ResponseHeaders {
    var values: map<string, string>

    constructor ()
      ensures values == map[]
    {
      values := map[];
    }

    /** `headers.set(name, value)`. */
    method Set(name: string, value: string)
      modifies this
      ensures values == old(values)[name := value]
    {
      values := values[name := value];
    }
  }

  /** `onRequest`: route the request; when it is not redirected, set the security headers. */
  method OnRequest(req: Request, headers: ResponseHeaders) returns (outcome: Outcome)
    modifies headers
    ensures outcome == Routed(req)
    ensures outcome.Redirect? ==> headers.values == old(headers.values)
    ensures outcome.Proceed? ==> headers.values == old(headers.values) + SecurityHeaders
  {
    var lang: Option<string> := None;
    if req.paramLang.Some? && req.paramLang.value != "" && req.paramLangValid {
      lang := SupportedEqual(req.paramLang.value);
    } else {
      var pathnameLocale := PathnameLocale(req.pathname);
      if req.pathname == "/" {
        return Redirect(302, "/" + Default + "/");
      }
      if pathnameLocale.Some? && pathnameLocale.value in Supported {
        lang := pathnameLocale;
      } else {
        var detectedLocale := DetectLocaleFromHeader(req.acceptLanguage, Supported);
        var targetLocale := OrDefault(detectedLocale);
        return Redirect(302, "/" + targetLocale + req.pathname);
      }
    }
    var selectedLang := OrDefault(lang);
    SetSecurityHeaders(headers);
    return Proceed(selectedLang);
  }

  /** The four `headers.set` calls at the end of `onRequest`. */
  method SetSecurityHeaders(headers: ResponseHeaders)
    modifies headers
    ensures headers.values == old(headers.values) + SecurityHeaders
  {
    ghost var before := headers.values;
    headers.Set("X-Frame-Options", "DENY");
    headers.Set("X-Content-Type-Options", "nosniff");
    headers.Set("Referrer-Policy", "strict-origin-when-cross-origin");
    headers.Set("Permissions-Policy", "camera=(), microphone=(), geolocation=()");
    SecurityHeadersInOrder(before);
  }

  /** Setting the four headers one after another adds exactly the security headers. */
  lemma SecurityHeadersInOrder(m: map<string, string>)
    ensures m["X-Frame-Options" := "DENY"]["X-Content-Type-Options" := "nosniff"]
             ["Referrer-Policy" := "strict-origin-when-cross-origin"]
             ["Permissions-Policy" := "camera=(), microphone=(), geolocation=()"] == m + SecurityHeaders
  {
  }
}
