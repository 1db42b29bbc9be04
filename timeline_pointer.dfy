/**
 * The date marker over the timeline shows the selected year and month, written
 * the Korean or Japanese way when the first path segment names that
 * language, and otherwise by the runtime's English month-and-year format.
 */
module TimelinePointer {
  import opened Optional
  import opened JsText
  import LanguageSwitch

  /** The props' defaults: January 2022. */
  const DefaultYear: int := 2022
  const DefaultMonth: int := 1

  /**
   * `formatDate(year, month)`. `pathname` is `None` on the server, where the
   * path reads as empty; `localeDate(year, monthIndex)` stands for
   * `new Date(year, monthIndex).toLocaleDateString('en-US', ...)`.
   */
  function FormatDate(year: int, month: int, pathname: Option<string>, localeDate: (int, int) -> string): (r: string)
    ensures pathname.None? ==> r == localeDate(year, month - 1)
    ensures LanguageSwitch.CurrentLang(pathname.GetOr("")) == "ko" ==> |r| > 0 && r[|r| - 1] == '월'
    ensures LanguageSwitch.CurrentLang(pathname.GetOr("")) == "ja" ==> |r| > 0 && r[|r| - 1] == '月'
  {
    ServerReadsEnglish();
    var lang := LanguageSwitch.CurrentLang(pathname.GetOr(""));
    if lang == "ko" then Counted(year, "년") + " " + Counted(month, "월")
    else if lang == "ja" then Counted(year, "年") + Counted(month, "月")
    else localeDate(year, month - 1)
  }

  /** On the server the path reads as empty, and the empty path as English. */
  lemma ServerReadsEnglish()
    ensures LanguageSwitch.CurrentLang("") == "en"
  {
    assert Split("", "/") == [""];
  }

  /** `${n}` followed by a unit word. */
  function Counted(n: int, unit: string): string {
    IntToString(n) + unit
  }

  /** A count holds no character that is neither a digit nor in its unit. */
  lemma CountedExcludes(n: nat, unit: string, c: char)
    requires !('0' <= c <= '9') && c !in unit
    ensures c !in Counted(n, unit)
  {
  }

  /** The text the marker shows for its (possibly missing) props. */
  function PointerLabel(currentYear: Option<int>, currentMonth: Option<int>, pathname: Option<string>,
                        localeDate: (int, int) -> string): string {
    FormatDate(currentYear.GetOr(DefaultYear), currentMonth.GetOr(DefaultMonth), pathname, localeDate)
  }

  /** A label piece that is decimal digits reading as `n`, followed by one suffix character. */
  predicate ReadsAs(piece: string, n: nat) {
    |piece| >= 2 && IsDigits(piece[..|piece| - 1]) && DigitsValue(piece[..|piece| - 1]) == n
  }

  lemma NumberThenSuffix(n: nat, suffix: char)
    ensures ReadsAs(NatToString(n) + [suffix], n)
  {
    var s := NatToString(n) + [suffix];
    assert s[..|s| - 1] == NatToString(n);
    DigitsValueOfNatToString(n);
  }

  /**
   * Under `ko` the label is two blank-separated words, `<year>년` and
   * `<month>월`, whose digits read back as the year and the month.
   */
  lemma KoreanLabel(year: nat, month: nat, pathname: string, localeDate: (int, int) -> string)
    requires LanguageSwitch.CurrentLang(pathname) == "ko"
    ensures |Split(FormatDate(year, month, Some(pathname), localeDate), " ")| == 2
    ensures Split(FormatDate(year, month, Some(pathname), localeDate), " ")[0] == NatToString(year) + "년"
    ensures Split(FormatDate(year, month, Some(pathname), localeDate), " ")[1] == NatToString(month) + "월"
    ensures ReadsAs(Split(FormatDate(year, month, Some(pathname), localeDate), " ")[0], year)
    ensures ReadsAs(Split(FormatDate(year, month, Some(pathname), localeDate), " ")[1], month)
  {
    var words := [Counted(year, "년"), Counted(month, "월")];
    assert Join(words, " ") == FormatDate(year, month, Some(pathname), localeDate);
    CountedExcludes(year, "년", ' ');
    CountedExcludes(month, "월", ' ');
    SplitJoin(words, ' ');
    NumberThenSuffix(year, '년');
    NumberThenSuffix(month, '월');
  }

  /**
   * Under `ja` the label has no blank: split at `年` it gives the year's
   * digits and `<month>月`, which read back as the year and the month.
   */
  lemma JapaneseLabel(year: nat, month: nat, pathname: string, localeDate: (int, int) -> string)
    requires LanguageSwitch.CurrentLang(pathname) == "ja"
    ensures ' ' !in FormatDate(year, month, Some(pathname), localeDate)
    ensures |Split(FormatDate(year, month, Some(pathname), localeDate), "年")| == 2
    ensures Split(FormatDate(year, month, Some(pathname), localeDate), "年")[0] == NatToString(year)
    ensures Split(FormatDate(year, month, Some(pathname), localeDate), "年")[1] == NatToString(month) + "月"
    ensures DigitsValue(NatToString(year)) == year
    ensures ReadsAs(Split(FormatDate(year, month, Some(pathname), localeDate), "年")[1], month)
  {
    var text := FormatDate(year, month, Some(pathname), localeDate);
    var pieces := [NatToString(year), Counted(month, "月")];
    assert text == Counted(year, "年") + Counted(month, "月");
    assert Join(pieces, "年") == pieces[0] + "年" + pieces[1];
    ConcatAssociates(NatToString(year), "年", Counted(month, "月"));
    CountedExcludes(year, "年", ' ');
    CountedExcludes(month, "月", ' ');
    CountedExcludes(month, "月", '年');
    SplitJoin(pieces, '年');
    DigitsValueOfNatToString(year);
    NumberThenSuffix(month, '月');
  }

  /**
   * Any other language, and every render on the server, where the path is
   * empty and the language reads as `en`, leaves the label to the runtime's
   * date format, given the month as a zero-based index.
   */
  lemma OtherLanguagesDelegate(year: int, month: int, pathname: Option<string>, localeDate: (int, int) -> string)
    requires pathname.None? || LanguageSwitch.CurrentLang(pathname.value) !in {"ko", "ja"}
    ensures FormatDate(year, month, pathname, localeDate) == localeDate(year, month - 1)
  {
    ServerReadsEnglish();
  }

  /** Without props the marker shows January 2022: `2022년 1월` under `ko`. */
  lemma DefaultKoreanLabel(pathname: string, localeDate: (int, int) -> string)
    requires LanguageSwitch.CurrentLang(pathname) == "ko"
    ensures PointerLabel(None, None, Some(pathname), localeDate) == "2022년 1월"
  {
    assert NatToString(2) == "2";
    assert NatToString(20) == "20";
    assert NatToString(202) == "202";
    assert NatToString(2022) == "2022";
    assert NatToString(1) == "1";
  }
}
