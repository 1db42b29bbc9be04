/**
 * The language switch in the page header: it reads the language from the
 * first path segment, shows the matching option (English otherwise),
 * marks that option in its dropdown, and on a choice navigates to the same
 * path with the first segment replaced.
 */
module LanguageSwitch {
  import opened Optional
  import opened JsText
  import opened JsArray

  // `label` is a reserved word in Dafny; the field is called `name` here.
  datatype Language = Language(lang: string, name: string, flag: string)

  const LanguageOptions: seq<Language> := [
    Language("en", "English", "\U{1F1FA}\U{1F1F8}"),
    Language("ko", "\U{D55C}\U{AD6D}\U{C5B4}", "\U{1F1F0}\U{1F1F7}"),
    Language("ja", "\U{65E5}\U{672C}\U{8A9E}", "\U{1F1EF}\U{1F1F5}")
  ]

  /**
   * `pathname.split("/")[1] || "en"`: a missing or empty segment reads as
   * English. The language is never empty and never holds a `/`, and any
   * language but English is the path's first segment.
   */
  function CurrentLang(pathname: string): (r: string)
    ensures r != "" && '/' !in r
    ensures r != "en" ==> |Split(pathname, "/")| >= 2 && Split(pathname, "/")[1] == r
  {
    var parts := Split(pathname, "/");
    SplitPiecesExcludeSep(pathname, '/');
    if |parts| >= 2 && parts[1] != "" then parts[1] else "en"
  }

  /** `languageOptions.find(...)`: the first option with the given code. */
  function Find(options: seq<Language>, lang: string): (r: Option<Language>)
    ensures r.Some? ==> r.value in options && r.value.lang == lang
    ensures r.None? ==> forall k :: 0 <= k < |options| ==> options[k].lang != lang
  {
    if |options| == 0 then None
    else if options[0].lang == lang then Some(options[0])
    else Find(options[1..], lang)
  }

  /** The option the button shows: the one for the current language, or English. */
  function CurrentLanguage(pathname: string): Language {
    Find(LanguageOptions, CurrentLang(pathname)).GetOr(LanguageOptions[0])
  }

  /** Whether the dropdown marks an option active and gives it the check icon. */
  predicate IsActive(option: Language, pathname: string) {
    option.lang == CurrentLang(pathname)
  }

  /**
   * The button always shows one of the three options. When an option is
   * active it is that one, and it is the only active option; when none is,
   * the button shows English although the dropdown marks nothing.
   */
  lemma ShownOptionIsActiveOne(pathname: string)
    ensures CurrentLanguage(pathname) in LanguageOptions
    ensures forall k :: 0 <= k < |LanguageOptions| && IsActive(LanguageOptions[k], pathname) ==>
      CurrentLanguage(pathname) == LanguageOptions[k] &&
      forall j :: 0 <= j < |LanguageOptions| && j != k ==> !IsActive(LanguageOptions[j], pathname)
    ensures (forall k :: 0 <= k < |LanguageOptions| ==> !IsActive(LanguageOptions[k], pathname)) ==>
      CurrentLanguage(pathname) == LanguageOptions[0]
  {
    var lang := CurrentLang(pathname);
    assert LanguageOptions[0].lang == "en" && LanguageOptions[1].lang == "ko" && LanguageOptions[2].lang == "ja";
    assert "en" != "ko" && "en" != "ja" && "ko" != "ja";
  }

  /**
   * `pathParts[1] = lang; pathParts.join("/")`: the path with its first
   * segment replaced. For a language without `/`, the new path splits back
   * into exactly the assigned segments.
   */
  function NewPath(pathname: string, lang: string): (r: string)
    ensures '/' !in lang ==> Split(r, "/") == AssignAt(Split(pathname, "/"), 1, lang)
  {
    AssignedSplitsBack(pathname, lang);
    Join(AssignAt(Split(pathname, "/"), 1, lang), "/")
  }

  /** None of the assigned segments holds a `/`, so joining them at `/` splits back into them. */
  lemma AssignedSplitsBack(pathname: string, lang: string)
    ensures var parts := AssignAt(Split(pathname, "/"), 1, lang);
      '/' !in lang ==> Split(Join(parts, "/"), "/") == parts
  {
    if '/' !in lang {
      var before := Split(pathname, "/");
      var parts := AssignAt(before, 1, lang);
      SplitPiecesExcludeSep(pathname, '/');
      forall i | 0 <= i < |parts| ensures '/' !in parts[i] {
        if i != 1 {
          assert parts[i] == before[i];
        }
      }
      SplitJoin(parts, '/');
    }
  }

  /**
   * Only the first segment changes: splitting the new path gives the old
   * segments with `lang` at position 1, and no fewer than two segments.
   */
  lemma NewPathReplacesFirstSegment(pathname: string, lang: string)
    requires '/' !in lang
    ensures var before := Split(pathname, "/");
            var after := Split(NewPath(pathname, lang), "/");
      && |after| == Max(|before|, 2)
      && after[1] == lang
      && forall i :: 0 <= i < |before| && i != 1 ==> after[i] == before[i]
  {
    var before := Split(pathname, "/");
    assert |before| >= 1;
    if |before| == 1 {
      assert AssignAt(before, 1, lang) == before + [lang];
    }
  }

  /** Choosing a language and reading it back from the new path gives the chosen language. */
  lemma SelectThenRead(pathname: string, lang: string)
    requires lang != "" && '/' !in lang
    ensures CurrentLang(NewPath(pathname, lang)) == lang
  {
    NewPathReplacesFirstSegment(pathname, lang);
  }

  /** The component's state: the open flag, the current path, and the last navigation. */
  class Switch {
    var isOpen: bool
    var pathname: string
    var navigatedTo: Option<string>

    constructor (pathname: string)
      ensures !isOpen && this.pathname == pathname && navigatedTo == None
    {
      isOpen := false;
      this.pathname := pathname;
      navigatedTo := None;
    }

    /** `toggleDropdown`. */
    method ToggleDropdown()
      modifies this
      ensures isOpen == !old(isOpen)
      ensures pathname == old(pathname) && navigatedTo == old(navigatedTo)
    {
      isOpen := !isOpen;
    }

    /** `selectLanguage(lang)`: set `window.location.href` to the rewritten path. */
    method SelectLanguage(lang: string)
      modifies this
      ensures navigatedTo == Some(NewPath(pathname, lang))
      ensures isOpen == old(isOpen) && pathname == old(pathname)
    {
      var currentPath := pathname;
      var pathParts := Split(currentPath, "/");
      if |pathParts| > 1 {
        pathParts := pathParts[1 := lang];
      } else {
        pathParts := pathParts + [lang];
      }
      var newPath := Join(pathParts, "/");
      navigatedTo := Some(newPath);
    }
  }
}
