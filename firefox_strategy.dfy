/**
 * The Firefox-family strategy (class FirefoxStrategy): recognised by a
 * case-insensitive name pattern; the browser's own suffix is cut from the
 * window title; the URL rule is the one shared with the Chromium strategy.
 */
module Firefox {
  import opened ActivityTypes
  import opened Text
  import opened BrowserStrategy

  /**
   * The first suffix searched for, exactly as the source text has it: the
   * UTF-8 bytes of an em-dash read back as Windows-1252, which gives the three
   * characters U+00E2 U+20AC U+201D instead of the one character U+2014.
   */
  const MangledSuffix: string := " \U{E2}\U{20AC}\U{201D} Mozilla Firefox"

  /** The second suffix searched for, with an ASCII hyphen. */
  const HyphenSuffix: string := " - Mozilla Firefox"

  /** The regular expression `/firefox|nightly|librewolf/i`, on ASCII case. */
  predicate IsSupported(appName: string): (r: bool)
    ensures r <==> ContainsIgnoringCase(appName, "firefox") || ContainsIgnoringCase(appName, "nightly")
                   || ContainsIgnoringCase(appName, "librewolf")
  {
    ContainsLowerIff(appName, "firefox");
    ContainsLowerIff(appName, "nightly");
    ContainsLowerIff(appName, "librewolf");
    var lower := Lower(appName);
    Contains(lower, "firefox") || Contains(lower, "nightly") || Contains(lower, "librewolf")
  }

  /**
   * The title cut just before the last occurrence of `MangledSuffix`, or
   * failing that of `HyphenSuffix`; unchanged when neither occurs. Whatever
   * follows the suffix is dropped with it.
   */
  function CleanTitle(title: string): (r: string)
    ensures |r| <= |title| && r == title[..|r|]
    ensures Contains(title, MangledSuffix) ==>
              OccursAt(title, MangledSuffix, |r|) && forall j :: |r| < j ==> !OccursAt(title, MangledSuffix, j)
    ensures !Contains(title, MangledSuffix) && Contains(title, HyphenSuffix) ==>
              OccursAt(title, HyphenSuffix, |r|) && forall j :: |r| < j ==> !OccursAt(title, HyphenSuffix, j)
    ensures !Contains(title, MangledSuffix) && !Contains(title, HyphenSuffix) ==> r == title
  {
    var separatorIndex := LastIndexOf(title, MangledSuffix);
    if separatorIndex != -1 then title[..separatorIndex]
    else
      var dashIndex := LastIndexOf(title, HyphenSuffix);
      if dashIndex != -1 then title[..dashIndex] else title
  }

  /** `FirefoxStrategy.process(appName, title, rawUrl)`. */
  function Process(appName: string, title: string, rawUrl: Option<string>): (r: BrowserActivityData)
    ensures r.title == CleanTitle(title) && r.browserName == appName
    ensures r.url.Some? <==> HasUrl(rawUrl)
    ensures r.url.Some? ==> r.url == rawUrl
    ensures r.captureMethod == Accessibility <==> HasUrl(rawUrl)
    ensures r.captureMethod != Fallback
  {
    BrowserActivityData(UrlOrNull(rawUrl), CleanTitle(title), appName, MethodFor(rawUrl))
  }

  /** The hyphen variant is stripped. */
  lemma HyphenTitleIsCleaned()
    ensures CleanTitle("Example Page" + HyphenSuffix) == "Example Page"
  {
    assert "Example Page" + HyphenSuffix == "Example Page" + HyphenSuffix + "";
    SampleTitlePiecesArePlain();
    TrailingTextIsDropped("Example Page", "");
  }

  /** The literal as written is stripped too. */
  lemma MangledTitleIsCleaned()
    ensures CleanTitle("Example Page" + MangledSuffix) == "Example Page"
  {
    assert OccursAt("Example Page" + MangledSuffix, MangledSuffix, 12);
  }

  /**
   * A title with a real em-dash (U+2014), which is what Firefox shows, is
   * left unchanged: neither literal occurs in it.
   */
  lemma EmDashTitleIsNotCleaned()
    ensures CleanTitle("Example Page \U{2014} Mozilla Firefox") == "Example Page \U{2014} Mozilla Firefox"
  {
    var t := "Example Page \U{2014} Mozilla Firefox";
    MissingCharNotContained(t, MangledSuffix, 1);
    MissingCharNotContained(t, HyphenSuffix, 1);
  }

  /** The mangled literal wins over the hyphen variant wherever both occur. */
  lemma MangledSuffixTakesPrecedence()
    ensures CleanTitle("A" + HyphenSuffix + MangledSuffix) == "A" + HyphenSuffix
  {
    var t := "A" + HyphenSuffix + MangledSuffix;
    assert t[|"A" + HyphenSuffix|..] == MangledSuffix;
    assert OccursAt(t, MangledSuffix, |"A" + HyphenSuffix|);
  }

  /** No hyphen and no U+00E2, the first character of the mangled dash, occurs in `s`. */
  predicate Plain(s: string)
  {
    forall i :: 0 <= i < |s| ==> s[i] != '-' && s[i] != '\U{E2}'
  }

  /**
   * Text after the hyphen suffix is dropped along with it, e.g.
   * "Page - Mozilla Firefox (Private Browsing)" becomes "Page".
   */
  lemma {:induction false} TrailingTextIsDropped(page: string, rest: string)
    requires Plain(page) && Plain(rest)
    ensures CleanTitle(page + HyphenSuffix + rest) == page
  {
    var t := page + HyphenSuffix + rest;
    forall j | 0 <= j < |t|
      ensures t[j] != MangledSuffix[1]
      ensures t[j] == '-' ==> j == |page| + 1
    {
      if j < |page| {
        assert t[j] == page[j];
      } else if j < |page| + |HyphenSuffix| {
        assert t[j] == HyphenSuffix[j - |page|];
      } else {
        assert t[j] == rest[j - |page| - |HyphenSuffix|];
      }
    }
    MissingCharNotContained(t, MangledSuffix, 1);
    assert t[|page|..|page| + |HyphenSuffix|] == HyphenSuffix;
    SoleOccurrence(t, HyphenSuffix, 1, |page|);
  }

  /** The pieces of the sample titles below hold neither a hyphen nor U+00E2. */
  lemma SampleTitlePiecesArePlain()
    ensures Plain("Example Page") && Plain("")
    ensures Plain("Page") && Plain(" (Private Browsing)")
  {
  }

  /** The private-window title of the hyphen variant loses its marker. */
  lemma PrivateMarkerIsDropped()
    ensures CleanTitle("Page" + HyphenSuffix + " (Private Browsing)") == "Page"
  {
    SampleTitlePiecesArePlain();
    TrailingTextIsDropped("Page", " (Private Browsing)");
  }
}
