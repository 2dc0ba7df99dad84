/**
 * The Chromium-family strategy (class ChromeStrategy): recognised by an exact
 * name list or by a case-insensitive name pattern; the title and the URL are
 * passed through.
 */
module Chrome {
  import opened ActivityTypes
  import opened Text
  import opened BrowserStrategy

  /** The exact, case-sensitive names of the supported browsers. */
  const SupportedBrowsers: set<string> := {
    "Google Chrome", "Microsoft Edge", "Brave Browser", "Opera", "Vivaldi", "Arc", "Cent Browser"
  }

  /** The regular expression `/chrome|edge|brave|opera/i`, on ASCII case. */
  predicate MatchesPattern(appName: string)
  {
    var lower := Lower(appName);
    Contains(lower, "chrome") || Contains(lower, "edge") || Contains(lower, "brave") || Contains(lower, "opera")
  }

  /** `ChromeStrategy.isSupported(appName)`. */
  predicate IsSupported(appName: string): (r: bool)
    ensures r <==> appName in SupportedBrowsers
                   || ContainsIgnoringCase(appName, "chrome") || ContainsIgnoringCase(appName, "edge")
                   || ContainsIgnoringCase(appName, "brave") || ContainsIgnoringCase(appName, "opera")
  {
    ContainsLowerIff(appName, "chrome");
    ContainsLowerIff(appName, "edge");
    ContainsLowerIff(appName, "brave");
    ContainsLowerIff(appName, "opera");
    appName in SupportedBrowsers || MatchesPattern(appName)
  }

  /** `ChromeStrategy.process(appName, title, rawUrl)`. */
  function Process(appName: string, title: string, rawUrl: Option<string>): (r: BrowserActivityData)
    ensures r.title == title && r.browserName == appName
    ensures r.url.Some? <==> HasUrl(rawUrl)
    ensures r.url.Some? ==> r.url == rawUrl
    ensures r.captureMethod == Accessibility <==> HasUrl(rawUrl)
    ensures r.captureMethod != Fallback
  {
    BrowserActivityData(UrlOrNull(rawUrl), title, appName, MethodFor(rawUrl))
  }

  /** The lower-case spellings of Vivaldi and Cent Browser hold no pattern. */
  lemma LowerCaseNamesMatchNoPattern()
    ensures !MatchesPattern("vivaldi") && !MatchesPattern("cent browser")
  {
    assert Lower("vivaldi") == "vivaldi";
    assert Lower("cent browser") == "cent browser";
    MissingCharNotContained("vivaldi", "chrome", 1);
    MissingCharNotContained("vivaldi", "edge", 0);
    MissingCharNotContained("vivaldi", "brave", 1);
    MissingCharNotContained("vivaldi", "opera", 0);
    MissingCharNotContained("cent browser", "chrome", 1);
    MissingCharNotContained("cent browser", "edge", 1);
    MissingCharNotContained("cent browser", "brave", 2);
    MissingCharNotContained("cent browser", "opera", 1);
  }

  /**
   * Any spelling of Vivaldi, Arc or Cent Browser other than the listed one is
   * unsupported: lower-cased, it holds none of the pattern words.
   */
  lemma RecasedNamesAreUnsupported(appName: string)
    requires Lower(appName) == "vivaldi" || Lower(appName) == "arc" || Lower(appName) == "cent browser"
    requires appName !in SupportedBrowsers
    ensures !IsSupported(appName)
  {
    LowerCaseNamesMatchNoPattern();
    assert Lower("vivaldi") == "vivaldi";
    assert Lower("cent browser") == "cent browser";
    if Lower(appName) == "arc" {
      MissingCharNotContained("arc", "chrome", 1);
      MissingCharNotContained("arc", "edge", 0);
      MissingCharNotContained("arc", "brave", 0);
      MissingCharNotContained("arc", "opera", 0);
    }
  }

  /**
   * Vivaldi, Arc and Cent Browser match no pattern, so they are recognised
   * only under their exact spelling.
   */
  lemma ExactOnlyNames()
    ensures IsSupported("Vivaldi") && IsSupported("Arc") && IsSupported("Cent Browser")
    ensures !IsSupported("vivaldi") && !IsSupported("ARC") && !IsSupported("cent browser")
  {
    assert Lower("ARC") == "arc";
    LowerCaseNamesMatchNoPattern();
  }
}
