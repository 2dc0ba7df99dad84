/**
 * The browser classifier (class BrowserMonitor): an ordered, fixed list of
 * strategies, the first one that supports the application wins, and the
 * resulting document is redacted by its URL alone.
 */
module Browser {
  import opened ActivityTypes
  import opened Text
  import opened BrowserStrategy
  import Chrome
  import Firefox
  import UrlPrivacy
  import AppPrivacy

  /** The registered strategies, one per browser family. */
  datatype Strategy = ChromeFamily | FirefoxFamily

  /** Registration order: Chromium first, then Firefox. */
  const Strategies: seq<Strategy> := [ChromeFamily, FirefoxFamily]

  /** `strategy.isSupported(appName)`. */
  predicate Supports(s: Strategy, appName: string)
  {
    match s
    case ChromeFamily => Chrome.IsSupported(appName)
    case FirefoxFamily => Firefox.IsSupported(appName)
  }

  /** `strategy.process(appName, title, rawUrl)`. */
  function Apply(s: Strategy, appName: string, title: string, rawUrl: Option<string>): BrowserActivityData
  {
    match s
    case ChromeFamily => Chrome.Process(appName, title, rawUrl)
    case FirefoxFamily => Firefox.Process(appName, title, rawUrl)
  }

  /** `strategies.some(s => s.isSupported(appName))`. */
  predicate IsBrowser(appName: string): (r: bool)
    ensures r <==> Chrome.IsSupported(appName) || Firefox.IsSupported(appName)
  {
    assert Supports(Strategies[0], appName) == Chrome.IsSupported(appName);
    assert Supports(Strategies[1], appName) == Firefox.IsSupported(appName);
    exists k | 0 <= k < |Strategies| :: Supports(Strategies[k], appName)
  }

  /** `strategies.find(...)`, as an index: the first strategy of `ss` that supports `appName`. */
  function FirstSupporting(ss: seq<Strategy>, appName: string): (r: Option<nat>)
    ensures r.Some? ==> r.value < |ss| && Supports(ss[r.value], appName)
    ensures r.Some? ==> forall j :: 0 <= j < r.value ==> !Supports(ss[j], appName)
    ensures r.None? ==> forall j :: 0 <= j < |ss| ==> !Supports(ss[j], appName)
  {
    if ss == [] then None
    else if Supports(ss[0], appName) then Some(0)
    else match FirstSupporting(ss[1..], appName)
         case None => None
         case Some(k) => Some(k + 1)
  }

  /** The strategy `process` dispatches to, if any. */
  function FindStrategy(appName: string): (r: Option<Strategy>)
    ensures r == Some(ChromeFamily) <==> Chrome.IsSupported(appName)
    ensures r == Some(FirefoxFamily) <==> !Chrome.IsSupported(appName) && Firefox.IsSupported(appName)
    ensures r == None <==> !IsBrowser(appName)
  {
    match FirstSupporting(Strategies, appName)
    case None =>
      assert !Supports(Strategies[0], appName) && !Supports(Strategies[1], appName);
      None
    case Some(k) => Some(Strategies[k])
  }

  /** The locals `docTitle`, `docUrl` and `method` once the strategy has run. */
  datatype Document = Document(title: string, url: Option<string>, captureMethod: CaptureMethod)

  /** The document seen by the chosen strategy, or the fallback when none supports the application. */
  function DocumentOf(raw: RawWindowData): (d: Document)
    ensures FindStrategy(raw.appName) == None ==> d == Document(raw.title, None, Fallback)
    ensures d.captureMethod == Fallback <==> !IsBrowser(raw.appName)
    ensures FindStrategy(raw.appName) == Some(ChromeFamily) ==> d.title == raw.title
    ensures FindStrategy(raw.appName) == Some(FirefoxFamily) ==> d.title == Firefox.CleanTitle(raw.title)
    ensures d.url.Some? <==> IsBrowser(raw.appName) && HasUrl(raw.url)
    ensures d.url.Some? ==> d.url == raw.url
    ensures IsBrowser(raw.appName) ==> (d.captureMethod == Accessibility <==> HasUrl(raw.url))
  {
    match FindStrategy(raw.appName)
    case None => Document(raw.title, None, Fallback)
    case Some(s) =>
      var result := Apply(s, raw.appName, raw.title, raw.url);
      Document(result.title, result.url, result.captureMethod)
  }

  /** `BrowserMonitor.process(raw)`. */
  function Process(raw: RawWindowData, parseHost: UrlPrivacy.HostParser): (r: ActivityEvent)
    ensures r.eventType == URL && r.source == raw.appName
    ensures r.startTime == raw.timestamp && r.endTime == None
    ensures r.captureMethod == None
    ensures r.isSensitive == UrlPrivacy.IsUrlSensitive(DocumentOf(raw).url, parseHost)
    ensures r.isSensitive ==> r.title == Some(RestrictedSite) && r.content == None
    ensures !r.isSensitive ==> r.title == Some(DocumentOf(raw).title) && r.content == DocumentOf(raw).url
    ensures Redacted(r)
  {
    var doc := DocumentOf(raw);
    var isSensitive := UrlPrivacy.IsUrlSensitive(doc.url, parseHost);
    var finalTitle := if isSensitive then RestrictedSite else doc.title;
    var finalContent := if isSensitive then None else doc.url;
    ActivityEvent(URL, raw.appName, Some(finalTitle), finalContent, raw.timestamp, None, isSensitive, None)
  }

  /** `isBrowser` holds exactly when `process` finds a strategy. */
  lemma IsBrowserIffStrategyFound(appName: string)
    ensures IsBrowser(appName) <==> FirstSupporting(Strategies, appName).Some?
  {
  }

  /** A name both patterns match goes to the Chromium strategy, which is registered first. */
  lemma OverlapGoesToChrome()
    ensures Chrome.IsSupported("Edge Nightly") && Firefox.IsSupported("Edge Nightly")
    ensures FindStrategy("Edge Nightly") == Some(ChromeFamily)
  {
    var lower := Lower("Edge Nightly");
    assert lower == "edge nightly";
    assert OccursAt(lower, "edge", 0);
    assert lower[5..12] == "nightly";
    OccurrenceContained(lower, "nightly", 5);
  }

  /**
   * The window title never reaches the privacy decision: two samples of one
   * application with one URL get the same verdict whatever their titles.
   */
  lemma SensitivityIgnoresTitle(raw1: RawWindowData, raw2: RawWindowData, parseHost: UrlPrivacy.HostParser)
    requires raw1.appName == raw2.appName && raw1.url == raw2.url
    ensures Process(raw1, parseHost).isSensitive == Process(raw2, parseHost).isSensitive
  {
  }

  /**
   * The application-level filter is not consulted on this path: an Incognito
   * Chrome window that the application-level filter flags stays unredacted.
   */
  lemma IncognitoChromeIsNotRedacted(parseHost: UrlPrivacy.HostParser)
    ensures var raw := RawWindowData("Google Chrome", "", None, "New Tab - Incognito", None, "win32", 0, None);
            AppPrivacy.IsSensitive(raw.appName, Some(raw.title))
            && !Process(raw, parseHost).isSensitive
            && Process(raw, parseHost).title == Some("New Tab - Incognito")
  {
    var lower := Lower("New Tab - Incognito");
    assert lower == "new tab - incognito";
    assert lower[10..19] == "incognito";
    OccurrenceContained(lower, "incognito", 10);
  }

  /**
   * The capture method the strategy worked out is dropped: a Chrome window
   * with a URL is captured through accessibility, yet the event carries no
   * capture method.
   */
  lemma CaptureMethodIsDropped(parseHost: UrlPrivacy.HostParser)
    ensures var raw := RawWindowData("Google Chrome", "", None, "Docs", Some("https://example.org/"), "win32", 0, None);
            DocumentOf(raw).captureMethod == Accessibility && Process(raw, parseHost).captureMethod == None
  {
  }
}
