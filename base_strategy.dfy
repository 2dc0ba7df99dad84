/**
 * What every browser strategy returns (interface BrowserActivityData), and
 * the URL rule that the Chromium and Firefox strategies share: an absent or
 * empty raw URL yields no URL and the `window_api` capture method.
 */
module BrowserStrategy {
  import opened ActivityTypes

  /** How the document URL was obtained. */
  datatype CaptureMethod = WindowApi | Accessibility | Fallback

  /** The string a capture method is written as. */
  function MethodName(m: CaptureMethod): (r: string)
    ensures r != ""
  {
    match m
    case WindowApi => "window_api"
    case Accessibility => "accessibility"
    case Fallback => "fallback"
  }

  /** Distinct capture methods are written as distinct strings, so a stored name identifies its method. */
  lemma MethodNameIsInjective(m1: CaptureMethod, m2: CaptureMethod)
    ensures MethodName(m1) == MethodName(m2) ==> m1 == m2
  {
    if m1 != m2 {
      assert MethodName(m1)[0] != MethodName(m2)[0];
    }
  }

  datatype BrowserActivityData = BrowserActivityData(
    url: Option<string>,
    title: string,
    browserName: string,
    captureMethod: CaptureMethod)

  /** `rawUrl` is truthy: present and non-empty. */
  predicate HasUrl(rawUrl: Option<string>)
  {
    rawUrl.Some? && rawUrl.value != ""
  }

  /** `rawUrl || null`. */
  function UrlOrNull(rawUrl: Option<string>): (r: Option<string>)
    ensures r.Some? <==> HasUrl(rawUrl)
    ensures r.Some? ==> r == rawUrl
  {
    if HasUrl(rawUrl) then rawUrl else None
  }

  /** `rawUrl ? 'accessibility' : 'window_api'`. */
  function MethodFor(rawUrl: Option<string>): (r: CaptureMethod)
    ensures r != Fallback
    ensures r == Accessibility <==> HasUrl(rawUrl)
  {
    if HasUrl(rawUrl) then Accessibility else WindowApi
  }
}
