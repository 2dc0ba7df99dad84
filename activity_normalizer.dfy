/**
 * The generic classifier (class ActivityNormalizer): an `APP` event whose
 * content is the window title, redacted by the application-level filter.
 * The clock read of the source is the parameter `now`.
 */
module Normalizer {
  import opened ActivityTypes
  import AppPrivacy

  /** `ActivityNormalizer.normalize(raw)`, the clock reading `now`. */
  function Normalize(raw: RawWindowData, now: int): (r: ActivityEvent)
    ensures r.eventType == APP && r.source == raw.appName
    ensures r.startTime == now && r.endTime == None && r.captureMethod == None
    ensures r.isSensitive == AppPrivacy.IsSensitive(raw.appName, Some(raw.title))
    ensures r.isSensitive ==> r.title == Some(RestrictedActivity) && r.content == None
    ensures !r.isSensitive ==> r.title == Some(raw.title) && r.content == Some(raw.title)
    ensures Redacted(r)
  {
    var appName := raw.appName;
    var isSensitive := AppPrivacy.IsSensitive(appName, Some(raw.title));
    var title := if isSensitive then RestrictedActivity else raw.title;
    var content := if isSensitive then None else Some(raw.title);
    ActivityEvent(APP, appName, Some(title), content, now, None, isSensitive, None)
  }

  /**
   * The start time is the normalizer's own clock reading: the sample's
   * capture timestamp has no effect on the event.
   */
  lemma StartTimeIgnoresSampleTimestamp(raw: RawWindowData, timestamp: int, now: int)
    ensures Normalize(raw.(timestamp := timestamp), now) == Normalize(raw, now)
  {
  }

  /**
   * Redaction completeness on this path: a sensitive application, or a title
   * with a private-browsing keyword, never lets the title through.
   */
  lemma SensitiveSampleIsRedacted(raw: RawWindowData, now: int)
    requires raw.appName in AppPrivacy.SensitiveApps || AppPrivacy.HasPrivateKeyword(raw.title)
    ensures Normalize(raw, now).title == Some(RestrictedActivity)
    ensures Normalize(raw, now).content == None && Normalize(raw, now).isSensitive
  {
  }
}
