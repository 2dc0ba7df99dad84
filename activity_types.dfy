/**
 * The records the activity logger passes between its stages: the raw window
 * sample taken each tick and the activity event (session) built from it.
 * Timestamps are abstract integers (milliseconds); `Date` objects and their
 * ISO formatting are not modelled.
 */
module ActivityTypes {

  datatype Option<+T> = None | Some(value: T)

  /** The closed set of content kinds an activity event can have. */
  datatype EventType = APP | URL | FILE | NOTE | TASK

  /**
   * An activity session. `title` and `content` are optional (`undefined` and
   * `null` are both `None`); `endTime` is absent while the session is open;
   * `captureMethod` is an optional free-form string, as declared.
   */
  datatype ActivityEvent = ActivityEvent(
    eventType: EventType,
    source: string,
    title: Option<string>,
    content: Option<string>,
    startTime: int,
    endTime: Option<int>,
    isSensitive: bool,
    captureMethod: Option<string>)

  /** One sample of the foreground window. */
  datatype RawWindowData = RawWindowData(
    appName: string,
    appPath: string,
    bundleId: Option<string>,
    title: string,
    url: Option<string>,
    platform: string,
    timestamp: int,
    memoryUsage: Option<int>)

  /** The placeholder title of a browser event whose URL is sensitive. */
  const RestrictedSite: string := "Restricted Site"

  /** The placeholder title of an application event judged sensitive. */
  const RestrictedActivity: string := "Restricted Activity"

  /**
   * The redaction invariant of every event the classification step builds:
   * a sensitive event carries one of the two placeholders and no content.
   */
  predicate Redacted(e: ActivityEvent)
  {
    e.isSensitive ==>
      e.content == None && (e.title == Some(RestrictedSite) || e.title == Some(RestrictedActivity))
  }
}
