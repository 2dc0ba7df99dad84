/**
 * The store sink (class ActivityRepository, its `saveActivity` only). The
 * `activities` table is a sequence of rows; the database's own failure to
 * insert is an input, `insertFails`, since its causes lie outside the code.
 */
module Repository {
  import opened ActivityTypes

  /** One row of the `activities` table, as written by the insert. */
  datatype Row = Row(
    eventType: EventType,
    source: string,
    title: Option<string>,
    content: Option<string>,
    startTime: int,
    endTime: int,
    isSensitive: int,
    processingStatus: string,
    captureMethod: string)

  /** What `saveActivity` did: returned early, inserted a row, or re-threw the insert's error. */
  datatype SaveOutcome = SkippedNoEndTime | Inserted | Threw

  /** The status every inserted row starts in. */
  const Pending: string := "PENDING"

  /** The capture method stored when the event carries none. */
  const DefaultCaptureMethod: string := "window_api"

  /** `activity.captureMethod || 'window_api'`. */
  function StoredCaptureMethod(activity: ActivityEvent): (r: string)
    ensures r != ""
    ensures activity.captureMethod.Some? && activity.captureMethod.value != "" ==> r == activity.captureMethod.value
    ensures activity.captureMethod == None || activity.captureMethod == Some("") ==> r == DefaultCaptureMethod
  {
    match activity.captureMethod
    case Some(m) => if m != "" then m else DefaultCaptureMethod
    case None => DefaultCaptureMethod
  }

  /** The invariant every row this code inserts satisfies. */
  predicate WellFormedRow(row: Row)
  {
    && row.processingStatus == Pending
    && (row.isSensitive == 0 || row.isSensitive == 1)
    && row.captureMethod != ""
  }

  /** The row the insert writes for a completed event. */
  function ToRow(activity: ActivityEvent): (r: Row)
    requires activity.endTime.Some?
    ensures WellFormedRow(r)
    ensures r.isSensitive == 1 <==> activity.isSensitive
    ensures r.eventType == activity.eventType && r.source == activity.source
    ensures r.title == activity.title && r.content == activity.content
    ensures r.startTime == activity.startTime && r.endTime == activity.endTime.value
    ensures r.captureMethod == StoredCaptureMethod(activity)
  {
    Row(activity.eventType, activity.source, activity.title, activity.content,
        activity.startTime, activity.endTime.value,
        if activity.isSensitive then 1 else 0,
        Pending, StoredCaptureMethod(activity))
  }

  /** No event produced by the classifiers carries a capture method, so each is stored as `window_api`. */
  lemma EventsWithoutMethodStoreDefault(activity: ActivityEvent)
    requires activity.endTime.Some? && activity.captureMethod == None
    ensures ToRow(activity).captureMethod == DefaultCaptureMethod
  {
  }

  class ActivityRepository {
    /** The `activities` table, oldest row first. */
    var rows: seq<Row>

    /** How many rows the table held when it was opened; this code never reads or rewrites them. */
    ghost var preexisting: nat

    /** Every row appended since the table was opened is well-formed; earlier rows may hold anything. */
    ghost predicate Valid()
      reads this
    {
      && preexisting <= |rows|
      && forall i :: preexisting <= i < |rows| ==> WellFormedRow(rows[i])
    }

    /** `new ActivityRepository(dbPath)` over a table that already holds `existing`. */
    constructor (existing: seq<Row>)
      ensures Valid() && rows == existing && preexisting == |existing|
    {
      rows := existing;
      preexisting := |existing|;
    }

    /**
     * `saveActivity(activity)`: an event without an end time is ignored (a
     * warning only); otherwise one row is appended, unless the insert fails,
     * in which case the table is unchanged and the error goes to the caller.
     */
    method SaveActivity(activity: ActivityEvent, insertFails: bool) returns (outcome: SaveOutcome)
      requires Valid()
      modifies this
      ensures Valid() && preexisting == old(preexisting)
      ensures activity.endTime == None ==> outcome == SkippedNoEndTime && rows == old(rows)
      ensures activity.endTime.Some? && insertFails ==> outcome == Threw && rows == old(rows)
      ensures activity.endTime.Some? && !insertFails ==>
                outcome == Inserted && rows == old(rows) + [ToRow(activity)]
    {
      if activity.endTime == None {
        return SkippedNoEndTime;
      }
      if insertFails {
        return Threw;
      }
      rows := rows + [ToRow(activity)];
      outcome := Inserted;
    }
  }
}
