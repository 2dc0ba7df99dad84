/**
 * The session tracker (class SessionMonitor). Each snapshot either closes
 * the open session (no window), opens one (none open), continues it (same
 * source and title) or closes it and adopts the new candidate. Closing stamps
 * the end time onto the session and hands it to the repository.
 *
 * The transition is first given as a pure function, `Step`, about which the
 * properties of the tracker are proved; the class's methods are then proved
 * to perform exactly that transition on their fields.
 */
module Sessions {
  import opened ActivityTypes
  import opened Repository
  import Browser
  import Normalizer
  import AppPrivacy
  import UrlPrivacy
  import BrowserStrategy

  /**
   * The candidate session built from a sample: the browser classifier when
   * some strategy supports the application, the generic one otherwise.
   * `normalizeTime` is the clock reading the generic classifier takes.
   */
  function Incoming(raw: RawWindowData, normalizeTime: int, parseHost: UrlPrivacy.HostParser): (e: ActivityEvent)
    ensures e.source == raw.appName && e.endTime == None && e.captureMethod == None
    ensures Redacted(e)
    ensures e.eventType == URL <==> Browser.IsBrowser(raw.appName)
    ensures e.eventType == APP <==> !Browser.IsBrowser(raw.appName)
    ensures Browser.IsBrowser(raw.appName) ==>
              e.startTime == raw.timestamp
              && e.isSensitive == UrlPrivacy.IsUrlSensitive(Browser.DocumentOf(raw).url, parseHost)
    ensures !Browser.IsBrowser(raw.appName) ==>
              e.startTime == normalizeTime
              && e.isSensitive == AppPrivacy.IsSensitive(raw.appName, Some(raw.title))
  {
    if Browser.IsBrowser(raw.appName) then Browser.Process(raw, parseHost)
    else Normalizer.Normalize(raw, normalizeTime)
  }

  /** The candidate of a snapshot, `None` when there is no active window. */
  function IncomingOf(raw: Option<RawWindowData>, normalizeTime: int, parseHost: UrlPrivacy.HostParser): (c: Option<ActivityEvent>)
    ensures c.Some? <==> raw.Some?
    ensures c.Some? ==> c.value == Incoming(raw.value, normalizeTime, parseHost)
  {
    match raw
    case None => None
    case Some(r) => Some(Incoming(r, normalizeTime, parseHost))
  }

  /**
   * The continuation test: same source and same title, compared exactly. The
   * two events may differ in anything else (type, content, times, flag, method).
   */
  predicate SameContext(a: ActivityEvent, b: ActivityEvent): (r: bool)
    ensures r <==> a.(eventType := b.eventType, content := b.content, startTime := b.startTime,
                      endTime := b.endTime, isSensitive := b.isSensitive, captureMethod := b.captureMethod) == b
  {
    a.source == b.source && a.title == b.title
  }

  /** A session stamped with its end time. */
  function Closed(e: ActivityEvent, endTime: int): (c: ActivityEvent)
    ensures c.endTime == Some(endTime)
    ensures c.(endTime := e.endTime) == e
    ensures Redacted(e) ==> Redacted(c)
  {
    e.(endTime := Some(endTime))
  }

  /**
   * The effect of one call: the new current session, the session the
   * repository stored (if any), and whether the store's error escaped.
   */
  datatype StepResult = StepResult(next: Option<ActivityEvent>, handedOff: Option<ActivityEvent>, threw: bool)

  function OptionToSeq<T>(o: Option<T>): (s: seq<T>)
    ensures o.None? ==> s == []
    ensures o.Some? ==> s == [o.value]
  {
    if o.Some? then [o.value] else []
  }

  /**
   * `closeCurrentSession(endTime)`: with a session open, the end time is set
   * in place before the save; a failed save leaves the stamped session
   * current instead of clearing it.
   */
  function CloseStep(cur: Option<ActivityEvent>, endTime: int, insertFails: bool): (r: StepResult)
    ensures cur.None? ==> r == StepResult(None, None, false)
    ensures cur.Some? && !insertFails ==> r == StepResult(None, Some(Closed(cur.value, endTime)), false)
    ensures cur.Some? && insertFails ==> r == StepResult(Some(Closed(cur.value, endTime)), None, true)
  {
    match cur
    case None => StepResult(None, None, false)
    case Some(s) =>
      var stamped := Closed(s, endTime);
      if insertFails then StepResult(Some(stamped), None, true) else StepResult(None, Some(stamped), false)
  }

  /**
   * `processSnapshot` on the classified `candidate`, with the tick's clock
   * reading `now` and the store's behaviour `insertFails`.
   */
  function Step(cur: Option<ActivityEvent>, candidate: Option<ActivityEvent>, now: int, insertFails: bool): (r: StepResult)
    ensures r.handedOff.Some? ==> cur.Some? && r.handedOff.value == Closed(cur.value, now) && !r.threw
    ensures r.threw ==> insertFails && cur.Some? && r.next == Some(Closed(cur.value, now)) && r.handedOff == None
    ensures !r.threw && r.next.Some? ==> candidate.Some? && (r.next == candidate || r.next == cur)
    ensures candidate.None? && !r.threw ==> r.next == None
  {
    match candidate
    case None => CloseStep(cur, now, insertFails)
    case Some(incoming) =>
      if cur.None? then StepResult(Some(incoming), None, false)
      else if SameContext(cur.value, incoming) then StepResult(cur, None, false)
      else
        var closing := CloseStep(cur, now, insertFails);
        if closing.threw then closing else StepResult(Some(incoming), closing.handedOff, false)
  }

  // ---------------------------------------------------------------------------
  // The four cases of the tracker, and what a failed save does.

  /** No window, a session open: that session is stored, ended `now`, and none is current. */
  lemma IdleClosesSession(s: ActivityEvent, now: int)
    ensures Step(Some(s), None, now, false) == StepResult(None, Some(s.(endTime := Some(now))), false)
  {
  }

  /** No window, no session: nothing is stored and none is current. */
  lemma IdleWithoutSessionDoesNothing(now: int, insertFails: bool)
    ensures Step(None, None, now, insertFails) == StepResult(None, None, false)
  {
  }

  /** No session open: the candidate becomes current and nothing is stored. */
  lemma FirstSampleOpensSession(c: ActivityEvent, now: int, insertFails: bool)
    ensures Step(None, Some(c), now, insertFails) == StepResult(Some(c), None, false)
  {
  }

  /** Same source and title: nothing changes and nothing is stored. */
  lemma SameContextContinues(s: ActivityEvent, c: ActivityEvent, now: int, insertFails: bool)
    requires s.source == c.source && s.title == c.title
    ensures Step(Some(s), Some(c), now, insertFails) == StepResult(Some(s), None, false)
  {
  }

  /** Source or title differs: the old session is stored, ended `now`, and the candidate becomes current. */
  lemma ContextSwitchClosesAndAdopts(s: ActivityEvent, c: ActivityEvent, now: int)
    requires s.source != c.source || s.title != c.title
    ensures Step(Some(s), Some(c), now, false) == StepResult(Some(c), Some(s.(endTime := Some(now))), false)
  {
  }

  /**
   * A failed save: the error escapes, the open session (now stamped) stays
   * current, and the candidate is not adopted.
   */
  lemma FailedSaveKeepsSession(s: ActivityEvent, candidate: Option<ActivityEvent>, now: int)
    requires candidate.None? || !SameContext(s, candidate.value)
    ensures Step(Some(s), candidate, now, true) == StepResult(Some(s.(endTime := Some(now))), None, true)
  {
  }

  /**
   * The continuation test sees the redacted title: two different titles of
   * one sensitive, non-browser application merge into one session.
   */
  lemma SensitiveTitlesMerge(raw1: RawWindowData, raw2: RawWindowData, t1: int, t2: int, now: int,
                             parseHost: UrlPrivacy.HostParser, insertFails: bool)
    requires raw1.appName == raw2.appName && raw1.appName in AppPrivacy.SensitiveApps
    requires !Browser.IsBrowser(raw1.appName)
    ensures var first := Incoming(raw1, t1, parseHost);
            Step(Some(first), Some(Incoming(raw2, t2, parseHost)), now, insertFails)
              == StepResult(Some(first), None, false)
  {
    var first := Incoming(raw1, t1, parseHost);
    var second := Incoming(raw2, t2, parseHost);
    assert first.title == Some(RestrictedActivity) == second.title;
    assert SameContext(first, second);
  }

  /**
   * The same holds on the browser path: two sensitive URLs of one browser
   * both read "Restricted Site" and merge, whatever their page titles.
   */
  lemma SensitiveSitesMerge(raw1: RawWindowData, raw2: RawWindowData, t1: int, t2: int, now: int,
                            parseHost: UrlPrivacy.HostParser, insertFails: bool)
    requires raw1.appName == raw2.appName && Browser.IsBrowser(raw1.appName)
    requires UrlPrivacy.IsUrlSensitive(Browser.DocumentOf(raw1).url, parseHost)
    requires UrlPrivacy.IsUrlSensitive(Browser.DocumentOf(raw2).url, parseHost)
    ensures var first := Incoming(raw1, t1, parseHost);
            Step(Some(first), Some(Incoming(raw2, t2, parseHost)), now, insertFails)
              == StepResult(Some(first), None, false)
  {
    var first := Incoming(raw1, t1, parseHost);
    var second := Incoming(raw2, t2, parseHost);
    assert first.title == Some(RestrictedSite) == second.title;
    assert SameContext(first, second);
  }

  // ---------------------------------------------------------------------------
  // Runs of snapshots: where the saves fall over a sequence of calls.

  /** One call: the classified candidate and the tick's clock reading. */
  datatype Tick = Tick(candidate: Option<ActivityEvent>, now: int)

  /** The current session after a sequence of calls, and what each call stored. */
  datatype RunResult = RunResult(final: Option<ActivityEvent>, stored: seq<Option<ActivityEvent>>)

  /** Successive calls from an empty tracker, every save succeeding. */
  function Run(ticks: seq<Tick>): (r: RunResult)
    ensures |r.stored| == |ticks|
    decreases |ticks|
  {
    if ticks == [] then RunResult(None, [])
    else
      var before := Run(ticks[..|ticks| - 1]);
      var last := ticks[|ticks| - 1];
      var step := Step(before.final, last.candidate, last.now, false);
      RunResult(step.next, before.stored + [step.handedOff])
  }

  /** Tick `j` carries a candidate with the same (source, title) as tick `k`'s. */
  predicate SameRun(ticks: seq<Tick>, j: nat, k: nat)
    requires j < |ticks| && k < |ticks|
  {
    ticks[j].candidate.Some? && ticks[k].candidate.Some?
    && SameContext(ticks[j].candidate.value, ticks[k].candidate.value)
  }

  /** The first tick of the maximal run of equal (source, title) that holds tick `j`. */
  function RunStart(ticks: seq<Tick>, j: nat): (s: nat)
    requires j < |ticks| && ticks[j].candidate.Some?
    ensures s <= j && ticks[s].candidate.Some?
    ensures forall k :: s <= k <= j ==>
              ticks[k].candidate.Some? && SameContext(ticks[k].candidate.value, ticks[j].candidate.value)
    ensures s == 0 || !SameRun(ticks, s - 1, j)
  {
    if j > 0 && SameRun(ticks, j - 1, j) then RunStart(ticks, j - 1) else j
  }

  /** Tick `i` ends a run: the tick before it had a candidate and tick `i` is idle or differs. */
  predicate EndsRun(ticks: seq<Tick>, i: nat)
    requires i < |ticks|
  {
    0 < i && ticks[i - 1].candidate.Some? && !SameRun(ticks, i - 1, i)
  }

  /** The open session after the first `n` ticks: the first candidate of the run still going on. */
  function OpenAfter(ticks: seq<Tick>, n: nat): Option<ActivityEvent>
    requires n <= |ticks|
  {
    if n == 0 || ticks[n - 1].candidate.None? then None
    else Some(ticks[RunStart(ticks, n - 1)].candidate.value)
  }

  /** What tick `i` stores: the session of the run it ends, stamped with tick `i`'s time. */
  function StoredAt(ticks: seq<Tick>, i: nat): Option<ActivityEvent>
    requires i < |ticks|
  {
    if EndsRun(ticks, i) then Some(Closed(ticks[RunStart(ticks, i - 1)].candidate.value, ticks[i].now))
    else None
  }

  lemma {:induction false} RunStartOfPrefix(ticks: seq<Tick>, n: nat, j: nat)
    requires j < n <= |ticks| && ticks[j].candidate.Some?
    ensures RunStart(ticks[..n], j) == RunStart(ticks, j)
  {
    assert ticks[..n][j] == ticks[j];
    if j > 0 {
      assert ticks[..n][j - 1] == ticks[j - 1];
      if SameRun(ticks, j - 1, j) {
        RunStartOfPrefix(ticks, n, j - 1);
      }
    }
  }

  lemma StoredAtOfPrefix(ticks: seq<Tick>, n: nat, i: nat)
    requires i < n <= |ticks|
    ensures StoredAt(ticks[..n], i) == StoredAt(ticks, i)
  {
    assert ticks[..n][i] == ticks[i];
    if 0 < i {
      assert ticks[..n][i - 1] == ticks[i - 1];
      if EndsRun(ticks, i) {
        RunStartOfPrefix(ticks, n, i - 1);
      }
    }
  }

  lemma OpenAfterOfPrefix(ticks: seq<Tick>, n: nat)
    requires n <= |ticks|
    ensures OpenAfter(ticks[..n], n) == OpenAfter(ticks, n)
  {
    if n > 0 {
      assert ticks[..n][n - 1] == ticks[n - 1];
      if ticks[n - 1].candidate.Some? {
        RunStartOfPrefix(ticks, n, n - 1);
      }
    }
  }

  /** Dropping the last tick changes neither what the earlier ticks store nor the session they leave open. */
  lemma PrefixAgrees(ticks: seq<Tick>)
    requires ticks != []
    ensures OpenAfter(ticks[..|ticks| - 1], |ticks| - 1) == OpenAfter(ticks, |ticks| - 1)
    ensures forall i :: 0 <= i < |ticks| - 1 ==> StoredAt(ticks[..|ticks| - 1], i) == StoredAt(ticks, i)
  {
    var n := |ticks|;
    forall i | 0 <= i < n - 1
      ensures StoredAt(ticks[..n - 1], i) == StoredAt(ticks, i)
    {
      StoredAtOfPrefix(ticks, n - 1, i);
    }
    OpenAfterOfPrefix(ticks, n - 1);
  }

  /** From the session the earlier ticks leave open, the last tick does what its run position says. */
  lemma LastTickAgrees(ticks: seq<Tick>)
    requires ticks != []
    ensures var last := ticks[|ticks| - 1];
            var step := Step(OpenAfter(ticks, |ticks| - 1), last.candidate, last.now, false);
            step.next == OpenAfter(ticks, |ticks|) && step.handedOff == StoredAt(ticks, |ticks| - 1)
  {
    var n := |ticks|;
    if n > 1 && ticks[n - 2].candidate.Some? && ticks[n - 1].candidate.Some? {
      var s := ticks[RunStart(ticks, n - 2)].candidate.value;
      assert SameContext(s, ticks[n - 1].candidate.value) <==> SameRun(ticks, n - 2, n - 1);
    }
  }

  /**
   * Over any sequence of calls in which every save succeeds, a session is
   * stored exactly at each tick that ends a maximal run of equal (source,
   * title); it is the run's first candidate, ended at that tick's time. A run
   * still going on at the end is the open session and is not stored.
   */
  lemma {:induction false} RunStoresAtRunEnds(ticks: seq<Tick>)
    ensures Run(ticks).final == OpenAfter(ticks, |ticks|)
    ensures forall i :: 0 <= i < |ticks| ==> Run(ticks).stored[i] == StoredAt(ticks, i)
  {
    if ticks != [] {
      var n := |ticks|;
      var prefix := ticks[..n - 1];
      RunStoresAtRunEnds(prefix);
      PrefixAgrees(ticks);
      LastTickAgrees(ticks);
      var before := Run(prefix);
      var last := ticks[n - 1];
      var step := Step(before.final, last.candidate, last.now, false);
      assert Run(ticks) == RunResult(step.next, before.stored + [step.handedOff]);
    }
  }

  /**
   * The clock reading of every later call is at least the start time of any
   * earlier candidate. The code has this only from the wall clock, which it
   * reads afresh on each call.
   */
  predicate ClockNeverPrecedesStarts(ticks: seq<Tick>)
  {
    forall k, m :: 0 <= k < m < |ticks| && ticks[k].candidate.Some? ==>
      ticks[k].candidate.value.startTime <= ticks[m].now
  }

  /** With such a clock, every stored session ends no earlier than it started. */
  lemma {:induction false} StoredSessionsEndAfterStart(ticks: seq<Tick>)
    requires ClockNeverPrecedesStarts(ticks)
    ensures forall i :: 0 <= i < |ticks| && Run(ticks).stored[i].Some? ==>
              Run(ticks).stored[i].value.endTime.Some?
              && Run(ticks).stored[i].value.startTime <= Run(ticks).stored[i].value.endTime.value
  {
    RunStoresAtRunEnds(ticks);
    forall i | 0 <= i < |ticks| && Run(ticks).stored[i].Some?
      ensures Run(ticks).stored[i].value.endTime.Some?
      ensures Run(ticks).stored[i].value.startTime <= Run(ticks).stored[i].value.endTime.value
    {
      assert EndsRun(ticks, i);
      var s := RunStart(ticks, i - 1);
      assert ticks[s].candidate.value.startTime <= ticks[i].now;
    }
  }

  /**
   * The end-to-end scenario: (A, "T1"), (A, "T1"), (B, "T2"), (B, "T2"), idle
   * at times 0 to 4 stores A's session from 0 to 2 at tick 2 and B's from 2
   * to 4 at tick 4, and leaves nothing open.
   */
  lemma TwoSessionsScenario(a: ActivityEvent, b: ActivityEvent)
    requires a.source != b.source
    ensures var a1 := a.(startTime := 1);
            var b3 := b.(startTime := 3);
            var ticks := [Tick(Some(a), 0), Tick(Some(a1), 1), Tick(Some(b), 2), Tick(Some(b3), 3), Tick(None, 4)];
            Run(ticks) == RunResult(None, [None, None, Some(Closed(a, 2)), None, Some(Closed(b, 4))])
  {
    var a1 := a.(startTime := 1);
    var b3 := b.(startTime := 3);
    var ticks := [Tick(Some(a), 0), Tick(Some(a1), 1), Tick(Some(b), 2), Tick(Some(b3), 3), Tick(None, 4)];
    var p4 := [Tick(Some(a), 0), Tick(Some(a1), 1), Tick(Some(b), 2), Tick(Some(b3), 3)];
    var p3 := [Tick(Some(a), 0), Tick(Some(a1), 1), Tick(Some(b), 2)];
    var p2 := [Tick(Some(a), 0), Tick(Some(a1), 1)];
    var p1 := [Tick(Some(a), 0)];
    assert ticks[..4] == p4 && p4[..3] == p3 && p3[..2] == p2 && p2[..1] == p1 && p1[..0] == [];
    assert Run(p1) == RunResult(Some(a), [None]);
    assert Run(p2) == RunResult(Some(a), [None, None]);
    assert Run(p3) == RunResult(Some(b), [None, None, Some(Closed(a, 2))]);
    assert Run(p4) == RunResult(Some(b), [None, None, Some(Closed(a, 2)), None]);
  }

  // ---------------------------------------------------------------------------
  // What reaches the store.

  /** The rows the store holds for a sequence of stored sessions. */
  function RowsOf(events: seq<ActivityEvent>): (rows: seq<Row>)
    requires forall i :: 0 <= i < |events| ==> events[i].endTime.Some?
    ensures |rows| == |events|
    ensures forall i :: 0 <= i < |events| ==> rows[i] == ToRow(events[i])
  {
    if events == [] then []
    else RowsOf(events[..|events| - 1]) + [ToRow(events[|events| - 1])]
  }

  /** Handing one more closed, redacted session to the store keeps the rows in step with the hand-offs. */
  lemma RowsOfAppend(events: seq<ActivityEvent>, e: ActivityEvent)
    requires forall i :: 0 <= i < |events| ==> events[i].endTime.Some? && Redacted(events[i])
    requires e.endTime.Some? && Redacted(e)
    ensures forall i :: 0 <= i < |events + [e]| ==> (events + [e])[i].endTime.Some? && Redacted((events + [e])[i])
    ensures RowsOf(events + [e]) == RowsOf(events) + [ToRow(e)]
  {
    assert (events + [e])[..|events|] == events;
  }

  /**
   * The tracker's bookkeeping over values: the current session `cur` is
   * redacted, every session in the log `log` is closed and redacted, and the
   * table `rows` is the rows `base` it started from plus one row per logged
   * session, in order.
   */
  ghost predicate Tracks(cur: Option<ActivityEvent>, log: seq<ActivityEvent>, base: seq<Row>, rows: seq<Row>)
  {
    && (cur.Some? ==> Redacted(cur.value))
    && (forall i :: 0 <= i < |log| ==> log[i].endTime.Some? && Redacted(log[i]))
    && rows == base + RowsOf(log)
  }

  /** Stamping the current session with an end time keeps the bookkeeping. */
  lemma StampKeepsTracking(cur: Option<ActivityEvent>, log: seq<ActivityEvent>, base: seq<Row>, rows: seq<Row>, endTime: int)
    requires Tracks(cur, log, base, rows) && cur.Some?
    ensures Tracks(Some(Closed(cur.value, endTime)), log, base, rows)
  {
  }

  /** Adopting a redacted candidate as the current session keeps the bookkeeping. */
  lemma AdoptKeepsTracking(cur: Option<ActivityEvent>, log: seq<ActivityEvent>, base: seq<Row>, rows: seq<Row>, e: ActivityEvent)
    requires Tracks(cur, log, base, rows) && Redacted(e)
    ensures Tracks(Some(e), log, base, rows)
  {
  }

  /** Storing a closed, redacted session and clearing the current one keeps the bookkeeping. */
  lemma HandOffKeepsTracking(cur: Option<ActivityEvent>, log: seq<ActivityEvent>, base: seq<Row>, rows: seq<Row>, e: ActivityEvent)
    requires Tracks(cur, log, base, rows) && e.endTime.Some? && Redacted(e)
    ensures Tracks(None, log + [e], base, rows + [ToRow(e)])
  {
    RowsOfAppend(log, e);
  }

  /** The default the repository stores is the name of the strategies' `window_api` capture method. */
  lemma DefaultIsWindowApiName()
    ensures BrowserStrategy.MethodName(BrowserStrategy.WindowApi) == DefaultCaptureMethod
  {
  }

  /**
   * Redaction reaches the store: the row of every stored event that the
   * applicable filter flagged carries the placeholder title, no content and
   * `is_sensitive = 1`.
   */
  lemma {:induction false} StoredRowIsRedacted(raw: RawWindowData, normalizeTime: int, endTime: int,
                                              parseHost: UrlPrivacy.HostParser)
    requires if Browser.IsBrowser(raw.appName)
             then UrlPrivacy.IsUrlSensitive(Browser.DocumentOf(raw).url, parseHost)
             else AppPrivacy.IsSensitive(raw.appName, Some(raw.title))
    ensures var row := ToRow(Closed(Incoming(raw, normalizeTime, parseHost), endTime));
            row.isSensitive == 1 && row.content == None
            && (row.title == Some(RestrictedSite) || row.title == Some(RestrictedActivity))
  {
    var e := Incoming(raw, normalizeTime, parseHost);
    assert e.isSensitive && Redacted(e);
  }

  /**
   * The stored capture method is always the default: classification never
   * passes on the method the strategy found, so even a Chrome window whose
   * URL came through accessibility is stored as `window_api`.
   */
  lemma StoredCaptureMethodIsAlwaysDefault(raw: RawWindowData, normalizeTime: int, endTime: int,
                                           parseHost: UrlPrivacy.HostParser)
    ensures ToRow(Closed(Incoming(raw, normalizeTime, parseHost), endTime)).captureMethod == DefaultCaptureMethod
    ensures Browser.IsBrowser(raw.appName) && BrowserStrategy.HasUrl(raw.url) ==>
              BrowserStrategy.MethodName(Browser.DocumentOf(raw).captureMethod) == "accessibility"
  {
  }

  // ---------------------------------------------------------------------------
  // The tracker object.

  class SessionMonitor {
    /** The single open session, if any. */
    var currentSession: Option<ActivityEvent>
    const repository: ActivityRepository
    /** The URL parser the document-level privacy filter uses. */
    const parseHost: UrlPrivacy.HostParser
    /** Every session stored so far, in order. */
    ghost var handedOff: seq<ActivityEvent>
    /** The rows the table held before this tracker was built. */
    ghost const initialRows: seq<Row>

    ghost predicate Valid()
      reads this, repository
    {
      && repository.Valid()
      && Tracks(currentSession, handedOff, initialRows, repository.rows)
    }

    constructor (repository: ActivityRepository, parseHost: UrlPrivacy.HostParser)
      requires repository.Valid()
      ensures Valid()
      ensures this.repository == repository && this.parseHost == parseHost
      ensures currentSession == None && handedOff == [] && initialRows == repository.rows
    {
      this.repository := repository;
      this.parseHost := parseHost;
      currentSession := None;
      handedOff := [];
      initialRows := repository.rows;
    }

    /**
     * `processSnapshot(raw)`. `now` is the tick's clock reading, the end time
     * of a session closed by this call; `normalizeTime` is the start time the
     * generic classifier gives its candidate; `insertFails` says whether the
     * store's insert fails. `threw` reports that the store's error escaped.
     */
    method ProcessSnapshot(raw: Option<RawWindowData>, now: int, normalizeTime: int, insertFails: bool)
      returns (threw: bool)
      requires Valid()
      modifies this, repository
      ensures Valid()
      ensures var r := Step(old(currentSession), IncomingOf(raw, normalizeTime, parseHost), now, insertFails);
              && currentSession == r.next
              && threw == r.threw
              && handedOff == old(handedOff) + OptionToSeq(r.handedOff)
              && repository.rows == old(repository.rows) + (if r.handedOff.Some? then [ToRow(r.handedOff.value)] else [])
    {
      if raw.None? {
        threw := CloseCurrentSession(now, insertFails);
        return;
      }
      var incoming := Incoming(raw.value, normalizeTime, parseHost);
      if currentSession.None? {
        AdoptKeepsTracking(currentSession, handedOff, initialRows, repository.rows, incoming);
        currentSession := Some(incoming);
        return false;
      }
      var isSameApp := currentSession.value.source == incoming.source;
      var isSameTitle := currentSession.value.title == incoming.title;
      if isSameApp && isSameTitle {
        return false;
      }
      threw := CloseCurrentSession(now, insertFails);
      if threw {
        return;
      }
      AdoptKeepsTracking(currentSession, handedOff, initialRows, repository.rows, incoming);
      currentSession := Some(incoming);
    }

    /** `closeCurrentSession(endTime)`. */
    method CloseCurrentSession(endTime: int, insertFails: bool) returns (threw: bool)
      requires Valid()
      modifies this, repository
      ensures Valid()
      ensures var r := CloseStep(old(currentSession), endTime, insertFails);
              && currentSession == r.next
              && threw == r.threw
              && handedOff == old(handedOff) + OptionToSeq(r.handedOff)
              && repository.rows == old(repository.rows) + (if r.handedOff.Some? then [ToRow(r.handedOff.value)] else [])
    {
      threw := false;
      if currentSession.Some? {
        var closed := Closed(currentSession.value, endTime);
        ghost var r := CloseStep(currentSession, endTime, insertFails);
        currentSession := Some(closed);
        var outcome := repository.SaveActivity(closed, insertFails);
        if outcome == Threw {
          assert r == StepResult(Some(closed), None, true);
          StampKeepsTracking(old(currentSession), handedOff, initialRows, repository.rows, endTime);
          return true;
        }
        assert r == StepResult(None, Some(closed), false);
        HandOffKeepsTracking(old(currentSession), handedOff, initialRows, old(repository.rows), closed);
        handedOff := handedOff + [closed];
        currentSession := None;
      }
    }
  }
}
