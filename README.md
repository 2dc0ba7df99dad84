# Activity logger session pipeline, in Dafny

This project models the per-tick pipeline of the LifeRecallAI activity
logger. Each tick takes one sample of the foreground window and classifies
it into a candidate activity event. A browser goes through the first
matching strategy, Chromium family or Firefox family. Any other
application goes through the generic normalizer. Each candidate is redacted
by the privacy filter that applies to it. The session tracker then opens,
continues or closes the single current session. Closing stamps the end time
onto the session and hands it to the repository, which inserts one row into
the `activities` table.

The model follows the code as written, including where it differs from the
intended design (see "Divergences" below).

Files, one module each:

- `text.dfy` (`Text`): ASCII lower-casing, `includes` and `lastIndexOf` as substring search, and a character-by-character case-blind match that stands for the `/i` regular expressions.
- `activity_types.dfy` (`ActivityTypes`): `RawWindowData`, `ActivityEvent`, the five event types, the two redaction placeholders and the `Redacted` invariant.
- `privacy_filter.dfy` (`AppPrivacy`): the application-level filter.
- `browser_privacy_filter.dfy` (`UrlPrivacy`): the document-level filter.
- `base_strategy.dfy` (`BrowserStrategy`): the strategy result type, the three capture methods and the URL rule that both strategies use.
- `chrome_strategy.dfy` (`Chrome`) and `firefox_strategy.dfy` (`Firefox`): the two strategies.
- `browser_monitor.dfy` (`Browser`): first-match dispatch, document redaction and construction of the `URL` event.
- `activity_normalizer.dfy` (`Normalizer`): the generic `APP` event.
- `activity_repository.dfy` (`Repository`): the `ActivityRepository` class. Its table is a `seq<Row>` field and `SaveActivity` appends to it.
- `session_monitor.dfy` (`Sessions`): the pure transition `Step`, the run theorem over sequences of calls, and the `SessionMonitor` class. The class has the `currentSession` field, a reference to the repository and a ghost log of the sessions it stored.

Inputs the code gets from outside are parameters:

- The wall clock has two reads. `now` is the read at the start of `processSnapshot`, used as the close time. `normalizeTime` is the generic normalizer's own `new Date()`, used as its start time. A browser event starts at the sample's `timestamp`.
- The URL parser is a function `HostParser` from the URL text to its hostname. `None` means the URL does not parse.
- The database's insert failure is the flag `insertFails`.
- The window sampler's result is an `Option<RawWindowData>`.

## Model

| member | source | states |
|---|---|---|
| `AppPrivacy.HasPrivateKeyword` | src/main/activity-logger/filters/privacy.filter.ts:27-31 | holds exactly when the title contains `incognito`, `private browsing` or `inprivate` in any ASCII case, each matched character by character against the lower-cased title |
| `AppPrivacy.IsSensitive` | src/main/activity-logger/filters/privacy.filter.ts:20-38 | sensitive exactly when the app name is in the set, or a present title contains a private-browsing keyword in any ASCII case; false otherwise |
| `AppPrivacy.NoTitleMeansAppCheckOnly` | src/main/activity-logger/filters/privacy.filter.ts:26 | with an absent or empty title, only set membership of the app name decides |
| `AppPrivacy.AppSetIsCaseSensitive` | src/main/activity-logger/filters/privacy.filter.ts:3-23 | `KeePass` is sensitive for every title, absent or present; `keepass` is not in the set, so it is sensitive exactly when a present title holds a private-browsing keyword (so not with the title `Vault`) |
| `AppPrivacy.KeywordMatchIgnoresCase` | src/main/activity-logger/filters/privacy.filter.ts:26-34 | the title `New tab - InPrivate` is sensitive for every application name |
| `UrlPrivacy.SensitiveHost` | src/main/activity-logger/filters/browser-privacy.filter.ts:22-24 | holds exactly when some listed entry occurs in the hostname in any ASCII case |
| `UrlPrivacy.IsUrlSensitive` | src/main/activity-logger/filters/browser-privacy.filter.ts:17-29 | an absent or empty URL is not sensitive; an unparseable one is not sensitive; otherwise sensitive exactly when the lower-cased hostname contains some listed domain |
| `UrlPrivacy.UnparseableUrlIsNotSensitive` | src/main/activity-logger/filters/browser-privacy.filter.ts:20-28 | fail-open: a URL the parser rejects is never sensitive |
| `UrlPrivacy.OnlyHostnameMatters` | src/main/activity-logger/filters/browser-privacy.filter.ts:21-24 | two non-empty URLs with the same parsed hostname get the same verdict, so the path is never inspected |
| `UrlPrivacy.BankHostIsSensitive` | src/main/activity-logger/filters/browser-privacy.filter.ts:10-24 | any hostname containing `bank`, in any ASCII case, is sensitive |
| `UrlPrivacy.SlashEntryNeverMatches` | src/main/activity-logger/filters/browser-privacy.filter.ts:6-24 | the entry `github.com/login` never matches a hostname without `/` |
| `Text.LastIndexOf` | src/main/activity-logger/monitors/browser/firefox.strategy.ts:13-18 | -1 exactly when the pattern does not occur; otherwise an index where it occurs, with no occurrence after it |
| `Text.ContainsLowerIff` | src/main/activity-logger/filters/privacy.filter.ts:27-31 | searching the lower-cased text for a lower-case word finds it exactly when a character-by-character case-blind match exists |
| `BrowserStrategy.UrlOrNull` | src/main/activity-logger/monitors/browser/chrome.strategy.ts:23 | the URL is kept exactly when it is present and non-empty; the empty string becomes null |
| `BrowserStrategy.MethodFor` | src/main/activity-logger/monitors/browser/chrome.strategy.ts:26 | `accessibility` exactly when a non-empty URL is present, otherwise `window_api`; never `fallback` |
| `BrowserStrategy.MethodNameIsInjective` | src/main/activity-logger/monitors/browser/base.strategy.ts:5 | distinct capture methods are written as distinct strings |
| `BrowserStrategy.MethodName` | src/main/activity-logger/monitors/browser/base.strategy.ts:5 | each capture method is written as a non-empty string |
| `Chrome.IsSupported` | src/main/activity-logger/monitors/browser/chrome.strategy.ts:14-16 | supported exactly when the name is in the exact, case-sensitive set, or contains `chrome`, `edge`, `brave` or `opera` in any ASCII case |
| `Chrome.Process` | src/main/activity-logger/monitors/browser/chrome.strategy.ts:18-28 | title and browser name pass through unchanged; URL and capture method follow the shared URL rule |
| `Chrome.LowerCaseNamesMatchNoPattern` | src/main/activity-logger/monitors/browser/chrome.strategy.ts:14-15 | `vivaldi` and `cent browser` contain none of `chrome`, `edge`, `brave`, `opera` |
| `Chrome.RecasedNamesAreUnsupported` | src/main/activity-logger/monitors/browser/chrome.strategy.ts:4-16 | every name that lower-cases to `vivaldi`, `arc` or `cent browser` and is not in the exact set is unsupported |
| `Chrome.ExactOnlyNames` | src/main/activity-logger/monitors/browser/chrome.strategy.ts:4-16 | `Vivaldi`, `Arc` and `Cent Browser` are supported; `vivaldi`, `ARC` and `cent browser` are not |
| `Firefox.IsSupported` | src/main/activity-logger/monitors/browser/firefox.strategy.ts:4-6 | supported exactly when the name contains `firefox`, `nightly` or `librewolf` in any ASCII case |
| `Firefox.CleanTitle` | src/main/activity-logger/monitors/browser/firefox.strategy.ts:11-22 | the result is a prefix of the title. It ends where the last occurrence of the line-13 literal starts; failing that, where the last `' - Mozilla Firefox'` starts; with neither, it is the whole title |
| `Firefox.Process` | src/main/activity-logger/monitors/browser/firefox.strategy.ts:8-30 | the title is the cleaned title; browser name, URL and capture method follow the Chromium rule |
| `Firefox.HyphenTitleIsCleaned` | src/main/activity-logger/monitors/browser/firefox.strategy.ts:18-21 | `"Example Page"` followed by `' - Mozilla Firefox'` becomes `"Example Page"` |
| `Firefox.MangledTitleIsCleaned` | src/main/activity-logger/monitors/browser/firefox.strategy.ts:13-15 | `"Example Page"` followed by the line-13 literal becomes `"Example Page"` |
| `Firefox.EmDashTitleIsNotCleaned` | src/main/activity-logger/monitors/browser/firefox.strategy.ts:13-21 | the title `"Example Page — Mozilla Firefox"`, with a real em-dash (U+2014), is left unchanged because neither literal occurs in it |
| `Firefox.MangledSuffixTakesPrecedence` | src/main/activity-logger/monitors/browser/firefox.strategy.ts:13-22 | `"A"`, then the hyphen suffix, then the line-13 literal becomes `"A"` plus the hyphen suffix: the line-13 literal is searched first |
| `Firefox.TrailingTextIsDropped` | src/main/activity-logger/monitors/browser/firefox.strategy.ts:18-21 | text after the hyphen suffix is dropped with it, for any page and tail free of `-` and U+00E2 |
| `Firefox.PrivateMarkerIsDropped` | src/main/activity-logger/monitors/browser/firefox.strategy.ts:18-21 | `"Page"`, then `' - Mozilla Firefox'`, then `" (Private Browsing)"` becomes `"Page"` |
| `Browser.IsBrowser` | src/main/activity-logger/monitors/browser.monitor.ts:22-24 | a browser exactly when the Chromium or the Firefox strategy supports the name |
| `Browser.FirstSupporting` | src/main/activity-logger/monitors/browser.monitor.ts:30 | the index found supports the app and no earlier strategy does; `None` only when no strategy supports it |
| `Browser.FindStrategy` | src/main/activity-logger/monitors/browser.monitor.ts:12-30 | Chromium is chosen exactly when it supports the app; Firefox exactly when it does and Chromium does not; none exactly when the app is not a browser |
| `Browser.IsBrowserIffStrategyFound` | src/main/activity-logger/monitors/browser.monitor.ts:22-24 | `isBrowser` holds exactly when the dispatch finds a strategy |
| `Browser.OverlapGoesToChrome` | src/main/activity-logger/monitors/browser.monitor.ts:12-15 | `Edge Nightly` matches both patterns and goes to Chromium |
| `Browser.DocumentOf` | src/main/activity-logger/monitors/browser.monitor.ts:30-48 | with no strategy: the raw title, no URL, `fallback`; `fallback` exactly for non-browsers; Chromium keeps the title, Firefox cleans it; a URL is present exactly for a browser with a non-empty raw URL; for a browser the method is `accessibility` exactly when the raw URL is non-empty |
| `Browser.Process` | src/main/activity-logger/monitors/browser.monitor.ts:29-66 | type `URL`, source the app name, start the sample's timestamp, no end time, no capture method. Sensitivity is the URL filter on the document URL. If sensitive: `Restricted Site` and no content; otherwise the document title and URL |
| `Browser.SensitivityIgnoresTitle` | src/main/activity-logger/monitors/browser.monitor.ts:50 | samples with the same app and URL get the same verdict whatever their titles |
| `Browser.IncognitoChromeIsNotRedacted` | src/main/activity-logger/monitors/browser.monitor.ts:50-52 | a Chrome window titled `New Tab - Incognito` is flagged by the application filter yet stays unredacted |
| `Browser.CaptureMethodIsDropped` | src/main/activity-logger/monitors/browser.monitor.ts:47-65 | a Chrome window with a URL has capture method `accessibility`, but the event carries none |
| `Normalizer.Normalize` | src/main/activity-logger/normalizers/activity.normalizer.ts:15-33 | type `APP`, source the app name, start the clock reading, no end time, no capture method. Sensitivity is the application filter on the title. If sensitive: `Restricted Activity`, no content; otherwise title and content are the raw title |
| `Normalizer.StartTimeIgnoresSampleTimestamp` | src/main/activity-logger/normalizers/activity.normalizer.ts:29 | the sample's timestamp has no effect on the event |
| `Normalizer.SensitiveSampleIsRedacted` | src/main/activity-logger/normalizers/activity.normalizer.ts:17-22 | a listed app or a keyword title yields the placeholder, no content and the flag set |
| `Repository.StoredCaptureMethod` | src/main/activity-logger/persistence/activity.repository.ts:63 | the event's capture method when non-empty, otherwise `window_api`; never empty |
| `Repository.ToRow` | src/main/activity-logger/persistence/activity.repository.ts:54-64 | status `PENDING`, `is_sensitive` is 1 exactly when the flag holds (else 0), type, source, title, content and times copied, capture method as above |
| `Repository.EventsWithoutMethodStoreDefault` | src/main/activity-logger/persistence/activity.repository.ts:63 | an event without a capture method is stored as `window_api` |
| `Repository.ActivityRepository.SaveActivity` | src/main/activity-logger/persistence/activity.repository.ts:23-70 | no end time: nothing inserted and no error. Otherwise exactly one row is appended with earlier rows untouched, or, if the insert fails, the table is unchanged and the error goes to the caller. The table stays well-formed |
| `Sessions.Incoming` | src/main/activity-logger/monitors/session.monitor.ts:31-37 | a browser gives a `URL` event starting at the sample time, redacted by URL; any other app gives an `APP` event starting at the normalizer's clock reading, redacted by the app filter; always open, always `Redacted` |
| `Sessions.SameContext` | src/main/activity-logger/monitors/session.monitor.ts:48-51 | two events continue one session exactly when they differ in nothing but type, content, times, sensitivity flag and capture method |
| `Sessions.Closed` | src/main/activity-logger/monitors/session.monitor.ts:69 | the end time is set to the given time and every other field is kept; a redacted event stays redacted |
| `Sessions.CloseStep` | src/main/activity-logger/monitors/session.monitor.ts:67-77 | with no session: nothing. Otherwise the session is stamped with the end time. On success it is stored and cleared; on failure the stamped session stays current and the error escapes |
| `Sessions.Step` | src/main/activity-logger/monitors/session.monitor.ts:22-62 | stores at most the old session stamped `now`. A failure keeps the stamped old session and adopts nothing. A session left current is the old one or the candidate. No window leaves none current |
| `Sessions.IdleClosesSession` | src/main/activity-logger/monitors/session.monitor.ts:26-29 | no window with a session open and the save succeeding: that session is stored with end time `now` and none is current |
| `Sessions.IdleWithoutSessionDoesNothing` | src/main/activity-logger/monitors/session.monitor.ts:26-29 | no window and no session: nothing stored, none current |
| `Sessions.FirstSampleOpensSession` | src/main/activity-logger/monitors/session.monitor.ts:40-43 | with no session the candidate becomes current and nothing is stored |
| `Sessions.SameContextContinues` | src/main/activity-logger/monitors/session.monitor.ts:48-54 | same source and title: state unchanged, nothing stored |
| `Sessions.ContextSwitchClosesAndAdopts` | src/main/activity-logger/monitors/session.monitor.ts:55-58 | source or title differs and the save succeeds: the old session is stored with end time `now` and the candidate becomes current |
| `Sessions.FailedSaveKeepsSession` | src/main/activity-logger/monitors/session.monitor.ts:55-75 | when the close's save fails, the session is not cleared (it keeps the stamped end time), the candidate is not adopted and the error escapes |
| `Sessions.SensitiveTitlesMerge` | src/main/activity-logger/monitors/session.monitor.ts:33-49 | two different titles of one listed non-browser app compare equal after redaction and continue one session |
| `Sessions.SensitiveSitesMerge` | src/main/activity-logger/monitors/session.monitor.ts:33-49 | two sensitive URLs in one browser both read `Restricted Site` and continue one session |
| `Sessions.RunStoresAtRunEnds` | src/main/activity-logger/monitors/session.monitor.ts:39-76 | over any sequence of calls with successful saves, a session is stored exactly at each tick ending a maximal run: the run's first candidate, ended at that tick's time. The run still going on at the end is the open session |
| `Sessions.StoredSessionsEndAfterStart` | src/main/activity-logger/monitors/session.monitor.ts:22-76 | if no call's clock reading precedes the start of an earlier candidate, every stored session has an end time no earlier than its start |
| `Sessions.TwoSessionsScenario` | src/main/activity-logger/monitors/session.monitor.ts:22-76 | (A,T1),(A,T1),(B,T2),(B,T2),idle at times 0 to 4 stores A from its start to 2 and B from its start to 4, leaving none open |
| `Sessions.RowsOfAppend` | src/main/activity-logger/monitors/session.monitor.ts:73-75 | storing one more closed, redacted session appends exactly its row to the rows of the earlier ones, and the stored log stays closed and redacted |
| `Sessions.StampKeepsTracking` | src/main/activity-logger/monitors/session.monitor.ts:69 | stamping the current session with its end time keeps the tracker invariant over values |
| `Sessions.AdoptKeepsTracking` | src/main/activity-logger/monitors/session.monitor.ts:40-43 | adopting a redacted candidate as the current session keeps the tracker invariant |
| `Sessions.HandOffKeepsTracking` | src/main/activity-logger/monitors/session.monitor.ts:73-75 | storing a closed, redacted session and clearing the current one keeps the tracker invariant, with exactly that session's row appended |
| `Sessions.DefaultIsWindowApiName` | src/main/activity-logger/persistence/activity.repository.ts:63 | the default stored capture method is the name the strategies write for `window_api` (base.strategy.ts:5) |
| `Sessions.StoredRowIsRedacted` | src/main/activity-logger/monitors/session.monitor.ts:31-37 | a sample the applicable filter flags reaches the table only as a placeholder title, null content and `is_sensitive = 1` |
| `Sessions.StoredCaptureMethodIsAlwaysDefault` | src/main/activity-logger/monitors/browser.monitor.ts:47-65 | every stored row has capture method `window_api`, even when the strategy found `accessibility` |
| `Sessions.SessionMonitor.constructor` | src/main/activity-logger/monitors/session.monitor.ts:7-16 | the tracker starts with no current session, over the given repository |
| `Sessions.SessionMonitor.ProcessSnapshot` | src/main/activity-logger/monitors/session.monitor.ts:22-62 | performs `Step` on its fields; the repository gains exactly the row of what `Step` stores; the tracker invariant is kept |
| `Sessions.SessionMonitor.CloseCurrentSession` | src/main/activity-logger/monitors/session.monitor.ts:67-77 | performs `CloseStep` on its fields, stamping the end time in place before the save |

The tracker invariant `SessionMonitor.Valid` is the repository's own
invariant plus `Sessions.Tracks` on the tracker's fields. Together they say
four things. The current session is redacted. Every stored session has an
end time and is redacted. The table is the rows it had before the tracker
plus one row per stored session, in order. Every row appended since the
table was opened is `PENDING`, has `is_sensitive` 0 or 1, and has a
non-empty capture method; rows the table held when it was opened are
unconstrained.

## Divergences between the code and the intended design

The model follows the code in each case. The lemmas named here could not be
proved otherwise.

- Store failure. The design drops the session and clears the tracker. In the code the insert error is re-thrown out of `saveActivity` and out of `processSnapshot`, and the tick loop swallows it. So `currentSession = null` and the adoption of the new candidate never run, and the session stays current with its stamped end time (`Sessions.FailedSaveKeepsSession`).
- Zero-gap sessions. The design gives every candidate the tick's time as its start. In the code a generic event starts at a second clock read. A browser event starts at the sample's own timestamp. So a session's start need not equal the previous session's end (`Normalizer.StartTimeIgnoresSampleTimestamp`, `Browser.Process`).
- Capture method. The strategy computes it, but the browser event never carries it. Every row is therefore stored with the default `window_api` (`Browser.CaptureMethodIsDropped`, `Sessions.StoredCaptureMethodIsAlwaysDefault`).
- Browser privacy. Private-browsing keywords in a browser title are never checked. Only the URL decides (`Browser.IncognitoChromeIsNotRedacted`, `Browser.SensitivityIgnoresTitle`).
- Firefox suffixes. The em-dash literal in the source text is mis-encoded as U+00E2 U+20AC U+201D. A title with a real em-dash and no other suffix, such as `Example Page — Mozilla Firefox`, is not cleaned (`Firefox.EmDashTitleIsNotCleaned`).
- Browser fallback. The design gives the raw title as content and `fallback` as the capture method. In the code the content is null, and this path is reached only for a non-browser, which the tracker never sends there (`Browser.DocumentOf`).
- Domain list. The entry `github.com/login` can never match a hostname (`UrlPrivacy.SlashEntryNeverMatches`).

## Left out

- The scheduler and tick loop in `src/main/activity-logger/index.ts` (timer, async tick, start/stop guard) are not modelled. Only their effect matters here: the tick catches any error from `processSnapshot`, which the model surfaces as the result `threw`.
- The window sampler in `src/main/activity-logger/monitors/window.monitor.ts` is foreign (`active-win`, `process.platform`). Its result is the input `Option<RawWindowData>`.
- `getRecentActivities`, the date utilities and the setup and test scripts are left out. They are SQL ordering, locale formatting and file-system work outside the pipeline.
- The repository's constructor is modelled as opening a table that already holds some rows; the database file path and the WAL pragma are left out. The database engine and schema are not modelled: the table is a sequence of rows and an insert failure is the input `insertFails`.
- Other writers of the table are not modelled. The downstream enrichment that rewrites `processing_status` runs in another process; the model treats the table as changed only by `saveActivity` while the logger runs.
- The clock reads (`now`, the normalizer's own `new Date()`, the sample's `timestamp`) are independent inputs, and the model does not relate them. That a stored session never ends before it starts holds only under the wall-clock assumption `Sessions.ClockNeverPrecedesStarts` (`Sessions.StoredSessionsEndAfterStart`); with unrelated readings a session can be stored ending before its start, since `Sessions.IdleClosesSession` stamps any open session with `now` whatever its start.
- Timestamps are integers. `Date` conversions and `toISOString` are not modelled, so neither is its `RangeError` on an invalid date.
- URL parsing (section 4.4 of the WHATWG URL Standard) is the parameter `HostParser`.
- `toLowerCase` and the `/i` regular expressions are modelled as ASCII lower-casing plus substring search. Non-ASCII case mappings are not captured.
- Characters are Unicode scalar values, not UTF-16 code units. For titles outside the Basic Multilingual Plane, `lastIndexOf` positions are not captured.
- Log messages (`console.warn`, `console.error`) are left out.
- Object identity is not captured. The source hands the very object held in `currentSession` to the repository, and the model passes a value. Nothing observable differs: the row is a copy, and after a successful save the tracker drops its reference.
- The event field `type` is named `eventType`, because `type` is a Dafny keyword.
