# MOCO_Ai session lifecycle, frustration scoring and report display, in Dafny

MOCO_Ai audits the UX of a web page on behalf of a persona:
1. A client POSTs a url and a persona.
2. The backend creates a `pending` session and answers 201 at once.
3. A background `runAnalysis` walks the session through `exploring/20`, `generating/50`, progress 80, a stored report and `completed/100`. A failure at any point ends it as `failed/0`, unless the store refuses that write too.
4. The report page polls `GET /api/sessions/:id` until the status is terminal, then shows a dashboard derived from the report.

This project models those three pieces and proves their properties.

- `js.dfy` (module `Js`): the JavaScript semantics the code relies on.
  - Optional values and JSON values.
  - Truthiness of an optional string.
  - `Math.round`.
  - Numbers are exact rationals (`real`).
- `ux_analyzer.dfy` (module `UXAnalyzer`): `calculateRageQuitProbability` and `generateHeatmapData`.
  - Both are pure functions.
  - The probability is also given in whole hundredths, read off the three per-type counts.
- `sessions.dfy` (module `Sessions`): the backend of `backend/src/index.ts`.
  - The class `Backend` owns the session table and the report table, as two maps keyed by session id.
  - Its methods are the store writes, the POST handler, `runAnalysis` and the GET handler.
  - The store invariant `Consistent` holds throughout: ids match their keys, progress stays within 0..100, and a completed session has a report.
  - Which store writes fail is given by a set of `Step`s.
  - The analyzer, `JSON.stringify` and `JSON.parse` are function parameters.
  - A run is given two readings:
    - the code path (`TrySession`, then `CatchWrite`);
    - the step trace (`Attempts`, `Written`, `ApplyAll`).
    
    `RunMatchesTrace` proves the two agree, and the run properties are proved on the trace.
- `report_page.dfy` (module `ReportPage`): the pure rules of `frontend/src/pages/ReportPage.tsx`.
  - When polling continues.
  - Which screen is shown.
  - The score and risk bands.
  - The progress messages.
  - The defaults for absent fields.
  - The fallbacks of a debate entry.
- `end_to_end.dfy` (module `EndToEnd`): how the page reads the GET handler's JSON, plus the facts that span backend and page.

Two facts about the code worth knowing:
- A stored report can remain on a session that ends `failed/0`: when only the completed write is refused, the report survives (`backend/src/index.ts:145-156`). See `Sessions.ReportSurvivesRefusedCompletion`.
- A missing database or AI engine is answered with status 500 (`backend/src/index.ts:69-74`).

## Model

| member | source | states |
|---|---|---|
| Js.Truthy | backend/src/index.ts:66 | JavaScript truthiness of an optional string: absent and the empty string are falsy, as in the `!url` and `!persona` tests here and in the logical-or fallbacks of frontend/src/pages/ReportPage.tsx at lines 61, 290 and 294 |
| Js.MathRound | backend/src/index.ts:126 | the result is the integer within half of x, with halves rounded up (`Math.round`) |
| Js.MathRoundUnique | frontend/src/pages/ReportPage.tsx:312 | any integer in the rounding window of x is `Math.round(x)` |
| Js.MathRoundOfInteger | frontend/src/pages/ReportPage.tsx:312 | rounding an integer gives that integer |
| Js.MathRoundMonotone | frontend/src/pages/ReportPage.tsx:312 | rounding never decreases as its argument grows |
| UXAnalyzer.Count | backend/src/services/UXAnalyzer.ts:12-14 | a filtered count is at most the list length |
| UXAnalyzer.CountZero | backend/src/services/UXAnalyzer.ts:12-14 | a filtered count is 0 exactly when no event matches |
| UXAnalyzer.RageQuitProbability | backend/src/services/UXAnalyzer.ts:10-21 | the probability is always within [0, 1] |
| UXAnalyzer.Hundredths | backend/src/services/UXAnalyzer.ts:16-20 | the result in hundredths is at most 100, and is 100 exactly when 20·clicks + 15·stalls + 10·backtracks reaches 100 |
| UXAnalyzer.ProbabilityInHundredths | backend/src/services/UXAnalyzer.ts:16-20 | the probability equals min(20·rapidClicks + 15·stalls + 10·backtracks, 100) / 100 |
| UXAnalyzer.EmptyIsZero | backend/src/services/UXAnalyzer.ts:10-21 | no events give probability 0 |
| UXAnalyzer.DurationOrZero | backend/src/services/UXAnalyzer.ts:13 | the duration with a logical-or default of 0: an absent duration reads as 0 |
| UXAnalyzer.IsRapidClick | backend/src/services/UXAnalyzer.ts:12 | the rapid-click filter: the event's type is `rapid_click` |
| UXAnalyzer.IsStall | backend/src/services/UXAnalyzer.ts:13 | the stall test: a mouse-still event whose duration, 0 when absent, exceeds 3000 ms |
| UXAnalyzer.IsBacktrack | backend/src/services/UXAnalyzer.ts:14 | the backtrack filter: the event's type is `backtracking` |
| UXAnalyzer.StallRule | backend/src/services/UXAnalyzer.ts:13 | an event is a stall exactly when it is mouse-still with a duration present and above 3000 ms; a missing duration never counts |
| UXAnalyzer.CountAppend | backend/src/services/UXAnalyzer.ts:12-14 | counts add up over concatenation |
| UXAnalyzer.CountPermutation | backend/src/services/UXAnalyzer.ts:12-14 | a count depends only on the multiset of events |
| UXAnalyzer.ReorderingKeepsProbability | backend/src/services/UXAnalyzer.ts:12-20 | reordering the events does not change the probability |
| UXAnalyzer.AppendingNeverLowers | backend/src/services/UXAnalyzer.ts:12-20 | appending an event never lowers the probability |
| UXAnalyzer.FiveRapidClicksSaturate | backend/src/services/UXAnalyzer.ts:16-20 | five or more rapid clicks give exactly 1.0 |
| UXAnalyzer.GenerateHeatmapData | backend/src/services/UXAnalyzer.ts:23-25 | one point per event, in order, with x and y copied; intensity is 1.0 exactly for a rapid click and 0.5 exactly otherwise |
| Sessions.StatusName | backend/src/index.ts:79-155 | the status strings the store holds and the GET handler sends: `pending` at creation, then `exploring`, `generating`, `completed` and `failed` as the run writes them |
| Sessions.FrustrationObject | backend/src/index.ts:129-131 | the serialised frustration object has exactly one key, `rageQuitProb`, holding the analyzer's probability |
| Sessions.Consistent | backend/src/index.ts:97-158 | the store invariant: each session is stored under its own id with progress in 0..100, each report belongs to a stored session, and a completed session has a report |
| Sessions.NewReport | backend/src/index.ts:123-141 | the stored report carries the session id, the summary and the issues one-for-one, `Math.round` of the score, and both JSON fields as text |
| Sessions.WriteOf | backend/src/index.ts:100-155 | the `data` of each session update of the run: exploring/20, generating/50, progress 80 alone, completed/100 and failed/0; the analyzer call and the report insert write no session |
| Sessions.Apply | backend/src/index.ts:117-120 | a session update sets the progress and sets the status only when the update names one, so `data: { progress: 80 }` keeps the status |
| Sessions.TrySucceeds | backend/src/index.ts:98-149 | the try block runs to its end: the analyzer returns and none of the five store writes of the success path is refused |
| Sessions.ReportInserted | backend/src/index.ts:98-141 | the report insert runs and is accepted: the analyzer returns and neither the three session updates before it nor the insert itself is refused |
| Sessions.Attempts | backend/src/index.ts:98-157 | the steps a run attempts: a prefix of the success path, which is all of it exactly when the analyzer returns and no happy-path write is refused, and otherwise followed by the failed/0 write |
| Sessions.Written | backend/src/index.ts:100-156 | the session updates the store accepted among the attempted steps, in order; never more updates than steps |
| Sessions.ApplyAll | backend/src/index.ts:100-156 | the session after the accepted updates in order: id, url and persona unchanged, progress that of the last update |
| Sessions.TrySession | backend/src/index.ts:98-150 | the session as the try block leaves it: each accepted write applied in turn, up to the first step that throws |
| Sessions.TrySessionOutcome | backend/src/index.ts:98-150 | the try block keeps id, url and persona; it ends completed/100 when nothing throws, writes no terminal status when something does, and leaves the session untouched when the first write is refused |
| Sessions.CatchWrite | backend/src/index.ts:151-156 | the catch block's write of failed/0, unless the store refuses that write too |
| Sessions.RunSession | backend/src/index.ts:97-158 | the session a run leaves: the try block, then the catch block's write if it threw |
| Sessions.RunOutcome | backend/src/index.ts:97-158 | a run ends completed/100 when the try block succeeds, failed/0 when it throws and the failure write is accepted, and otherwise as the try block left it, with a status that was the initial one or exploring or generating; id, url and persona never change |
| Sessions.FirstThrow | backend/src/index.ts:98-150 | the index of the first step of the try block that throws: every earlier step succeeds and that one throws |
| Sessions.HappyPathAttempts | backend/src/index.ts:98-150 | with the analyzer returning and no happy-path write refused, the run attempts exactly the six try-block steps |
| Sessions.AttemptsThrowing | backend/src/index.ts:151-157 | when anything throws, the last attempted step is the failed/0 write |
| Sessions.HappyPathWrites | backend/src/index.ts:100-148 | the success path writes exactly exploring/20, generating/50, progress 80 and completed/100, with rising progress, ends completed/100 and stores the report |
| Sessions.NoReportWithoutAnalysis | backend/src/index.ts:113-141 | if the analyzer fails, no report is stored |
| Sessions.ReportPrecedesCompletion | backend/src/index.ts:123-148 | the completed write is attempted only right after an accepted report insert |
| Sessions.WrittenComesFromSteps | backend/src/index.ts:100-156 | every accepted session update stems from an attempted step whose write was not refused |
| Sessions.ApplyAllStatus | backend/src/index.ts:100-156 | the final status is the initial one or one written by an accepted update; id, url and persona never change |
| Sessions.HappyPrefixProgressRises | backend/src/index.ts:100-148 | along any prefix of the success path, the written progress strictly rises |
| Sessions.ProgressRisesUntilFailure | backend/src/index.ts:100-156 | on every run, progress strictly rises over the accepted updates, up to the failed/0 write |
| Sessions.FailedRunEndsFailed | backend/src/index.ts:151-156 | a run that throws, with the failure write accepted, ends failed/0 |
| Sessions.SwallowedFailureLeavesSessionStuck | backend/src/index.ts:153-156 | when the failure write is refused too, the session keeps its last written state and a pending session never becomes terminal |
| Sessions.CompletedExactlyOnHappyPath | backend/src/index.ts:97-158 | a pending session ends completed exactly when the analyzer returns and no happy-path write is refused |
| Sessions.RunMatchesTrace | backend/src/index.ts:97-158 | the code-path reading of a run equals the accepted updates of its attempted steps, applied in order |
| Sessions.ReportMatchesTrace | backend/src/index.ts:113-141 | the report is stored exactly when the trace holds an accepted report insert |
| Sessions.ReportSurvivesRefusedCompletion | backend/src/index.ts:145-156 | when only the completed write is refused, the report stays and the session ends failed/0 |
| Sessions.MissingAnalyzerNeverCompletes | backend/src/index.ts:113 | when the analyzer call always throws, no report is stored, nothing completes, and an accepted failure write gives failed/0 |
| Sessions.PostOutcome | backend/src/index.ts:66-84 | 400 exactly for a missing or empty url or persona; the database 500 and the AI 500 come after that check, in that order; 201 exactly when every check passes and the insert succeeds, carrying a pending/0 session with url and persona verbatim |
| Sessions.PostStatusCode | backend/src/index.ts:66-93 | the status code of each POST outcome: 400 for missing input, 500 for no database or no AI engine, 201 for a created session, 500 when the insert fails |
| Sessions.DecodeField | backend/src/index.ts:173-178 | a field that is not text is returned as it is; a text field becomes its `JSON.parse`, absent when the parse throws |
| Sessions.Decoded | backend/src/index.ts:170-179 | the returned report keeps every other field; a non-text JSON field stays as stored; a text debate becomes its parse, and if that parse throws both fields stay as stored; once the debate is decoded, a text frustration field becomes its parse, or stays as stored if that parse throws |
| Sessions.StoredReportReadsBack | backend/src/index.ts:123-131 | with a parse that undoes stringify, a stored report reads back with the analyzer's debate, its rage-quit object and the rounded score |
| Sessions.Backend.constructor | backend/src/index.ts:18-36 | empty tables, consistent, with the given availability of the database and the AI engine |
| Sessions.Backend.UpdateSession | backend/src/index.ts:100-103 | a session update succeeds exactly when the write is not refused and the id exists; it changes only that session and keeps the store consistent |
| Sessions.Backend.CreateReport | backend/src/index.ts:123-141 | a report insert succeeds exactly when not refused, the session exists and has no report yet; only the report table changes |
| Sessions.Backend.CreateSession | backend/src/index.ts:62-84 | the response is `PostOutcome`; only a 201 adds a session (the pending one returned) and reports stay unchanged |
| Sessions.Backend.RunAnalysis | backend/src/index.ts:97-158 | the session ends as `RunSession` says, no other session changes, the report is stored exactly when `ReportInserted` holds, and the store stays consistent |
| Sessions.Backend.HandlePost | backend/src/index.ts:62-94 | the 201 carries the pending/0 session as created; a rejected submission changes nothing; after a 201 the new session and report are those of one background run |
| Sessions.Backend.GetSession | backend/src/index.ts:161-187 | 500 when the store is missing or fails, 404 for an unknown id, otherwise the session with its report decoded as `Decoded` says |
| Sessions.GetStatusCode | backend/src/index.ts:168-185 | the status code of each GET outcome: 200 with the session, 404 for an unknown id, 500 when the fetch fails |
| ReportPage.InProgress | frontend/src/pages/ReportPage.tsx:56-57 | the status is neither `completed` nor `failed`: the page polls again, and it is also the test that selects the progress screen (line 94) |
| ReportPage.LoadErrorMessage | frontend/src/pages/ReportPage.tsx:61 | the server's error text when it is non-empty, else "Failed to load session" |
| ReportPage.StatusMessage | frontend/src/pages/ReportPage.tsx:95-99 | one message each for pending, exploring and generating; "Processing..." for any other status |
| ReportPage.SelectScreen | frontend/src/pages/ReportPage.tsx:69-159 | with no session: the error screen exactly when there is an error, else loading. With a session: progress exactly for a non-terminal status, failure exactly for `failed`, "No report data found" exactly for `completed` without a report, the dashboard exactly for `completed` with one |
| ReportPage.PollsWhileProgressShown | frontend/src/pages/ReportPage.tsx:57-59 | after a successful fetch, the page polls again exactly when the screen it shows for the fetched session is the progress screen |
| ReportPage.ScoreColor | frontend/src/pages/ReportPage.tsx:163 | emerald exactly from 7, amber exactly for [4, 7), rose exactly below 4 |
| ReportPage.PerfLabel | frontend/src/pages/ReportPage.tsx:164 | Optimal exactly from 7, Needs Work exactly for [4, 7), Critical exactly below 4 |
| ReportPage.TrendUp | frontend/src/pages/ReportPage.tsx:165 | the up-trend icon appears exactly when the colour is emerald and the label Optimal |
| ReportPage.RiskColor | frontend/src/pages/ReportPage.tsx:311 | rose exactly above 0.5, amber exactly for (0.25, 0.5], emerald exactly at or below 0.25 |
| ReportPage.RiskPercent | frontend/src/pages/ReportPage.tsx:312 | the shown percentage is `Math.round(p*100)` |
| ReportPage.RiskPercentInRange | frontend/src/pages/ReportPage.tsx:312 | a probability in [0, 1] shows as 0..100 percent |
| ReportPage.RiskOfHundredths | frontend/src/pages/ReportPage.tsx:311-312 | a probability of h hundredths shows as h percent, rose exactly above 50 and amber exactly for 26..50 |
| ReportPage.RageQuitOrZero | frontend/src/pages/ReportPage.tsx:161 | absent frustration data gives 0, present data gives its rageQuitProb |
| ReportPage.DebateOrEmpty | frontend/src/pages/ReportPage.tsx:162 | an absent debate gives the empty list, a present one is used as it is |
| ReportPage.DebateHeading | frontend/src/pages/ReportPage.tsx:290 | the persona when non-empty, else the winner, else nothing |
| ReportPage.DebateText | frontend/src/pages/ReportPage.tsx:294 | the comment when non-empty, else the resolution, else nothing |
| ReportPage.DebateLines | frontend/src/pages/ReportPage.tsx:284-297 | one line per debate entry, in order, with its icon, heading and text |
| ReportPage.MakeDashboard | frontend/src/pages/ReportPage.tsx:161-165 | the dashboard uses the bands of the score, the defaulted probability with its colour and percentage, the issues as given, and for each debate entry, in order, a line with its icon, heading and text |
| ReportPage.AbsentFieldsDefault | frontend/src/pages/ReportPage.tsx:161-162 | a report without frustration data or debate shows 0% risk in emerald and no debate lines |
| EndToEnd.StringField | frontend/src/pages/ReportPage.tsx:19-25 | a debate field is present exactly when the JSON object holds text under that key |
| EndToEnd.EntryOf | frontend/src/pages/ReportPage.tsx:19-25 | a debate element is read as the page's `DebateEntry` interface declares: persona, winner, comment, resolution and icon are the object's string fields; a non-object gives an empty entry |
| EndToEnd.EntriesOf | frontend/src/pages/ReportPage.tsx:37 | one entry per array element, in order |
| EndToEnd.DebateOf | frontend/src/pages/ReportPage.tsx:37 | a debate is present exactly when the JSON is an array, with one entry per element |
| EndToEnd.RageQuitOf | frontend/src/pages/ReportPage.tsx:36 | the probability is present exactly when the object holds a number under rageQuitProb |
| EndToEnd.IssueOf | frontend/src/pages/ReportPage.tsx:11-17 | an issue card carries the stored severity, title, description and fix code |
| EndToEnd.IssuesOf | frontend/src/pages/ReportPage.tsx:11-17 | one issue card per stored issue, in order |
| EndToEnd.ReportDataOf | frontend/src/pages/ReportPage.tsx:33-39 | the page reads the integer score, the summary, the probability, the debate and, one card per issue in order, each issue's fields from the returned report |
| EndToEnd.SessionDataOf | frontend/src/pages/ReportPage.tsx:27-40 | the page sees the backend's status by name, its progress, id, url and persona, and a report exactly when one was returned, read by `ReportDataOf` |
| EndToEnd.PollingStopsAtTerminal | frontend/src/pages/ReportPage.tsx:57 | polling continues exactly while the backend status is not completed or failed; each non-terminal backend status has its own message |
| EndToEnd.CompletedSessionShowsReport | frontend/src/pages/ReportPage.tsx:148 | in a consistent store a completed session returns with its report, so the page never shows "No report data found" for it |
| EndToEnd.DashboardShowsAnalysis | frontend/src/pages/ReportPage.tsx:161-165 | with a faithful codec, the dashboard shows the rounded analyzer score, its rage-quit probability and percentage, the analyzer's issues card for card, and the debate lines of the analyzer's debate entries in order |
| EndToEnd.EventRiskShown | frontend/src/pages/ReportPage.tsx:311-312 | a probability computed from frustration events shows as its hundredths, within 0..100, rose exactly above 50 and amber exactly for 26..50 |
| EndToEnd.NewSessionShowsPreparing | frontend/src/pages/ReportPage.tsx:94-114 | a freshly created session shows "Preparing analysis engine..." at 0% |

## Left out

- Express wiring, CORS, the request logger, the health endpoint and server start-up are not modelled. Neither is the console logging.
- Prisma and the SQLite adapter are not modelled. The store is two maps, and each write's failure is an input (`faults`, `fault`). Generated session ids are an input (`newId`).
- The analyzer behind `analyzeUrl`, the Gemini service, Playwright and the persona prompts are not modelled. The analyzer is a function parameter that returns a result or fails.
- `JSON.stringify` and `JSON.parse` are not modelled as functions on text. They are parameters, and `parse` returns `None` where it would throw.
- Asynchrony is not modelled.
  - The background run is a sequential method called after the 201 response is formed.
  - The page's timer-driven polling is the predicate `InProgress`.
  - Interleavings of a GET with a running analysis are not covered.
- Sessions.Backend.HandlePost: the `.catch` on the background run only logs, and is not modelled. For any thrown `Error` object nothing escapes `runAnalysis`, so it has no effect on the state.
- Sessions.Backend.RunAnalysis: a rejection with `null` or `undefined` is not modelled. Reading `error.message` in the catch block (`backend/src/index.ts:152`) would then throw, so the failed/0 write is never attempted and the rejection reaches the `.catch` at lines 87-89. The model treats every analyzer failure as an `Error` object, after which the failed/0 write is always attempted.
- Numbers are exact rationals. IEEE-754 rounding is not modelled: for example, `0.15 * 3` and rounding products that fall near a half.
- POST bodies whose url or persona are not strings are not modelled. The model takes an optional string for each.
- A `rageQuitProb` that is not a number is read as absent.
- EndToEnd.DebateOf: a `personaDebate` that is neither an array nor null is read as absent. This happens when decoding failed and the text was returned, and also when the analyzer's `debate` was itself a JSON string, number, boolean or object, which decodes to that value (`backend/src/index.ts:128,173-175`). The page hides the debate for a value without a positive `length`, and throws in `debate.map` for a non-empty string (`frontend/src/pages/ReportPage.tsx:275,284`); that render failure is not modelled.
- EndToEnd.EntryOf: debate elements are read as the page's `DebateEntry` interface declares, objects with string fields. For a `null` element the page throws a TypeError at `d.icon` and the render fails; a field that is not a string (`persona: 5`) is rendered by React as text, whereas the model treats it as absent and falls back to the next field. Neither is modelled.
- ReportPage.PollsWhileProgressShown: after a failed re-poll the page stops polling (`frontend/src/pages/ReportPage.tsx:60-61`), yet it keeps showing the progress screen of the session it already holds, because a held session hides the error (lines 69-70, 94). That frozen progress screen is not modelled; the lemma covers only successful fetches.
- Rendering is not modelled: markup, CSS classes, animation, icons, the issue severity colours and the `issue.id` React key.
- The status messages are modelled without the leading glyph each one carries.
- Sessions.Backend.CreateSession: the created session's timestamps and the report's own id are not modelled.
- Lookups in the status-message table of a status that names an `Object.prototype` member are not modelled.
- LandingPage, App, the Vite config and the two test scripts are not part of this model.

## Findings

| source | as written | input that shows it | evidently intended | confidence | as-written member | corrected member |
|---|---|---|---|---|---|---|
| backend/src/index.ts:113 | the run calls `analyzeUrl` on the Gemini service, but the service class (backend/src/services/GeminiService.ts:3-34) defines only `getNextAction` and `generateReport`, so the call throws a TypeError | any accepted submission with every store write succeeding: the session ends failed/0 and no report is stored | an analyzer that returns the score, summary, debate, probability and issues, so that a run with no refused write ends completed/100 with its report | not executed; read from the two files. `tsc` would reject `geminiService!.analyzeUrl` at compile time (TS2339, no such property); the runtime TypeError happens only when the code is transpiled without type-checking | Sessions.MissingAnalyzerNeverCompletes | Sessions.CompletedExactlyOnHappyPath |
