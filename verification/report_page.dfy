/**
 * The pure display rules of `frontend/src/pages/ReportPage.tsx`: when polling
 * stops, which screen the page shows for the state it holds, the score and
 * risk bands, the progress messages, the defaults for absent report fields and
 * the fallbacks of a debate entry. The session is the JSON the GET handler
 * returns, typed as the page's `SessionData` interface.
 */
module ReportPage {
  import opened Js

  /** One entry of the persona debate; every text field but the icon may be absent. */
  datatype DebateEntry = DebateEntry(
    persona: Option<string>,
    winner: Option<string>,
    comment: Option<string>,
    resolution: Option<string>,
    icon: string)

  datatype IssueData = IssueData(
    severity: string,
    title: string,
    description: string,
    fixCode: Option<string>)

  /**
   * The report as the page reads it: `frustrationData` is the object's
   * `rageQuitProb`, absent when the object is null; `personaDebate` may be null.
   */
  datatype ReportData = ReportData(
    uxScore: real,
    summary: string,
    frustrationData: Option<real>,
    personaDebate: Option<seq<DebateEntry>>,
    issues: seq<IssueData>)

  datatype SessionData = SessionData(
    id: string,
    url: string,
    persona: string,
    status: string,
    progress: real,
    report: Option<ReportData>)

  // ---------------------------------------------------------------------------
  // Polling and screen selection
  // ---------------------------------------------------------------------------

  /**
   * The status is neither `completed` nor `failed`: the page polls again after
   * such a fetch, and shows the progress screen while it holds such a session.
   */
  predicate InProgress(status: string) {
    status != "completed" && status != "failed"
  }

  /** The message shown when a fetch fails: the server's `error` field, else a default. */
  function LoadErrorMessage(serverError: Option<string>): (m: string)
    ensures Truthy(serverError) ==> m == serverError.value
    ensures !Truthy(serverError) ==> m == "Failed to load session"
    ensures m != ""
  {
    if Truthy(serverError) then serverError.value else "Failed to load session"
  }

  /** The line under "Analyzing UX": one message per known status, a generic one otherwise. */
  function StatusMessage(status: string): (m: string)
    ensures status == "pending" ==> m == "Preparing analysis engine..."
    ensures status == "exploring" ==> m == "Fetching and exploring the page..."
    ensures status == "generating" ==> m == "AI is analyzing the UX..."
    ensures status != "pending" && status != "exploring" && status != "generating" ==> m == "Processing..."
  {
    if status == "pending" then "Preparing analysis engine..."
    else if status == "exploring" then "Fetching and exploring the page..."
    else if status == "generating" then "AI is analyzing the UX..."
    else "Processing..."
  }

  datatype Color = Emerald | Amber | Rose

  /** A line of the persona debate as shown: the icon, the heading and the quoted text. */
  datatype DebateLine = DebateLine(icon: string, heading: string, text: string)

  /** The derived values the report screen shows. */
  datatype Dashboard = Dashboard(
    uxScore: real,
    summary: string,
    scoreColor: Color,
    perfLabel: string,
    trendUp: bool,
    rageQuitProb: real,
    riskColor: Color,
    riskPercent: int,
    debate: seq<DebateLine>,
    issues: seq<IssueData>)

  datatype Screen =
    | LoadError(message: string)
    | Loading
    | Progress(message: string, progress: real, url: string)
    | AnalysisFailed
    | NoReportData
    | ReportShown(dashboard: Dashboard)

  /**
   * The screen for the page's state: the session last fetched, if any, and the
   * error of the last failed fetch, if any. A session, once held, takes
   * precedence over a later error.
   */
  function SelectScreen(session: Option<SessionData>, error: Option<string>): (s: Screen)
    ensures s.LoadError? <==> session.None? && Truthy(error)
    ensures s.LoadError? ==> s.message == error.value
    ensures s.Loading? <==> session.None? && !Truthy(error)
    ensures s.Progress? <==> session.Some? && InProgress(session.value.status)
    ensures s.AnalysisFailed? <==> session.Some? && session.value.status == "failed"
    ensures s.NoReportData? <==> session.Some? && session.value.status == "completed" && session.value.report.None?
    ensures s.ReportShown? <==> session.Some? && session.value.status == "completed" && session.value.report.Some?
    ensures s.ReportShown? ==> s.dashboard == MakeDashboard(session.value.report.value)
    ensures s.Progress? ==> s.message == StatusMessage(session.value.status) && s.progress == session.value.progress
    ensures s.Progress? ==> s.url == session.value.url
  {
    if session.None? then
      (if Truthy(error) then LoadError(error.value) else Loading)
    else if InProgress(session.value.status) then
      Progress(StatusMessage(session.value.status), session.value.progress, session.value.url)
    else if session.value.status == "failed" then AnalysisFailed
    else if session.value.report.None? then NoReportData
    else ReportShown(MakeDashboard(session.value.report.value))
  }

  /** Polling goes on exactly while the screen for the fetched session is the progress screen. */
  lemma PollsWhileProgressShown(session: SessionData, error: Option<string>)
    ensures InProgress(session.status) <==> SelectScreen(Some(session), error).Progress?
  {
  }

  // ---------------------------------------------------------------------------
  // Score and risk bands
  // ---------------------------------------------------------------------------

  /** `scoreColor`: emerald from 7 up, amber from 4 up, rose below. */
  function ScoreColor(uxScore: real): (c: Color)
    ensures c == Emerald <==> uxScore >= 7.0
    ensures c == Amber <==> 4.0 <= uxScore < 7.0
    ensures c == Rose <==> uxScore < 4.0
  {
    if uxScore >= 7.0 then Emerald else if uxScore >= 4.0 then Amber else Rose
  }

  /** `perfLabel`: the same three bands, named. */
  function PerfLabel(uxScore: real): (l: string)
    ensures l == "Optimal" <==> uxScore >= 7.0
    ensures l == "Needs Work" <==> 4.0 <= uxScore < 7.0
    ensures l == "Critical" <==> uxScore < 4.0
  {
    if uxScore >= 7.0 then "Optimal" else if uxScore >= 4.0 then "Needs Work" else "Critical"
  }

  /** The trend icon points up exactly in the top band. */
  function TrendUp(uxScore: real): (up: bool)
    ensures up <==> ScoreColor(uxScore) == Emerald
    ensures up <==> PerfLabel(uxScore) == "Optimal"
  {
    uxScore >= 7.0
  }

  /** The colour of the abandonment risk: rose above 0.5, amber above 0.25, emerald otherwise. */
  function RiskColor(p: real): (c: Color)
    ensures c == Rose <==> p > 0.5
    ensures c == Amber <==> 0.25 < p <= 0.5
    ensures c == Emerald <==> p <= 0.25
  {
    if p > 0.5 then Rose else if p > 0.25 then Amber else Emerald
  }

  /** The percentage shown for the abandonment risk. */
  function RiskPercent(p: real): (n: int)
    ensures p * 100.0 - 0.5 < n as real <= p * 100.0 + 0.5
  {
    MathRound(p * 100.0)
  }

  /** A probability shows as a percentage between 0 and 100. */
  lemma RiskPercentInRange(p: real)
    requires 0.0 <= p <= 1.0
    ensures 0 <= RiskPercent(p) <= 100
  {
    MathRoundMonotone(0.0, p * 100.0);
    MathRoundMonotone(p * 100.0, 100.0);
    MathRoundOfInteger(0);
    MathRoundOfInteger(100);
  }

  /**
   * A probability in whole hundredths shows as exactly that many percent, and
   * its colour follows the shown number: rose above 50, amber above 25.
   */
  lemma RiskOfHundredths(h: int)
    ensures RiskPercent(h as real / 100.0) == h
    ensures RiskColor(h as real / 100.0) == Rose <==> h > 50
    ensures RiskColor(h as real / 100.0) == Amber <==> 25 < h <= 50
  {
    assert h as real / 100.0 * 100.0 == h as real;
    MathRoundOfInteger(h);
  }

  // ---------------------------------------------------------------------------
  // Defaults and fallbacks
  // ---------------------------------------------------------------------------

  /** `frustrationData?.rageQuitProb ?? 0` */
  function RageQuitOrZero(r: ReportData): (p: real)
    ensures r.frustrationData.None? ==> p == 0.0
    ensures r.frustrationData.Some? ==> p == r.frustrationData.value
  {
    r.frustrationData.GetOr(0.0)
  }

  /** `personaDebate ?? []` */
  function DebateOrEmpty(r: ReportData): (entries: seq<DebateEntry>)
    ensures r.personaDebate.None? ==> entries == []
    ensures r.personaDebate.Some? ==> entries == r.personaDebate.value
  {
    r.personaDebate.GetOr([])
  }

  /** `d.persona || d.winner`, as rendered: an absent value renders as nothing. */
  function DebateHeading(d: DebateEntry): (h: string)
    ensures Truthy(d.persona) ==> h == d.persona.value
    ensures !Truthy(d.persona) && d.winner.Some? ==> h == d.winner.value
    ensures !Truthy(d.persona) && d.winner.None? ==> h == ""
  {
    if Truthy(d.persona) then d.persona.value else d.winner.GetOr("")
  }

  /** `d.comment || d.resolution`, as rendered. */
  function DebateText(d: DebateEntry): (t: string)
    ensures Truthy(d.comment) ==> t == d.comment.value
    ensures !Truthy(d.comment) && d.resolution.Some? ==> t == d.resolution.value
    ensures !Truthy(d.comment) && d.resolution.None? ==> t == ""
  {
    if Truthy(d.comment) then d.comment.value else d.resolution.GetOr("")
  }

  /** The debate lines, one per entry and in order. */
  function DebateLines(entries: seq<DebateEntry>): (lines: seq<DebateLine>)
    ensures |lines| == |entries|
    ensures forall i :: 0 <= i < |entries| ==>
              lines[i] == DebateLine(entries[i].icon, DebateHeading(entries[i]), DebateText(entries[i]))
  {
    if entries == [] then []
    else [DebateLine(entries[0].icon, DebateHeading(entries[0]), DebateText(entries[0]))] + DebateLines(entries[1..])
  }

  /** Everything the report screen derives from a report. */
  function MakeDashboard(r: ReportData): (v: Dashboard)
    ensures v.uxScore == r.uxScore && v.summary == r.summary && v.issues == r.issues
    ensures v.scoreColor == ScoreColor(r.uxScore) && v.perfLabel == PerfLabel(r.uxScore) && v.trendUp == TrendUp(r.uxScore)
    ensures v.rageQuitProb == RageQuitOrZero(r)
    ensures v.riskColor == RiskColor(v.rageQuitProb) && v.riskPercent == RiskPercent(v.rageQuitProb)
    ensures |v.debate| == |DebateOrEmpty(r)|
    ensures forall i :: 0 <= i < |v.debate| ==>
              v.debate[i] == DebateLine(DebateOrEmpty(r)[i].icon, DebateHeading(DebateOrEmpty(r)[i]), DebateText(DebateOrEmpty(r)[i]))
  {
    var p := RageQuitOrZero(r);
    Dashboard(r.uxScore, r.summary, ScoreColor(r.uxScore), PerfLabel(r.uxScore), TrendUp(r.uxScore),
              p, RiskColor(p), RiskPercent(p), DebateLines(DebateOrEmpty(r)), r.issues)
  }

  /** A report without frustration data shows a 0% risk in emerald; one without a debate shows no debate. */
  lemma AbsentFieldsDefault(r: ReportData)
    requires r.frustrationData.None? && r.personaDebate.None?
    ensures MakeDashboard(r).riskPercent == 0 && MakeDashboard(r).riskColor == Emerald
    ensures MakeDashboard(r).debate == []
  {
    MathRoundOfInteger(0);
  }
}
