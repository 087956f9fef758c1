/**
 * How the report page reads what the backend sends: the JSON of a found
 * session, typed as the page's `SessionData`, and the facts that hold across
 * the two sides (polling stops exactly at the backend's terminal statuses, a
 * completed session never shows "No report data found", and the dashboard
 * shows what the analyzer returned).
 */
module EndToEnd {
  import opened Js
  import S = Sessions
  import P = ReportPage
  import U = UXAnalyzer

  /** `obj.key` when it is a string, absent otherwise. */
  function StringField(fields: map<string, Json>, key: string): (v: Option<string>)
    ensures v.Some? <==> key in fields && fields[key].JStr?
    ensures v.Some? ==> fields[key] == JStr(v.value)
  {
    if key in fields && fields[key].JStr? then Some(fields[key].s) else None
  }

  /** One element of the decoded `personaDebate` array, read as a `DebateEntry`. */
  function EntryOf(j: Json): (d: P.DebateEntry)
    ensures !j.JObj? ==> d == P.DebateEntry(None, None, None, None, "")
    ensures j.JObj? ==> d.persona == StringField(j.fields, "persona") && d.winner == StringField(j.fields, "winner")
    ensures j.JObj? ==> d.comment == StringField(j.fields, "comment") && d.resolution == StringField(j.fields, "resolution")
    ensures j.JObj? ==> d.icon == StringField(j.fields, "icon").GetOr("")
  {
    match j
    case JObj(fields) =>
      P.DebateEntry(StringField(fields, "persona"), StringField(fields, "winner"),
                    StringField(fields, "comment"), StringField(fields, "resolution"),
                    StringField(fields, "icon").GetOr(""))
    case _ => P.DebateEntry(None, None, None, None, "")
  }

  function EntriesOf(items: seq<Json>): (entries: seq<P.DebateEntry>)
    ensures |entries| == |items|
    ensures forall i :: 0 <= i < |items| ==> entries[i] == EntryOf(items[i])
  {
    if items == [] then [] else [EntryOf(items[0])] + EntriesOf(items[1..])
  }

  /** `personaDebate`: an array gives its entries, null gives none. */
  function DebateOf(j: Json): (d: Option<seq<P.DebateEntry>>)
    ensures j.JArr? <==> d.Some?
    ensures j.JArr? ==> d.value == EntriesOf(j.items)
  {
    if j.JArr? then Some(EntriesOf(j.items)) else None
  }

  /** `frustrationData?.rageQuitProb`: the number when the object carries one. */
  function RageQuitOf(j: Json): (p: Option<real>)
    ensures p.Some? <==> j.JObj? && "rageQuitProb" in j.fields && j.fields["rageQuitProb"].JNum?
    ensures p.Some? ==> j.fields["rageQuitProb"] == JNum(p.value)
  {
    if j.JObj? && "rageQuitProb" in j.fields && j.fields["rageQuitProb"].JNum? then Some(j.fields["rageQuitProb"].n)
    else None
  }

  /** One issue card: severity, title, description and fix code as stored. */
  function IssueOf(i: S.Issue): (d: P.IssueData)
    ensures d.severity == i.severity && d.title == i.title && d.description == i.description && d.fixCode == i.fixCode
  {
    P.IssueData(i.severity, i.title, i.description, i.fixCode)
  }

  function IssuesOf(issues: seq<S.Issue>): (out: seq<P.IssueData>)
    ensures |out| == |issues|
    ensures forall i :: 0 <= i < |issues| ==> out[i] == IssueOf(issues[i])
  {
    if issues == [] then [] else [IssueOf(issues[0])] + IssuesOf(issues[1..])
  }

  /** The report the page reads from a report the GET handler sent. */
  function ReportDataOf(v: S.ReportView): (r: P.ReportData)
    ensures r.uxScore == v.uxScore as real && r.summary == v.summary
    ensures r.frustrationData == RageQuitOf(v.frustrationData) && r.personaDebate == DebateOf(v.personaDebate)
    ensures r.issues == IssuesOf(v.issues)
  {
    P.ReportData(v.uxScore as real, v.summary, RageQuitOf(v.frustrationData), DebateOf(v.personaDebate), IssuesOf(v.issues))
  }

  /** The page's `SessionData` for a `Found` response of the GET handler. */
  function SessionDataOf(s: S.Session, report: Option<S.ReportView>): (d: P.SessionData)
    ensures d.status == S.StatusName(s.status) && d.progress == s.progress as real
    ensures d.id == s.id && d.url == s.url && d.persona == s.persona
    ensures d.report.Some? <==> report.Some?
    ensures report.Some? ==> d.report == Some(ReportDataOf(report.value))
  {
    P.SessionData(s.id, s.url, s.persona, S.StatusName(s.status), s.progress as real,
                  if report.Some? then Some(ReportDataOf(report.value)) else None)
  }

  /**
   * The page polls again exactly while the backend's status is not terminal,
   * and every status the backend writes before the end has its own message.
   */
  lemma PollingStopsAtTerminal(st: S.Status)
    ensures P.InProgress(S.StatusName(st)) <==> !S.IsTerminal(st)
    ensures !S.IsTerminal(st) ==> P.StatusMessage(S.StatusName(st)) != "Processing..."
  {
    assert S.StatusName(S.Completed) == "completed" && S.StatusName(S.Failed) == "failed";
    match st
    case Pending => assert S.StatusName(st)[0] == 'p';
    case Exploring => assert S.StatusName(st)[0] == 'e';
    case Generating => assert S.StatusName(st)[0] == 'g';
    case Completed =>
    case Failed =>
  }

  /**
   * In a consistent store, a session the backend reports as completed comes
   * with its report, so the page shows the dashboard and never "No report data found".
   */
  lemma CompletedSessionShowsReport(sessions: map<string, S.Session>, reports: map<string, S.Report>,
                                    id: string, parse: string -> Option<Json>, error: Option<string>)
    requires S.Consistent(sessions, reports)
    requires id in sessions && sessions[id].status == S.Completed
    ensures var report := if id in reports then Some(S.Decoded(reports[id], parse)) else None;
            P.SelectScreen(Some(SessionDataOf(sessions[id], report)), error).ReportShown?
  {
  }

  /**
   * With a `JSON.parse` that undoes `JSON.stringify`, the dashboard of a stored
   * report shows the analyzer's score rounded to an integer, its rage-quit
   * probability, one line per debate entry and one card per issue.
   */
  lemma DashboardShowsAnalysis(id: string, result: S.AnalysisResult,
                               stringify: Json -> string, parse: string -> Option<Json>)
    requires parse(stringify(result.debate)) == Some(result.debate)
    requires parse(stringify(S.FrustrationObject(result.rageQuitProb))) == Some(S.FrustrationObject(result.rageQuitProb))
    ensures var v := P.MakeDashboard(ReportDataOf(S.Decoded(S.NewReport(id, result, stringify), parse)));
            v.uxScore == MathRound(result.uxScore) as real &&
            v.rageQuitProb == result.rageQuitProb &&
            v.riskPercent == P.RiskPercent(result.rageQuitProb) &&
            v.issues == IssuesOf(result.issues) &&
            (result.debate.JArr? ==> v.debate == P.DebateLines(EntriesOf(result.debate.items))) &&
            (!result.debate.JArr? ==> v.debate == [])
  {
    S.StoredReportReadsBack(id, result, stringify, parse);
    var r := ReportDataOf(S.Decoded(S.NewReport(id, result, stringify), parse));
    assert r.frustrationData == Some(result.rageQuitProb);
  }

  /**
   * The page's display rule applied to a rage-quit probability computed from
   * frustration events: it shows as exactly its whole number of hundredths, in
   * rose above 50 and amber above 25. This is not a data path of the program:
   * the stored probability is the analyzer's own, and the run never calls
   * `calculateRageQuitProbability`; the lemma says how such a value would show.
   */
  lemma EventRiskShown(events: seq<U.FrustrationEvent>)
    ensures P.RiskPercent(U.RageQuitProbability(events)) == U.RageQuitHundredths(events)
    ensures 0 <= P.RiskPercent(U.RageQuitProbability(events)) <= 100
    ensures P.RiskColor(U.RageQuitProbability(events)) == P.Rose <==> U.RageQuitHundredths(events) > 50
    ensures P.RiskColor(U.RageQuitProbability(events)) == P.Amber <==> 25 < U.RageQuitHundredths(events) <= 50
  {
    U.ProbabilityInHundredths(events);
    P.RiskOfHundredths(U.RageQuitHundredths(events));
  }

  /** A session just created by the POST handler shows the first progress message at 0%. */
  lemma NewSessionShowsPreparing(id: string, url: string, persona: string, error: Option<string>)
    ensures P.SelectScreen(Some(SessionDataOf(S.Session(id, url, persona, S.Pending, 0), None)), error) ==
            P.Progress("Preparing analysis engine...", 0.0, url)
  {
    PollingStopsAtTerminal(S.Pending);
  }
}
