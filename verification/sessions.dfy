/**
 * The session lifecycle of `backend/src/index.ts`: the POST handler that
 * validates a submission and creates a pending session, the background
 * `runAnalysis` that walks the session through its statuses and stores the
 * report, and the GET handler that reads a session back and decodes the two
 * JSON-text report fields.
 *
 * The relational store is the class `Backend`: one map of sessions and one of
 * reports, keyed by session id (a report belongs to exactly one session). Each
 * store write may fail; which ones do is given by a set of steps. The analyzer,
 * `JSON.stringify` and `JSON.parse` are collaborators passed in as functions.
 */
module Sessions {
  import opened Js

  datatype Status = Pending | Exploring | Generating | Completed | Failed

  /** The status as it is stored and sent to the client. */
  function StatusName(s: Status): string {
    match s
    case Pending => "pending"
    case Exploring => "exploring"
    case Generating => "generating"
    case Completed => "completed"
    case Failed => "failed"
  }

  predicate IsTerminal(s: Status) {
    s == Completed || s == Failed
  }

  datatype Session = Session(id: string, url: string, persona: string, status: Status, progress: int)

  datatype Issue = Issue(severity: string, title: string, description: string, fixCode: Option<string>)

  /** What the analyzer returns when it succeeds. */
  datatype AnalysisResult = AnalysisResult(
    uxScore: real,
    summary: string,
    debate: Json,
    rageQuitProb: real,
    issues: seq<Issue>)

  /** A stored report: the debate and the frustration data are kept as JSON text. */
  datatype Report = Report(
    sessionId: string,
    uxScore: int,
    summary: string,
    personaDebate: Json,
    frustrationData: Json,
    issues: seq<Issue>)

  /** The object `runAnalysis` serialises into `frustrationData`. */
  function FrustrationObject(rageQuitProb: real): (j: Json)
    ensures j.JObj? && j.fields.Keys == {"rageQuitProb"} && j.fields["rageQuitProb"] == JNum(rageQuitProb)
  {
    JObj(map["rageQuitProb" := JNum(rageQuitProb)])
  }

  /** The report `runAnalysis` stores for a successful analysis. */
  function NewReport(sessionId: string, result: AnalysisResult, stringify: Json -> string): (r: Report)
    ensures r.sessionId == sessionId && r.summary == result.summary && r.issues == result.issues
    ensures result.uxScore - 0.5 < r.uxScore as real <= result.uxScore + 0.5
    ensures r.personaDebate.JStr? && r.frustrationData.JStr?
  {
    Report(sessionId, MathRound(result.uxScore), result.summary,
           JStr(stringify(result.debate)),
           JStr(stringify(FrustrationObject(result.rageQuitProb))),
           result.issues)
  }

  /** The store invariant. */
  predicate Consistent(sessions: map<string, Session>, reports: map<string, Report>) {
    (forall id :: id in sessions ==> sessions[id].id == id && 0 <= sessions[id].progress <= 100) &&
    (forall id :: id in reports ==> id in sessions && reports[id].sessionId == id) &&
    (forall id :: id in sessions && sessions[id].status == Completed ==> id in reports)
  }

  // ---------------------------------------------------------------------------
  // The steps of runAnalysis
  // ---------------------------------------------------------------------------

  /** The steps of `runAnalysis`, each of which may throw. */
  datatype Step = MarkExploring | MarkGenerating | Analyze | MarkProgress80 | InsertReport | MarkCompleted | MarkFailed

  /** The steps of a run in which nothing throws. */
  const HappyPath: seq<Step> := [MarkExploring, MarkGenerating, Analyze, MarkProgress80, InsertReport, MarkCompleted]

  /** The store writes of the happy path. */
  const HappyWrites: set<Step> := {MarkExploring, MarkGenerating, MarkProgress80, InsertReport, MarkCompleted}

  /** One session update: the new status, if it changes, and the new progress. */
  datatype SessionWrite = SessionWrite(status: Option<Status>, progress: int)

  /** The session update a step performs, if it is one. */
  function WriteOf(step: Step): Option<SessionWrite> {
    match step
    case MarkExploring => Some(SessionWrite(Some(Exploring), 20))
    case MarkGenerating => Some(SessionWrite(Some(Generating), 50))
    case MarkProgress80 => Some(SessionWrite(None, 80))
    case MarkCompleted => Some(SessionWrite(Some(Completed), 100))
    case MarkFailed => Some(SessionWrite(Some(Failed), 0))
    case Analyze => None
    case InsertReport => None
  }

  /** Whether a step throws: the analyzer call when it fails, a store write when it is faulty. */
  predicate Throws(step: Step, analyzed: bool, faults: set<Step>) {
    if step == Analyze then !analyzed else step in faults
  }

  /** The index in HappyPath of the first step at or after `from` that throws, or |HappyPath|. */
  function FirstThrow(analyzed: bool, faults: set<Step>, from: nat): (k: nat)
    requires from <= |HappyPath|
    ensures from <= k <= |HappyPath|
    ensures forall i :: from <= i < k ==> !Throws(HappyPath[i], analyzed, faults)
    ensures k < |HappyPath| ==> Throws(HappyPath[k], analyzed, faults)
    decreases |HappyPath| - from
  {
    if from == |HappyPath| || Throws(HappyPath[from], analyzed, faults) then from
    else FirstThrow(analyzed, faults, from + 1)
  }

  /**
   * The steps a run attempts: the happy path up to and including the first step
   * that throws, then the write of the failed status.
   */
  function Attempts(analyzed: bool, faults: set<Step>): (a: seq<Step>)
    ensures 0 < |a| && a[..|a| - 1] <= HappyPath
    ensures a == HappyPath <==> TrySucceeds(analyzed, faults)
    ensures a != HappyPath ==> a[|a| - 1] == MarkFailed
    ensures a != HappyPath ==>
              2 <= |a| && Throws(a[|a| - 2], analyzed, faults) &&
              forall i :: 0 <= i < |a| - 2 ==> !Throws(a[i], analyzed, faults)
  {
    var k := FirstThrow(analyzed, faults, 0);
    if k == |HappyPath| then HappyPath else HappyPath[..k + 1] + [MarkFailed]
  }

  /** Whether the run attempted the report insert and the store accepted it. */
  predicate ReportWritten(steps: seq<Step>, faults: set<Step>) {
    InsertReport in steps && InsertReport !in faults
  }

  /** The session updates among `steps` that the store accepted, in order. */
  function Written(steps: seq<Step>, faults: set<Step>): (ws: seq<SessionWrite>)
    ensures |ws| <= |steps|
    decreases |steps|
  {
    if steps == [] then []
    else
      var last := steps[|steps| - 1];
      var before := Written(steps[..|steps| - 1], faults);
      if WriteOf(last).Some? && last !in faults then before + [WriteOf(last).value] else before
  }

  function Apply(s: Session, w: SessionWrite): Session {
    s.(status := w.status.GetOr(s.status), progress := w.progress)
  }

  /** The session after a list of accepted updates. */
  function ApplyAll(s: Session, ws: seq<SessionWrite>): (r: Session)
    ensures r.id == s.id && r.url == s.url && r.persona == s.persona
    ensures ws == [] ==> r == s
    ensures ws != [] ==> r.progress == ws[|ws| - 1].progress
    decreases |ws|
  {
    if ws == [] then s else Apply(ApplyAll(s, ws[..|ws| - 1]), ws[|ws| - 1])
  }

  /** The catch block's write of failed/0, unless the store refuses that write too. */
  function CatchWrite(s: Session, faults: set<Step>): Session {
    if MarkFailed in faults then s else Apply(s, SessionWrite(Some(Failed), 0))
  }

  /** Whether the try block runs to its end: the analyzer returns and no happy-path write is refused. */
  predicate TrySucceeds(analyzed: bool, faults: set<Step>) {
    analyzed && MarkExploring !in faults && MarkGenerating !in faults &&
    MarkProgress80 !in faults && InsertReport !in faults && MarkCompleted !in faults
  }

  /**
   * The session as the try block leaves it, read off the code path: each
   * accepted write is applied in turn, up to the first step that throws.
   */
  function TrySession(s: Session, analyzed: bool, faults: set<Step>): Session {
    if MarkExploring in faults then s else
    var s1 := Apply(s, SessionWrite(Some(Exploring), 20));
    if MarkGenerating in faults then s1 else
    var s2 := Apply(s1, SessionWrite(Some(Generating), 50));
    if !analyzed || MarkProgress80 in faults then s2 else
    var s3 := Apply(s2, SessionWrite(None, 80));
    if InsertReport in faults || MarkCompleted in faults then s3 else
    Apply(s3, SessionWrite(Some(Completed), 100))
  }

  /**
   * What the try block does to the session: it keeps the identity fields, ends
   * completed/100 when nothing throws, writes no terminal status when something
   * does, and leaves the session untouched when the first write is refused.
   */
  lemma TrySessionOutcome(s: Session, analyzed: bool, faults: set<Step>)
    ensures var r := TrySession(s, analyzed, faults);
            r.id == s.id && r.url == s.url && r.persona == s.persona
    ensures TrySucceeds(analyzed, faults) ==>
              TrySession(s, analyzed, faults).status == Completed && TrySession(s, analyzed, faults).progress == 100
    ensures !TrySucceeds(analyzed, faults) ==>
              TrySession(s, analyzed, faults).status in {s.status, Exploring, Generating}
    ensures MarkExploring in faults ==> TrySession(s, analyzed, faults) == s
  {
  }

  /** The session a run leaves behind: the try block, then the catch block if it threw. */
  function RunSession(s: Session, analyzed: bool, faults: set<Step>): Session {
    var tried := TrySession(s, analyzed, faults);
    if TrySucceeds(analyzed, faults) then tried else CatchWrite(tried, faults)
  }

  /**
   * How a run ends, read off the code path: completed/100 when the try block
   * succeeds; failed/0 when it throws and the catch block's write is accepted;
   * otherwise the try block's last accepted write, which is never terminal for
   * a session that was not. The identity fields never change.
   */
  lemma RunOutcome(s: Session, analyzed: bool, faults: set<Step>)
    ensures var r := RunSession(s, analyzed, faults);
            r.id == s.id && r.url == s.url && r.persona == s.persona
    ensures TrySucceeds(analyzed, faults) ==>
              RunSession(s, analyzed, faults).status == Completed && RunSession(s, analyzed, faults).progress == 100
    ensures !TrySucceeds(analyzed, faults) && MarkFailed !in faults ==>
              RunSession(s, analyzed, faults).status == Failed && RunSession(s, analyzed, faults).progress == 0
    ensures !TrySucceeds(analyzed, faults) && MarkFailed in faults ==>
              RunSession(s, analyzed, faults) == TrySession(s, analyzed, faults) &&
              RunSession(s, analyzed, faults).status in {s.status, Exploring, Generating}
  {
    TrySessionOutcome(s, analyzed, faults);
  }

  /** Whether a run stores its report: every step up to and including the insert succeeded. */
  predicate ReportInserted(analyzed: bool, faults: set<Step>) {
    analyzed && MarkExploring !in faults && MarkGenerating !in faults &&
    MarkProgress80 !in faults && InsertReport !in faults
  }

  // ---------------------------------------------------------------------------
  // Properties of a run
  // ---------------------------------------------------------------------------

  /** A run that does not throw attempts the happy path and nothing else. */
  lemma HappyPathAttempts(faults: set<Step>)
    requires faults !! HappyWrites
    ensures Attempts(true, faults) == HappyPath
  {
  }

  /** A run throws exactly when the analyzer fails or one of the happy path's writes is faulty. */
  lemma AttemptsThrowing(analyzed: bool, faults: set<Step>)
    requires !analyzed || !(faults !! HappyWrites)
    ensures Attempts(analyzed, faults) != HappyPath
    ensures Attempts(analyzed, faults)[|Attempts(analyzed, faults)| - 1] == MarkFailed
  {
    var k := FirstThrow(analyzed, faults, 0);
    assert Attempts(analyzed, faults)[k + 1] == MarkFailed;
  }

  /**
   * On the happy path the session is written exploring/20, generating/50,
   * progress 80 and completed/100, in this order, and ends completed/100.
   */
  lemma HappyPathWrites(s: Session, faults: set<Step>)
    requires faults !! HappyWrites
    ensures Written(HappyPath, faults) ==
              [SessionWrite(Some(Exploring), 20), SessionWrite(Some(Generating), 50),
               SessionWrite(None, 80), SessionWrite(Some(Completed), 100)]
    ensures forall i, j :: 0 <= i < j < |Written(HappyPath, faults)| ==>
              Written(HappyPath, faults)[i].progress < Written(HappyPath, faults)[j].progress
    ensures ApplyAll(s, Written(HappyPath, faults)) == s.(status := Completed, progress := 100)
    ensures ReportWritten(HappyPath, faults)
  {
    var w1, w2, w3, w4 := SessionWrite(Some(Exploring), 20), SessionWrite(Some(Generating), 50),
                          SessionWrite(None, 80), SessionWrite(Some(Completed), 100);
    assert HappyPath[..1][..0] == [];
    assert Written(HappyPath[..1], faults) == [w1];
    assert HappyPath[..2][..1] == HappyPath[..1];
    assert Written(HappyPath[..2], faults) == [w1, w2];
    assert HappyPath[..3][..2] == HappyPath[..2];
    assert Written(HappyPath[..3], faults) == [w1, w2];
    assert HappyPath[..4][..3] == HappyPath[..3];
    assert Written(HappyPath[..4], faults) == [w1, w2, w3];
    assert HappyPath[..5][..4] == HappyPath[..4];
    assert Written(HappyPath[..5], faults) == [w1, w2, w3];
    assert HappyPath[..5] == HappyPath[..|HappyPath| - 1];
    var ws := [w1, w2, w3, w4];
    assert Written(HappyPath, faults) == ws;
    assert ws[..3][..2][..1][..0] == [];
    assert ws[..3][..2][..1] == [w1];
    assert ws[..3][..2] == [w1, w2];
    assert ws[..3] == [w1, w2, w3];
    assert ApplyAll(s, [w1]) == Apply(s, w1);
    assert ApplyAll(s, [w1, w2]) == Apply(Apply(s, w1), w2);
    assert ApplyAll(s, [w1, w2, w3]) == Apply(Apply(Apply(s, w1), w2), w3);
  }

  /** If the analyzer fails, no report is written. */
  lemma NoReportWithoutAnalysis(faults: set<Step>)
    ensures !ReportWritten(Attempts(false, faults), faults)
  {
    var k := FirstThrow(false, faults, 0);
    assert Throws(HappyPath[2], false, faults);
    assert k <= 2;
    var steps := Attempts(false, faults);
    assert steps == HappyPath[..k + 1] + [MarkFailed];
    forall i | 0 <= i < |steps| ensures steps[i] != InsertReport {
      if i <= k { assert steps[i] == HappyPath[i]; }
    }
  }

  /** The completed status is written only right after a report insert the store accepted. */
  lemma ReportPrecedesCompletion(analyzed: bool, faults: set<Step>, j: nat)
    requires j < |Attempts(analyzed, faults)| && Attempts(analyzed, faults)[j] == MarkCompleted
    ensures 0 < j && Attempts(analyzed, faults)[j - 1] == InsertReport
    ensures InsertReport !in faults && analyzed
  {
    var k := FirstThrow(analyzed, faults, 0);
    var steps := Attempts(analyzed, faults);
    if k == |HappyPath| {
      assert steps == HappyPath;
    } else {
      assert steps == HappyPath[..k + 1] + [MarkFailed];
      assert j <= k;
      assert steps[j] == HappyPath[j];
    }
    assert j == 5;
    assert !Throws(HappyPath[4], analyzed, faults);
    assert !Throws(HappyPath[2], analyzed, faults);
  }

  /** Every accepted update stems from a step of the run that the store did not refuse. */
  lemma {:induction false} WrittenComesFromSteps(steps: seq<Step>, faults: set<Step>, w: SessionWrite)
    requires w in Written(steps, faults)
    ensures exists i :: 0 <= i < |steps| && steps[i] !in faults && WriteOf(steps[i]) == Some(w)
    decreases |steps|
  {
    var init := steps[..|steps| - 1];
    var last := steps[|steps| - 1];
    if w in Written(init, faults) {
      WrittenComesFromSteps(init, faults, w);
      var i :| 0 <= i < |init| && init[i] !in faults && WriteOf(init[i]) == Some(w);
      assert steps[i] == init[i];
    } else {
      assert last !in faults && WriteOf(last) == Some(w);
    }
  }

  /** The final status is the initial one or the status of some accepted update. */
  lemma {:induction false} ApplyAllStatus(s: Session, ws: seq<SessionWrite>)
    ensures ApplyAll(s, ws).status == s.status ||
            exists i :: 0 <= i < |ws| && ws[i].status == Some(ApplyAll(s, ws).status)
    ensures ApplyAll(s, ws).id == s.id && ApplyAll(s, ws).url == s.url && ApplyAll(s, ws).persona == s.persona
    decreases |ws|
  {
    if ws != [] {
      var init := ws[..|ws| - 1];
      ApplyAllStatus(s, init);
      if ws[|ws| - 1].status.None? && ApplyAll(s, init).status != s.status {
        var i :| 0 <= i < |init| && init[i].status == Some(ApplyAll(s, init).status);
        assert ws[i] == init[i];
      }
    }
  }

  /** Along the happy path the progress written by session updates strictly increases. */
  lemma {:induction false} HappyPrefixProgressRises(m: nat, faults: set<Step>)
    requires m <= |HappyPath|
    ensures forall i, j :: 0 <= i < j < |Written(HappyPath[..m], faults)| ==>
              Written(HappyPath[..m], faults)[i].progress < Written(HappyPath[..m], faults)[j].progress
  {
    if m > 0 {
      var init := HappyPath[..m - 1];
      assert HappyPath[..m][..m - 1] == init;
      HappyPrefixProgressRises(m - 1, faults);
      var last := HappyPath[m - 1];
      if WriteOf(last).Some? && last !in faults {
        var before := Written(init, faults);
        forall w | w in before ensures w.progress < WriteOf(last).value.progress {
          WrittenComesFromSteps(init, faults, w);
          var i :| 0 <= i < |init| && init[i] !in faults && WriteOf(init[i]) == Some(w);
          assert init[i] == HappyPath[i];
        }
        var ws := before + [WriteOf(last).value];
        forall i, j | 0 <= i < j < |ws| ensures ws[i].progress < ws[j].progress {
          if j < |before| {
            assert ws[i] == before[i] && ws[j] == before[j];
          } else {
            assert ws[i] in before;
          }
        }
      }
    }
  }

  /**
   * On every run, the progress of the accepted session updates strictly increases
   * until the write of the failed status.
   */
  lemma ProgressRisesUntilFailure(analyzed: bool, faults: set<Step>)
    ensures var ws := Written(Attempts(analyzed, faults), faults);
            forall i, j :: 0 <= i < j < |ws| && ws[j].status != Some(Failed) ==> ws[i].progress < ws[j].progress
  {
    var k := FirstThrow(analyzed, faults, 0);
    var steps := Attempts(analyzed, faults);
    var ws := Written(steps, faults);
    if k == |HappyPath| {
      assert HappyPath[..|HappyPath|] == HappyPath;
      HappyPrefixProgressRises(|HappyPath|, faults);
    } else {
      var prefix := HappyPath[..k + 1];
      assert steps[..|steps| - 1] == prefix;
      HappyPrefixProgressRises(k + 1, faults);
      var before := Written(prefix, faults);
      assert ws == before || ws == before + [SessionWrite(Some(Failed), 0)];
      forall w | w in before ensures w.status != Some(Failed) {
        WrittenComesFromSteps(prefix, faults, w);
      }
      forall i, j | 0 <= i < j < |ws| && ws[j].status != Some(Failed)
        ensures ws[i].progress < ws[j].progress
      {
        assert j < |before|;
        assert ws[i] == before[i] && ws[j] == before[j];
      }
    }
  }

  /** A run that throws, with the failure write accepted, leaves the session failed/0. */
  lemma FailedRunEndsFailed(s: Session, analyzed: bool, faults: set<Step>)
    requires !analyzed || !(faults !! HappyWrites)
    requires MarkFailed !in faults
    ensures ApplyAll(s, Written(Attempts(analyzed, faults), faults)).status == Failed
    ensures ApplyAll(s, Written(Attempts(analyzed, faults), faults)).progress == 0
  {
    assert !TrySucceeds(analyzed, faults);
    RunMatchesTrace(s, analyzed, faults);
    RunOutcome(s, analyzed, faults);
  }

  /**
   * A run that throws and whose failure write is refused as well leaves the
   * session in the state of its last accepted update: a pending session stays
   * non-terminal (it is never marked completed or failed).
   */
  lemma SwallowedFailureLeavesSessionStuck(s: Session, analyzed: bool, faults: set<Step>)
    requires !TrySucceeds(analyzed, faults)
    requires MarkFailed in faults
    requires s.status == Pending
    ensures ApplyAll(s, Written(Attempts(analyzed, faults), faults)) ==
            ApplyAll(s, Written(Attempts(analyzed, faults)[..|Attempts(analyzed, faults)| - 1], faults))
    ensures !IsTerminal(ApplyAll(s, Written(Attempts(analyzed, faults), faults)).status)
  {
    RefusedFailureWriteDropped(s, analyzed, faults);
    RunMatchesTrace(s, analyzed, faults);
    TrySessionOutcome(s, analyzed, faults);
  }

  /** When the failure write is refused, the last attempted step adds no update. */
  lemma RefusedFailureWriteDropped(s: Session, analyzed: bool, faults: set<Step>)
    requires !TrySucceeds(analyzed, faults)
    requires MarkFailed in faults
    ensures ApplyAll(s, Written(Attempts(analyzed, faults), faults)) ==
            ApplyAll(s, Written(Attempts(analyzed, faults)[..|Attempts(analyzed, faults)| - 1], faults))
  {
    var k := FirstThrow(analyzed, faults, 0);
    var prefix := HappyPath[..k + 1];
    assert Attempts(analyzed, faults) == prefix + [MarkFailed];
    assert (prefix + [MarkFailed])[..|prefix|] == prefix;
    Advance(s, prefix, MarkFailed, faults);
  }

  /** A run that starts pending ends completed exactly when nothing throws. */
  lemma CompletedExactlyOnHappyPath(s: Session, analyzed: bool, faults: set<Step>)
    requires s.status == Pending
    ensures ApplyAll(s, Written(Attempts(analyzed, faults), faults)).status == Completed <==>
            analyzed && faults !! HappyWrites
  {
    if analyzed && faults !! HappyWrites {
      HappyPathAttempts(faults);
      HappyPathWrites(s, faults);
    } else if MarkFailed in faults {
      SwallowedFailureLeavesSessionStuck(s, analyzed, faults);
    } else {
      FailedRunEndsFailed(s, analyzed, faults);
    }
  }

  lemma WrittenSnoc(steps: seq<Step>, x: Step, faults: set<Step>)
    ensures Written(steps + [x], faults) ==
            if WriteOf(x).Some? && x !in faults then Written(steps, faults) + [WriteOf(x).value]
            else Written(steps, faults)
  {
    assert (steps + [x])[..|steps|] == steps;
  }

  lemma ApplyAllSnoc(s: Session, ws: seq<SessionWrite>, w: SessionWrite)
    ensures ApplyAll(s, ws + [w]) == Apply(ApplyAll(s, ws), w)
  {
    assert (ws + [w])[..|ws|] == ws;
  }

  /** One more attempted step: its update, if accepted, is applied last. */
  lemma Advance(s: Session, steps: seq<Step>, x: Step, faults: set<Step>)
    ensures ApplyAll(s, Written(steps + [x], faults)) ==
            if WriteOf(x).Some? && x !in faults then Apply(ApplyAll(s, Written(steps, faults)), WriteOf(x).value)
            else ApplyAll(s, Written(steps, faults))
  {
    WrittenSnoc(steps, x, faults);
    if WriteOf(x).Some? && x !in faults {
      ApplyAllSnoc(s, Written(steps, faults), WriteOf(x).value);
    }
  }

  /** The report insert is among the attempted steps exactly when the run got as far as it. */
  lemma InsertReportAttempted(k: nat, faults: set<Step>)
    requires k < |HappyPath|
    ensures ReportWritten(HappyPath[..k + 1], faults) <==> k >= 4 && InsertReport !in faults
    ensures ReportWritten(HappyPath[..k + 1] + [MarkFailed], faults) <==> k >= 4 && InsertReport !in faults
  {
    assert HappyPath[4] == InsertReport;
    if k < 4 {
      forall i | 0 <= i <= k ensures HappyPath[i] != InsertReport {}
    }
  }

  /** The session after one more step of the happy path: its accepted update, if any, applied last. */
  lemma HappyPrefixStep(s: Session, m: nat, faults: set<Step>)
    requires m < |HappyPath|
    ensures ApplyAll(s, Written(HappyPath[..m + 1], faults)) ==
            if WriteOf(HappyPath[m]).Some? && HappyPath[m] !in faults
            then Apply(ApplyAll(s, Written(HappyPath[..m], faults)), WriteOf(HappyPath[m]).value)
            else ApplyAll(s, Written(HappyPath[..m], faults))
  {
    assert HappyPath[..m + 1] == HappyPath[..m] + [HappyPath[m]];
    Advance(s, HappyPath[..m], HappyPath[m], faults);
  }

  /** The try block leaves the session as the accepted updates of the steps it attempted. */
  lemma TryMatchesTrace(s: Session, analyzed: bool, faults: set<Step>)
    ensures TrySession(s, analyzed, faults) ==
            ApplyAll(s, Written(HappyPath[..if FirstThrow(analyzed, faults, 0) == |HappyPath| then |HappyPath|
                                             else FirstThrow(analyzed, faults, 0) + 1], faults))
    ensures TrySucceeds(analyzed, faults) <==> FirstThrow(analyzed, faults, 0) == |HappyPath|
  {
    assert HappyPath[..0] == [];
    var p0 := ApplyAll(s, Written(HappyPath[..0], faults));
    var p1 := ApplyAll(s, Written(HappyPath[..1], faults));
    var p2 := ApplyAll(s, Written(HappyPath[..2], faults));
    var p3 := ApplyAll(s, Written(HappyPath[..3], faults));
    var p4 := ApplyAll(s, Written(HappyPath[..4], faults));
    var p5 := ApplyAll(s, Written(HappyPath[..5], faults));
    var p6 := ApplyAll(s, Written(HappyPath[..6], faults));
    HappyPrefixStep(s, 0, faults);
    HappyPrefixStep(s, 1, faults);
    HappyPrefixStep(s, 2, faults);
    HappyPrefixStep(s, 3, faults);
    HappyPrefixStep(s, 4, faults);
    HappyPrefixStep(s, 5, faults);
    assert p1 == if MarkExploring in faults then s else Apply(s, SessionWrite(Some(Exploring), 20));
    assert p2 == if MarkGenerating in faults then p1 else Apply(p1, SessionWrite(Some(Generating), 50));
    assert p3 == p2;
    assert p4 == if MarkProgress80 in faults then p3 else Apply(p3, SessionWrite(None, 80));
    assert p5 == p4;
    assert p6 == if MarkCompleted in faults then p5 else Apply(p5, SessionWrite(Some(Completed), 100));
  }

  /**
   * The code-path reading of a run and its step-trace reading agree: the
   * session `runAnalysis` leaves behind is the initial one with the accepted
   * updates of the attempted steps applied in order.
   */
  lemma RunMatchesTrace(s: Session, analyzed: bool, faults: set<Step>)
    ensures RunSession(s, analyzed, faults) == ApplyAll(s, Written(Attempts(analyzed, faults), faults))
  {
    TryMatchesTrace(s, analyzed, faults);
    var k := FirstThrow(analyzed, faults, 0);
    if k == |HappyPath| {
      assert HappyPath[..k] == HappyPath;
    } else {
      Advance(s, HappyPath[..k + 1], MarkFailed, faults);
    }
  }

  /** The report is stored exactly when the trace holds a report insert the store accepted. */
  lemma ReportMatchesTrace(analyzed: bool, faults: set<Step>)
    ensures ReportInserted(analyzed, faults) <==> ReportWritten(Attempts(analyzed, faults), faults)
  {
    var k := FirstThrow(analyzed, faults, 0);
    if k == |HappyPath| {
      assert HappyPath[4] == InsertReport;
    } else {
      InsertReportAttempted(k, faults);
    }
  }

  /**
   * A report is not tied to the completed status: when only the completed/100
   * write is refused, the report stays stored and the session ends failed/0.
   */
  lemma ReportSurvivesRefusedCompletion(s: Session)
    ensures ReportInserted(true, {MarkCompleted})
    ensures RunSession(s, true, {MarkCompleted}) == s.(status := Failed, progress := 0)
  {
  }

  /**
   * The analyzer call as written names a method the Gemini service does not
   * define, so it always throws: no run stores a report or reaches completed,
   * and every run whose failure write is accepted ends failed/0.
   */
  lemma MissingAnalyzerNeverCompletes(s: Session, faults: set<Step>)
    ensures !ReportInserted(false, faults)
    ensures s.status != Completed ==> RunSession(s, false, faults).status != Completed
    ensures MarkFailed !in faults ==> RunSession(s, false, faults) == s.(status := Failed, progress := 0)
  {
  }

  // ---------------------------------------------------------------------------
  // Responses of the two handlers
  // ---------------------------------------------------------------------------

  /** Outcome of `POST /api/sessions`. */
  datatype PostResponse =
    | Created(session: Session)
    | MissingInput
    | DatabaseUnavailable
    | AiUnavailable
    | CreateFailed

  function PostStatusCode(r: PostResponse): int {
    match r
    case Created(_) => 201
    case MissingInput => 400
    case DatabaseUnavailable => 500
    case AiUnavailable => 500
    case CreateFailed => 500
  }

  /**
   * The response of `POST /api/sessions`: the checks in their order (both
   * fields present and non-empty, a database, an AI engine), then the insert
   * of a pending session, which succeeds when `inserted` holds.
   */
  function PostOutcome(url: Option<string>, persona: Option<string>, dbAvailable: bool, aiAvailable: bool,
                       inserted: bool, newId: string): (r: PostResponse)
    ensures PostStatusCode(r) == 400 <==> !Truthy(url) || !Truthy(persona)
    ensures PostStatusCode(r) == 201 <==> Truthy(url) && Truthy(persona) && dbAvailable && aiAvailable && inserted
    ensures r.Created? ==> r.session == Session(newId, url.value, persona.value, Pending, 0)
    ensures r == DatabaseUnavailable <==> Truthy(url) && Truthy(persona) && !dbAvailable
    ensures r == AiUnavailable <==> Truthy(url) && Truthy(persona) && dbAvailable && !aiAvailable
  {
    if !Truthy(url) || !Truthy(persona) then MissingInput
    else if !dbAvailable then DatabaseUnavailable
    else if !aiAvailable then AiUnavailable
    else if !inserted then CreateFailed
    else Created(Session(newId, url.value, persona.value, Pending, 0))
  }

  /** A report as the GET handler returns it, after the JSON-text fields were decoded. */
  datatype ReportView = ReportView(
    sessionId: string,
    uxScore: int,
    summary: string,
    personaDebate: Json,
    frustrationData: Json,
    issues: seq<Issue>)

  /** Outcome of `GET /api/sessions/:id`. */
  datatype GetResponse =
    | Found(session: Session, report: Option<ReportView>)
    | NotFound
    | FetchFailed

  function GetStatusCode(r: GetResponse): int {
    match r
    case Found(_, _) => 200
    case NotFound => 404
    case FetchFailed => 500
  }

  /** A field decoded the way the GET handler does: `None` when `JSON.parse` throws. */
  function DecodeField(field: Json, parse: string -> Option<Json>): (d: Option<Json>)
    ensures !field.JStr? ==> d == Some(field)
    ensures field.JStr? ==> d == parse(field.s)
  {
    if field.JStr? then parse(field.s) else Some(field)
  }

  /**
   * The report the GET handler returns: each JSON-text field is decoded; a
   * decode that throws ends the decoding and leaves that field, and every later
   * one, as stored.
   */
  function Decoded(r: Report, parse: string -> Option<Json>): (v: ReportView)
    ensures v.sessionId == r.sessionId && v.uxScore == r.uxScore && v.summary == r.summary && v.issues == r.issues
    ensures !r.personaDebate.JStr? ==> v.personaDebate == r.personaDebate
    ensures !r.frustrationData.JStr? ==> v.frustrationData == r.frustrationData
    ensures r.personaDebate.JStr? && parse(r.personaDebate.s).Some? ==> v.personaDebate == parse(r.personaDebate.s).value
    ensures r.personaDebate.JStr? && parse(r.personaDebate.s).None? ==>
              v.personaDebate == r.personaDebate && v.frustrationData == r.frustrationData
    ensures DecodeField(r.personaDebate, parse).Some? && r.frustrationData.JStr? && parse(r.frustrationData.s).Some? ==>
              v.frustrationData == parse(r.frustrationData.s).value
    ensures r.frustrationData.JStr? && parse(r.frustrationData.s).None? ==> v.frustrationData == r.frustrationData
  {
    var view := ReportView(r.sessionId, r.uxScore, r.summary, r.personaDebate, r.frustrationData, r.issues);
    match DecodeField(r.personaDebate, parse)
    case None => view
    case Some(debate) =>
      match DecodeField(r.frustrationData, parse)
      case None => view.(personaDebate := debate)
      case Some(frustration) => view.(personaDebate := debate, frustrationData := frustration)
  }

  /**
   * With a `JSON.parse` that undoes `JSON.stringify` on the values involved, a
   * stored report reads back with the analyzer's debate and rage-quit probability.
   */
  lemma StoredReportReadsBack(id: string, result: AnalysisResult,
                              stringify: Json -> string, parse: string -> Option<Json>)
    requires parse(stringify(result.debate)) == Some(result.debate)
    requires parse(stringify(FrustrationObject(result.rageQuitProb))) == Some(FrustrationObject(result.rageQuitProb))
    ensures Decoded(NewReport(id, result, stringify), parse).personaDebate == result.debate
    ensures Decoded(NewReport(id, result, stringify), parse).frustrationData == FrustrationObject(result.rageQuitProb)
    ensures Decoded(NewReport(id, result, stringify), parse).uxScore == MathRound(result.uxScore)
  {
  }

  // ---------------------------------------------------------------------------
  // The backend: store plus handlers
  // ---------------------------------------------------------------------------

  class Backend {
    /** The `Session` table. */
    var sessions: map<string, Session>
    /** The `Report` table (with its issues), keyed by the owning session's id. */
    var reports: map<string, Report>
    /** Whether the Prisma client was constructed at startup. */
    const dbAvailable: bool
    /** Whether the Gemini service was constructed at startup. */
    const aiAvailable: bool

    ghost predicate Valid()
      reads this
    {
      Consistent(sessions, reports)
    }

    constructor (dbAvailable: bool, aiAvailable: bool)
      ensures Valid()
      ensures sessions == map[] && reports == map[]
      ensures this.dbAvailable == dbAvailable && this.aiAvailable == aiAvailable
    {
      sessions := map[];
      reports := map[];
      this.dbAvailable := dbAvailable;
      this.aiAvailable := aiAvailable;
    }

    /** `prisma.session.update`: throws when the write is faulty or the session does not exist. */
    method UpdateSession(id: string, w: SessionWrite, fault: bool) returns (ok: bool)
      requires Valid()
      requires 0 <= w.progress <= 100
      requires w.status == Some(Completed) ==> id in reports
      modifies this
      ensures Valid()
      ensures ok == (!fault && id in old(sessions))
      ensures sessions == if ok then old(sessions)[id := Apply(old(sessions)[id], w)] else old(sessions)
      ensures sessions.Keys == old(sessions).Keys
      ensures reports == old(reports)
    {
      ok := !fault && id in sessions;
      if ok {
        sessions := sessions[id := Apply(sessions[id], w)];
      }
    }

    /**
     * `prisma.report.create`: throws when the write is faulty, when the owning
     * session does not exist or when it already has a report.
     */
    method CreateReport(r: Report, fault: bool) returns (ok: bool)
      requires Valid()
      modifies this
      ensures Valid()
      ensures ok == (!fault && r.sessionId in old(sessions) && r.sessionId !in old(reports))
      ensures reports == if ok then old(reports)[r.sessionId := r] else old(reports)
      ensures sessions == old(sessions)
    {
      ok := !fault && r.sessionId in sessions && r.sessionId !in reports;
      if ok {
        reports := reports[r.sessionId := r];
      }
    }

    /**
     * `POST /api/sessions` up to the 201 response: the input checks in their
     * order, then the insert of a pending session.
     */
    method CreateSession(url: Option<string>, persona: Option<string>, newId: string, fault: bool)
      returns (resp: PostResponse)
      requires Valid()
      modifies this
      ensures Valid()
      ensures resp == PostOutcome(url, persona, dbAvailable, aiAvailable, !fault && newId !in old(sessions), newId)
      ensures sessions == if resp.Created? then old(sessions)[newId := resp.session] else old(sessions)
      ensures reports == old(reports)
    {
      if !Truthy(url) || !Truthy(persona) {
        return MissingInput;
      }
      if !dbAvailable {
        return DatabaseUnavailable;
      }
      if !aiAvailable {
        return AiUnavailable;
      }
      if fault || newId in sessions {
        return CreateFailed;
      }
      var session := Session(newId, url.value, persona.value, Pending, 0);
      sessions := sessions[newId := session];
      resp := Created(session);
    }

    /**
     * `runAnalysis`: exploring/20, generating/50, the analyzer call, progress 80,
     * the report insert, completed/100; the first step that throws ends the run
     * with a best-effort write of failed/0 whose own failure is swallowed.
     */
    method RunAnalysis(id: string, url: string, persona: string,
                       analyzer: (string, string) -> Option<AnalysisResult>,
                       stringify: Json -> string, faults: set<Step>)
      requires Valid()
      requires id in sessions && id !in reports
      modifies this
      ensures Valid()
      ensures sessions.Keys == old(sessions).Keys
      ensures sessions[id] == RunSession(old(sessions)[id], analyzer(url, persona).Some?, faults)
      ensures forall other :: other in old(sessions) && other != id ==> sessions[other] == old(sessions)[other]
      ensures reports == if ReportInserted(analyzer(url, persona).Some?, faults)
                         then old(reports)[id := NewReport(id, analyzer(url, persona).value, stringify)]
                         else old(reports)
    {
      ghost var analyzed := analyzer(url, persona).Some?;
      ghost var s0 := sessions[id];
      // The try block: each step runs only if every earlier one succeeded.
      var ok := UpdateSession(id, SessionWrite(Some(Exploring), 20), MarkExploring in faults);
      if ok {
        ok := UpdateSession(id, SessionWrite(Some(Generating), 50), MarkGenerating in faults);
        if ok {
          var analysis := analyzer(url, persona);
          ok := analysis.Some?;
          if ok {
            ok := UpdateSession(id, SessionWrite(None, 80), MarkProgress80 in faults);
            if ok {
              ok := CreateReport(NewReport(id, analysis.value, stringify), InsertReport in faults);
              if ok {
                ok := UpdateSession(id, SessionWrite(Some(Completed), 100), MarkCompleted in faults);
              }
            }
          }
        }
      }
      assert ok == TrySucceeds(analyzed, faults);
      assert sessions[id] == TrySession(s0, analyzed, faults);
      // The catch block: a best-effort write of failed/0.
      if !ok {
        var swallowed := UpdateSession(id, SessionWrite(Some(Failed), 0), MarkFailed in faults);
      }
    }

    /**
     * `POST /api/sessions`: the 201 response carries the pending session as
     * created; the analysis then runs in the background on that session.
     */
    method HandlePost(url: Option<string>, persona: Option<string>, newId: string, createFault: bool,
                      analyzer: (string, string) -> Option<AnalysisResult>,
                      stringify: Json -> string, faults: set<Step>)
      returns (resp: PostResponse)
      requires Valid()
      modifies this
      ensures Valid()
      ensures resp == PostOutcome(url, persona, dbAvailable, aiAvailable, !createFault && newId !in old(sessions), newId)
      ensures !resp.Created? ==> sessions == old(sessions) && reports == old(reports)
      ensures resp.Created? ==>
                sessions.Keys == old(sessions).Keys + {newId} &&
                sessions[newId] == RunSession(resp.session, analyzer(url.value, persona.value).Some?, faults) &&
                (forall other :: other in old(sessions) ==> sessions[other] == old(sessions)[other])
      ensures resp.Created? ==>
                reports == if ReportInserted(analyzer(url.value, persona.value).Some?, faults)
                           then old(reports)[newId := NewReport(newId, analyzer(url.value, persona.value).value, stringify)]
                           else old(reports)
    {
      resp := CreateSession(url, persona, newId, createFault);
      if resp.Created? {
        RunAnalysis(newId, url.value, persona.value, analyzer, stringify, faults);
      }
    }

    /**
     * `GET /api/sessions/:id`: the session with its report, whose two
     * JSON-text fields are decoded in place; a decode that throws is ignored.
     * A store that is missing or fails answers 500, an unknown id 404.
     */
    method GetSession(id: string, parse: string -> Option<Json>, fault: bool) returns (resp: GetResponse)
      ensures resp == if !dbAvailable || fault then FetchFailed
                      else if id !in sessions then NotFound
                      else Found(sessions[id], if id in reports then Some(Decoded(reports[id], parse)) else None)
      ensures GetStatusCode(resp) == 200 <==> dbAvailable && !fault && id in sessions
    {
      if !dbAvailable || fault {
        return FetchFailed;
      }
      if id !in sessions {
        return NotFound;
      }
      var report: Option<ReportView> := None;
      if id in reports {
        var r := reports[id];
        var view := ReportView(r.sessionId, r.uxScore, r.summary, r.personaDebate, r.frustrationData, r.issues);
        // The inner try block: each field is overwritten once its decode returns.
        var debate := DecodeField(view.personaDebate, parse);
        if debate.Some? {
          view := view.(personaDebate := debate.value);
          var frustration := DecodeField(view.frustrationData, parse);
          if frustration.Some? {
            view := view.(frustrationData := frustration.value);
          }
        }
        report := Some(view);
      }
      resp := Found(sessions[id], report);
    }
  }
}
