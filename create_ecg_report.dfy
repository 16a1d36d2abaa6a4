/**
 * The approval workflow: a reviewer with a valid token approves an exam
 * that has no principal report yet, either choosing one of its reports by
 * id or writing a new one, which releases the reporting lock. The exam is
 * handed to `update_exam` once and the answer ignores what that returns.
 *
 * The token decode, the user lookup and the clock are inputs; so is the id
 * a new report gets (the app's report has no id, yet the workflow looks
 * reports up by one). The clock is read twice, once for a new report's
 * creation time (`reportAt`) and once for the approval time (`now`), and
 * the two readings may differ.
 */
module CreateEcgReport {
  import opened Wrappers
  import opened Domain
  import opened Errors
  import opened ExamRepository

  const ExamNotFound := "Exame não encontrado!"
  const AlreadyReported := "Já existe um relatório principal para este exame!"
  const ReportNotFound := "Relatório não encontrado!"

  /** `EcgReportRequest`: the exam, and either the id of one of its reports
      or the classification (and segmentation) of a new one. */
  datatype ReportRequest = ReportRequest(
    examId: string,
    reportId: Option<string>,
    report: Option<ReportType>,
    segmentation: Option<EcgReportSegmentation>)

  /** The first report with this id, as `next(...)` over the reports finds it. */
  function FindReport(reports: seq<Report>, id: string): (r: Option<Report>)
    ensures r.None? <==> forall i :: 0 <= i < |reports| ==> reports[i].id != id
    ensures r.Some? ==> exists i :: 0 <= i < |reports| && reports[i] == r.value && r.value.id == id &&
                                    forall j :: 0 <= j < i ==> reports[j].id != id
  {
    if |reports| == 0 then None
    else if reports[0].id == id then Some(reports[0])
    else
      var rest := FindReport(reports[1..], id);
      assert forall i :: 1 <= i < |reports| ==> reports[i] == reports[1..][i - 1];
      rest
  }

  /** The exam approved with `report` as its principal report at `now`, the
      reporting lock released. */
  function Approved(e: Exam, report: Report, now: int): (r: Exam)
    ensures r.approved && r.approvedAt == Some(now) && r.principalReport == Some(report)
    ensures !r.isReporting && r.reportingStartedAt.None?
    ensures r.(approved := e.approved, approvedAt := e.approvedAt, principalReport := e.principalReport,
               isReporting := e.isReporting, reportingStartedAt := e.reportingStartedAt) == e
  {
    e.(principalReport := Some(report), approved := true, approvedAt := Some(now),
       reportingStartedAt := None, isReporting := false)
  }

  /** What `UseCase.__call__` answers and writes, given the decoded token,
      whether its user exists, the stored exam, the request, the two clock
      readings and the id a new report gets. */
  function Approve(username: Option<string>, userExists: bool, stored: Option<Exam>,
                   request: ReportRequest, reportAt: int, now: int, newId: string): Transition<()>
  {
    if !Given(username) || !userExists then Transition(HttpErr(401, InvalidToken), None)
    else if stored.None? then Transition(HttpErr(422, ExamNotFound), None)
    else
      var exam := stored.value;
      if exam.approved || exam.principalReport.Some? then Transition(HttpErr(422, AlreadyReported), None)
      else if Given(request.reportId) then
        match FindReport(exam.reports, request.reportId.value)
        case None => Transition(HttpErr(422, ReportNotFound), None)
        case Some(report) => Transition(Ok(()), Some(Approved(exam, report, now)))
      else if request.report.None? then Transition(Internal, None)
      else
        var report := Report(newId, request.report.value, request.segmentation, reportAt);
        Transition(Ok(()), Some(Approved(exam.(reports := exam.reports + [report]), report, now)))
  }

  /** `UseCase.__call__`, against the repository. */
  method Call(repo: ExamRepo, username: Option<string>, userExists: bool, request: ReportRequest,
              reportAt: int, now: int, newId: string, writeOk: bool)
    returns (out: Outcome<()>)
    requires repo.Valid()
    modifies repo
    ensures repo.Valid()
    ensures out == Approve(username, userExists, old(repo.GetExamById(request.examId)), request, reportAt, now, newId).outcome
    ensures repo.exams ==
      Committed(old(repo.exams), Approve(username, userExists, old(repo.GetExamById(request.examId)), request, reportAt, now, newId).write, writeOk)
    ensures var w := Approve(username, userExists, old(repo.GetExamById(request.examId)), request, reportAt, now, newId).write;
      repo.updates == old(repo.updates) + (if w.Some? then [w.value] else [])
  {
    if !Given(username) {
      return HttpErr(401, InvalidToken);
    }
    if !userExists {
      return HttpErr(401, InvalidToken);
    }
    var found := repo.GetExamById(request.examId);
    if found.None? {
      return HttpErr(422, ExamNotFound);
    }
    var exam := found.value;
    if exam.approved || exam.principalReport.Some? {
      return HttpErr(422, AlreadyReported);
    }
    var report;
    if Given(request.reportId) {
      var chosen := FindReport(exam.reports, request.reportId.value);
      if chosen.None? {
        return HttpErr(422, ReportNotFound);
      }
      report := chosen.value;
    } else {
      if request.report.None? {
        return Internal;
      }
      report := Report(newId, request.report.value, request.segmentation, reportAt);
      exam := exam.(reports := exam.reports + [report]);
    }
    exam := exam.(principalReport := Some(report));
    exam := exam.(approved := true);
    exam := exam.(approvedAt := Some(now));
    exam := exam.(reportingStartedAt := None);
    exam := exam.(isReporting := false);
    var _ := repo.UpdateExam(exam, writeOk);
    return Ok(());
  }

  /** A missing or empty token subject, or an unknown user, is a 401 with
      no write, whatever the exam and the request. */
  lemma UnauthorisedFirst(username: Option<string>, userExists: bool, stored: Option<Exam>,
                          request: ReportRequest, reportAt: int, now: int, newId: string)
    requires !Given(username) || !userExists
    ensures Approve(username, userExists, stored, request, reportAt, now, newId) == Transition(HttpErr(401, InvalidToken), None)
  {
  }

  /** A missing exam is a 422 with no write. */
  lemma MissingExam(username: Option<string>, request: ReportRequest, reportAt: int, now: int, newId: string)
    requires Given(username)
    ensures Approve(username, true, None, request, reportAt, now, newId) == Transition(HttpErr(422, ExamNotFound), None)
  {
  }

  /** An exam already approved, or already holding a principal report, is a
      422 with no write, whatever the request. */
  lemma SingleShot(username: Option<string>, e: Exam, request: ReportRequest, reportAt: int, now: int, newId: string)
    requires Given(username) && (e.approved || e.principalReport.Some?)
    ensures Approve(username, true, Some(e), request, reportAt, now, newId) == Transition(HttpErr(422, AlreadyReported), None)
  {
  }

  /** Choosing a report by id: an id none of the exam's reports has is a
      422 with no write; otherwise the reports stay as they were and the
      first report with that id becomes the principal report. */
  lemma ChosenReport(username: Option<string>, e: Exam, request: ReportRequest, reportAt: int, now: int, newId: string)
    requires Given(username) && !e.approved && e.principalReport.None? && Given(request.reportId)
    ensures var t := Approve(username, true, Some(e), request, reportAt, now, newId);
      (forall i :: 0 <= i < |e.reports| ==> e.reports[i].id != request.reportId.value) ==>
        t == Transition(HttpErr(422, ReportNotFound), None)
    ensures var t := Approve(username, true, Some(e), request, reportAt, now, newId);
      (exists i :: 0 <= i < |e.reports| && e.reports[i].id == request.reportId.value) ==>
        t.outcome.Ok? && t.write.Some? && t.write.value.reports == e.reports &&
        t.write.value.principalReport.Some? && t.write.value.principalReport.value in e.reports &&
        t.write.value.principalReport.value.id == request.reportId.value
  {
    var found := FindReport(e.reports, request.reportId.value);
    if found.Some? {
      var i :| 0 <= i < |e.reports| && e.reports[i] == found.value && found.value.id == request.reportId.value &&
               forall j :: 0 <= j < i ==> e.reports[j].id != request.reportId.value;
      assert found.value in e.reports;
    }
  }

  /** Writing a new report: it is appended as the last report and becomes
      the principal report, with the requested classification, made at the
      first clock reading; the approval time is the second. */
  lemma NewReport(username: Option<string>, e: Exam, request: ReportRequest, reportAt: int, now: int, newId: string)
    requires Given(username) && !e.approved && e.principalReport.None?
    requires !Given(request.reportId) && request.report.Some?
    ensures var t := Approve(username, true, Some(e), request, reportAt, now, newId);
      t.outcome.Ok? && t.write.Some? &&
      |t.write.value.reports| == |e.reports| + 1 &&
      t.write.value.reports[..|e.reports|] == e.reports &&
      t.write.value.principalReport == Some(t.write.value.reports[|e.reports|]) &&
      t.write.value.reports[|e.reports|] == Report(newId, request.report.value, request.segmentation, reportAt) &&
      t.write.value.approvedAt == Some(now)
  {
    var report := Report(newId, request.report.value, request.segmentation, reportAt);
    assert (e.reports + [report])[..|e.reports|] == e.reports;
  }

  /** Without a report id and without a classification, `ReportType(None)`
      raises: a 500, with no write. */
  lemma MissingClassification(username: Option<string>, e: Exam, request: ReportRequest, reportAt: int, now: int, newId: string)
    requires Given(username) && !e.approved && e.principalReport.None?
    requires !Given(request.reportId) && request.report.None?
    ensures Approve(username, true, Some(e), request, reportAt, now, newId) == Transition(Internal, None)
    ensures ErrorResponse(Approve(username, true, Some(e), request, reportAt, now, newId).outcome) == Some((500, InternalMessage))
  {
  }

  /** A request either succeeds and writes the approved exam, or fails and
      writes nothing. What it writes is the stored exam approved at `now`,
      with the lock released, the same identity and metadata, and its
      reports kept as a prefix. */
  lemma ApprovalWrites(username: Option<string>, userExists: bool, stored: Option<Exam>,
                       request: ReportRequest, reportAt: int, now: int, newId: string)
    ensures var t := Approve(username, userExists, stored, request, reportAt, now, newId);
      t.outcome.Ok? <==> t.write.Some?
    ensures var t := Approve(username, userExists, stored, request, reportAt, now, newId);
      t.write.Some? ==>
        stored.Some? && !stored.value.approved && stored.value.principalReport.None? &&
        t.write.value.approved && t.write.value.approvedAt == Some(now) &&
        !t.write.value.isReporting && t.write.value.reportingStartedAt.None? &&
        t.write.value.principalReport.Some? && t.write.value.principalReport.value in t.write.value.reports &&
        t.write.value.(approved := false, approvedAt := stored.value.approvedAt, principalReport := None,
                       isReporting := stored.value.isReporting, reportingStartedAt := stored.value.reportingStartedAt,
                       reports := stored.value.reports) == stored.value &&
        stored.value.reports <= t.write.value.reports
  {
    var t := Approve(username, userExists, stored, request, reportAt, now, newId);
    if t.write.Some? && !Given(request.reportId) {
      var e := stored.value;
      var report := Report(newId, request.report.value, request.segmentation, reportAt);
      assert t.write.value.reports == e.reports + [report];
      assert t.write.value.reports[|e.reports|] == report;
    } else if t.write.Some? {
      ChosenReport(username, stored.value, request, reportAt, now, newId);
    }
  }

  /** Once an approval is written, approving the written exam again is
      rejected, whatever the second request. */
  lemma SecondApprovalRejected(username: Option<string>, stored: Option<Exam>, request: ReportRequest,
                               reportAt: int, now: int, newId: string, again: ReportRequest, laterReport: int, later: int, laterId: string)
    requires Approve(username, true, stored, request, reportAt, now, newId).write.Some?
    ensures Approve(username, true, Approve(username, true, stored, request, reportAt, now, newId).write, again, laterReport, later, laterId) ==
      Transition(HttpErr(422, AlreadyReported), None)
  {
    ApprovalWrites(username, true, stored, request, reportAt, now, newId);
  }

  /** Approving an exam a reviewer has locked releases the lock. */
  lemma ApprovalReleasesLock(username: Option<string>, e: Exam, request: ReportRequest, reportAt: int, now: int, newId: string)
    requires e.isReporting
    requires Approve(username, true, Some(e), request, reportAt, now, newId).outcome.Ok?
    ensures var w := Approve(username, true, Some(e), request, reportAt, now, newId).write;
      w.Some? && !w.value.isReporting && w.value.reportingStartedAt.None? && w.value.id == e.id
  {
    ApprovalWrites(username, true, Some(e), request, reportAt, now, newId);
  }

  /** The workflow answers only 200, 401, 422 or 500. */
  lemma ApprovalStatuses(username: Option<string>, userExists: bool, stored: Option<Exam>,
                         request: ReportRequest, reportAt: int, now: int, newId: string)
    ensures var r := ErrorResponse(Approve(username, userExists, stored, request, reportAt, now, newId).outcome);
      r.None? || r.value.0 in {401, 422, 500}
  {
  }
}
