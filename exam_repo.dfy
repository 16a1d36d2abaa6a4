/**
 * The exam repository: a keyed store of exams with read-modify-write
 * operations, and the exam type both workflows work on.
 *
 * The two entity definitions disagree, so the exam here is settled as the
 * union the workflows need: the app's fields plus the seeding script's
 * reporting lock (`is_reporting`, `reporting_started_at`), and reports that
 * carry the `id` the approval workflow looks them up by. The store holds
 * exams already decoded; the record codecs are modelled on their own.
 */
module ExamRepository {
  import opened Wrappers
  import opened Domain
  import opened Errors
  import Values
  import AppEntities

  datatype Report = Report(
    id: string,
    report: ReportType,
    segmentation: Option<EcgReportSegmentation>,
    createdAt: int)

  datatype Exam = Exam(
    id: string,
    filePath: string,
    madeAt: int,
    gender: Gender,
    birthDate: BirthDate,
    amplitude: string,
    speed: string,
    approved: bool,
    approvedAt: Option<int>,
    isReporting: bool,
    reportingStartedAt: Option<int>,
    principalReport: Option<Report>,
    reports: seq<Report>)

  /** What a workflow does to one request: the outcome it answers with, and
      the exam it hands to `update_exam`, if any. */
  datatype Transition<T> = Transition(outcome: Outcome<T>, write: Option<Exam>)

  /** The store after a write of `e` that succeeded or failed. */
  function Committed(store: map<string, Exam>, write: Option<Exam>, writeOk: bool): (r: map<string, Exam>)
    ensures write.None? || !writeOk ==> r == store
    ensures write.Some? && writeOk ==> write.value.id in r && r[write.value.id] == write.value
    ensures forall id :: id in store && (write.None? || id != write.value.id) ==> id in r && r[id] == store[id]
    ensures r.Keys <= store.Keys + (if write.Some? then {write.value.id} else {})
  {
    if write.Some? && writeOk then store[write.value.id := write.value] else store
  }

  /** An exam as `approve_exam` leaves it: approved, with the report as its
      principal report, appended to its reports, and its creation time as
      the approval time. */
  function ApprovedWith(e: Exam, report: Report): (r: Exam)
    ensures r.approved && r.principalReport == Some(report) && r.approvedAt == Some(report.createdAt)
    ensures |r.reports| == |e.reports| + 1 && r.reports[..|e.reports|] == e.reports && r.reports[|e.reports|] == report
    ensures r.(approved := e.approved, principalReport := e.principalReport,
               reports := e.reports, approvedAt := e.approvedAt) == e
  {
    e.(approved := true, principalReport := Some(report),
       reports := e.reports + [report], approvedAt := Some(report.createdAt))
  }

  /** An exam as `create_exam_report` leaves it: one report appended, and
      nothing else changed. */
  function WithReport(e: Exam, report: Report): (r: Exam)
    ensures |r.reports| == |e.reports| + 1 && r.reports[..|e.reports|] == e.reports && r.reports[|e.reports|] == report
    ensures r.approved == e.approved && r.principalReport == e.principalReport
    ensures r.(reports := e.reports) == e
  {
    e.(reports := e.reports + [report])
  }

  /** Approval has no guard against an exam already approved: approving
      twice with the same report lists it twice. */
  lemma ApprovingTwiceAppendsTwice(e: Exam, report: Report)
    ensures ApprovedWith(ApprovedWith(e, report), report).reports == e.reports + [report, report]
    ensures ApprovedWith(ApprovedWith(e, report), report).(reports := e.reports + [report]) == ApprovedWith(e, report)
  {
    var once := ApprovedWith(e, report);
    assert once.reports == e.reports + [report];
    assert once.reports + [report] == e.reports + [report, report];
  }

  /** The `get_all_exams` filter: applied only when `approved` is truthy. */
  predicate Listed(e: Exam, approved: Option<bool>) {
    approved != Some(true) || e.approved
  }

  /** The `count_exams` scan filter: the approval flag, and made-at bounds
      when a date range is given (inclusive, like BETWEEN). */
  datatype ScanFilter = ScanFilter(approved: bool, madeBetween: Option<(int, int)>)

  predicate Passes(e: Exam, filter: Option<ScanFilter>) {
    filter.None? ||
    (e.approved == filter.value.approved &&
     (filter.value.madeBetween.None? ||
      (filter.value.madeBetween.value.0 <= e.madeAt <= filter.value.madeBetween.value.1)))
  }

  /** `update_exam` as written: it reads `exam.exam_id` and `exam.status`,
      which an exam does not have, so every call raises AttributeError,
      which it catches, and answers False having written nothing. */
  function UpdateExamAsWritten(store: map<string, Exam>, e: Exam): (r: (bool, map<string, Exam>))
    ensures !r.0 && r.1 == store
  {
    (false, store)
  }

  /** The write `update_exam` as written loses: the intended update of an
      exam stored with other contents changes the store, the written one
      does not. */
  lemma UpdateAsWrittenLosesWrites(store: map<string, Exam>, e: Exam)
    requires e.id !in store || store[e.id] != e
    ensures Committed(store, Some(e), true) != UpdateExamAsWritten(store, e).1
    ensures Committed(store, Some(e), true)[e.id] == e
  {
  }

  /** `get_exam_by_id` as written, on the record the table holds (None when
      there is none): the application's decoder rebuilds the exam, and a
      record it cannot decode raises out of the call (the outer None). */
  function GetExamByIdAsWritten(record: Option<Values.Value>): (r: Option<Option<AppEntities.EcgExam>>)
    ensures record.None? ==> r == Some(None)
    ensures record.Some? ==> (r.Some? <==> AppEntities.ExamFromDynamo(record.value).Some?)
    ensures record.Some? && r.Some? ==> r.value == AppEntities.ExamFromDynamo(record.value)
  {
    match record
    case None => Some(None)
    case Some(v) =>
      match AppEntities.ExamFromDynamo(v)
      case Some(e) => Some(Some(e))
      case None => None
  }

  /** `check_if_exam_is_approved` as written: the decoded exam's flag, and
      False when there is no record or reading it raises. */
  function CheckIfExamIsApprovedAsWritten(record: Option<Values.Value>): (r: bool)
    ensures r <==> record.Some? && AppEntities.ExamFromDynamo(record.value).Some? &&
                   AppEntities.ExamFromDynamo(record.value).value.approved
  {
    match GetExamByIdAsWritten(record)
    case Some(Some(e)) => e.approved
    case _ => false
  }

  /** An exam record holding a principal report or any report does not
      decode in the application, so reading it raises and the approval
      check answers False. Every exam `approve_exam` writes holds its
      principal report, so it never reads back as approved. */
  lemma ExamsWithReportsUnreadable(e: AppEntities.EcgExam)
    requires e.principalReport.Some? || e.reports != []
    ensures GetExamByIdAsWritten(Some(Values.Obj(AppEntities.ExamToDynamo(e)))).None?
    ensures !CheckIfExamIsApprovedAsWritten(Some(Values.Obj(AppEntities.ExamToDynamo(e))))
  {
    AppEntities.ExamRoundTrip(e);
  }

  /** Every exam `r` lists is stored under one of the ids in `ids`, and
      the `get_all_exams` filter keeps it. */
  ghost predicate ListsFrom(store: map<string, Exam>, r: seq<Exam>, ids: set<string>, approved: Option<bool>) {
    forall i :: 0 <= i < |r| ==> r[i].id in ids && r[i].id in store && store[r[i].id] == r[i] && Listed(r[i], approved)
  }

  /** Every exam stored under an id in `ids` that the filter keeps is listed. */
  ghost predicate Covers(store: map<string, Exam>, r: seq<Exam>, ids: set<string>, approved: Option<bool>) {
    forall id {:trigger id in ids} :: id in ids && id in store && Listed(store[id], approved) ==> exists i :: 0 <= i < |r| && r[i].id == id
  }

  /** No exam is listed twice. */
  ghost predicate ListedOnce(r: seq<Exam>) {
    forall i, j :: 0 <= i < j < |r| ==> r[i].id != r[j].id
  }

  /** `r` lists, each once, exactly the exams of `store` under the ids in
      `ids` that the `get_all_exams` filter keeps. */
  ghost predicate Lists(store: map<string, Exam>, r: seq<Exam>, ids: set<string>, approved: Option<bool>) {
    ListsFrom(store, r, ids, approved) && Covers(store, r, ids, approved) && ListedOnce(r)
  }

  /** The exams scanned after `r` was listed from `ids`: `store[id]` when
      the filter keeps it. */
  function ScanNext(store: map<string, Exam>, r: seq<Exam>, id: string, approved: Option<bool>): seq<Exam>
    requires id in store
  {
    if Listed(store[id], approved) then r + [store[id]] else r
  }

  /** Scanning one more stored exam extends the listing. */
  lemma ListingStep(store: map<string, Exam>, r: seq<Exam>, ids: set<string>, id: string, approved: Option<bool>)
    requires Lists(store, r, ids, approved)
    requires id in store && store[id].id == id && id !in ids
    ensures Lists(store, ScanNext(store, r, id, approved), ids + {id}, approved)
  {
    ListsFromStep(store, r, ids, id, approved);
    CoversStep(store, r, ids, id, approved);
    ListedOnceStep(store, r, ids, id, approved);
  }

  lemma ListsFromStep(store: map<string, Exam>, r: seq<Exam>, ids: set<string>, id: string, approved: Option<bool>)
    requires ListsFrom(store, r, ids, approved)
    requires id in store && store[id].id == id
    ensures ListsFrom(store, ScanNext(store, r, id, approved), ids + {id}, approved)
  {
    var r' := ScanNext(store, r, id, approved);
    forall i | 0 <= i < |r'|
      ensures r'[i].id in ids + {id} && r'[i].id in store && store[r'[i].id] == r'[i] && Listed(r'[i], approved)
    {
      if i < |r| {
        assert r'[i] == r[i];
      }
    }
  }

  lemma CoversStep(store: map<string, Exam>, r: seq<Exam>, ids: set<string>, id: string, approved: Option<bool>)
    requires Covers(store, r, ids, approved)
    requires id in store && store[id].id == id
    ensures Covers(store, ScanNext(store, r, id, approved), ids + {id}, approved)
  {
    var r' := ScanNext(store, r, id, approved);
    forall x | x in ids + {id} && x in store && Listed(store[x], approved)
      ensures exists i :: 0 <= i < |r'| && r'[i].id == x
    {
      if x == id {
        assert r'[|r|].id == id;
      } else {
        var i :| 0 <= i < |r| && r[i].id == x;
        assert r'[i] == r[i];
      }
    }
  }

  lemma ListedOnceStep(store: map<string, Exam>, r: seq<Exam>, ids: set<string>, id: string, approved: Option<bool>)
    requires ListedOnce(r) && forall i :: 0 <= i < |r| ==> r[i].id in ids
    requires id in store && store[id].id == id && id !in ids
    ensures ListedOnce(ScanNext(store, r, id, approved))
  {
    var r' := ScanNext(store, r, id, approved);
    forall i, j | 0 <= i < j < |r'|
      ensures r'[i].id != r'[j].id
    {
      assert r'[i] == r[i];
      if j < |r| {
        assert r'[j] == r[j];
      }
    }
  }

  class ExamRepo {
    /** The table, keyed by exam id. */
    var exams: map<string, Exam>
    /** Every exam handed to `update_exam`, in call order. */
    ghost var updates: seq<Exam>

    /** Every exam is stored under its own id. */
    ghost predicate Valid()
      reads this
    {
      forall id :: id in exams ==> exams[id].id == id
    }

    constructor ()
      ensures Valid() && exams == map[] && updates == []
    {
      exams := map[];
      updates := [];
    }

    /** `get_exam_by_id`: the stored exam, or None when there is none. */
    function GetExamById(id: string): (r: Option<Exam>)
      reads this
      ensures r.Some? <==> id in exams
      ensures r.Some? ==> r.value == exams[id]
    {
      if id in exams then Some(exams[id]) else None
    }

    /** `check_if_exam_is_approved`: the stored exam's flag; False when
        there is no such exam. */
    function CheckIfExamIsApproved(id: string): (r: bool)
      reads this
      ensures r <==> GetExamById(id).Some? && GetExamById(id).value.approved
    {
      match GetExamById(id)
      case Some(exam) => exam.approved
      case None => false
    }

    /** `create_exam`: a put with no prior-existence check; a failed write
        (`writeOk` false) answers False and changes nothing. */
    method CreateExam(e: Exam, writeOk: bool) returns (ok: bool)
      requires Valid()
      modifies this
      ensures Valid()
      ensures ok == writeOk
      ensures exams == Committed(old(exams), Some(e), writeOk)
      ensures updates == old(updates)
    {
      if writeOk {
        exams := exams[e.id := e];
      }
      ok := writeOk;
    }

    /** `update_exam` as intended: the exam replaces the one stored under
        its id (or is added, as DynamoDB's update does); a failed write
        answers False and changes nothing. Every call is logged. */
    method UpdateExam(e: Exam, writeOk: bool) returns (ok: bool)
      requires Valid()
      modifies this
      ensures Valid()
      ensures ok == writeOk
      ensures exams == Committed(old(exams), Some(e), writeOk)
      ensures writeOk ==> GetExamById(e.id) == Some(e)
      ensures updates == old(updates) + [e]
    {
      if writeOk {
        exams := exams[e.id := e];
      }
      updates := updates + [e];
      ok := writeOk;
    }

    /** `delete_exam`: the exam is gone unless the write failed. */
    method DeleteExam(id: string, writeOk: bool) returns (ok: bool)
      requires Valid()
      modifies this
      ensures Valid()
      ensures ok == writeOk
      ensures exams == if writeOk then old(exams) - {id} else old(exams)
      ensures writeOk ==> GetExamById(id).None?
      ensures updates == old(updates)
    {
      if writeOk {
        exams := exams - {id};
      }
      ok := writeOk;
    }

    /** `approve_exam`: False with no write when the exam is missing;
        otherwise the fetched exam is approved with the report, handed to
        `update_exam` once, and the answer is True whatever that returns. */
    method ApproveExam(id: string, report: Report, writeOk: bool) returns (ok: bool)
      requires Valid()
      modifies this
      ensures Valid()
      ensures ok <==> id in old(exams)
      ensures !ok ==> exams == old(exams) && updates == old(updates)
      ensures ok ==> updates == old(updates) + [ApprovedWith(old(exams)[id], report)]
      ensures ok ==> exams == Committed(old(exams), Some(ApprovedWith(old(exams)[id], report)), writeOk)
      ensures ok && writeOk ==> CheckIfExamIsApproved(id)
    {
      var found := GetExamById(id);
      if found.None? {
        return false;
      }
      var exam := found.value;
      exam := exam.(approved := true);
      exam := exam.(principalReport := Some(report));
      exam := exam.(reports := exam.reports + [report]);
      exam := exam.(approvedAt := Some(report.createdAt));
      var _ := UpdateExam(exam, writeOk);
      ok := true;
    }

    /** `create_exam_report`: False with no write when the exam is missing;
        otherwise the report is appended and the exam handed to
        `update_exam` once; True whatever that returns. */
    method CreateExamReport(id: string, report: Report, writeOk: bool) returns (ok: bool)
      requires Valid()
      modifies this
      ensures Valid()
      ensures ok <==> id in old(exams)
      ensures !ok ==> exams == old(exams) && updates == old(updates)
      ensures ok ==> updates == old(updates) + [WithReport(old(exams)[id], report)]
      ensures ok ==> exams == Committed(old(exams), Some(WithReport(old(exams)[id], report)), writeOk)
    {
      var found := GetExamById(id);
      if found.None? {
        return false;
      }
      var exam := found.value;
      exam := exam.(reports := exam.reports + [report]);
      var _ := UpdateExam(exam, writeOk);
      ok := true;
    }

    /** `get_all_exams`: every stored exam the filter keeps, each once, in
        the store's own order (a scan promises none). */
    method GetAllExams(approved: Option<bool>) returns (r: seq<Exam>)
      requires Valid()
      ensures Lists(exams, r, exams.Keys, approved)
    {
      r := [];
      var pending := exams.Keys;
      ghost var all := pending;
      ghost var done: set<string> := {};
      while pending != {}
        invariant pending <= all && done == all - pending
        invariant Lists(exams, r, done, approved)
        decreases |pending|
      {
        var id :| id in pending;
        assert id in exams;
        ListingStep(exams, r, done, id, approved);
        ghost var before := r;
        if Listed(exams[id], approved) {
          r := r + [exams[id]];
        }
        assert r == ScanNext(exams, before, id, approved);
        pending := pending - {id};
        done := done + {id};
      }
      assert done == all;
    }

    /** The ids a scan with this filter matches. */
    function Matched(filter: Option<ScanFilter>): set<string>
      reads this
    {
      set id | id in exams && Passes(exams[id], filter)
    }

    /** `count_exams`: the number of exams matching the filter it builds,
        where the approval filter applies whenever `approved` is given. A
        date range without `approved` appends to a None filter, which
        raises, and the answer is 0. */
    method CountExams(approved: Option<bool>, dateRange: Option<(int, int)>) returns (n: int)
      ensures approved.None? && dateRange.Some? ==> n == 0
      ensures approved.None? && dateRange.None? ==> n == |exams|
      ensures approved.Some? ==> n == |Matched(Some(ScanFilter(approved.value, dateRange)))|
    {
      var filter: Option<ScanFilter> := None;
      if approved.Some? {
        filter := Some(ScanFilter(approved.value, None));
      }
      if dateRange.Some? {
        if filter.None? {
          return 0;
        }
        filter := Some(filter.value.(madeBetween := dateRange));
      }
      if filter.None? {
        AllMatched();
      }
      n := |Matched(filter)|;
    }

    /** With no filter a scan matches every exam. */
    lemma AllMatched()
      ensures Matched(None) == exams.Keys
    {
    }

    /** `approved=False` filters nothing when listing, but counting with it
        counts only the exams not yet approved. */
    lemma FalseFilterDiffers()
      ensures forall id :: id in exams ==> Listed(exams[id], Some(false))
      ensures Matched(Some(ScanFilter(false, None))) == set id | id in exams && !exams[id].approved
    {
    }
  }
}
