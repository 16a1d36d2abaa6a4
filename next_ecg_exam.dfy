/**
 * The assignment workflow: a reviewer with a valid token takes the next
 * exam, which is locked for reporting (`is_reporting`, with the time the
 * lock was taken) and written back unless it was already locked.
 *
 * The token decode, the user lookup and the selection of the next exam are
 * inputs: the repository that would select it (`get_next_ecg_exam`) is not
 * part of this model, so the next exam is any exam or none, and no order
 * is assumed.
 */
module NextEcgExam {
  import opened Wrappers
  import opened Errors
  import opened ExamRepository

  const StartFailed := "Não foi possível iniciar o relatório do exame ECG."

  /** The exam as the workflow leaves it in memory: locked at `now`. */
  function Locked(e: Exam, now: int): (r: Exam)
    ensures r.isReporting && r.reportingStartedAt == Some(now)
    ensures r.(isReporting := e.isReporting, reportingStartedAt := e.reportingStartedAt) == e
  {
    e.(isReporting := true, reportingStartedAt := Some(now))
  }

  /** What `UseCase.__call__` answers and writes, given the decoded token,
      whether its user exists, the next exam, the clock and whether the
      write succeeds. */
  function Assign(username: Option<string>, userExists: bool, next: Option<Exam>, now: int, writeOk: bool): Transition<Option<Exam>> {
    if !Given(username) || !userExists then Transition(HttpErr(401, InvalidToken), None)
    else if next.None? then Transition(Ok(None), None)
    else
      var exam := Locked(next.value, now);
      if next.value.isReporting then Transition(Ok(Some(exam)), None)
      else if writeOk then Transition(Ok(Some(exam)), Some(exam))
      else Transition(HttpErr(422, StartFailed), Some(exam))
  }

  /** `UseCase.__call__`, against the repository. */
  method Call(repo: ExamRepo, username: Option<string>, userExists: bool, next: Option<Exam>, now: int, writeOk: bool)
    returns (out: Outcome<Option<Exam>>)
    requires repo.Valid()
    modifies repo
    ensures repo.Valid()
    ensures out == Assign(username, userExists, next, now, writeOk).outcome
    ensures repo.exams == Committed(old(repo.exams), Assign(username, userExists, next, now, writeOk).write, writeOk)
    ensures var w := Assign(username, userExists, next, now, writeOk).write;
      repo.updates == old(repo.updates) + (if w.Some? then [w.value] else [])
  {
    if !Given(username) {
      return HttpErr(401, InvalidToken);
    }
    if !userExists {
      return HttpErr(401, InvalidToken);
    }
    if next.None? {
      return Ok(None);
    }
    var exam := next.value;
    var wasReporting := exam.isReporting;
    exam := exam.(isReporting := true);
    exam := exam.(reportingStartedAt := Some(now));
    if !wasReporting {
      var ok := repo.UpdateExam(exam, writeOk);
      if !ok {
        return HttpErr(422, StartFailed);
      }
    }
    return Ok(Some(exam));
  }

  /** A missing or empty token subject, or an unknown user, is a 401 with
      no write, decided before any exam is looked at. */
  lemma UnauthorisedFirst(username: Option<string>, userExists: bool, next: Option<Exam>, now: int, writeOk: bool)
    requires !Given(username) || !userExists
    ensures Assign(username, userExists, next, now, writeOk) == Transition(HttpErr(401, InvalidToken), None)
  {
  }

  /** With no exam to take, the answer is "no exam" and nothing is written. */
  lemma NothingToAssign(username: Option<string>, now: int, writeOk: bool)
    requires Given(username)
    ensures Assign(username, true, None, now, writeOk) == Transition(Ok(None), None)
  {
  }

  /** An exam already being reported is not written again, yet the answer
      carries the new lock time. */
  lemma AlreadyReportingNotWritten(username: Option<string>, e: Exam, now: int, writeOk: bool)
    requires Given(username) && e.isReporting
    ensures Assign(username, true, Some(e), now, writeOk).write.None?
    ensures Assign(username, true, Some(e), now, writeOk).outcome == Ok(Some(e.(reportingStartedAt := Some(now))))
  {
  }

  /** An exam not being reported is written exactly once, locked at `now`;
      a failed write is a 422. */
  lemma IdleExamWritten(username: Option<string>, e: Exam, now: int, writeOk: bool)
    requires Given(username) && !e.isReporting
    ensures Assign(username, true, Some(e), now, writeOk).write == Some(Locked(e, now))
    ensures Assign(username, true, Some(e), now, writeOk).outcome ==
      if writeOk then Ok(Some(Locked(e, now))) else HttpErr(422, StartFailed)
  {
  }

  /** A successful assignment returns the next exam locked, with its
      approval and reports untouched; anything it writes is that exam. */
  lemma AssignmentKeepsReview(username: Option<string>, userExists: bool, next: Option<Exam>, now: int, writeOk: bool)
    ensures var t := Assign(username, userExists, next, now, writeOk);
      t.outcome.Ok? && t.outcome.value.Some? ==>
        next.Some? && t.outcome.value.value.isReporting &&
        t.outcome.value.value.approved == next.value.approved &&
        t.outcome.value.value.approvedAt == next.value.approvedAt &&
        t.outcome.value.value.principalReport == next.value.principalReport &&
        t.outcome.value.value.reports == next.value.reports
    ensures var t := Assign(username, userExists, next, now, writeOk);
      t.write.Some? ==> next.Some? && !next.value.isReporting && t.write.value == Locked(next.value, now)
  {
  }

  /** Taking the exam a successful assignment returned, at any later time,
      writes nothing more: the lock only moves its start time. */
  lemma AssignmentIdempotent(username: Option<string>, e: Exam, now: int, writeOk: bool, later: int, laterOk: bool)
    requires Assign(username, true, Some(e), now, writeOk).outcome.Ok?
    ensures var first := Assign(username, true, Some(e), now, writeOk).outcome.value.value;
      Assign(username, true, Some(first), later, laterOk) == Transition(Ok(Some(Locked(e, later))), None)
  {
    var first := Locked(e, now);
    assert Locked(first, later) == Locked(e, later);
  }

  /** The workflow answers only 200, 401 or 422. */
  lemma AssignmentStatuses(username: Option<string>, userExists: bool, next: Option<Exam>, now: int, writeOk: bool)
    ensures var r := ErrorResponse(Assign(username, userExists, next, now, writeOk).outcome);
      r.None? || r.value.0 == 401 || r.value.0 == 422
  {
  }

  /** With `update_exam` as written, which always answers False, taking an
      exam not already being reported always ends in a 422. */
  lemma AssignmentAsWrittenFails(username: Option<string>, store: map<string, Exam>, e: Exam, now: int)
    requires Given(username) && !e.isReporting
    ensures Assign(username, true, Some(e), now, UpdateExamAsWritten(store, Locked(e, now)).0).outcome == HttpErr(422, StartFailed)
  {
  }
}
