# ECG review backend — a Dafny model

This project models the core of a small ECG-review backend. Reviewers take
ECG exams one at a time and approve them with a principal report. The model
covers four layers.

- **Records.** Exams, reports, report statuses, segmentations and users are
  written to a flat key-value record (`to_dynamo`) and rebuilt from one
  (`from_dynamo`). There are two diverging copies of these entities: the
  application's (`src/core/entities/entities.py`) and the seeding script's
  (`populate_entities.py`, plus the user of `populate_user.py`).
  - Keys are string-prefixed: `EXAM#`, `ECG_EXAM#` and `USER#`.
  - Closed enumerations are written as their Portuguese labels.
  - Optional fields are written as None.
- **Number normalisers.** `decimal_to_number` and `number_to_decimal` are
  recursive maps over a JSON-like value tree (`Values.Value`).
- **The exam repository** (`ExamRepository.ExamRepo`). It is a class over a
  keyed store of exams, with get, create, update, delete, approve,
  append-report, list and count.
- **Two workflows.**
  - Assignment (`NextEcgExam`) takes the next exam and locks it for
    reporting.
  - Approval (`CreateEcgReport`) approves an exam with a principal report,
    either chosen from its reports or newly written.
  - Each workflow is a spec function, `Assign` or `Approve`, that gives the
    outcome and the exam written. Each also has a `Call` method that runs the
    steps against the repository. The method is proved equal to the spec
    function.
  - Outcomes follow `error_handler`: an `HttpException` becomes its status
    code and message, and any other exception becomes a 500 (`Errors.Outcome`).

Python behaviour is written out where the code depends on it:

- truthiness (`if data.get("approved_at")`);
- `Enum(value)` lookups, which accept a label or a member of the same
  enumeration;
- `str.split("#")[1]`, where a key without `#` raises;
- `float()` of a Decimal, int or bool;
- the `None + str` TypeError in `count_exams`;
- the AttributeError in `update_exam`.

A conversion that raises is `None` in the model. Timestamps are whole epoch
seconds (`int`). Floats and Decimals are both `real`.

## Settled inconsistencies

The two entity copies and the workflows do not agree on one exam type.
`ExamRepository.Exam` settles it as follows:

- It has the application's fields plus the seeding script's reporting lock
  (`is_reporting`, `reporting_started_at`), which both workflows use.
- Its reports carry an `id`, because the approval workflow looks reports up
  by `report.id`, which neither entity copy declares. The id a newly written
  report gets is an input.
- The application's report requires `created_by`, which the approval
  workflow never passes. The workflow's report is therefore the seeding
  script's report (classification, segmentation, creation time) plus the id.
- `get_next_ecg_exam` is called by the assignment workflow but defined by no
  repository. The next exam is an input (`Option<Exam>`), and no selection
  order is assumed.
- The repository stores exams already decoded. The record codecs are
  modelled, and proved, separately. As written, the application cannot
  read back an exam that holds a report (see "## Findings"). The
  repository and the workflows model the evident intent, in which every
  stored exam reads back.

## Where the code and the design documentation differ

In each case below the model follows the code.

- `create_exam` writes with no prior-existence check. The design says a
  create of an existing id fails.
- The application's exam key prefix is `EXAM#`. The seeding script's is
  `ECG_EXAM#`.
- The exam id is read back as `PK.split("#")[1]`. That is the text between
  the first and the second `#`, so an id round-trips only when it contains
  no `#`.
- The approval workflow ignores what `update_exam` returns, so it succeeds
  even when the write fails.
- `approve_exam` in the repository does not release the reporting lock.
- `get_all_exams` applies its approval filter only when `approved` is
  truthy.
- `count_exams` returns 0 when it is given a date range without `approved`.

## Model

| member | source | states |
|---|---|---|
| Values.DecimalToNumber | src/core/helpers/transform.py:43-51 | an integral Decimal becomes an int of the same value and a fractional one a non-integral float; lists keep length and map element-wise; dicts keep exactly their key set; every other value is unchanged; the result holds no Decimal |
| Values.DecimalToNumberIdempotent | src/core/helpers/transform.py:43-51 | normalising twice equals normalising once |
| Values.DecimalToNumberFixesNumbers | src/core/helpers/transform.py:43-51 | a value holding no Decimal is left unchanged |
| Values.DecimalToNumberKeepsTruthiness | src/core/helpers/transform.py:43-51 | normalising never changes whether a value is truthy, so `data.get(...)` tests read the same before and after |
| Values.NumberToDecimal | populate_entities.py:10-18 | every int, float and bool leaf becomes a Decimal of the same value (a bool becomes 1 or 0), recursing through lists and dicts with their lengths and key sets kept; other leaves are unchanged; the result holds no plain number |
| Values.NumberToDecimalFixesDecimals | populate_entities.py:10-18 | a value holding no plain number is left unchanged |
| Values.NumberToDecimalIdempotent | populate_entities.py:10-18 | converting twice equals converting once |
| Values.IntLeavesRoundTrip | populate_entities.py:10-29 | a value whose numbers are all ints, with no bool, comes back unchanged through Decimal and back |
| Values.NumberLeafRoundTrip | populate_entities.py:10-29 | through Decimal and back, an integral float comes back as an int, a fractional float unchanged, and a bool as 1 or 0 |
| Values.StoredShapeKept | populate_entities.py:10-29 | through Decimal and back, a dict keeps its key set and holds no Decimal |
| Keys.Split | src/core/entities/entities.py:217 | `str.split`: at least one part, no part holds the separator, and the parts joined by it give the string back |
| Keys.SecondField | src/core/entities/entities.py:217 | `split(sep)[1]` raises exactly when the string has no separator |
| Keys.FirstField | src/core/entities/entities.py:217 | the first part is a prefix of the string without the separator |
| Keys.KeyRecovery | src/core/entities/entities.py:200-217 | for a prefix without the separator, the second field of `prefix#id` is `id` up to its own first separator |
| Keys.FirstFieldIsWhole | src/core/entities/entities.py:217 | an id is its own first field exactly when it holds no separator |
| Domain.ParseReportType | src/core/entities/entities.py:10-34 | `ReportType(text)` gives the variant whose label is `text` |
| Domain.ReportTypeLabelParses | src/core/entities/entities.py:10-34 | each of the 24 classifications parses back from its label |
| Domain.ReportTypeLabelsDistinct | src/core/entities/entities.py:10-34 | no two classifications share a label |
| Domain.ReportTypeParseFails | src/core/entities/entities.py:10-34 | parsing fails exactly for a text that is no classification's label |
| Domain.ParseSegmentationType | src/core/entities/entities.py:37-60 | `ReportSegmentationType(text)` gives the category whose label is `text` |
| Domain.SegmentationTypeLabelParses | src/core/entities/entities.py:37-60 | each of the 23 categories parses back from its label |
| Domain.SegmentationTypeParseFails | src/core/entities/entities.py:37-60 | parsing fails exactly for a text that is no category's label |
| Domain.SegmentationRejectsClassificationOnlyLabels | src/core/entities/entities.py:37-60 | the labels "ECG inconclusivo" and "ECG normal" are no category's label, so a segmentation carrying them does not decode |
| Domain.ParseGender | src/core/entities/entities.py:63-66 | `Gender(text)` succeeds exactly on a gender's label, giving that gender |
| Domain.GenderLabelParses | src/core/entities/entities.py:63-66 | each gender parses back from its label |
| Domain.ParseUserRole | populate_entities.py:91-93 | `UserRole(text)` succeeds exactly on "doctor_manager" or "doctor", and an unknown role is rejected |
| Domain.UserRoleLabelParses | populate_entities.py:91-93 | each role parses back from its label |
| Domain.EnumLookupKey | src/core/entities/entities.py:220 | an `Enum(v)` lookup sees a string, or a member of that same enumeration |
| Fields.AsBool | src/core/entities/entities.py:224 | a `bool` attribute accepts a bool or a number equal to 0 or 1, and rejects strings, None, lists and dicts |
| Fields.AsTimestamp | src/core/entities/entities.py:219 | at whole-second resolution, `datetime.fromtimestamp` reads an int as that second and a float exactly when it is whole; the year-range limit is under "## Left out" |
| Fields.AsCrowd | src/core/entities/entities.py:122 | `Literal[0, 1]` accepts exactly the ints 0 and 1 |
| Fields.AsBirthDate | src/core/entities/entities.py:188 | a birth date is accepted exactly when it matches `^\d{4}-\d{2}-\d{2}$` |
| Fields.AsReals | src/core/entities/entities.py:120 | a `List[float]` reads element by element and fails exactly when some element is not a number |
| Fields.Elements | src/core/entities/entities.py:227 | iterating a list gives its items; anything else gives no record to decode |
| Fields.TimestampRoundTrip | src/core/entities/entities.py:132-144 | a timestamp reads back as the same second, directly and after a trip through Decimal |
| Fields.RealListRoundTrip | src/core/entities/entities.py:129-141 | a list of floats reads back unchanged, directly and after a trip through Decimal |
| Fields.RealMatrixRoundTrip | src/core/entities/entities.py:128-140 | a list of float rows reads back unchanged, directly and after a trip through Decimal |
| Fields.RealSurvivesStore | populate_entities.py:10-29 | a float reads back as the same number after a trip through Decimal |
| AppEntities.UserRoundTrip | src/core/entities/entities.py:75-92 | a user's record decodes to the same name, email, password and creation time |
| AppEntities.UserFromDynamo | src/core/entities/entities.py:84-92 | a user decodes only from a dict |
| AppEntities.StatusNeedsUserRecord | src/core/entities/entities.py:107-114 | a status decodes only when its `created_by` entry is a whole user record |
| AppEntities.StatusEncodingNeverDecodes | src/core/entities/entities.py:100-114 | a status record, whose `created_by` is only an email, never decodes |
| AppEntities.ReportNeedsUserRecord | src/core/entities/entities.py:166-180 | a report decodes only when its `created_by` entry is a whole user record |
| AppEntities.ReportEncodingNeverDecodes | src/core/entities/entities.py:157-180 | a report record never decodes, so report decoding does not invert report encoding |
| AppEntities.SegmentationRoundTrip | src/core/entities/entities.py:125-145 | a segmentation decodes back unchanged: category via its label; polygon, box, area, crowd flag and creation time copied |
| AppEntities.SegmentationRecordFields | src/core/entities/entities.py:125-133 | the entries of a segmentation record, and that it holds no Decimal |
| AppEntities.SegmentationFieldsRead | src/core/entities/entities.py:135-145 | a dict whose entries read as a segmentation's fields decodes to that segmentation |
| AppEntities.ExamRoundTrip | src/core/entities/entities.py:198-228 | an exam's record decodes exactly when it has no principal report and no reports; the decoded exam has its id cut at the first `#` and an approval time of 0 dropped, and is otherwise equal, gender included |
| AppEntities.ExamRecordRead | src/core/entities/entities.py:213-228 | the same as the round trip, for the decoder's attribute reads on the record |
| AppEntities.ExamRecordKeyFields | src/core/entities/entities.py:200-208 | the record is keyed `EXAM#` + id with the made-at time as sort key, and writes `approved` and `approved_at` (None when absent) |
| AppEntities.ExamRecordPlainFields | src/core/entities/entities.py:202-206 | the file path, birth date, amplitude and speed are copied, and gender is stored as the enumeration member itself |
| AppEntities.ExamRecordReportFields | src/core/entities/entities.py:209-210 | the principal report is written as its record or None, and the reports one record each |
| AppEntities.ReportRecordHasNoDecimals | src/core/entities/entities.py:157-164 | a report record holds no Decimal |
| AppEntities.ExamRecordHasNoDecimals | src/core/entities/entities.py:198-211 | an exam record holds no Decimal |
| AppEntities.ExamFieldsRead | src/core/entities/entities.py:213-228 | a dict with an exam's entries decodes as the round trip states; a present principal report or report blocks decoding |
| AppEntities.ExamIdRoundTrip | src/core/entities/entities.py:217 | for an exam that decodes, the id comes back unchanged exactly when it holds no `#` |
| SeedEntities.Stored | populate_entities.py:245 | a stored record keeps its keys and holds no plain number |
| SeedEntities.StoredEntry | populate_entities.py:249 | each entry the decoder reads is the written entry after a trip through Decimal |
| SeedEntities.UserRecordKey | populate_entities.py:103-113 | a user is keyed `USER#` + email and tagged `USER`, and the key's second field gives the email up to its first `#` |
| SeedEntities.UserRecordFields | populate_entities.py:103-113 | the creation time, name, email, password and role label are written |
| SeedEntities.UserRoundTrip | populate_entities.py:96-124 | a stored user decodes unchanged, role included |
| SeedEntities.UserRoleRequired | populate_entities.py:115-124 | a user decodes only when its `role` entry is a role's label |
| SeedEntities.StatusEncodingNeverDecodes | populate_entities.py:127-147 | a status record, whose `created_by` is only an email, never decodes |
| SeedEntities.SegmentationRoundTrip | populate_entities.py:150-179 | a segmentation stored as Decimals decodes back unchanged |
| SeedEntities.StoredSegmentationShape | populate_entities.py:158-179 | after a trip through Decimal, the category label, polygon and box read back unchanged |
| SeedEntities.StoredSegmentationNumbers | populate_entities.py:158-179 | after a trip through Decimal, area, crowd flag and creation time read back unchanged |
| SeedEntities.ReportReadAfterNormalising | populate_entities.py:195-207 | decoding a report gives the same answer whether or not the record was normalised first |
| SeedEntities.ReportRecordFields | populate_entities.py:187-193 | the label, the creation time and the segmentation (None when absent) are written |
| SeedEntities.ReportRoundTrip | populate_entities.py:182-207 | a stored report decodes unchanged, a missing segmentation included |
| SeedEntities.StoredReportSegmentation | populate_entities.py:195-201 | a stored report's segmentation entry reads back as the report's segmentation |
| SeedEntities.StoredReportAttributes | populate_entities.py:202-207 | a stored report's classification and creation time read back |
| SeedEntities.ReportsFromDynamo | populate_entities.py:261 | a list of reports decodes element by element, keeping its length, and fails exactly when one element fails |
| SeedEntities.ReportsRead | populate_entities.py:261 | elements that each decode give the list of their reports |
| SeedEntities.ExamRoundTrip | populate_entities.py:228-262 | a stored exam decodes, with all its reports; the id is cut at the first `#`, an approval time of 0 is dropped, the lock is released, and everything else is unchanged |
| SeedEntities.StoredExamKey | populate_entities.py:249-259 | the id, made-at time, approval flag and approval time read back from the stored record |
| SeedEntities.StoredExamAttributes | populate_entities.py:252-257 | the file path, gender, birth date, amplitude and speed read back from the stored record |
| SeedEntities.StoredExamReports | populate_entities.py:260-261 | the principal report and the reports read back from the stored record |
| SeedEntities.ExamRecordKeyFields | populate_entities.py:230-231 | the record is keyed `ECG_EXAM#` + id with the made-at time as sort key |
| SeedEntities.ExamRecordApprovalFields | populate_entities.py:237-238 | `approved` is written, and `approved_at` as a timestamp or None |
| SeedEntities.ExamRecordPlainFields | populate_entities.py:232-234 | the file path and birth date are copied, and gender is written as its label |
| SeedEntities.ExamRecordSettingFields | populate_entities.py:235-236 | amplitude and speed are copied |
| SeedEntities.ExamRecordLockFields | populate_entities.py:241-243 | `is_reporting` is written, `reporting_started_at` as a timestamp or None, and the record is tagged `ECG_EXAM` |
| SeedEntities.ExamRecordReportFields | populate_entities.py:239-240 | the principal report is written as its record or None, and each report as its record, in order |
| SeedEntities.ExamFieldsRead | populate_entities.py:247-262 | a dict whose entries read as an exam's fields decodes to that exam as read back |
| SeedEntities.ExamFromFields | populate_entities.py:247-262 | a decoded exam is never being reported, because the lock is not read |
| SeedEntities.DecodedExamIsIdle | populate_entities.py:247-262 | whatever the record holds, a decoded exam has `is_reporting` False and no lock time |
| SeedEntities.ExamIdRoundTrip | populate_entities.py:251 | a stored exam's id comes back unchanged exactly when it holds no `#` |
| SeedUser.UserRoundTrip | populate_user.py:14-30 | a user's record decodes to the same name, email, password and creation time |
| SeedUser.UserKeyNamesEmail | populate_user.py:16 | the key is `USER#` + email, and its second field gives the email up to its first `#` |
| SeedUser.UserFromDynamo | populate_user.py:23-30 | a decoded user's strings are the record's own entries, and its creation time is `float()` of the sort key |
| SeedUser.FloatOf | populate_user.py:29 | `float()` takes a Decimal or an int to its value and rejects strings, None, lists and dicts |
| SeedUser.KeyNotRead | populate_user.py:23-30 | decoding does not depend on the key entry |
| SeedUser.FractionalSecondsRejected | populate_user.py:29 | a sort key with a fractional second does not decode |
| Errors.ErrorResponse | src/core/helpers/errors.py:8-23 | a returned call is no error; an `HttpException` answers with its own code and message; anything else answers 500 "Internal server error" |
| ExamRepository.Committed | src/core/database/repositories/exams/repo.py:21-43 | a write that failed, or no write, leaves the store unchanged; a successful one stores the exam under its id and changes no other entry |
| ExamRepository.ApprovedWith | src/core/database/repositories/exams/repo.py:67-71 | approval sets `approved`, makes the report principal, appends it as the only new report, sets `approved_at` to its creation time, and changes nothing else |
| ExamRepository.WithReport | src/core/database/repositories/exams/repo.py:128-129 | one report is appended, and nothing else changes |
| ExamRepository.ApprovingTwiceAppendsTwice | src/core/database/repositories/exams/repo.py:63-77 | approval has no guard, so approving twice with the same report lists it twice |
| ExamRepository.UpdateExamAsWritten | src/core/database/repositories/exams/repo.py:31-43 | `update_exam` as written answers False and writes nothing |
| ExamRepository.UpdateAsWrittenLosesWrites | src/core/database/repositories/exams/repo.py:31-43 | for every exam that differs from the stored one, the intended update changes the store and the written one does not |
| ExamRepository.GetExamByIdAsWritten | src/core/database/repositories/exams/repo.py:13-19 | no record gives None; otherwise the call succeeds exactly when the application's decoder rebuilds the exam, and then gives that exam |
| ExamRepository.CheckIfExamIsApprovedAsWritten | src/core/database/repositories/exams/repo.py:54-61 | True exactly when the record exists, decodes in the application, and is approved |
| ExamRepository.ExamsWithReportsUnreadable | src/core/database/repositories/exams/repo.py:13-19 | an exam record holding a principal report or any report raises when read, and the approval check answers False for it |
| ExamRepository.ListingStep | src/core/database/repositories/exams/repo.py:88-94 | scanning one more stored exam extends a correct listing to a correct listing |
| ExamRepository.ExamRepo.constructor | src/core/database/repositories/exams/repo.py:9-11 | the repository starts over an empty store |
| ExamRepository.ExamRepo.GetExamById | src/core/database/repositories/exams/repo.py:13-19 | gives the stored exam when there is one, and None otherwise |
| ExamRepository.ExamRepo.CheckIfExamIsApproved | src/core/database/repositories/exams/repo.py:54-61 | True exactly when the exam is stored and approved |
| ExamRepository.ExamRepo.CreateExam | src/core/database/repositories/exams/repo.py:21-29 | answers whether the write succeeded; it overwrites any exam with the same id, and a failed write changes nothing |
| ExamRepository.ExamRepo.UpdateExam | src/core/database/repositories/exams/repo.py:31-43 | answers whether the write succeeded; afterwards the exam is stored under its id, or the store is unchanged when the write failed |
| ExamRepository.ExamRepo.DeleteExam | src/core/database/repositories/exams/repo.py:45-52 | answers whether the write succeeded; afterwards the id is absent, or the store is unchanged when the write failed |
| ExamRepository.ExamRepo.ApproveExam | src/core/database/repositories/exams/repo.py:63-77 | False with no write for a missing exam; otherwise True whatever the write does, with one update of the exam as `ApprovedWith` leaves it, after which the exam reads as approved if the write succeeded |
| ExamRepository.ExamRepo.CreateExamReport | src/core/database/repositories/exams/repo.py:124-135 | False with no write for a missing exam; otherwise True, with one update of the exam with the report appended |
| ExamRepository.ExamRepo.GetAllExams | src/core/database/repositories/exams/repo.py:79-97 | lists each stored exam once, and exactly those that pass the filter, which keeps only approved exams when `approved` is truthy and keeps every exam otherwise |
| ExamRepository.ExamRepo.CountExams | src/core/database/repositories/exams/repo.py:99-122 | with no filter, counts every exam; with `approved` given, counts the exams with that flag, within the inclusive made-at range when one is given; with a range but no `approved`, answers 0 |
| ExamRepository.ExamRepo.AllMatched | src/core/database/repositories/exams/repo.py:115-119 | a scan with no filter matches every stored exam |
| ExamRepository.ExamRepo.FalseFilterDiffers | src/core/database/repositories/exams/repo.py:91-111 | `approved=False` filters nothing when listing, yet counting with it counts only unapproved exams |
| NextEcgExam.Locked | src/modules/exams/next_ecg_exam.py:33-34 | the exam is locked at `now`, and nothing else changes |
| NextEcgExam.Call | src/modules/exams/next_ecg_exam.py:21-40 | the workflow answers as `Assign` does, and commits and logs exactly the write `Assign` names |
| NextEcgExam.UnauthorisedFirst | src/modules/exams/next_ecg_exam.py:22-27 | a falsy token subject or an unknown user gives 401 with no write, whatever the next exam |
| NextEcgExam.NothingToAssign | src/modules/exams/next_ecg_exam.py:29-40 | with no next exam the answer is "no exam", and nothing is written |
| NextEcgExam.AlreadyReportingNotWritten | src/modules/exams/next_ecg_exam.py:31-40 | an exam already being reported is not written, yet is returned with `reporting_started_at` set to now |
| NextEcgExam.IdleExamWritten | src/modules/exams/next_ecg_exam.py:31-38 | an exam not being reported is written once, locked at now; a failed write gives 422 |
| NextEcgExam.AssignmentKeepsReview | src/modules/exams/next_ecg_exam.py:29-40 | a returned exam is locked, with its approval, principal report and reports unchanged; a write only ever locks an idle exam |
| NextEcgExam.AssignmentIdempotent | src/modules/exams/next_ecg_exam.py:31-37 | taking the returned exam again writes nothing, and only moves the lock time |
| NextEcgExam.AssignmentStatuses | src/modules/exams/next_ecg_exam.py:21-40 | the workflow answers only success, 401 or 422 |
| NextEcgExam.AssignmentAsWrittenFails | src/modules/exams/next_ecg_exam.py:36-38 | with `update_exam` as written, taking an idle exam always gives 422 |
| CreateEcgReport.FindReport | src/modules/exams/create_ecg_report.py:38 | finds nothing exactly when no report has the id, and otherwise the first report with it |
| CreateEcgReport.Approved | src/modules/exams/create_ecg_report.py:49-54 | the exam is approved now with that principal report and its lock released, and nothing else changes |
| CreateEcgReport.Call | src/modules/exams/create_ecg_report.py:22-56 | the workflow answers as `Approve` does on the stored exam, with the two clock readings, and commits and logs exactly the write `Approve` names |
| CreateEcgReport.UnauthorisedFirst | src/modules/exams/create_ecg_report.py:23-28 | a falsy token subject or an unknown user gives 401 with no write |
| CreateEcgReport.MissingExam | src/modules/exams/create_ecg_report.py:30-32 | a missing exam gives 422 with no write |
| CreateEcgReport.SingleShot | src/modules/exams/create_ecg_report.py:34-35 | an exam already approved, or already holding a principal report, gives 422 with no write, whatever the request |
| CreateEcgReport.ChosenReport | src/modules/exams/create_ecg_report.py:37-40 | an id that no report has gives 422 with no write; otherwise the reports are unchanged and the principal report is one of them with that id |
| CreateEcgReport.NewReport | src/modules/exams/create_ecg_report.py:41-51 | without an id, the new report with the requested classification and segmentation, made at the first clock reading, is appended as the last report and becomes principal; the approval time is the second reading |
| CreateEcgReport.MissingClassification | src/modules/exams/create_ecg_report.py:41-44 | with neither an id nor a classification, the answer is a 500 with no write |
| CreateEcgReport.ApprovalWrites | src/modules/exams/create_ecg_report.py:49-56 | success exactly when there is a write; what is written is the stored exam approved now, lock released, principal report among its reports, same identity and metadata, and old reports kept as a prefix |
| CreateEcgReport.SecondApprovalRejected | src/modules/exams/create_ecg_report.py:34-35 | once an approval is written, approving the written exam again gives 422 with no write |
| CreateEcgReport.ApprovalReleasesLock | src/modules/exams/create_ecg_report.py:53-54 | approving a locked exam writes it unlocked, under the same id |
| CreateEcgReport.ApprovalStatuses | src/modules/exams/create_ecg_report.py:22-56 | the workflow answers only success, 401, 422 or 500 |

## Left out

- DynamoDB, boto3 and the type (de)serialisers are not part of this model.
  The store is a map from exam id to exam. `src/core/database/database.py`
  is not part of this model.
  - The repository's `get_item`, `update_item` and `delete_item` calls use
    the key `{"exam_id": ...}`, while records are keyed by `PK` and `SK`.
    That mismatch is not modelled.
  - A write's success is an input (`writeOk`). It also stands for the
    serialiser rejecting a float.
- ExamRepository.ExamRepo.GetExamById: always reads a stored exam back as
  it was written. In the application, a stored exam holding a principal
  report or any report does not decode, and the read raises
  (`ExamRepository.ExamsWithReportsUnreadable`). As written, `approve_exam`
  and `create_exam_report` therefore answer False for an exam that already
  has reports. The model does not capture this; it is recorded under
  "## Findings".
- ExamRepository.ExamRepo.CheckIfExamIsApproved: True for every stored
  approved exam. As written, it answers False for every exam that
  `approve_exam` wrote, because that exam holds its principal report and
  cannot be read (`ExamRepository.CheckIfExamIsApprovedAsWritten`).
- CreateEcgReport.Approve: reads the stored exam as written. As written, an
  exam with a principal report raises on read, so the answer is 500 rather
  than the single-approval 422. Also, an exam that has reports cannot be
  read, so the `report_id` path never succeeds.
- Apart from that, reads never fail: the store raising is not modelled. So
  the "error gives False or an empty list" paths of the reads are not
  modelled.
- ExamRepository.ExamRepo.GetAllExams: `limit`, `offset` and `order_by` are
  not modelled, so the contract lists every matching exam rather than one
  page. The store promises no order, and the model states none.
- ExamRepository.ExamRepo.CountExams: the scan's answer is taken to be the
  number of matching exams. The filter reads `made_at`, which records store
  as `SK`, and the date strings are modelled as whole-second timestamps.
- The selection of the next exam (`get_next_ecg_exam`) is an input, because
  no repository defines it. As written, the call raises AttributeError, so
  every assignment by a known user answers 500.
- JWT decoding (`JWToken.decode`) and the user lookup are inputs: the
  decoded subject and whether that user exists.
- The clock (`datetime.now`) is an input, and so is the id of a newly
  written report. The approval workflow reads the clock twice, once for
  the new report (`reportAt`) and once for the approval time (`now`). The
  assignment workflow reads it once.
- `to_dict`, which is defined nowhere, is taken to be the exam itself. As
  written, returning an exam raises AttributeError, and the answer is a
  500.
- Timestamps are whole epoch seconds. A fractional float timestamp does not
  decode in the model, while Python keeps the fraction. The time zone of
  `datetime.now()` is not modelled.
- Fields.AsTimestamp: every int is accepted. `datetime.fromtimestamp`
  raises outside the years 1 to 9999, that is below -62135596800 or above
  253402300799 in UTC. A record with such a time decodes in the model but
  raises in Python.
- Floats and Decimals are exact reals. Float rounding, and the inexact
  `Decimal(float)` conversion, are not modelled. Nor is the 28-digit
  Decimal context: `value % 1` raises InvalidOperation for a Decimal of
  1E+28 or more.
- Values.DecimalToNumber: it normalises every Decimal. Python raises
  InvalidOperation on a Decimal whose integer part exceeds the 28-digit
  context.
- Fields.AsBool: pydantic also accepts strings such as "true" for a `bool`
  attribute. The model rejects every string, and no record written by this
  code holds one.
- SeedUser.FloatOf: `float()` of a numeric string is rejected rather than
  parsed.
- `\d` in the birth-date pattern also matches non-ASCII digits in Python.
  The model accepts ASCII digits only.
- Concurrency between simultaneous requests is not modelled. Each call runs
  alone against the store.
- Logging (`print`, `logger.error`), the HTTP adapters, the routers, every
  `lambda_handler` and provisioning are outside the model.

## Findings

| source | as written | input that shows it | evidently intended | confidence | as-written member | corrected member |
|---|---|---|---|---|---|---|
| src/core/database/repositories/exams/repo.py:13-19 | `get_exam_by_id` rebuilds the exam with the application's `EcgExam.from_dynamo`. That decoder calls `User.from_dynamo` on each report's `created_by`, which is stored as an email string. So a record holding a principal report or any report raises when read | an exam stored with a principal report, for example one `approve_exam` wrote; `check_if_exam_is_approved` then answers False (`ExamRepository.ExamsWithReportsUnreadable`) | a stored exam reads back as the exam that was written | not executed; follows from the encoder and decoder in `src/core/entities/entities.py` | ExamRepository.CheckIfExamIsApprovedAsWritten | ExamRepository.ExamRepo.GetExamById |
| src/core/database/repositories/exams/repo.py:31-43 | `update_exam` reads `exam.exam_id` and `exam.status`, which an exam does not have. The AttributeError is caught, so every call answers False and writes nothing | any exam; for example, assignment of an exam with `is_reporting` False always ends in 422 (`NextEcgExam.AssignmentAsWrittenFails`) | replace the stored exam under its id, and answer False only when the write fails | not executed; the attribute names follow from the entity definitions | ExamRepository.UpdateExamAsWritten | ExamRepository.ExamRepo.UpdateExam |
