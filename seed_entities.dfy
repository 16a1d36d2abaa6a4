/**
 * The entity model of the seeding script (`populate_entities.py`). It
 * mirrors the application's model with three differences: every record is
 * passed through `number_to_decimal` before it is returned, so all of its
 * numbers are Decimals; a user has a role and a report has no author or
 * approvals; and an exam carries the reporting lock (`is_reporting`,
 * `reporting_started_at`), which its decoder never reads back.
 *
 * The segmentation class of the script has the same fields, encoding and
 * decoding as the application's, so its decoder is shared.
 */
module SeedEntities {
  import opened Wrappers
  import opened Values
  import opened Domain
  import opened Fields
  import Keys
  import AppEntities

  datatype User = User(name: string, email: string, password: string, role: UserRole, createdAt: int)

  datatype EcgReportStatus = EcgReportStatus(status: bool, createdAt: int, createdBy: User)

  datatype EcgReport = EcgReport(
    report: ReportType,
    reportSegmentation: Option<EcgReportSegmentation>,
    createdAt: int)

  datatype EcgExam = EcgExam(
    id: string,
    filePath: string,
    madeAt: int,
    gender: Gender,
    birthDate: BirthDate,
    amplitude: string,
    speed: string,
    approved: bool,
    approvedAt: Option<int>,
    isReporting: bool,
    reportingStartedAt: Option<int>,
    principalReport: Option<EcgReport>,
    reports: seq<EcgReport>)

  const ExamPrefix := "ECG_EXAM"
  const UserPrefix := "USER"

  lemma PrefixHasNoSeparator()
    ensures '#' !in ExamPrefix
  {
    assert ExamPrefix == ['E', 'C', 'G', '_', 'E', 'X', 'A', 'M'];
  }

  /** What `to_dynamo` returns for a dict it built: `number_to_decimal(data)`. */
  function Stored(raw: map<string, Value>): (r: map<string, Value>)
    ensures r.Keys == raw.Keys
    ensures NoPlainNumbers(Obj(r))
  {
    NumberToDecimal(Obj(raw)).fields
  }

  /** What the decoder sees of a stored record: its entries after a trip
      through Decimal. */
  function ReadBack(raw: map<string, Value>): map<string, Value> {
    DecimalToNumber(Obj(Stored(raw))).fields
  }

  // ---- User ----

  function UserRecord(u: User): map<string, Value> {
    map[
      "PK" := Str(UserPrefix + "#" + u.email),
      "SK" := TimestampValue(u.createdAt),
      "name" := Str(u.name),
      "email" := Str(u.email),
      "password" := Str(u.password),
      "role" := Str(UserRoleLabel(u.role)),
      "type" := Str("USER")]
  }

  function UserToDynamo(u: User): map<string, Value> {
    Stored(UserRecord(u))
  }

  /** A user decodes only with a known role. */
  function UserFromDynamo(data: Value): Option<User> {
    var d := DecimalToNumber(data);
    if !d.Obj? then None
    else
      var m := d.fields;
      var name :- AsStr(FieldOrNull(m, "name"));
      var email :- AsStr(FieldOrNull(m, "email"));
      var password :- AsStr(FieldOrNull(m, "password"));
      var createdAt :- AsTimestamp(FieldOrNull(m, "SK"));
      var roleText :- EnumLookupKey(FieldOrNull(m, "role"), "UserRole");
      var role :- ParseUserRole(roleText);
      Some(User(name, email, password, role, createdAt))
  }

  // ---- EcgReportStatus ----

  function StatusToDynamo(s: EcgReportStatus): map<string, Value> {
    Stored(map[
      "status" := Bool(s.status),
      "created_at" := TimestampValue(s.createdAt),
      "created_by" := Str(s.createdBy.email)])
  }

  function StatusFromDynamo(data: Value): Option<EcgReportStatus> {
    var d := DecimalToNumber(data);
    if !d.Obj? then None
    else
      var m := d.fields;
      var status :- AsBool(FieldOrNull(m, "status"));
      var createdAt :- AsTimestamp(FieldOrNull(m, "created_at"));
      var createdBy :- UserFromDynamo(FieldOrNull(m, "created_by"));
      Some(EcgReportStatus(status, createdAt, createdBy))
  }

  // ---- EcgReportSegmentation ----

  function SegmentationToDynamo(s: EcgReportSegmentation): map<string, Value> {
    Stored(AppEntities.SegmentationToDynamo(s))
  }

  // ---- EcgReport ----

  function ReportRecord(r: EcgReport): map<string, Value> {
    map[
      "report" := Str(ReportTypeLabel(r.report)),
      "report_segmentation" := (if r.reportSegmentation.Some? then Obj(SegmentationToDynamo(r.reportSegmentation.value)) else Null),
      "created_at" := TimestampValue(r.createdAt)]
  }

  function ReportToDynamo(r: EcgReport): map<string, Value> {
    Stored(ReportRecord(r))
  }

  /** The segmentation is rebuilt from the record as stored, and only
      when the record's entry is truthy; an absent or null entry gives none. */
  function ReportFromDynamo(data: Value): Option<EcgReport> {
    if !data.Obj? then None
    else
      var segmentation :- ReportSegmentation(data.fields);
      ReportFromFields(DecimalToNumber(data).fields, segmentation)
  }

  function ReportSegmentation(m: map<string, Value>): Option<Option<EcgReportSegmentation>> {
    if Truthy(FieldOrNull(m, "report_segmentation")) then
      var s :- AppEntities.SegmentationFromDynamo(m["report_segmentation"]);
      Some(Some(s))
    else Some(None)
  }

  /** The remaining attribute reads of the report decoder, on the normalised
      record. */
  function ReportFromFields(m: map<string, Value>, segmentation: Option<EcgReportSegmentation>): Option<EcgReport> {
    var reportText :- EnumLookupKey(FieldOrNull(m, "report"), "ReportType");
    var report :- ParseReportType(reportText);
    var createdAt :- AsTimestamp(FieldOrNull(m, "created_at"));
    Some(EcgReport(report, segmentation, createdAt))
  }

  /** `[EcgReport.from_dynamo(x) for x in xs]`: every element must decode. */
  function ReportsFromDynamo(xs: seq<Value>): (r: Option<seq<EcgReport>>)
    ensures r.Some? ==> |r.value| == |xs|
    ensures r.Some? ==> forall i :: 0 <= i < |xs| ==> ReportFromDynamo(xs[i]) == Some(r.value[i])
    ensures r.None? ==> exists i :: 0 <= i < |xs| && ReportFromDynamo(xs[i]).None?
  {
    if xs == [] then Some([])
    else
      match (ReportFromDynamo(xs[0]), ReportsFromDynamo(xs[1..]))
      case (Some(x), Some(rest)) => Some([x] + rest)
      case (None, _) => None
      case (_, None) => assert forall i :: 0 <= i < |xs[1..]| ==> xs[1..][i] == xs[i + 1]; None
  }

  // ---- EcgExam ----

  /** Gender is written as its label; the lock and a `type` tag are written too. */
  function ExamRecord(e: EcgExam): map<string, Value> {
    map[
      "PK" := Str(ExamPrefix + "#" + e.id),
      "SK" := TimestampValue(e.madeAt),
      "file_path" := Str(e.filePath),
      "gender" := Str(GenderLabel(e.gender)),
      "birth_date" := Str(e.birthDate),
      "amplitude" := Str(e.amplitude),
      "speed" := Str(e.speed),
      "approved" := Bool(e.approved),
      "approved_at" := (if e.approvedAt.Some? then TimestampValue(e.approvedAt.value) else Null),
      "principal_report" := (if e.principalReport.Some? then Obj(ReportToDynamo(e.principalReport.value)) else Null),
      "reports" := List(seq(|e.reports|, i requires 0 <= i < |e.reports| => Obj(ReportToDynamo(e.reports[i])))),
      "is_reporting" := Bool(e.isReporting),
      "reporting_started_at" := (if e.reportingStartedAt.Some? then TimestampValue(e.reportingStartedAt.value) else Null),
      "type" := Str("ECG_EXAM")]
  }

  function ExamToDynamo(e: EcgExam): map<string, Value> {
    Stored(ExamRecord(e))
  }

  function ExamFromDynamo(data: Value): Option<EcgExam> {
    var d := DecimalToNumber(data);
    if d.Obj? then ExamFromFields(d.fields) else None
  }

  /** The attribute reads of the exam decoder, on a normalised record. The
      lock fields are not read: a decoded exam is never being reported. */
  function ExamFromFields(m: map<string, Value>): (r: Option<EcgExam>)
    ensures r.Some? ==> !r.value.isReporting && r.value.reportingStartedAt.None?
  {
    var id :- IdFromFields(m);
    var filePath :- AsStr(FieldOrNull(m, "file_path"));
    var madeAt :- AsTimestamp(FieldOrNull(m, "SK"));
    var genderText :- EnumLookupKey(FieldOrNull(m, "gender"), "Gender");
    var gender :- ParseGender(genderText);
    var birthDate :- AsBirthDate(FieldOrNull(m, "birth_date"));
    var amplitude :- AsStr(FieldOrNull(m, "amplitude"));
    var speed :- AsStr(FieldOrNull(m, "speed"));
    var approved :- AsBool(FieldOrNull(m, "approved"));
    var approvedAt :- ApprovedAtFromFields(m);
    var principalReport :- PrincipalReportFromFields(m);
    var reports :- ReportsFromFields(m);
    Some(EcgExam(id, filePath, madeAt, gender, birthDate, amplitude, speed,
                 approved, approvedAt, false, None, principalReport, reports))
  }

  /** The id: the second `#`-separated field of the key. */
  function IdFromFields(m: map<string, Value>): Option<string> {
    var pk :- AsStr(FieldOrNull(m, "PK"));
    Keys.SecondField(pk, '#')
  }

  /** `approved_at`, read only when truthy. */
  function ApprovedAtFromFields(m: map<string, Value>): Option<Option<int>> {
    if Truthy(FieldOrNull(m, "approved_at")) then
      var t :- AsTimestamp(m["approved_at"]);
      Some(Some(t))
    else Some(None)
  }

  /** `principal_report`, decoded only when truthy. */
  function PrincipalReportFromFields(m: map<string, Value>): Option<Option<EcgReport>> {
    if Truthy(FieldOrNull(m, "principal_report")) then
      var r :- ReportFromDynamo(m["principal_report"]);
      Some(Some(r))
    else Some(None)
  }

  /** `reports`, empty when absent. */
  function ReportsFromFields(m: map<string, Value>): Option<seq<EcgReport>> {
    var items :- Elements(if "reports" in m then m["reports"] else List([]));
    ReportsFromDynamo(items)
  }

  // ---- Properties ----

  /** Reading entry `k` of a stored record after normalisation sees the
      original entry after a trip through Decimal. */
  lemma StoredEntry(raw: map<string, Value>, k: string)
    requires k in raw
    ensures DecimalToNumber(Obj(Stored(raw))).Obj?
    ensures k in DecimalToNumber(Obj(Stored(raw))).fields
    ensures DecimalToNumber(Obj(Stored(raw))).fields[k] == DecimalToNumber(NumberToDecimal(raw[k]))
  {
    assert Obj(Stored(raw)) == NumberToDecimal(Obj(raw));
  }

  lemma UserRecordFields(u: User)
    ensures "SK" in UserRecord(u) && UserRecord(u)["SK"] == TimestampValue(u.createdAt)
    ensures "name" in UserRecord(u) && UserRecord(u)["name"] == Str(u.name)
    ensures "email" in UserRecord(u) && UserRecord(u)["email"] == Str(u.email)
    ensures "password" in UserRecord(u) && UserRecord(u)["password"] == Str(u.password)
    ensures "role" in UserRecord(u) && UserRecord(u)["role"] == Str(UserRoleLabel(u.role))
  {
  }

  /** A user is keyed by its email behind the `USER` prefix and tagged as a
      user; splitting the key at '#' gives back the email up to its own
      first '#'. */
  lemma UserRecordKey(u: User)
    ensures "PK" in UserRecord(u) && UserRecord(u)["PK"] == Str("USER#" + u.email)
    ensures "type" in UserRecord(u) && UserRecord(u)["type"] == Str("USER")
    ensures Keys.SecondField(UserRecord(u)["PK"].s, '#') == Some(Keys.FirstField(u.email, '#'))
  {
    assert UserPrefix == ['U', 'S', 'E', 'R'];
    Keys.KeyRecovery(UserPrefix, u.email, '#');
  }

  /** A stored user decodes to the user it was written from. */
  lemma UserRoundTrip(u: User)
    ensures UserFromDynamo(Obj(UserToDynamo(u))) == Some(u)
  {
    var raw := UserRecord(u);
    UserRecordFields(u);
    StoredEntry(raw, "SK");
    StoredEntry(raw, "name");
    StoredEntry(raw, "email");
    StoredEntry(raw, "password");
    StoredEntry(raw, "role");
    Fields.TimestampRoundTrip(u.createdAt);
    var d := DecimalToNumber(Obj(Stored(raw))).fields;
    assert AsTimestamp(d["SK"]) == Some(u.createdAt);
    UserRoleLabelParses(u.role);
  }

  /** A user decodes only from a record whose role entry is a role's text. */
  lemma UserRoleRequired(data: Value)
    ensures UserFromDynamo(data).Some? ==>
      data.Obj? && "role" in data.fields &&
      EnumLookupKey(DecimalToNumber(data.fields["role"]), "UserRole") == Some(UserRoleLabel(UserFromDynamo(data).value.role))
  {
  }

  /** A status record holds only its author's email, so it never decodes. */
  lemma StatusEncodingNeverDecodes(s: EcgReportStatus)
    ensures StatusFromDynamo(Obj(StatusToDynamo(s))).None?
  {
    var raw := map[
      "status" := Bool(s.status),
      "created_at" := TimestampValue(s.createdAt),
      "created_by" := Str(s.createdBy.email)];
    assert raw["created_by"] == Str(s.createdBy.email);
    StoredEntry(raw, "created_by");
  }

  /** A stored segmentation decodes to the segmentation it was written from. */
  lemma SegmentationRoundTrip(s: EcgReportSegmentation)
    ensures AppEntities.SegmentationFromDynamo(Obj(SegmentationToDynamo(s))) == Some(s)
  {
    var d := ReadBack(AppEntities.SegmentationToDynamo(s));
    StoredSegmentationShape(s);
    StoredSegmentationNumbers(s);
    AppEntities.SegmentationFieldsRead(d, s);
  }

  lemma StoredSegmentationShape(s: EcgReportSegmentation)
    ensures "category" in ReadBack(AppEntities.SegmentationToDynamo(s))
    ensures ReadBack(AppEntities.SegmentationToDynamo(s))["category"] == Str(SegmentationTypeLabel(s.category))
    ensures "segmentation" in ReadBack(AppEntities.SegmentationToDynamo(s))
    ensures AsRealMatrix(ReadBack(AppEntities.SegmentationToDynamo(s))["segmentation"]) == Some(s.segmentation)
    ensures "bbox" in ReadBack(AppEntities.SegmentationToDynamo(s))
    ensures AsRealList(ReadBack(AppEntities.SegmentationToDynamo(s))["bbox"]) == Some(s.bbox)
  {
    var raw := AppEntities.SegmentationToDynamo(s);
    AppEntities.SegmentationRecordFields(s);
    StoredEntry(raw, "category");
    StoredEntry(raw, "segmentation");
    StoredEntry(raw, "bbox");
    Fields.RealMatrixRoundTrip(s.segmentation);
    Fields.RealListRoundTrip(s.bbox);
  }

  lemma StoredSegmentationNumbers(s: EcgReportSegmentation)
    ensures "area" in ReadBack(AppEntities.SegmentationToDynamo(s))
    ensures AsReal(ReadBack(AppEntities.SegmentationToDynamo(s))["area"]) == Some(s.area)
    ensures "iscrowd" in ReadBack(AppEntities.SegmentationToDynamo(s))
    ensures AsCrowd(ReadBack(AppEntities.SegmentationToDynamo(s))["iscrowd"]) == Some(s.iscrowd)
    ensures "created_at" in ReadBack(AppEntities.SegmentationToDynamo(s))
    ensures AsTimestamp(ReadBack(AppEntities.SegmentationToDynamo(s))["created_at"]) == Some(s.createdAt)
  {
    var raw := AppEntities.SegmentationToDynamo(s);
    AppEntities.SegmentationRecordFields(s);
    StoredEntry(raw, "area");
    StoredEntry(raw, "iscrowd");
    StoredEntry(raw, "created_at");
    Fields.RealSurvivesStore(s.area);
    Fields.TimestampRoundTrip(s.createdAt);
    assert IsIntegral(s.iscrowd as real);
  }

  /** The report decoder gives the same result on a normalised record as on
      the record itself. */
  lemma ReportReadAfterNormalising(v: Value)
    ensures ReportFromDynamo(DecimalToNumber(v)) == ReportFromDynamo(v)
  {
    if v.Obj? {
      var n := DecimalToNumber(v);
      DecimalToNumberIdempotent(v);
      if "report_segmentation" in v.fields {
        var x := v.fields["report_segmentation"];
        DecimalToNumberKeepsTruthiness(x);
        DecimalToNumberIdempotent(x);
      }
      assert ReportSegmentation(n.fields) == ReportSegmentation(v.fields);
    }
  }

  lemma ReportRecordFields(r: EcgReport)
    ensures "report" in ReportRecord(r) && ReportRecord(r)["report"] == Str(ReportTypeLabel(r.report))
    ensures "created_at" in ReportRecord(r) && ReportRecord(r)["created_at"] == TimestampValue(r.createdAt)
    ensures "report_segmentation" in ReportRecord(r)
    ensures ReportRecord(r)["report_segmentation"] ==
      if r.reportSegmentation.Some? then Obj(SegmentationToDynamo(r.reportSegmentation.value)) else Null
  {
  }

  /** A stored report decodes to the report it was written from. */
  lemma ReportRoundTrip(r: EcgReport)
    ensures ReportFromDynamo(Obj(ReportToDynamo(r))) == Some(r)
  {
    StoredReportSegmentation(r);
    StoredReportAttributes(r);
  }

  lemma StoredReportSegmentation(r: EcgReport)
    ensures ReportSegmentation(ReportToDynamo(r)) == Some(r.reportSegmentation)
  {
    var raw := ReportRecord(r);
    ReportRecordFields(r);
    var stored := Stored(raw);
    assert Obj(stored) == NumberToDecimal(Obj(raw));
    assert stored["report_segmentation"] == NumberToDecimal(raw["report_segmentation"]);
    if r.reportSegmentation.Some? {
      var seg := Obj(SegmentationToDynamo(r.reportSegmentation.value));
      NumberToDecimalFixesDecimals(seg);
      SegmentationRoundTrip(r.reportSegmentation.value);
      assert "category" in seg.fields;
    }
  }

  lemma StoredReportAttributes(r: EcgReport)
    ensures ReportFromFields(DecimalToNumber(Obj(ReportToDynamo(r))).fields, r.reportSegmentation) == Some(r)
  {
    var raw := ReportRecord(r);
    ReportRecordFields(r);
    StoredEntry(raw, "report");
    StoredEntry(raw, "created_at");
    Fields.TimestampRoundTrip(r.createdAt);
    ReportTypeLabelParses(r.report);
  }

  /** Records that each decode as the given reports decode as that list. */
  lemma ReportsRead(xs: seq<Value>, rs: seq<EcgReport>)
    requires |xs| == |rs|
    requires forall i :: 0 <= i < |xs| ==> ReportFromDynamo(xs[i]) == Some(rs[i])
    ensures ReportsFromDynamo(xs) == Some(rs)
  {
    var r := ReportsFromDynamo(xs);
    assert r.Some? by {
      forall i | 0 <= i < |xs| ensures ReportFromDynamo(xs[i]).Some? {
      }
    }
    assert r.value == rs;
  }

  /** The exam a stored exam decodes to: the id cut at its first `#`, an
      approval time of 0 dropped (it reads back as a falsy 0), and the lock
      released, since the decoder never reads it. */
  function ExamAsReadBack(e: EcgExam): EcgExam {
    e.(id := Keys.FirstField(e.id, '#'),
       approvedAt := if e.approvedAt == Some(0) then None else e.approvedAt,
       isReporting := false,
       reportingStartedAt := None)
  }

  /** A stored exam decodes, with all its reports, to `ExamAsReadBack(e)`. */
  lemma ExamRoundTrip(e: EcgExam)
    ensures ExamFromDynamo(Obj(ExamToDynamo(e))) == Some(ExamAsReadBack(e))
  {
    var d := ReadBack(ExamRecord(e));
    StoredExamKey(e);
    StoredExamAttributes(e);
    StoredExamReports(e);
    ExamFieldsRead(d, e);
  }

  lemma StoredExamKey(e: EcgExam)
    ensures IdFromFields(ReadBack(ExamRecord(e))) == Some(Keys.FirstField(e.id, '#'))
    ensures AsTimestamp(FieldOrNull(ReadBack(ExamRecord(e)), "SK")) == Some(e.madeAt)
    ensures AsBool(FieldOrNull(ReadBack(ExamRecord(e)), "approved")) == Some(e.approved)
    ensures ApprovedAtFromFields(ReadBack(ExamRecord(e))) ==
      Some(if e.approvedAt == Some(0) then None else e.approvedAt)
  {
    var raw := ExamRecord(e);
    ExamRecordKeyFields(e);
    ExamRecordApprovalFields(e);
    StoredEntry(raw, "PK");
    StoredEntry(raw, "SK");
    StoredEntry(raw, "approved");
    StoredEntry(raw, "approved_at");
    PrefixHasNoSeparator();
    Keys.KeyRecovery(ExamPrefix, e.id, '#');
    Fields.TimestampRoundTrip(e.madeAt);
    NumberLeafRoundTrip(Bool(e.approved));
    if e.approvedAt.Some? {
      NumberLeafRoundTrip(TimestampValue(e.approvedAt.value));
      assert IsIntegral(e.approvedAt.value as real);
    }
  }

  lemma StoredExamAttributes(e: EcgExam)
    ensures AsStr(FieldOrNull(ReadBack(ExamRecord(e)), "file_path")) == Some(e.filePath)
    ensures EnumLookupKey(FieldOrNull(ReadBack(ExamRecord(e)), "gender"), "Gender") == Some(GenderLabel(e.gender))
    ensures AsBirthDate(FieldOrNull(ReadBack(ExamRecord(e)), "birth_date")) == Some(e.birthDate)
    ensures AsStr(FieldOrNull(ReadBack(ExamRecord(e)), "amplitude")) == Some(e.amplitude)
    ensures AsStr(FieldOrNull(ReadBack(ExamRecord(e)), "speed")) == Some(e.speed)
  {
    var raw := ExamRecord(e);
    ExamRecordPlainFields(e);
    ExamRecordSettingFields(e);
    StoredEntry(raw, "file_path");
    StoredEntry(raw, "gender");
    StoredEntry(raw, "birth_date");
    StoredEntry(raw, "amplitude");
    StoredEntry(raw, "speed");
  }

  /** The report entries of a stored exam read back as its reports. */
  lemma StoredExamReports(e: EcgExam)
    ensures PrincipalReportFromFields(ReadBack(ExamRecord(e))) == Some(e.principalReport)
    ensures ReportsFromFields(ReadBack(ExamRecord(e))) == Some(e.reports)
  {
    var raw := ExamRecord(e);
    var d := ReadBack(raw);
    ExamRecordReportFields(e);
    StoredEntry(raw, "principal_report");
    StoredEntry(raw, "reports");
    if e.principalReport.Some? {
      var p := e.principalReport.value;
      var x := Obj(ReportToDynamo(p));
      NumberToDecimalFixesDecimals(x);
      DecimalToNumberKeepsTruthiness(x);
      ReportReadAfterNormalising(x);
      ReportRoundTrip(p);
      assert "report" in ReportRecord(p);
    }
    var items := d["reports"].items;
    forall i | 0 <= i < |items| ensures ReportFromDynamo(items[i]) == Some(e.reports[i]) {
      var x := Obj(ReportToDynamo(e.reports[i]));
      assert raw["reports"].items[i] == x;
      NumberToDecimalFixesDecimals(x);
      ReportReadAfterNormalising(x);
      ReportRoundTrip(e.reports[i]);
    }
    ReportsRead(items, e.reports);
  }

  lemma ExamRecordKeyFields(e: EcgExam)
    ensures "PK" in ExamRecord(e) && ExamRecord(e)["PK"] == Str(ExamPrefix + ['#'] + e.id)
    ensures "SK" in ExamRecord(e) && ExamRecord(e)["SK"] == TimestampValue(e.madeAt)
  {
  }

  lemma ExamRecordApprovalFields(e: EcgExam)
    ensures "approved" in ExamRecord(e) && ExamRecord(e)["approved"] == Bool(e.approved)
    ensures "approved_at" in ExamRecord(e)
    ensures ExamRecord(e)["approved_at"] == if e.approvedAt.Some? then TimestampValue(e.approvedAt.value) else Null
  {
  }

  lemma ExamRecordPlainFields(e: EcgExam)
    ensures "file_path" in ExamRecord(e) && ExamRecord(e)["file_path"] == Str(e.filePath)
    ensures "gender" in ExamRecord(e) && ExamRecord(e)["gender"] == Str(GenderLabel(e.gender))
    ensures "birth_date" in ExamRecord(e) && ExamRecord(e)["birth_date"] == Str(e.birthDate)
  {
  }

  lemma ExamRecordSettingFields(e: EcgExam)
    ensures "amplitude" in ExamRecord(e) && ExamRecord(e)["amplitude"] == Str(e.amplitude)
    ensures "speed" in ExamRecord(e) && ExamRecord(e)["speed"] == Str(e.speed)
  {
  }

  /** The lock is written, a missing start time as None, and the record is
      tagged as an exam; `ExamRoundTrip` shows the decoder drops the lock. */
  lemma ExamRecordLockFields(e: EcgExam)
    ensures "is_reporting" in ExamRecord(e) && ExamRecord(e)["is_reporting"] == Bool(e.isReporting)
    ensures "reporting_started_at" in ExamRecord(e)
    ensures ExamRecord(e)["reporting_started_at"] ==
      if e.reportingStartedAt.Some? then TimestampValue(e.reportingStartedAt.value) else Null
    ensures "type" in ExamRecord(e) && ExamRecord(e)["type"] == Str("ECG_EXAM")
  {
  }

  lemma ExamRecordReportFields(e: EcgExam)
    ensures "principal_report" in ExamRecord(e)
    ensures ExamRecord(e)["principal_report"] ==
      if e.principalReport.Some? then Obj(ReportToDynamo(e.principalReport.value)) else Null
    ensures "reports" in ExamRecord(e) && ExamRecord(e)["reports"].List?
    ensures |ExamRecord(e)["reports"].items| == |e.reports|
    ensures forall i :: 0 <= i < |e.reports| ==> ExamRecord(e)["reports"].items[i] == Obj(ReportToDynamo(e.reports[i]))
  {
  }

  /** A normalised record whose entries each read as the corresponding
      attribute rebuilds the exam, with the lock released. */
  lemma ExamFieldsRead(d: map<string, Value>, e: EcgExam)
    requires IdFromFields(d) == Some(Keys.FirstField(e.id, '#'))
    requires AsTimestamp(FieldOrNull(d, "SK")) == Some(e.madeAt)
    requires AsBool(FieldOrNull(d, "approved")) == Some(e.approved)
    requires ApprovedAtFromFields(d) == Some(if e.approvedAt == Some(0) then None else e.approvedAt)
    requires AsStr(FieldOrNull(d, "file_path")) == Some(e.filePath)
    requires EnumLookupKey(FieldOrNull(d, "gender"), "Gender") == Some(GenderLabel(e.gender))
    requires AsBirthDate(FieldOrNull(d, "birth_date")) == Some(e.birthDate)
    requires AsStr(FieldOrNull(d, "amplitude")) == Some(e.amplitude)
    requires AsStr(FieldOrNull(d, "speed")) == Some(e.speed)
    requires PrincipalReportFromFields(d) == Some(e.principalReport)
    requires ReportsFromFields(d) == Some(e.reports)
    ensures ExamFromFields(d) == Some(ExamAsReadBack(e))
  {
    GenderLabelParses(e.gender);
  }

  /** A decoded exam is never locked: the decoder does not read the lock. */
  lemma DecodedExamIsIdle(data: Value)
    ensures ExamFromDynamo(data).Some? ==>
      !ExamFromDynamo(data).value.isReporting && ExamFromDynamo(data).value.reportingStartedAt.None?
  {
  }

  /** The id survives the store exactly when it contains no `#`. */
  lemma ExamIdRoundTrip(e: EcgExam)
    ensures ExamFromDynamo(Obj(ExamToDynamo(e))).Some?
    ensures ExamFromDynamo(Obj(ExamToDynamo(e))).value.id == e.id <==> '#' !in e.id
  {
    ExamRoundTrip(e);
    Keys.FirstFieldIsWhole(e.id, '#');
  }
}
