/**
 * The application's entity model (`src/core/entities/entities.py`): users,
 * approval statuses, segmentations, reports and exams, each with its
 * encoding to a flat record (`to_dynamo`) and its decoding (`from_dynamo`).
 *
 * Records are written with plain floats (no Decimal conversion); every
 * decoder first normalises Decimals away. A report records only its author's
 * email, yet its decoder rebuilds the author as a whole user record, so no
 * encoded report or status decodes again, and neither does an exam that
 * holds one.
 */
module AppEntities {
  import opened Wrappers
  import opened Values
  import opened Domain
  import opened Fields
  import Keys

  datatype User = User(name: string, email: string, password: string, createdAt: int)

  datatype EcgReportStatus = EcgReportStatus(status: bool, createdAt: int, createdBy: User)

  datatype EcgReport = EcgReport(
    report: ReportType,
    reportSegmentation: Option<EcgReportSegmentation>,
    createdAt: int,
    createdBy: User,
    approves: seq<EcgReportStatus>)

  datatype EcgExam = EcgExam(
    id: string,
    filePath: string,
    madeAt: int,
    gender: Gender,
    birthDate: BirthDate,
    amplitude: string,
    speed: string,
    approved: bool,
    approvedAt: Option<int>,
    principalReport: Option<EcgReport>,
    reports: seq<EcgReport>)

  const ExamPrefix := "EXAM"
  const UserPrefix := "USER"

  lemma PrefixHasNoSeparator()
    ensures '#' !in ExamPrefix
  {
    assert ExamPrefix == ['E', 'X', 'A', 'M'];
  }

  // ---- User ----

  function UserToDynamo(u: User): map<string, Value> {
    map[
      "PK" := Str(UserPrefix + "#" + u.email),
      "SK" := TimestampValue(u.createdAt),
      "name" := Str(u.name),
      "email" := Str(u.email),
      "password" := Str(u.password)]
  }

  function UserFromDynamo(data: Value): (r: Option<User>)
    ensures r.Some? ==> DecimalToNumber(data).Obj?
  {
    var d := DecimalToNumber(data);
    if !d.Obj? then None
    else
      var m := d.fields;
      var name :- AsStr(FieldOrNull(m, "name"));
      var email :- AsStr(FieldOrNull(m, "email"));
      var password :- AsStr(FieldOrNull(m, "password"));
      var createdAt :- AsTimestamp(FieldOrNull(m, "SK"));
      Some(User(name, email, password, createdAt))
  }

  // ---- EcgReportStatus ----

  function StatusToDynamo(s: EcgReportStatus): map<string, Value> {
    map[
      "status" := Bool(s.status),
      "created_at" := TimestampValue(s.createdAt),
      "created_by" := Str(s.createdBy.email)]
  }

  function StatusFromDynamo(data: Value): Option<EcgReportStatus> {
    var d := DecimalToNumber(data);
    if !d.Obj? then None
    else
      var m := d.fields;
      var status :- AsBool(FieldOrNull(m, "status"));
      var createdAt :- AsTimestamp(FieldOrNull(m, "created_at"));
      var createdBy :- UserFromDynamo(FieldOrNull(m, "created_by"));
      Some(EcgReportStatus(status, createdAt, createdBy))
  }

  function StatusesFromDynamo(xs: seq<Value>): Option<seq<EcgReportStatus>> {
    if xs == [] then Some([])
    else
      var first :- StatusFromDynamo(xs[0]);
      var rest :- StatusesFromDynamo(xs[1..]);
      Some([first] + rest)
  }

  // ---- EcgReportSegmentation ----

  function SegmentationToDynamo(s: EcgReportSegmentation): map<string, Value> {
    map[
      "category" := Str(SegmentationTypeLabel(s.category)),
      "segmentation" := List(FloatRows(s.segmentation)),
      "bbox" := List(FloatValues(s.bbox)),
      "area" := Float(s.area),
      "iscrowd" := Int(s.iscrowd),
      "created_at" := TimestampValue(s.createdAt)]
  }

  function SegmentationFromDynamo(data: Value): Option<EcgReportSegmentation> {
    var d := DecimalToNumber(data);
    if d.Obj? then SegmentationFromFields(d.fields) else None
  }

  /** The attribute reads of the segmentation decoder, on a record whose
      Decimals are already normalised. */
  function SegmentationFromFields(m: map<string, Value>): Option<EcgReportSegmentation> {
    var categoryText :- EnumLookupKey(FieldOrNull(m, "category"), "ReportSegmentationType");
    var category :- ParseSegmentationType(categoryText);
    var segmentation :- AsRealMatrix(FieldOrNull(m, "segmentation"));
    var bbox :- AsRealList(FieldOrNull(m, "bbox"));
    var area :- AsReal(FieldOrNull(m, "area"));
    var iscrowd :- AsCrowd(FieldOrNull(m, "iscrowd"));
    var createdAt :- AsTimestamp(FieldOrNull(m, "created_at"));
    Some(EcgReportSegmentation(category, segmentation, bbox, area, iscrowd, createdAt))
  }

  // ---- EcgReport ----

  function ReportToDynamo(r: EcgReport): map<string, Value> {
    map[
      "report" := Str(ReportTypeLabel(r.report)),
      "report_segmentation" := (if r.reportSegmentation.Some? then Obj(SegmentationToDynamo(r.reportSegmentation.value)) else Null),
      "created_at" := TimestampValue(r.createdAt),
      "created_by" := Str(r.createdBy.email),
      "approves" := List(seq(|r.approves|, i requires 0 <= i < |r.approves| => Obj(StatusToDynamo(r.approves[i]))))]
  }

  /** The segmentation is rebuilt from the record as stored, and only
      when the record's entry is truthy; an absent or null entry gives none. */
  function ReportFromDynamo(data: Value): Option<EcgReport> {
    if !data.Obj? then None
    else
      var segmentation :- ReportSegmentation(data.fields);
      ReportFromFields(DecimalToNumber(data).fields, segmentation)
  }

  function ReportSegmentation(m: map<string, Value>): Option<Option<EcgReportSegmentation>> {
    if Truthy(FieldOrNull(m, "report_segmentation")) then
      var s :- SegmentationFromDynamo(m["report_segmentation"]);
      Some(Some(s))
    else Some(None)
  }

  /** The remaining attribute reads of the report decoder, on the normalised
      record. */
  function ReportFromFields(m: map<string, Value>, segmentation: Option<EcgReportSegmentation>): Option<EcgReport> {
    var reportText :- EnumLookupKey(FieldOrNull(m, "report"), "ReportType");
    var report :- ParseReportType(reportText);
    var createdAt :- AsTimestamp(FieldOrNull(m, "created_at"));
    var createdBy :- UserFromDynamo(FieldOrNull(m, "created_by"));
    var approvesItems :- Elements(FieldOrNull(m, "approves"));
    var approves :- StatusesFromDynamo(approvesItems);
    Some(EcgReport(report, segmentation, createdAt, createdBy, approves))
  }

  function ReportsFromDynamo(xs: seq<Value>): Option<seq<EcgReport>> {
    if xs == [] then Some([])
    else
      var first :- ReportFromDynamo(xs[0]);
      var rest :- ReportsFromDynamo(xs[1..]);
      Some([first] + rest)
  }

  // ---- EcgExam ----

  /** Gender goes into the record as the Enum member itself, not its label. */
  function ExamToDynamo(e: EcgExam): map<string, Value> {
    map[
      "PK" := Str(ExamPrefix + "#" + e.id),
      "SK" := TimestampValue(e.madeAt),
      "file_path" := Str(e.filePath),
      "gender" := Member("Gender", GenderLabel(e.gender)),
      "birth_date" := Str(e.birthDate),
      "amplitude" := Str(e.amplitude),
      "speed" := Str(e.speed),
      "approved" := Bool(e.approved),
      "approved_at" := (if e.approvedAt.Some? then TimestampValue(e.approvedAt.value) else Null),
      "principal_report" := (if e.principalReport.Some? then Obj(ReportToDynamo(e.principalReport.value)) else Null),
      "reports" := List(seq(|e.reports|, i requires 0 <= i < |e.reports| => Obj(ReportToDynamo(e.reports[i]))))]
  }

  /** The id is the second `#`-separated field of the key; `approved_at` and
      `principal_report` are read only when truthy; absent `reports` is empty. */
  function ExamFromDynamo(data: Value): Option<EcgExam> {
    var d := DecimalToNumber(data);
    if d.Obj? then ExamFromFields(d.fields) else None
  }

  /** The attribute reads of the exam decoder, on a record whose Decimals are
      already normalised. */
  function ExamFromFields(m: map<string, Value>): Option<EcgExam> {
    var pk :- AsStr(FieldOrNull(m, "PK"));
    var id :- Keys.SecondField(pk, '#');
    var filePath :- AsStr(FieldOrNull(m, "file_path"));
    var madeAt :- AsTimestamp(FieldOrNull(m, "SK"));
    var genderText :- EnumLookupKey(FieldOrNull(m, "gender"), "Gender");
    var gender :- ParseGender(genderText);
    var birthDate :- AsBirthDate(FieldOrNull(m, "birth_date"));
    var amplitude :- AsStr(FieldOrNull(m, "amplitude"));
    var speed :- AsStr(FieldOrNull(m, "speed"));
    var approved :- AsBool(FieldOrNull(m, "approved"));
    var approvedAt :- ApprovedAtFromFields(m);
    var principalReport :- PrincipalReportFromFields(m);
    var reports :- ReportsFromFields(m);
    Some(EcgExam(id, filePath, madeAt, gender, birthDate, amplitude, speed,
                 approved, approvedAt, principalReport, reports))
  }

  /** `approved_at`, read only when truthy. */
  function ApprovedAtFromFields(m: map<string, Value>): Option<Option<int>> {
    if Truthy(FieldOrNull(m, "approved_at")) then
      var t :- AsTimestamp(m["approved_at"]);
      Some(Some(t))
    else Some(None)
  }

  /** `principal_report`, decoded only when truthy. */
  function PrincipalReportFromFields(m: map<string, Value>): Option<Option<EcgReport>> {
    if Truthy(FieldOrNull(m, "principal_report")) then
      var r :- ReportFromDynamo(m["principal_report"]);
      Some(Some(r))
    else Some(None)
  }

  /** `reports`, empty when absent. */
  function ReportsFromFields(m: map<string, Value>): Option<seq<EcgReport>> {
    var items :- Elements(if "reports" in m then m["reports"] else List([]));
    ReportsFromDynamo(items)
  }

  // ---- Properties ----

  /** A user record decodes to the user it was written from. */
  lemma UserRoundTrip(u: User)
    ensures UserFromDynamo(Obj(UserToDynamo(u))) == Some(u)
  {
    Fields.TimestampRoundTrip(u.createdAt);
  }

  /** A status decodes only from a record whose `created_by` entry is itself
      a whole user record. */
  lemma StatusNeedsUserRecord(v: Value)
    ensures StatusFromDynamo(v).Some? ==> v.Obj? && "created_by" in v.fields && v.fields["created_by"].Obj?
  {
  }

  /** A status record holds only its author's email, so it never decodes. */
  lemma StatusEncodingNeverDecodes(s: EcgReportStatus)
    ensures StatusFromDynamo(Obj(StatusToDynamo(s))).None?
  {
    StatusNeedsUserRecord(Obj(StatusToDynamo(s)));
  }

  /** A report decodes only from a record whose `created_by` entry is itself
      a whole user record. */
  lemma ReportNeedsUserRecord(v: Value)
    ensures ReportFromDynamo(v).Some? ==> v.Obj? && "created_by" in v.fields && v.fields["created_by"].Obj?
  {
  }

  /** A report record holds only its author's email, so it never decodes. */
  lemma ReportEncodingNeverDecodes(r: EcgReport)
    ensures ReportFromDynamo(Obj(ReportToDynamo(r))).None?
  {
    ReportNeedsUserRecord(Obj(ReportToDynamo(r)));
  }

  /** A segmentation record decodes to the segmentation it was written from. */
  lemma SegmentationRoundTrip(s: EcgReportSegmentation)
    ensures SegmentationFromDynamo(Obj(SegmentationToDynamo(s))) == Some(s)
  {
    var m := SegmentationToDynamo(s);
    SegmentationRecordFields(s);
    DecimalToNumberFixesNumbers(Obj(m));
    Fields.RealMatrixRoundTrip(s.segmentation);
    Fields.RealListRoundTrip(s.bbox);
    Fields.TimestampRoundTrip(s.createdAt);
    SegmentationFieldsRead(m, s);
  }

  lemma SegmentationRecordFields(s: EcgReportSegmentation)
    ensures "category" in SegmentationToDynamo(s)
    ensures SegmentationToDynamo(s)["category"] == Str(SegmentationTypeLabel(s.category))
    ensures "segmentation" in SegmentationToDynamo(s)
    ensures SegmentationToDynamo(s)["segmentation"] == List(FloatRows(s.segmentation))
    ensures "bbox" in SegmentationToDynamo(s) && SegmentationToDynamo(s)["bbox"] == List(FloatValues(s.bbox))
    ensures "area" in SegmentationToDynamo(s) && SegmentationToDynamo(s)["area"] == Float(s.area)
    ensures "iscrowd" in SegmentationToDynamo(s) && SegmentationToDynamo(s)["iscrowd"] == Int(s.iscrowd)
    ensures "created_at" in SegmentationToDynamo(s)
    ensures SegmentationToDynamo(s)["created_at"] == TimestampValue(s.createdAt)
    ensures NoDecimals(Obj(SegmentationToDynamo(s)))
  {
    var m := SegmentationToDynamo(s);
    assert NoDecimals(m["segmentation"]);
  }

  /** A normalised record whose entries each read as the corresponding
      attribute rebuilds the segmentation. */
  lemma SegmentationFieldsRead(d: map<string, Value>, s: EcgReportSegmentation)
    requires "category" in d
    requires EnumLookupKey(d["category"], "ReportSegmentationType") == Some(SegmentationTypeLabel(s.category))
    requires "segmentation" in d && AsRealMatrix(d["segmentation"]) == Some(s.segmentation)
    requires "bbox" in d && AsRealList(d["bbox"]) == Some(s.bbox)
    requires "area" in d && AsReal(d["area"]) == Some(s.area)
    requires "iscrowd" in d && AsCrowd(d["iscrowd"]) == Some(s.iscrowd)
    requires "created_at" in d && AsTimestamp(d["created_at"]) == Some(s.createdAt)
    ensures SegmentationFromFields(d) == Some(s)
  {
    SegmentationTypeLabelParses(s.category);
  }

  /** An exam's record decodes back exactly when it holds no report. Then
      the id comes back cut at its first `#`, and an approval time of 0 (a
      falsy float) comes back absent. */
  lemma ExamRoundTrip(e: EcgExam)
    ensures ExamFromDynamo(Obj(ExamToDynamo(e))) ==
      if e.principalReport.None? && e.reports == [] then
        Some(e.(id := Keys.FirstField(e.id, '#'),
                approvedAt := if e.approvedAt == Some(0) then None else e.approvedAt))
      else None
  {
    ExamRecordHasNoDecimals(e);
    DecimalToNumberFixesNumbers(Obj(ExamToDynamo(e)));
    ExamRecordRead(e);
  }

  lemma ExamRecordRead(e: EcgExam)
    ensures ExamFromFields(ExamToDynamo(e)) ==
      if e.principalReport.None? && e.reports == [] then
        Some(e.(id := Keys.FirstField(e.id, '#'),
                approvedAt := if e.approvedAt == Some(0) then None else e.approvedAt))
      else None
  {
    var m := ExamToDynamo(e);
    ExamRecordKeyFields(e);
    ExamRecordPlainFields(e);
    ExamRecordReportFields(e);
    if e.principalReport.Some? {
      ReportEncodingNeverDecodes(e.principalReport.value);
    }
    if e.reports != [] {
      ReportEncodingNeverDecodes(e.reports[0]);
    }
    ExamFieldsRead(m, e);
  }

  lemma ExamRecordKeyFields(e: EcgExam)
    ensures "PK" in ExamToDynamo(e) && ExamToDynamo(e)["PK"] == Str(ExamPrefix + ['#'] + e.id)
    ensures "SK" in ExamToDynamo(e) && ExamToDynamo(e)["SK"] == TimestampValue(e.madeAt)
    ensures "approved" in ExamToDynamo(e) && ExamToDynamo(e)["approved"] == Bool(e.approved)
    ensures "approved_at" in ExamToDynamo(e)
    ensures ExamToDynamo(e)["approved_at"] == if e.approvedAt.Some? then TimestampValue(e.approvedAt.value) else Null
  {
  }

  lemma ExamRecordPlainFields(e: EcgExam)
    ensures "file_path" in ExamToDynamo(e) && ExamToDynamo(e)["file_path"] == Str(e.filePath)
    ensures "gender" in ExamToDynamo(e) && ExamToDynamo(e)["gender"] == Member("Gender", GenderLabel(e.gender))
    ensures "birth_date" in ExamToDynamo(e) && ExamToDynamo(e)["birth_date"] == Str(e.birthDate)
    ensures "amplitude" in ExamToDynamo(e) && ExamToDynamo(e)["amplitude"] == Str(e.amplitude)
    ensures "speed" in ExamToDynamo(e) && ExamToDynamo(e)["speed"] == Str(e.speed)
  {
  }

  lemma ExamRecordReportFields(e: EcgExam)
    ensures "principal_report" in ExamToDynamo(e)
    ensures ExamToDynamo(e)["principal_report"] ==
      if e.principalReport.Some? then Obj(ReportToDynamo(e.principalReport.value)) else Null
    ensures "reports" in ExamToDynamo(e) && ExamToDynamo(e)["reports"].List?
    ensures |ExamToDynamo(e)["reports"].items| == |e.reports|
    ensures e.reports != [] ==> ExamToDynamo(e)["reports"].items[0] == Obj(ReportToDynamo(e.reports[0]))
  {
  }

  lemma ReportRecordHasNoDecimals(r: EcgReport)
    ensures NoDecimals(Obj(ReportToDynamo(r)))
  {
    var m := ReportToDynamo(r);
    if r.reportSegmentation.Some? {
      var s := SegmentationToDynamo(r.reportSegmentation.value);
      assert NoDecimals(s["segmentation"]);
      assert NoDecimals(Obj(s));
    }
    assert NoDecimals(m["approves"]);
  }

  lemma ExamRecordHasNoDecimals(e: EcgExam)
    ensures NoDecimals(Obj(ExamToDynamo(e)))
  {
    var m := ExamToDynamo(e);
    if e.principalReport.Some? {
      ReportRecordHasNoDecimals(e.principalReport.value);
    }
    forall i | 0 <= i < |e.reports| ensures NoDecimals(Obj(ReportToDynamo(e.reports[i]))) {
      ReportRecordHasNoDecimals(e.reports[i]);
    }
    assert NoDecimals(m["reports"]);
  }

  lemma ExamFieldsRead(d: map<string, Value>, e: EcgExam)
    requires "PK" in d && d["PK"] == Str(ExamPrefix + ['#'] + e.id)
    requires "SK" in d && d["SK"] == TimestampValue(e.madeAt)
    requires "file_path" in d && d["file_path"] == Str(e.filePath)
    requires "gender" in d && d["gender"] == Member("Gender", GenderLabel(e.gender))
    requires "birth_date" in d && d["birth_date"] == Str(e.birthDate)
    requires "amplitude" in d && d["amplitude"] == Str(e.amplitude)
    requires "speed" in d && d["speed"] == Str(e.speed)
    requires "approved" in d && d["approved"] == Bool(e.approved)
    requires "approved_at" in d
    requires d["approved_at"] == if e.approvedAt.Some? then TimestampValue(e.approvedAt.value) else Null
    requires "principal_report" in d
    requires e.principalReport.None? ==> d["principal_report"] == Null
    requires e.principalReport.Some? ==> Truthy(d["principal_report"]) && ReportFromDynamo(d["principal_report"]).None?
    requires "reports" in d && d["reports"].List? && |d["reports"].items| == |e.reports|
    requires e.reports != [] ==> ReportFromDynamo(d["reports"].items[0]).None?
    ensures ExamFromFields(d) ==
      if e.principalReport.None? && e.reports == [] then
        Some(e.(id := Keys.FirstField(e.id, '#'),
                approvedAt := if e.approvedAt == Some(0) then None else e.approvedAt))
      else None
  {
    PrefixHasNoSeparator();
    Keys.KeyRecovery(ExamPrefix, e.id, '#');
    assert Keys.SecondField(ExamPrefix + ['#'] + e.id, '#') == Some(Keys.FirstField(e.id, '#'));
    Fields.TimestampRoundTrip(e.madeAt);
    assert AsTimestamp(d["SK"]) == Some(e.madeAt);
    GenderLabelParses(e.gender);
    assert AsBirthDate(d["birth_date"]) == Some(e.birthDate);
    assert AsBool(d["approved"]) == Some(e.approved);
    if e.approvedAt.Some? {
      Fields.TimestampRoundTrip(e.approvedAt.value);
    }
  }

  /** The id survives the record exactly when it contains no `#`. */
  lemma ExamIdRoundTrip(e: EcgExam)
    requires e.principalReport.None? && e.reports == []
    ensures ExamFromDynamo(Obj(ExamToDynamo(e))).Some?
    ensures ExamFromDynamo(Obj(ExamToDynamo(e))).value.id == e.id <==> '#' !in e.id
  {
    ExamRoundTrip(e);
    Keys.FirstFieldIsWhole(e.id, '#');
  }
}
