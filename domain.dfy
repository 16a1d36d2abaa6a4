/**
 * The closed enumerations of the ECG domain, encoded as their Portuguese
 * labels, and the value types shared by both copies of the entity model.
 * Parsing a label is Python's `Enum(value)` lookup: an unknown label raises,
 * modelled as None.
 */
module Domain {
  import opened Wrappers
  import opened Values

  /** The 24 diagnostic classifications of a report (`ReportType`). */
  datatype ReportType =
    | Normal | TaquicardiaSinusal | BradicardiaSinusal | ArritmiaSinusal
    | BloqueioAv1Grau | BloqueioAv2GrauTipo1 | BloqueioAv2GrauTipo2 | BloqueioAv3Grau
    | BloqueioRbbb | BloqueioLbbb | FibrilacaoAtrial | FlutterAtrial
    | TaquicardiaSupraventricular | TaquicardiaVentricular | FibrilacaoVentricular
    | InfartoAgudoMiocardio | IsquemiaSubendocardica | HipertrofiaVentriculoEsquerdo
    | HipertrofiaVentriculoDireito | EixoDesviadoEsquerda | EixoDesviadoDireita
    | AlteracoesInespecificasStT | PresencaMarcapasso | EcgInconclusivo

  function ReportTypeLabel(t: ReportType): string {
    match t
    case Normal => "ECG normal"
    case TaquicardiaSinusal => "Taquicardia sinusal"
    case BradicardiaSinusal => "Bradicardia sinusal"
    case ArritmiaSinusal => "Arritmia sinusal"
    case BloqueioAv1Grau => "Bloqueio atrioventricular de 1º grau"
    case BloqueioAv2GrauTipo1 => "Bloqueio atrioventricular de 2º grau tipo Mobitz I"
    case BloqueioAv2GrauTipo2 => "Bloqueio atrioventricular de 2º grau tipo Mobitz II"
    case BloqueioAv3Grau => "Bloqueio atrioventricular de 3º grau"
    case BloqueioRbbb => "Bloqueio de ramo direito completo"
    case BloqueioLbbb => "Bloqueio de ramo esquerdo completo"
    case FibrilacaoAtrial => "Fibrilação atrial"
    case FlutterAtrial => "Flutter atrial"
    case TaquicardiaSupraventricular => "Taquicardia supraventricular"
    case TaquicardiaVentricular => "Taquicardia ventricular"
    case FibrilacaoVentricular => "Fibrilação ventricular"
    case InfartoAgudoMiocardio => "Infarto agudo do miocárdio"
    case IsquemiaSubendocardica => "Isquemia subendocárdica"
    case HipertrofiaVentriculoEsquerdo => "Hipertrofia do ventrículo esquerdo"
    case HipertrofiaVentriculoDireito => "Hipertrofia do ventrículo direito"
    case EixoDesviadoEsquerda => "Desvio do eixo elétrico para a esquerda"
    case EixoDesviadoDireita => "Desvio do eixo elétrico para a direita"
    case AlteracoesInespecificasStT => "Alterações inespecíficas do segmento ST-T"
    case PresencaMarcapasso => "Presença de marcapasso"
    case EcgInconclusivo => "ECG inconclusivo"
  }

  /** The only classification whose label can have this length, first
      character and thirtieth character (a label is determined by them). */
  function ReportTypeCandidate(length: int, first: char, thirtieth: char): Option<ReportType> {
    match length
    case 10 => Some(ReportType.Normal)
    case 14 => Some(ReportType.FlutterAtrial)
    case 16 => if first == 'A' then Some(ReportType.ArritmiaSinusal) else if first == 'E' then Some(ReportType.EcgInconclusivo) else None
    case 17 => Some(ReportType.FibrilacaoAtrial)
    case 19 => if first == 'T' then Some(ReportType.TaquicardiaSinusal) else if first == 'B' then Some(ReportType.BradicardiaSinusal) else None
    case 22 => if first == 'F' then Some(ReportType.FibrilacaoVentricular) else if first == 'P' then Some(ReportType.PresencaMarcapasso) else None
    case 23 => if first == 'T' then Some(ReportType.TaquicardiaVentricular) else if first == 'I' then Some(ReportType.IsquemiaSubendocardica) else None
    case 26 => Some(ReportType.InfartoAgudoMiocardio)
    case 28 => Some(ReportType.TaquicardiaSupraventricular)
    case 33 => if first == 'B' then Some(ReportType.BloqueioRbbb) else if first == 'H' then Some(ReportType.HipertrofiaVentriculoDireito) else None
    case 34 => if first == 'B' then Some(ReportType.BloqueioLbbb) else if first == 'H' then Some(ReportType.HipertrofiaVentriculoEsquerdo) else None
    case 36 => if thirtieth == '1' then Some(ReportType.BloqueioAv1Grau) else if thirtieth == '3' then Some(ReportType.BloqueioAv3Grau) else None
    case 38 => Some(ReportType.EixoDesviadoDireita)
    case 39 => Some(ReportType.EixoDesviadoEsquerda)
    case 41 => Some(ReportType.AlteracoesInespecificasStT)
    case 50 => Some(ReportType.BloqueioAv2GrauTipo1)
    case 51 => Some(ReportType.BloqueioAv2GrauTipo2)
    case _ => None
  }

  /** `ReportType(text)`: the candidate for `text`, kept only when its label
      is exactly `text`. */
  function ParseReportType(text: string): (r: Option<ReportType>)
    ensures r.Some? ==> ReportTypeLabel(r.value) == text
  {
    var candidate := ReportTypeCandidate(|text|, if |text| > 0 then text[0] else ' ', if |text| > 29 then text[29] else ' ');
    if candidate.Some? && ReportTypeLabel(candidate.value) == text then candidate else None
  }

  /** Every classification parses back from its label. */
  lemma ReportTypeLabelParses(t: ReportType)
    ensures ParseReportType(ReportTypeLabel(t)) == Some(t)
  {
    match t
    case Normal =>
    case TaquicardiaSinusal =>
    case BradicardiaSinusal =>
    case ArritmiaSinusal =>
    case BloqueioAv1Grau =>
    case BloqueioAv2GrauTipo1 =>
    case BloqueioAv2GrauTipo2 =>
    case BloqueioAv3Grau =>
    case BloqueioRbbb =>
    case BloqueioLbbb =>
    case FibrilacaoAtrial =>
    case FlutterAtrial =>
    case TaquicardiaSupraventricular =>
    case TaquicardiaVentricular =>
    case FibrilacaoVentricular =>
    case InfartoAgudoMiocardio =>
    case IsquemiaSubendocardica =>
    case HipertrofiaVentriculoEsquerdo =>
    case HipertrofiaVentriculoDireito =>
    case EixoDesviadoEsquerda =>
    case EixoDesviadoDireita =>
    case AlteracoesInespecificasStT =>
    case PresencaMarcapasso =>
    case EcgInconclusivo =>
  }



  /** Distinct classifications have distinct labels. */
  lemma ReportTypeLabelsDistinct(a: ReportType, b: ReportType)
    ensures ReportTypeLabel(a) == ReportTypeLabel(b) ==> a == b
  {
    ReportTypeLabelParses(a);
    ReportTypeLabelParses(b);
  }

  /** Parsing fails exactly on the strings that are no classification's label. */
  lemma ReportTypeParseFails(text: string)
    ensures ParseReportType(text).None? <==> forall t :: ReportTypeLabel(t) != text
  {
    if ParseReportType(text).None? {
      forall t ensures ReportTypeLabel(t) != text {
        ReportTypeLabelParses(t);
      }
    }
  }

  /** The 23 segmentation categories (`ReportSegmentationType`): the
      classifications without the inconclusive one, and "Normal" where the
      classification says "ECG normal". */
  datatype ReportSegmentationType =
    | Normal | TaquicardiaSinusal | BradicardiaSinusal | ArritmiaSinusal
    | BloqueioAv1Grau | BloqueioAv2GrauTipo1 | BloqueioAv2GrauTipo2 | BloqueioAv3Grau
    | BloqueioRbbb | BloqueioLbbb | FibrilacaoAtrial | FlutterAtrial
    | TaquicardiaSupraventricular | TaquicardiaVentricular | FibrilacaoVentricular
    | InfartoAgudoMiocardio | IsquemiaSubendocardica | HipertrofiaVentriculoEsquerdo
    | HipertrofiaVentriculoDireito | EixoDesviadoEsquerda | EixoDesviadoDireita
    | AlteracoesInespecificasStT | PresencaMarcapasso

  function SegmentationTypeLabel(c: ReportSegmentationType): string {
    match c
    case Normal => "Normal"
    case TaquicardiaSinusal => "Taquicardia sinusal"
    case BradicardiaSinusal => "Bradicardia sinusal"
    case ArritmiaSinusal => "Arritmia sinusal"
    case BloqueioAv1Grau => "Bloqueio atrioventricular de 1º grau"
    case BloqueioAv2GrauTipo1 => "Bloqueio atrioventricular de 2º grau tipo Mobitz I"
    case BloqueioAv2GrauTipo2 => "Bloqueio atrioventricular de 2º grau tipo Mobitz II"
    case BloqueioAv3Grau => "Bloqueio atrioventricular de 3º grau"
    case BloqueioRbbb => "Bloqueio de ramo direito completo"
    case BloqueioLbbb => "Bloqueio de ramo esquerdo completo"
    case FibrilacaoAtrial => "Fibrilação atrial"
    case FlutterAtrial => "Flutter atrial"
    case TaquicardiaSupraventricular => "Taquicardia supraventricular"
    case TaquicardiaVentricular => "Taquicardia ventricular"
    case FibrilacaoVentricular => "Fibrilação ventricular"
    case InfartoAgudoMiocardio => "Infarto agudo do miocárdio"
    case IsquemiaSubendocardica => "Isquemia subendocárdica"
    case HipertrofiaVentriculoEsquerdo => "Hipertrofia do ventrículo esquerdo"
    case HipertrofiaVentriculoDireito => "Hipertrofia do ventrículo direito"
    case EixoDesviadoEsquerda => "Desvio do eixo elétrico para a esquerda"
    case EixoDesviadoDireita => "Desvio do eixo elétrico para a direita"
    case AlteracoesInespecificasStT => "Alterações inespecíficas do segmento ST-T"
    case PresencaMarcapasso => "Presença de marcapasso"
  }

  /** The only segmentation category whose label can have this length, first
      character and thirtieth character. */
  function SegmentationTypeCandidate(length: int, first: char, thirtieth: char): Option<ReportSegmentationType> {
    match length
    case 6 => Some(ReportSegmentationType.Normal)
    case 14 => Some(ReportSegmentationType.FlutterAtrial)
    case 16 => Some(ReportSegmentationType.ArritmiaSinusal)
    case 17 => Some(ReportSegmentationType.FibrilacaoAtrial)
    case 19 => if first == 'T' then Some(ReportSegmentationType.TaquicardiaSinusal) else if first == 'B' then Some(ReportSegmentationType.BradicardiaSinusal) else None
    case 22 => if first == 'F' then Some(ReportSegmentationType.FibrilacaoVentricular) else if first == 'P' then Some(ReportSegmentationType.PresencaMarcapasso) else None
    case 23 => if first == 'T' then Some(ReportSegmentationType.TaquicardiaVentricular) else if first == 'I' then Some(ReportSegmentationType.IsquemiaSubendocardica) else None
    case 26 => Some(ReportSegmentationType.InfartoAgudoMiocardio)
    case 28 => Some(ReportSegmentationType.TaquicardiaSupraventricular)
    case 33 => if first == 'B' then Some(ReportSegmentationType.BloqueioRbbb) else if first == 'H' then Some(ReportSegmentationType.HipertrofiaVentriculoDireito) else None
    case 34 => if first == 'B' then Some(ReportSegmentationType.BloqueioLbbb) else if first == 'H' then Some(ReportSegmentationType.HipertrofiaVentriculoEsquerdo) else None
    case 36 => if thirtieth == '1' then Some(ReportSegmentationType.BloqueioAv1Grau) else if thirtieth == '3' then Some(ReportSegmentationType.BloqueioAv3Grau) else None
    case 38 => Some(ReportSegmentationType.EixoDesviadoDireita)
    case 39 => Some(ReportSegmentationType.EixoDesviadoEsquerda)
    case 41 => Some(ReportSegmentationType.AlteracoesInespecificasStT)
    case 50 => Some(ReportSegmentationType.BloqueioAv2GrauTipo1)
    case 51 => Some(ReportSegmentationType.BloqueioAv2GrauTipo2)
    case _ => None
  }

  /** `ReportSegmentationType(text)`, the same way. */
  function ParseSegmentationType(text: string): (r: Option<ReportSegmentationType>)
    ensures r.Some? ==> SegmentationTypeLabel(r.value) == text
  {
    var candidate := SegmentationTypeCandidate(|text|, if |text| > 0 then text[0] else ' ', if |text| > 29 then text[29] else ' ');
    if candidate.Some? && SegmentationTypeLabel(candidate.value) == text then candidate else None
  }

  /** Every segmentation category parses back from its label. */
  lemma SegmentationTypeLabelParses(c: ReportSegmentationType)
    ensures ParseSegmentationType(SegmentationTypeLabel(c)) == Some(c)
  {
    match c
    case Normal =>
    case TaquicardiaSinusal =>
    case BradicardiaSinusal =>
    case ArritmiaSinusal =>
    case BloqueioAv1Grau =>
    case BloqueioAv2GrauTipo1 =>
    case BloqueioAv2GrauTipo2 =>
    case BloqueioAv3Grau =>
    case BloqueioRbbb =>
    case BloqueioLbbb =>
    case FibrilacaoAtrial =>
    case FlutterAtrial =>
    case TaquicardiaSupraventricular =>
    case TaquicardiaVentricular =>
    case FibrilacaoVentricular =>
    case InfartoAgudoMiocardio =>
    case IsquemiaSubendocardica =>
    case HipertrofiaVentriculoEsquerdo =>
    case HipertrofiaVentriculoDireito =>
    case EixoDesviadoEsquerda =>
    case EixoDesviadoDireita =>
    case AlteracoesInespecificasStT =>
    case PresencaMarcapasso =>
  }



  /** Parsing a category fails exactly on strings that are no category's text. */
  lemma SegmentationTypeParseFails(text: string)
    ensures ParseSegmentationType(text).None? <==> forall c :: SegmentationTypeLabel(c) != text
  {
    if ParseSegmentationType(text).None? {
      forall c ensures SegmentationTypeLabel(c) != text {
        SegmentationTypeLabelParses(c);
      }
    }
  }

  /** The two classification labels that are no segmentation category: the
      inconclusive one, and "ECG normal" (the category says "Normal"). */
  lemma SegmentationRejectsClassificationOnlyLabels()
    ensures forall c :: SegmentationTypeLabel(c) != ReportTypeLabel(EcgInconclusivo)
    ensures forall c :: SegmentationTypeLabel(c) != ReportTypeLabel(ReportType.Normal)
  {
    assert ParseSegmentationType(ReportTypeLabel(EcgInconclusivo)).None?;
    assert ParseSegmentationType(ReportTypeLabel(ReportType.Normal)).None?;
    forall c ensures SegmentationTypeLabel(c) != ReportTypeLabel(EcgInconclusivo) && SegmentationTypeLabel(c) != ReportTypeLabel(ReportType.Normal) {
      SegmentationTypeLabelParses(c);
    }
  }

  /** Patient gender (`Gender`). */
  datatype Gender = Male | Female | Other

  function GenderLabel(g: Gender): string {
    match g
    case Male => "Masculino"
    case Female => "Feminino"
    case Other => "Outro"
  }

  /** `Gender(text)`. */
  function ParseGender(text: string): (r: Option<Gender>)
    ensures r.Some? ==> GenderLabel(r.value) == text
    ensures r.None? ==> forall g :: GenderLabel(g) != text
  {
    match text
    case "Masculino" => Some(Male)
    case "Feminino" => Some(Female)
    case "Outro" => Some(Other)
    case _ => None
  }

  /** Every gender parses back from its label. */
  lemma GenderLabelParses(g: Gender)
    ensures ParseGender(GenderLabel(g)) == Some(g)
  {
    match g
    case Male =>
    case Female =>
    case Other =>
  }

  /** A user's role (`UserRole`, seeding copy only). */
  datatype UserRole = DoctorManager | Doctor

  function UserRoleLabel(r: UserRole): string {
    match r
    case DoctorManager => "doctor_manager"
    case Doctor => "doctor"
  }

  /** `UserRole(text)`: an unknown role is rejected. */
  function ParseUserRole(text: string): (r: Option<UserRole>)
    ensures r.Some? ==> UserRoleLabel(r.value) == text
    ensures r.None? ==> forall role :: UserRoleLabel(role) != text
  {
    match text
    case "doctor_manager" => Some(DoctorManager)
    case "doctor" => Some(Doctor)
    case _ => None
  }

  /** Every role parses back from its label. */
  lemma UserRoleLabelParses(r: UserRole)
    ensures ParseUserRole(UserRoleLabel(r)) == Some(r)
  {
    match r
    case DoctorManager =>
    case Doctor =>
  }

  /** The text an `Enum(value)` lookup of enumeration `enumName` sees in `v`:
      a string, or a member of that same enumeration. */
  function EnumLookupKey(v: Value, enumName: string): (r: Option<string>)
    ensures r.Some? ==> v == Str(r.value) || v == Member(enumName, r.value)
  {
    match v
    case Str(s) => Some(s)
    case Member(n, s) => if n == enumName then Some(s) else None
    case _ => None
  }

  predicate IsDigit(c: char) {
    '0' <= c <= '9'
  }

  /** The pattern `^\d{4}-\d{2}-\d{2}$` that a birth date must match. */
  predicate IsBirthDate(s: string) {
    && |s| == 10
    && IsDigit(s[0]) && IsDigit(s[1]) && IsDigit(s[2]) && IsDigit(s[3])
    && s[4] == '-' && IsDigit(s[5]) && IsDigit(s[6])
    && s[7] == '-' && IsDigit(s[8]) && IsDigit(s[9])
  }

  /** A birth date accepted by the exam's field validation. */
  type BirthDate = s: string | IsBirthDate(s) witness "2000-01-01"

  /** The crowd flag of a segmentation, `Literal[0, 1]`. */
  type Crowd = i: int | 0 <= i <= 1

  /** A polygon annotation over the waveform (`EcgReportSegmentation`); the
      two entity copies declare it identically. Timestamps are whole epoch
      seconds throughout. */
  datatype EcgReportSegmentation = EcgReportSegmentation(
    category: ReportSegmentationType,
    segmentation: seq<seq<real>>,
    bbox: seq<real>,
    area: real,
    iscrowd: Crowd,
    createdAt: int)
}
