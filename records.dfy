/**
  The records the core passes around: the company profile a lookup produces
  (lib/anaf-api.ts), the survey-response row the store holds (lib/supabase.ts),
  and the dynamically typed values a JavaScript object field can hold.
*/
module Records {
  import opened Optional

  /** `CompanyData`; an optional field that is absent is `None`. */
  datatype CompanyData = CompanyData(
    cui: string,
    nume: string,
    adresa: string,
    localitate: string,
    judet: string,
    codCaen: string,
    telefon: Option<string>,
    administrator: Option<string>)

  /** A value a field of a JavaScript object can hold. `Undefined` is a missing
      key, `Num` an integer-valued number. */
  datatype Value =
    | Undefined
    | Null
    | Bool(b: bool)
    | Num(n: int)
    | Str(s: string)
    | Arr(items: seq<Value>)

  /** A JavaScript object as a dictionary of its own fields. */
  type Obj = map<string, Value>

  /** `o[key]`: `undefined` for a missing key. */
  function Get(o: Obj, key: string): Value
  {
    if key in o then o[key] else Undefined
  }

  /** `SurveyResponse`, one row of `survey_responses`. The optional columns are
      `None` when null or undefined; `id` and `created_at` are not read by the core. */
  datatype SurveyResponse = SurveyResponse(
    cui: string,
    nume_firma: string,
    localitate: string,
    judet: string,
    cod_caen: string,
    este_administrator: bool,
    procent_cheltuieli_contabil: string,
    impediment_contabil_score: int,
    justificare_obligativitate_score: int,
    capabil_contabilitate_proprie_score: int,
    influenta_costuri_contabilitate: string,
    suma_lunara_contabilitate: string,
    operator: string,
    telefon: Option<string>,
    administrator: Option<string>,
    motiv_incheiere: Option<string>)

  /** The keys of `SurveyResponse` that an aggregation can be asked for. */
  datatype Field =
    | Cui | NumeFirma | Localitate | Judet | CodCaen | EsteAdministrator
    | ProcentCheltuieliContabil | ImpedimentContabilScore | JustificareObligativitateScore
    | CapabilContabilitateProprieScore | InfluentaCosturiContabilitate | SumaLunaraContabilitate
    | Operator | Telefon | Administrator | MotivIncheiere

  function OptionalText(v: Option<string>): Value
  {
    match v
    case Some(s) => Str(s)
    case None => Null
  }

  /** `row[field]`; no column holds an array. */
  function FieldValue(r: SurveyResponse, f: Field): (v: Value)
    ensures !v.Arr?
  {
    match f
    case Cui => Str(r.cui)
    case NumeFirma => Str(r.nume_firma)
    case Localitate => Str(r.localitate)
    case Judet => Str(r.judet)
    case CodCaen => Str(r.cod_caen)
    case EsteAdministrator => Bool(r.este_administrator)
    case ProcentCheltuieliContabil => Str(r.procent_cheltuieli_contabil)
    case ImpedimentContabilScore => Num(r.impediment_contabil_score)
    case JustificareObligativitateScore => Num(r.justificare_obligativitate_score)
    case CapabilContabilitateProprieScore => Num(r.capabil_contabilitate_proprie_score)
    case InfluentaCosturiContabilitate => Str(r.influenta_costuri_contabilitate)
    case SumaLunaraContabilitate => Str(r.suma_lunara_contabilitate)
    case Operator => Str(r.operator)
    case Telefon => OptionalText(r.telefon)
    case Administrator => OptionalText(r.administrator)
    case MotivIncheiere => OptionalText(r.motiv_incheiere)
  }

  // The reasons an interview can end early, as the dashboard stores them in
  // `motiv_incheiere` and the live viewer compares them.
  const NO_ANSWER: string := "Nu a răspuns la telefon"
  const REFUSED: string := "A răspuns, nu a dorit să vorbească"
  const ADMIN_ABSENT: string := "Administrator absent la telefon"
  const ABANDONED: string := "Apel închis / abandonat de respondent"

  /** `value || fallback` for an optional string: an empty string is falsy too. */
  function OrElse(v: Option<string>, fallback: string): string
  {
    match v
    case Some(s) => if s != "" then s else fallback
    case None => fallback
  }

  /** `value || null` for an optional string. */
  function NonEmptyOrNone(v: Option<string>): (r: Option<string>)
    ensures r != Some("")
    ensures v.Some? && v.value != "" ==> r == v
    ensures v == Some("") ==> r.None?
  {
    match v
    case Some(s) => if s != "" then v else None
    case None => None
  }
}
