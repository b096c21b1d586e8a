/**
  The checks the first questionnaire applies before a response is saved
  (lib/validation.ts): every field of the record is required, the texts must not
  be empty and the three scores lie between 0 and 5. The record arrives as an
  untyped object, as the schema sees it; a key that is missing reads as
  `undefined`.
*/
module Validation {
  import opened Optional
  import opened Text
  import opened Records
  import CuiLookup

  /** `z.string().min(1)`: a string of at least one character. */
  predicate NonEmptyString(v: Value)
  {
    v.Str? && |v.s| >= 1
  }

  /** `z.boolean()`. */
  predicate IsBoolean(v: Value)
  {
    v.Bool?
  }

  /** `z.number().min(lo).max(hi)`. */
  predicate NumberIn(v: Value, lo: int, hi: int)
  {
    v.Num? && lo <= v.n <= hi
  }

  /** The five company fields, each `z.string().min(1)`. */
  predicate CompanyFieldsValid(o: Obj)
  {
    && NonEmptyString(Get(o, "cui"))
    && NonEmptyString(Get(o, "nume_firma"))
    && NonEmptyString(Get(o, "localitate"))
    && NonEmptyString(Get(o, "judet"))
    && NonEmptyString(Get(o, "cod_caen"))
  }

  /** `surveySchema`: the company fields, the answer to question 1, the three
      answers given as text and the three scores. */
  predicate SurveySchema(o: Obj)
  {
    && CompanyFieldsValid(o)
    && IsBoolean(Get(o, "este_administrator"))
    && NonEmptyString(Get(o, "procent_cheltuieli_contabil"))
    && NumberIn(Get(o, "impediment_contabil_score"), 0, 5)
    && NumberIn(Get(o, "justificare_obligativitate_score"), 0, 5)
    && NumberIn(Get(o, "capabil_contabilitate_proprie_score"), 0, 5)
    && NonEmptyString(Get(o, "influenta_costuri_contabilitate"))
    && NonEmptyString(Get(o, "suma_lunara_contabilitate"))
  }

  /** `SurveyFormData`, the record the schema produces. */
  datatype SurveyFormData = SurveyFormData(
    cui: string,
    nume_firma: string,
    localitate: string,
    judet: string,
    cod_caen: string,
    este_administrator: bool,
    procent_cheltuieli_contabil: string,
    impediment_contabil_score: int,
    justificare_obligativitate_score: int,
    capabil_contabilitate_proprie_score: int,
    influenta_costuri_contabilitate: string,
    suma_lunara_contabilitate: string)

  /** The record as the object the form holds. */
  function ToObj(d: SurveyFormData): Obj
  {
    map[
      "cui" := Str(d.cui),
      "nume_firma" := Str(d.nume_firma),
      "localitate" := Str(d.localitate),
      "judet" := Str(d.judet),
      "cod_caen" := Str(d.cod_caen),
      "este_administrator" := Bool(d.este_administrator),
      "procent_cheltuieli_contabil" := Str(d.procent_cheltuieli_contabil),
      "impediment_contabil_score" := Num(d.impediment_contabil_score),
      "justificare_obligativitate_score" := Num(d.justificare_obligativitate_score),
      "capabil_contabilitate_proprie_score" := Num(d.capabil_contabilitate_proprie_score),
      "influenta_costuri_contabilitate" := Str(d.influenta_costuri_contabilitate),
      "suma_lunara_contabilitate" := Str(d.suma_lunara_contabilitate)]
  }

  /** What the schema demands, stated on the typed record. */
  predicate Valid(d: SurveyFormData)
  {
    && d.cui != "" && d.nume_firma != "" && d.localitate != "" && d.judet != "" && d.cod_caen != ""
    && d.procent_cheltuieli_contabil != ""
    && 0 <= d.impediment_contabil_score <= 5
    && 0 <= d.justificare_obligativitate_score <= 5
    && 0 <= d.capabil_contabilitate_proprie_score <= 5
    && d.influenta_costuri_contabilitate != ""
    && d.suma_lunara_contabilitate != ""
  }

  /** `surveySchema.safeParse`: the typed record when every check passes. */
  function Parse(o: Obj): (r: Option<SurveyFormData>)
    ensures r.Some? <==> SurveySchema(o)
    ensures r.Some? ==> Valid(r.value)
    ensures r.Some? ==> forall k :: k in ToObj(r.value) ==> Get(o, k) == ToObj(r.value)[k]
  {
    if !SurveySchema(o) then None
    else
      Some(SurveyFormData(
        Get(o, "cui").s, Get(o, "nume_firma").s, Get(o, "localitate").s, Get(o, "judet").s,
        Get(o, "cod_caen").s, Get(o, "este_administrator").b, Get(o, "procent_cheltuieli_contabil").s,
        Get(o, "impediment_contabil_score").n, Get(o, "justificare_obligativitate_score").n,
        Get(o, "capabil_contabilitate_proprie_score").n, Get(o, "influenta_costuri_contabilitate").s,
        Get(o, "suma_lunara_contabilitate").s))
  }

  /** Each field of the object holds the record's value. */
  lemma ToObjFields(d: SurveyFormData)
    ensures Get(ToObj(d), "cui") == Str(d.cui) && Get(ToObj(d), "nume_firma") == Str(d.nume_firma)
    ensures Get(ToObj(d), "localitate") == Str(d.localitate) && Get(ToObj(d), "judet") == Str(d.judet)
    ensures Get(ToObj(d), "cod_caen") == Str(d.cod_caen)
    ensures Get(ToObj(d), "este_administrator") == Bool(d.este_administrator)
    ensures Get(ToObj(d), "procent_cheltuieli_contabil") == Str(d.procent_cheltuieli_contabil)
    ensures Get(ToObj(d), "impediment_contabil_score") == Num(d.impediment_contabil_score)
    ensures Get(ToObj(d), "justificare_obligativitate_score") == Num(d.justificare_obligativitate_score)
    ensures Get(ToObj(d), "capabil_contabilitate_proprie_score") == Num(d.capabil_contabilitate_proprie_score)
    ensures Get(ToObj(d), "influenta_costuri_contabilitate") == Str(d.influenta_costuri_contabilitate)
    ensures Get(ToObj(d), "suma_lunara_contabilitate") == Str(d.suma_lunara_contabilitate)
  {
  }

  /** A record is accepted exactly when it is valid, and then it is given back
      unchanged; a score of 0 is accepted. */
  lemma ParseOfRecord(d: SurveyFormData)
    ensures Parse(ToObj(d)).Some? <==> Valid(d)
    ensures Valid(d) ==> Parse(ToObj(d)) == Some(d)
  {
    ToObjFields(d);
  }

  /** The values the form starts from: the company's fields, "no" to question 1,
      empty answers and zero scores. */
  function FormDefaults(company: CompanyData): (d: SurveyFormData)
    ensures d.cui == company.cui && d.nume_firma == company.nume && d.cod_caen == company.codCaen
    ensures d.localitate == company.localitate && d.judet == company.judet
  {
    SurveyFormData(company.cui, company.nume, company.localitate, company.judet, company.codCaen,
      false, "", 0, 0, 0, "", "")
  }

  /** The untouched form is rejected, whatever the company; only its answers are
      missing when the company came from the pasted profile, since the parser
      fills every company field. */
  lemma DefaultsRejected(company: CompanyData)
    ensures Parse(ToObj(FormDefaults(company))).None?
    ensures (company.cui != "" && company.nume != "" && company.localitate != ""
             && company.judet != "" && company.codCaen != "") ==> CompanyFieldsValid(ToObj(FormDefaults(company)))
  {
    ParseOfRecord(FormDefaults(company));
  }

  /** Every record the paste parser produces passes the company checks, the "N/A"
      defaults included. */
  lemma ParsedCompanyPasses(text: string)
    requires CuiLookup.ParseTargetareText(text).Some?
    ensures CompanyFieldsValid(ToObj(FormDefaults(CuiLookup.ParseTargetareText(text).value)))
  {
    DefaultsRejected(CuiLookup.ParseTargetareText(text).value);
  }
}
