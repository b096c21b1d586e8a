/**
  The checks of the eleven-question form (lib/validation-v2.ts). The form holds a
  typed record in which the two yes/no/don't-know answers, the two motive lists
  and the comment of question 5 may be absent; the schema is a check per field,
  and the form shows an error under every field whose check fails.
*/
module ValidationV2 {
  import opened Optional
  import Records

  /** The values the form holds, `SurveyFormDataV2` with `undefined` allowed
      where the form starts without an answer. */
  datatype FormDataV2 = FormDataV2(
    cui: string,
    nume_firma: string,
    localitate: string,
    judet: string,
    cod_caen: string,
    este_administrator: bool,
    q2_procent_cheltuieli: string,
    q3_relatie_contabil: string,
    q4_obligatie_intemeiata: Option<string>,
    q4_motive_option_ids: Option<seq<int>>,
    q5_capabil_score: int,
    q5_capabil_motive: Option<string>,
    q6_motiv_automatizat: string,
    q7_suma_lunara: string,
    q8_de_ce_contabil: string,
    q9_renunta_contabil: Option<string>,
    q9_motive_option_ids: Option<seq<int>>,
    q10_varsta: string,
    q11_nivel_studii: string)

  /** The fields of `surveySchemaV2`. */
  datatype Field =
    | Cui | NumeFirma | Localitate | Judet | CodCaen | EsteAdministrator
    | Q2 | Q3 | Q4 | Q4Motive | Q5Score | Q5Motive | Q6 | Q7 | Q8 | Q9 | Q9Motive | Q10 | Q11

  /** `z.enum(['da', 'nu', 'nu_stiu'])`: a value that is present and one of the three. */
  predicate YesNoDontKnow(v: Option<string>)
  {
    v.Some? && (v.value == "da" || v.value == "nu" || v.value == "nu_stiu")
  }

  /** `z.number().min(-1).max(5).refine((v) => v >= 0)`: the bounds admit the
      form's "not answered" value -1, and the refinement then rejects it. */
  predicate CapabilScore(n: int)
  {
    -1 <= n <= 5 && n >= 0
  }

  /** The check of each field. `z.string().min(1)` asks for a text of at least one
      character; the motive lists (`z.array(z.number()).optional()`), the comment
      (`z.string().optional()`) and the boolean accept every value the form can
      hold. */
  predicate Check(f: Field, d: FormDataV2)
  {
    match f
    case Cui => d.cui != ""
    case NumeFirma => d.nume_firma != ""
    case Localitate => d.localitate != ""
    case Judet => d.judet != ""
    case CodCaen => d.cod_caen != ""
    case EsteAdministrator => true
    case Q2 => d.q2_procent_cheltuieli != ""
    case Q3 => d.q3_relatie_contabil != ""
    case Q4 => YesNoDontKnow(d.q4_obligatie_intemeiata)
    case Q4Motive => true
    case Q5Score => CapabilScore(d.q5_capabil_score)
    case Q5Motive => true
    case Q6 => d.q6_motiv_automatizat != ""
    case Q7 => d.q7_suma_lunara != ""
    case Q8 => d.q8_de_ce_contabil != ""
    case Q9 => YesNoDontKnow(d.q9_renunta_contabil)
    case Q9Motive => true
    case Q10 => d.q10_varsta != ""
    case Q11 => d.q11_nivel_studii != ""
  }

  /** The fields in the schema's order. */
  const FIELDS: seq<Field> :=
    [Cui, NumeFirma, Localitate, Judet, CodCaen, EsteAdministrator, Q2, Q3, Q4, Q4Motive,
     Q5Score, Q5Motive, Q6, Q7, Q8, Q9, Q9Motive, Q10, Q11]

  /** `surveySchemaV2` accepts the record: the company fields and the answers to
      questions 2, 3, 6, 7, 8, 10 and 11 are non-empty, questions 4 and 9 are
      answered with da, nu or nu_stiu, and the score of question 5 lies between
      0 and 5; the motive lists and the comment may be absent. */
  predicate SurveySchemaV2(d: FormDataV2)
  {
    && d.cui != "" && d.nume_firma != "" && d.localitate != "" && d.judet != "" && d.cod_caen != ""
    && d.q2_procent_cheltuieli != "" && d.q3_relatie_contabil != ""
    && YesNoDontKnow(d.q4_obligatie_intemeiata)
    && CapabilScore(d.q5_capabil_score)
    && d.q6_motiv_automatizat != "" && d.q7_suma_lunara != "" && d.q8_de_ce_contabil != ""
    && YesNoDontKnow(d.q9_renunta_contabil)
    && d.q10_varsta != "" && d.q11_nivel_studii != ""
  }

  /** The schema is the conjunction of the checks of its fields. */
  lemma SchemaIsEveryCheck(d: FormDataV2)
    ensures SurveySchemaV2(d) <==> forall f: Field :: Check(f, d)
  {
    if SurveySchemaV2(d) {
      forall f: Field
        ensures Check(f, d)
      {
        match f
        case _ =>
      }
    } else {
      var failing :=
        if d.cui == "" then Cui else if d.nume_firma == "" then NumeFirma
        else if d.localitate == "" then Localitate else if d.judet == "" then Judet
        else if d.cod_caen == "" then CodCaen else if d.q2_procent_cheltuieli == "" then Q2
        else if d.q3_relatie_contabil == "" then Q3 else if !YesNoDontKnow(d.q4_obligatie_intemeiata) then Q4
        else if !CapabilScore(d.q5_capabil_score) then Q5Score else if d.q6_motiv_automatizat == "" then Q6
        else if d.q7_suma_lunara == "" then Q7 else if d.q8_de_ce_contabil == "" then Q8
        else if !YesNoDontKnow(d.q9_renunta_contabil) then Q9 else if d.q10_varsta == "" then Q10
        else Q11;
      assert !Check(failing, d);
    }
  }

  /** Every field is listed in the schema. */
  lemma Listed(f: Field)
    ensures f in FIELDS
  {
    var i := match f
      case Cui => 0 case NumeFirma => 1 case Localitate => 2 case Judet => 3
      case CodCaen => 4 case EsteAdministrator => 5 case Q2 => 6 case Q3 => 7
      case Q4 => 8 case Q4Motive => 9 case Q5Score => 10 case Q5Motive => 11
      case Q6 => 12 case Q7 => 13 case Q8 => 14 case Q9 => 15 case Q9Motive => 16
      case Q10 => 17 case Q11 => 18;
    assert FIELDS[i] == f;
  }

  /** The fields among `fields` whose check fails, in order: the fields the form
      marks with an error. */
  function Issues(d: FormDataV2, fields: seq<Field>): (bad: seq<Field>)
    ensures forall f :: f in bad ==> f in fields && !Check(f, d)
    ensures forall f :: f in fields && !Check(f, d) ==> f in bad
    ensures |bad| <= |fields|
    decreases |fields|
  {
    if fields == [] then []
    else
      var rest := Issues(d, fields[1..]);
      assert forall f :: f in fields <==> f == fields[0] || f in fields[1..];
      if Check(fields[0], d) then rest else [fields[0]] + rest
  }

  /** The record is accepted exactly when no field is in error. */
  lemma AcceptedIffNoIssues(d: FormDataV2)
    ensures SurveySchemaV2(d) <==> Issues(d, FIELDS) == []
  {
    SchemaIsEveryCheck(d);
    var bad := Issues(d, FIELDS);
    if bad != [] {
      assert bad[0] in bad;
    } else {
      forall f: Field
        ensures Check(f, d)
      {
        Listed(f);
      }
    }
  }

  /** The score of question 5 is accepted exactly from 0 to 5. */
  lemma CapabilScoreRange(n: int)
    ensures CapabilScore(n) <==> 0 <= n <= 5
  {
  }

  /** The values the form starts from: the company's fields, "no" to question 1,
      no answer to questions 4 and 9, empty motive lists, the score -1 and the
      other answers empty. */
  function FormDefaultsV2(company: Records.CompanyData): FormDataV2
  {
    FormDataV2(company.cui, company.nume, company.localitate, company.judet, company.codCaen,
      false, "", "", None, Some([]), -1, Some(""), "", "", "", None, Some([]), "", "")
  }

  /** The questions from 2 to 11. */
  const QUESTIONS: set<Field> := {Q2, Q3, Q4, Q5Score, Q6, Q7, Q8, Q9, Q10, Q11}

  /** The untouched form is rejected: every question from 2 to 11 fails its
      check, while the motive lists, the comment and the boolean pass theirs. */
  lemma DefaultsV2Rejected(company: Records.CompanyData)
    ensures !SurveySchemaV2(FormDefaultsV2(company))
    ensures forall f :: f in QUESTIONS ==> !Check(f, FormDefaultsV2(company))
    ensures forall f :: f in {Q4Motive, Q5Motive, Q9Motive, EsteAdministrator} ==> Check(f, FormDefaultsV2(company))
  {
    var d := FormDefaultsV2(company);
    forall f | f in QUESTIONS
      ensures !Check(f, d)
    {
      assert f == Q2 || f == Q3 || f == Q4 || f == Q5Score || f == Q6 || f == Q7 || f == Q8
        || f == Q9 || f == Q10 || f == Q11;
    }
  }
}
