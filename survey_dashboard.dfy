/**
  The interviewer's dashboard (components/survey-dashboard.tsx): the phone
  number shown for the call, and the rows written when a call ends without a
  completed questionnaire.
*/
module SurveyDashboard {
  import opened Optional
  import opened Seqs
  import opened Text
  import opened Records
  import LiveViewer

  // ---------------------------------------------------------------------------
  // formatRomanianPhone

  /** What is shown when the company has no phone number. */
  const NO_PHONE: string := "—"

  /** The number is written with the Romanian country code, as `+40` or `0040`. */
  predicate HasCountryCode(raw: string)
  {
    StartsWith(raw, "+40") || StartsWith(raw, "0040")
  }

  /** `replace(/^\+40|^0040/, '')`: the first alternative is tried first. */
  function DropCountryCode(raw: string): (rest: string)
    requires HasCountryCode(raw)
    ensures StartsWith(raw, "+40") ==> raw == "+40" + rest
    ensures !StartsWith(raw, "+40") ==> raw == "0040" + rest
  {
    if StartsWith(raw, "+40") then raw[3..] else raw[4..]
  }

  /** The nine national digits, grouped 3/3/3 behind the country code. */
  function Grouped(d: string): (r: string)
    requires |d| == 9
    ensures |r| == 15
  {
    "+4 0" + d[..3] + " " + d[3..6] + " " + d[6..]
  }

  /** `formatRomanianPhone`: a Romanian number with exactly nine national digits
      is regrouped; any other text is shown as it is; no number shows a dash. */
  function FormatRomanianPhone(phone: Option<string>): (r: string)
    ensures phone.None? || phone == Some("") ==> r == NO_PHONE
    ensures phone.Some? && phone.value != "" && !HasCountryCode(RemoveSpaces(phone.value)) ==> r == phone.value
    ensures (phone.Some? && phone.value != "" && HasCountryCode(RemoveSpaces(phone.value))
             && |KeepDigits(DropCountryCode(RemoveSpaces(phone.value)))| != 9) ==> r == phone.value
  {
    if phone.None? || phone.value == "" then NO_PHONE
    else
      var raw := RemoveSpaces(phone.value);
      if !HasCountryCode(raw) then phone.value
      else
        var digits := KeepDigits(DropCountryCode(raw));
        if |digits| != 9 then phone.value else Grouped(digits)
  }

  /** A regrouped number is the country code followed by the nine national digits
      in their original order, with single spaces after the `+4`, after the
      `0` and then after every third digit. */
  lemma FormatRomanianPhoneShape(phone: string)
    requires phone != "" && HasCountryCode(RemoveSpaces(phone))
    requires |KeepDigits(DropCountryCode(RemoveSpaces(phone)))| == 9
    ensures var r := FormatRomanianPhone(Some(phone));
      var digits := KeepDigits(DropCountryCode(RemoveSpaces(phone)));
      && |r| == 15
      && r[..4] == "+4 0" && r[7] == ' ' && r[11] == ' '
      && r[4..7] + r[8..11] + r[12..] == digits
  {
    var digits := KeepDigits(DropCountryCode(RemoveSpaces(phone)));
    var r := Grouped(digits);
    assert r[4..7] == digits[..3] && r[8..11] == digits[3..6] && r[12..] == digits[6..];
    assert digits[..3] + digits[3..6] + digits[6..] == digits;
  }

  /** Spaces removed from the grouped form leave the country code and the digits. */
  lemma RemoveSpacesOfGrouped(d: string)
    requires |d| == 9 && IsDigits(d)
    ensures RemoveSpaces(Grouped(d)) == "+40" + d
  {
    var a, b, c := d[..3], d[3..6], d[6..];
    RemoveSpacesOfDigits(a);
    RemoveSpacesOfDigits(b);
    RemoveSpacesOfDigits(c);
    RemoveSpacesOfCode();
    RemoveSpacesAround("+4 0", a, " ", b, c);
    NineDigitGroups(d);
  }

  /** The three groups of nine digits, put back together behind a prefix. */
  lemma NineDigitGroups(d: string)
    requires |d| == 9
    ensures forall x: string :: x + d[..3] + d[3..6] + d[6..] == x + d
  {
    assert d[..3] + d[3..6] + d[6..] == d;
  }

  /** Removing spaces piece by piece, when the separator is all spaces. */
  lemma RemoveSpacesAround(x: string, a: string, sep: string, b: string, c: string)
    requires RemoveSpaces(sep) == []
    ensures RemoveSpaces(x + a + sep + b + sep + c)
      == RemoveSpaces(x) + RemoveSpaces(a) + RemoveSpaces(b) + RemoveSpaces(c)
  {
    RemoveSpacesAppend(x, a);
    RemoveSpacesAppend(x + a, sep);
    RemoveSpacesAppend(x + a + sep, b);
    RemoveSpacesAppend(x + a + sep + b, sep);
    RemoveSpacesAppend(x + a + sep + b + sep, c);
  }

  lemma RemoveSpacesOfCode()
    ensures RemoveSpaces("+4 0") == "+40" && RemoveSpaces(" ") == ""
  {
  }

  /** Formatting the shown number again changes nothing: the grouped form reads
      back as the same nine digits, and every other result is shown as it is. */
  lemma FormatRomanianPhoneIdempotent(phone: Option<string>)
    ensures FormatRomanianPhone(Some(FormatRomanianPhone(phone))) == FormatRomanianPhone(phone)
  {
    if phone.None? || phone.value == "" {
      NoPhoneShownAsIs();
    } else {
      var raw := RemoveSpaces(phone.value);
      if HasCountryCode(raw) {
        var digits := KeepDigits(DropCountryCode(raw));
        if |digits| == 9 {
          GroupedShownAsIs(digits);
        }
      }
    }
  }

  lemma NoPhoneShownAsIs()
    ensures FormatRomanianPhone(Some(NO_PHONE)) == NO_PHONE
  {
    assert RemoveSpaces(NO_PHONE) == NO_PHONE;
    assert !HasCountryCode(NO_PHONE);
  }

  /** The grouped form of nine digits reads back as the same nine digits. */
  lemma GroupedShownAsIs(d: string)
    requires |d| == 9 && IsDigits(d)
    ensures FormatRomanianPhone(Some(Grouped(d))) == Grouped(d)
  {
    RemoveSpacesOfGrouped(d);
    assert StartsWith("+40" + d, "+40");
    assert DropCountryCode("+40" + d) == d;
    KeepDigitsOfDigits(d);
  }

  // ---------------------------------------------------------------------------
  // The rows written when a call ends early

  /** The answers a partly filled questionnaire holds (`Partial<SurveyFormData>`);
      an answer not given yet is `None`. */
  datatype PartialAnswers = PartialAnswers(
    procent_cheltuieli_contabil: Option<string>,
    impediment_contabil_score: Option<int>,
    justificare_obligativitate_score: Option<int>,
    capabil_contabilitate_proprie_score: Option<int>,
    influenta_costuri_contabilitate: Option<string>,
    suma_lunara_contabilitate: Option<string>)

  /** The text written for a question that was not answered. */
  const NOT_ANSWERED: string := "N/A"

  /** The row for a company, with the given interviewer, respondent role, answers
      and end reason: the company's fields are copied, and a missing phone or
      administrator becomes `null`. */
  function CompanyRow(company: CompanyData, operator: string, isAdmin: bool, procent: string,
                      s3: int, s4: int, s5: int, influenta: string, suma: string,
                      reason: string): (r: SurveyResponse)
    ensures r.cui == company.cui && r.nume_firma == company.nume
    ensures r.localitate == company.localitate && r.judet == company.judet && r.cod_caen == company.codCaen
    ensures r.telefon == NonEmptyOrNone(company.telefon) && r.administrator == NonEmptyOrNone(company.administrator)
    ensures r.operator == operator && r.motiv_incheiere == Some(reason)
  {
    SurveyResponse(company.cui, company.nume, company.localitate, company.judet, company.codCaen,
      isAdmin, procent, s3, s4, s5, influenta, suma, operator,
      NonEmptyOrNone(company.telefon), NonEmptyOrNone(company.administrator), Some(reason))
  }

  /** `handleSurveyEnded`: nothing is written without a signed-in interviewer and a
      company; otherwise a row with no answers and the given reason. */
  function SurveyEndedRow(user: Option<string>, company: Option<CompanyData>, reason: string)
    : (r: Option<SurveyResponse>)
    ensures r.Some? <==> user.Some? && company.Some?
    ensures r.Some? ==> && r.value == CompanyRow(company.value, user.value, false, NOT_ANSWERED, 0, 0, 0,
                                                  NOT_ANSWERED, NOT_ANSWERED, reason)
  {
    if user.None? || company.None? then None
    else Some(SurveyResponse(company.value.cui, company.value.nume, company.value.localitate,
      company.value.judet, company.value.codCaen, false, NOT_ANSWERED, 0, 0, 0,
      NOT_ANSWERED, NOT_ANSWERED, user.value,
      NonEmptyOrNone(company.value.telefon), NonEmptyOrNone(company.value.administrator), Some(reason)))
  }

  /** `x || 0` for a score: a missing score and a zero one are both written as 0. */
  function ScoreOrZero(v: Option<int>): (n: int)
    ensures v.None? ==> n == 0
    ensures v.Some? ==> n == v.value
  {
    v.GetOr(0)
  }

  /** `handleSurveyAbandoned`: the respondent was the administrator and hung up;
      the answers given so far are kept and the rest become "N/A" or 0. */
  function SurveyAbandonedRow(user: Option<string>, company: Option<CompanyData>, partial: PartialAnswers)
    : (r: Option<SurveyResponse>)
    ensures r.Some? <==> user.Some? && company.Some?
    ensures r.Some? ==> r.value == CompanyRow(company.value, user.value, true,
      OrElse(partial.procent_cheltuieli_contabil, NOT_ANSWERED),
      ScoreOrZero(partial.impediment_contabil_score),
      ScoreOrZero(partial.justificare_obligativitate_score),
      ScoreOrZero(partial.capabil_contabilitate_proprie_score),
      OrElse(partial.influenta_costuri_contabilitate, NOT_ANSWERED),
      OrElse(partial.suma_lunara_contabilitate, NOT_ANSWERED),
      ABANDONED)
  {
    if user.None? || company.None? then None
    else
      var c := company.value;
      Some(SurveyResponse(c.cui, c.nume, c.localitate, c.judet, c.codCaen, true,
        OrElse(partial.procent_cheltuieli_contabil, NOT_ANSWERED),
        ScoreOrZero(partial.impediment_contabil_score),
        ScoreOrZero(partial.justificare_obligativitate_score),
        ScoreOrZero(partial.capabil_contabilitate_proprie_score),
        OrElse(partial.influenta_costuri_contabilitate, NOT_ANSWERED),
        OrElse(partial.suma_lunara_contabilitate, NOT_ANSWERED),
        user.value, NonEmptyOrNone(c.telefon), NonEmptyOrNone(c.administrator), Some(ABANDONED)))
  }

  /** The three end buttons of the dashboard and the questionnaire's "administrator
      absent" button pass these reasons. */
  predicate IsEndButtonReason(reason: string)
  {
    reason == NO_ANSWER || reason == REFUSED || reason == ADMIN_ABSENT
  }

  /** Every row written for a call that ended early is kept out of the completed
      interviews of the live panel; one for an unanswered call or a refusal is
      counted as exactly that; and one for an absent administrator is counted
      under "NU" for question 1. */
  lemma EndedRowsInLiveStats(user: string, company: CompanyData, reason: string)
    requires IsEndButtonReason(reason)
    ensures var r := SurveyEndedRow(Some(user), Some(company), reason).value;
      && !LiveViewer.IsCompleted(r)
      && (LiveViewer.EndedWith(r, NO_ANSWER) <==> reason == NO_ANSWER)
      && (LiveViewer.EndedWith(r, REFUSED) <==> reason == REFUSED)
      && (LiveViewer.CountsForDaNu(r) <==> reason == ADMIN_ABSENT)
      && !r.este_administrator
  {
    var r := SurveyEndedRow(Some(user), Some(company), reason).value;
    assert !IsSpace(reason[0]);
    TrimKeepsHead(reason, 1);
  }

  /** An abandoned call is kept out of the completed interviews, is not taken for
      an unanswered call or a refusal, and is counted under "DA" for question 1. */
  lemma AbandonedRowInLiveStats(user: string, company: CompanyData, partial: PartialAnswers)
    ensures var r := SurveyAbandonedRow(Some(user), Some(company), partial).value;
      && !LiveViewer.IsCompleted(r)
      && !LiveViewer.EndedWith(r, NO_ANSWER) && !LiveViewer.EndedWith(r, REFUSED)
      && LiveViewer.CountsForDaNu(r) && r.este_administrator
  {
    TrimKeepsHead(ABANDONED, 1);
  }
}
