/**
  The logic of the eleven-question form (components/survey-form-v2.tsx): the
  motive options of questions 4 and 9, selecting and unselecting a motive, the
  "Altul" (other) answer of question 6, and finding an option again by its label
  when a custom one turns out to exist already.
*/
module SurveyFormV2 {
  import opened Optional
  import opened Seqs
  import opened Text
  import Labels
  import opened ValidationV2

  /** A motive option as stored: its id, the question it belongs to and its label (`text`). */
  datatype MotiveOption = MotiveOption(id: int, category: string, text: string)

  /** The two questions that offer motives. */
  datatype Category = ObligatieIntemeiata | RenuntaContabil
  {
    /** The category as stored with an option. */
    function Name(): string
    {
      match this
      case ObligatieIntemeiata => "obligatie_intemeiata"
      case RenuntaContabil => "renunta_contabil"
    }
  }

  function InCategory(c: Category): MotiveOption -> bool
  {
    (o: MotiveOption) => o.category == c.Name()
  }

  /** `motiveOptions.filter((o) => o.category === category)`: the options of one
      question, in the order they were loaded. */
  function OptionsOf(options: seq<MotiveOption>, c: Category): (r: seq<MotiveOption>)
    ensures forall o :: o in r <==> o in options && o.category == c.Name()
  {
    Filter(options, InCategory(c))
  }

  /** Each question's list keeps the loaded order, and no option is in both. */
  lemma OptionsSplit(options: seq<MotiveOption>)
    ensures IsSubsequence(OptionsOf(options, ObligatieIntemeiata), options)
    ensures IsSubsequence(OptionsOf(options, RenuntaContabil), options)
    ensures |OptionsOf(options, ObligatieIntemeiata)| + |OptionsOf(options, RenuntaContabil)| <= |options|
    ensures forall o :: !(o in OptionsOf(options, ObligatieIntemeiata) && o in OptionsOf(options, RenuntaContabil))
  {
    FilterIsSubsequence(options, InCategory(ObligatieIntemeiata));
    FilterIsSubsequence(options, InCategory(RenuntaContabil));
    FilterDisjoint3(options, InCategory(ObligatieIntemeiata), InCategory(RenuntaContabil), (o: MotiveOption) => false);
  }

  function Other(id: int): int -> bool
  {
    (x: int) => x != id
  }

  /** The new list of a question's motive ids after a click on `id`: a selected id
      is removed wherever it occurs, and an unselected one is appended. */
  function Toggle(ids: seq<int>, id: int): (r: seq<int>)
    ensures id in r <==> id !in ids
    ensures forall x :: x != id ==> (x in r <==> x in ids)
    ensures id !in ids ==> r == ids + [id]
    ensures id in ids ==> IsSubsequence(r, ids) && |r| < |ids|
    ensures id in ids ==> multiset(r) == multiset(ids)[id := 0]
  {
    if id in ids then
      FilterIsSubsequence(ids, Other(id));
      FilterShrinks(ids, Other(id), id);
      FilterCounts(ids, Other(id));
      Filter(ids, Other(id))
    else ids + [id]
  }

  /** Filtering out an element that occurs makes the sequence shorter. */
  lemma {:induction false} FilterShrinks(ids: seq<int>, p: int -> bool, id: int)
    requires id in ids && !p(id)
    ensures |Filter(ids, p)| < |ids|
    decreases |ids|
  {
    if ids[0] != id {
      FilterShrinks(ids[1..], p, id);
    } else {
      assert |Filter(ids[1..], p)| <= |ids[1..]|;
    }
  }

  /** Clicking an unselected motive twice gives the list back. */
  lemma ToggleTwice(ids: seq<int>, id: int)
    requires id !in ids
    ensures Toggle(Toggle(ids, id), id) == ids
  {
    FilterAppend(ids, [id], Other(id));
    FilterKeepsAll(ids, Other(id));
    assert Filter([id], Other(id)) == [];
  }

  /** The motive ids selected for a question, `[]` while the list is absent. */
  function Motives(d: FormDataV2, c: Category): seq<int>
  {
    match c
    case ObligatieIntemeiata => d.q4_motive_option_ids.GetOr([])
    case RenuntaContabil => d.q9_motive_option_ids.GetOr([])
  }

  /** `setValue` of a question's motive list: that list is replaced and the rest
      of the form, the other question's list included, is kept. */
  function SetMotives(d: FormDataV2, c: Category, ids: seq<int>): (r: FormDataV2)
    ensures Motives(r, c) == ids
    ensures c == ObligatieIntemeiata ==> r == d.(q4_motive_option_ids := Some(ids))
    ensures c == RenuntaContabil ==> r == d.(q9_motive_option_ids := Some(ids))
  {
    match c
    case ObligatieIntemeiata => d.(q4_motive_option_ids := Some(ids))
    case RenuntaContabil => d.(q9_motive_option_ids := Some(ids))
  }

  /** `toggleMotive`: a click on a motive flips whether that motive is selected
      for its question and changes nothing else in the form. */
  function ToggleMotive(d: FormDataV2, c: Category, id: int): (r: FormDataV2)
    ensures id in Motives(r, c) <==> id !in Motives(d, c)
    ensures forall x :: x != id ==> (x in Motives(r, c) <==> x in Motives(d, c))
    ensures c == ObligatieIntemeiata ==> r.q9_motive_option_ids == d.q9_motive_option_ids
    ensures c == RenuntaContabil ==> r.q4_motive_option_ids == d.q4_motive_option_ids
    ensures r.(q4_motive_option_ids := d.q4_motive_option_ids, q9_motive_option_ids := d.q9_motive_option_ids) == d
  {
    SetMotives(d, c, Toggle(Motives(d, c), id))
  }

  /** Selecting motives never changes whether the form is accepted. */
  lemma ToggleMotiveKeepsValidity(d: FormDataV2, c: Category, id: int)
    ensures SurveySchemaV2(ToggleMotive(d, c, id)) <==> SurveySchemaV2(d)
  {
  }

  /** What the motive list should become once a custom motive is known by its id:
      the id selected, whether or not it already was. */
  function Select(ids: seq<int>, id: int): (r: seq<int>)
    ensures id in r
    ensures forall x :: x != id ==> (x in r <==> x in ids)
    ensures id in ids ==> r == ids
    ensures id !in ids ==> r == Toggle(ids, id)
  {
    if id in ids then ids else ids + [id]
  }

  /** The answer to inserting a custom motive of a question. */
  type InsertOutcome = Labels.InsertOutcome<MotiveOption>

  /** `addOtherMotive` as written: the trimmed text is ignored when empty;
      otherwise the option's id is toggled. `None` stands for the error alert,
      after which the form is as it was. */
  function AddOtherMotiveAsWritten(d: FormDataV2, c: Category, otherText: string, outcome: InsertOutcome): (r: Option<FormDataV2>)
    ensures Trim(otherText) == "" ==> r == Some(d)
    ensures outcome.InsertFailed? && Trim(otherText) != "" ==> r.None?
    ensures outcome.Inserted? && Trim(otherText) != "" ==> r == Some(ToggleMotive(d, c, outcome.newId))
    ensures (Trim(otherText) != "" && outcome.Duplicate? &&
             forall o :: o in outcome.stored.GetOr([]) ==> !Labels.SameLabel(o.text, Trim(otherText))) ==> r.None?
    ensures Trim(otherText) != "" && outcome.Duplicate? && ExistingMotiveId(outcome.stored, Trim(otherText)).Some? ==>
              r == Some(ToggleMotive(d, c, ExistingMotiveId(outcome.stored, Trim(otherText)).value))
  {
    var wanted := Trim(otherText);
    if wanted == "" then Some(d)
    else match outcome
      case Inserted(id) => Some(ToggleMotive(d, c, id))
      case Duplicate(stored) =>
        (match ExistingMotiveId(stored, wanted)
         case Some(id) => Some(ToggleMotive(d, c, id))
         case None => None)
      case InsertFailed => None
  }

  /** Typing again the label of a motive that is already selected unselects it:
      when the only stored option of the question carries that label and is
      selected, adding it removes it from the selection. */
  lemma AddSelectedMotiveUnselects(d: FormDataV2, c: Category, otherText: string, o: MotiveOption)
    requires Trim(otherText) != "" && Labels.SameLabel(o.text, Trim(otherText))
    requires o.id in Motives(d, c)
    ensures var r := AddOtherMotiveAsWritten(d, c, otherText, Labels.Duplicate(Some([o])));
            r.Some? && o.id !in Motives(r.value, c)
  {
    FoundAlone(o, Trim(otherText));
  }

  /** The case of the finding on one form: motive 7 is the only option of question
      4 and is selected; adding "x", its label, again empties the selection. */
  lemma AddSelectedMotiveExample()
    ensures var o := MotiveOption(7, "obligatie_intemeiata", "x");
            var d := FormDataV2("1", "A SRL", "L", "J", "6311", true, "a", "b", Some("da"), Some([7]), 3,
                                None, "c", "d", "e", Some("nu"), Some([]), "18-25", "Doctorat");
            AddOtherMotiveAsWritten(d, ObligatieIntemeiata, "x", Labels.Duplicate(Some([o])))
              == Some(d.(q4_motive_option_ids := Some([])))
  {
    var o := MotiveOption(7, "obligatie_intemeiata", "x");
    TrimOfTrimmed("x");
    FoundAlone(o, "x");
  }

  /** The only stored option is found by its own label. */
  lemma FoundAlone(o: MotiveOption, wanted: string)
    requires Labels.SameLabel(o.text, wanted)
    ensures ExistingMotiveId(Some([o]), wanted) == Some(o.id)
  {
    var found := Labels.FindByLabel(Some([o]), (x: MotiveOption) => x.text, wanted);
    assert o in [o];
    assert found == Some(o);
  }

  /** `addOtherMotive` with the option selected rather than toggled: whatever the
      outcome of the insert, a known option ends up selected and nothing else in
      the form changes. */
  function AddOtherMotive(d: FormDataV2, c: Category, otherText: string, outcome: InsertOutcome): (r: Option<FormDataV2>)
    ensures Trim(otherText) == "" ==> r == Some(d)
    ensures outcome.InsertFailed? && Trim(otherText) != "" ==> r.None?
    ensures outcome.Inserted? && Trim(otherText) != "" ==>
              r.Some? && outcome.newId in Motives(r.value, c)
    ensures (Trim(otherText) != "" && outcome.Duplicate? &&
             forall o :: o in outcome.stored.GetOr([]) ==> !Labels.SameLabel(o.text, Trim(otherText))) ==> r.None?
    ensures r.Some? ==> forall x :: x in Motives(d, c) ==> x in Motives(r.value, c)
    ensures outcome.Inserted? && Trim(otherText) != "" ==>
              r == Some(SetMotives(d, c, Select(Motives(d, c), outcome.newId)))
  {
    var wanted := Trim(otherText);
    if wanted == "" then Some(d)
    else match outcome
      case Inserted(id) => Some(SetMotives(d, c, Select(Motives(d, c), id)))
      case Duplicate(stored) =>
        (match ExistingMotiveId(stored, wanted)
         case Some(id) => Some(SetMotives(d, c, Select(Motives(d, c), id)))
         case None => None)
      case InsertFailed => None
  }

  /** Once the stored option is found by its label, it is selected, and the form
      differs from what the written code produces only when it already was. */
  lemma AddOtherMotiveSelects(d: FormDataV2, c: Category, otherText: string, stored: Option<seq<MotiveOption>>, o: MotiveOption)
    requires Trim(otherText) != "" && o in stored.GetOr([]) && Labels.SameLabel(o.text, Trim(otherText))
    ensures AddOtherMotive(d, c, otherText, Labels.Duplicate(stored)).Some?
    ensures var id := ExistingMotiveId(stored, Trim(otherText)).value;
            && id in Motives(AddOtherMotive(d, c, otherText, Labels.Duplicate(stored)).value, c)
            && (id !in Motives(d, c) ==>
                  AddOtherMotive(d, c, otherText, Labels.Duplicate(stored)) == AddOtherMotiveAsWritten(d, c, otherText, Labels.Duplicate(stored)))
  {
  }

  /** The answer the question 6 input writes as the user types: "Altul" while the
      text is empty, "Altul: " and the text otherwise. */
  function Q6Input(text: string): (q6: string)
    ensures StartsWith(q6, "Altul") && q6 != ""
    ensures q6 == "Altul" <==> text == ""
    ensures text != "" ==> |q6| == |text| + 7 && q6[..7] == "Altul: " && q6[7..] == text
  {
    if text != "" then "Altul: " + text else "Altul"
  }

  /** The typed text is recovered from the answer, so two texts give two answers. */
  lemma Q6InputInjective(a: string, b: string)
    requires Q6Input(a) == Q6Input(b)
    ensures a == b
  {
    if a != "" && b != "" {
      assert a == Q6Input(a)[7..];
    }
  }

  /** `onFormSubmit`: a record whose question 6 reads exactly "Altul" while the
      other-text holds something besides white space is sent with the trimmed text
      appended; everything else is sent as it is. */
  function OnFormSubmit(d: FormDataV2, q6Altul: string): (out: FormDataV2)
    ensures out == d.(q6_motiv_automatizat := out.q6_motiv_automatizat)
    ensures out.q6_motiv_automatizat != d.q6_motiv_automatizat
            <==> d.q6_motiv_automatizat == "Altul" && Trim(q6Altul) != ""
    ensures out.q6_motiv_automatizat != d.q6_motiv_automatizat ==>
              out.q6_motiv_automatizat == Q6Input(Trim(q6Altul))
    ensures SurveySchemaV2(d) ==> SurveySchemaV2(out)
  {
    if d.q6_motiv_automatizat == "Altul" && Trim(q6Altul) != "" then
      d.(q6_motiv_automatizat := "Altul: " + Trim(q6Altul))
    else d
  }

  /** Submitting twice rewrites at most once. */
  lemma OnFormSubmitIdempotent(d: FormDataV2, q6Altul: string)
    ensures OnFormSubmit(OnFormSubmit(d, q6Altul), q6Altul) == OnFormSubmit(d, q6Altul)
  {
    var once := OnFormSubmit(d, q6Altul);
    if once.q6_motiv_automatizat != d.q6_motiv_automatizat {
      assert |once.q6_motiv_automatizat| > 5;
    }
  }

  /** An answer typed into the input is sent as the input wrote it: the rewrite on
      submit only applies after "Altul" was clicked again, and then the sent answer
      carries the trimmed text. */
  lemma SubmitAfterTyping(d: FormDataV2, text: string)
    ensures OnFormSubmit(d.(q6_motiv_automatizat := Q6Input(text)), text).q6_motiv_automatizat
            == Q6Input(text)
    ensures OnFormSubmit(d.(q6_motiv_automatizat := "Altul"), text).q6_motiv_automatizat
            == Q6Input(Trim(text))
  {
  }

  /** The id of the stored option of a question whose label names the same option
      as `wanted`; `None` stands for the "could not find id" error. */
  function ExistingMotiveId(all: Option<seq<MotiveOption>>, wanted: string): (id: Option<int>)
    ensures id.Some? ==> exists o :: o in all.GetOr([]) && o.id == id.value && Labels.SameLabel(o.text, wanted)
    ensures id.None? <==> forall o :: o in all.GetOr([]) ==> !Labels.SameLabel(o.text, wanted)
  {
    match Labels.FindByLabel(all, (o: MotiveOption) => o.text, wanted)
    case Some(o) => Some(o.id)
    case None => None
  }
}
