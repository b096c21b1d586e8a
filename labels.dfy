/**
  Matching a custom answer option by its label: when adding an option fails
  because it already exists, both questionnaires look the option up again by
  its label, compared in lower case and without surrounding white space.
*/
module Labels {
  import opened Optional
  import opened Seqs
  import opened Text

  /** `label.toLowerCase().trim()`. */
  function NormalizeLabel(s: string): (r: string)
    ensures r != [] ==> !IsSpace(r[0]) && !IsSpace(r[|r| - 1])
    ensures forall c :: c in r ==> LowerChar(c) == c
  {
    LowerIsLower(s);
    Trim(Lower(s))
  }

  /** A normalized label is its own normal form, so a stored label and its
      normalized form are found by the same lookups. */
  lemma NormalizeLabelIdempotent(s: string)
    ensures NormalizeLabel(NormalizeLabel(s)) == NormalizeLabel(s)
  {
    var t := NormalizeLabel(s);
    assert Lower(t) == t;
    TrimOfTrimmed(t);
  }

  /** Two labels name the same option. */
  predicate SameLabel(a: string, b: string)
  {
    NormalizeLabel(a) == NormalizeLabel(b)
  }

  /** `(all || []).find(o => o.label.toLowerCase().trim() === label.toLowerCase().trim())`:
      the first stored option whose label names the same option; `None` when the
      options could not be read or none matches. */
  function FindByLabel<T(!new)>(all: Option<seq<T>>, labelOf: T -> string, wanted: string): (r: Option<T>)
    ensures all.None? ==> r.None?
    ensures r.Some? ==> r.value in all.value && SameLabel(labelOf(r.value), wanted)
    ensures r.Some? ==> exists i :: (0 <= i < |all.value| && all.value[i] == r.value
                                     && forall j :: 0 <= j < i ==> !SameLabel(labelOf(all.value[j]), wanted))
    ensures all.Some? && r.None? ==> forall x :: x in all.value ==> !SameLabel(labelOf(x), wanted)
  {
    Find(all.GetOr([]), (x: T) => SameLabel(labelOf(x), wanted))
  }

  /** Looking up an option by a label that differs from a stored one only in
      letter case or surrounding white space finds an option. */
  lemma FindByLabelFindsStored<T(!new)>(all: seq<T>, labelOf: T -> string, wanted: string, i: nat)
    requires i < |all| && SameLabel(labelOf(all[i]), wanted)
    ensures FindByLabel(Some(all), labelOf, wanted).Some?
  {
    assert all[i] in all;
  }

  /** The answer to inserting a custom option: `Inserted` with the new id, or the
      unique-key error (code 23505) with the options of its category read again
      (`None` when they could not be read), or any other error. */
  datatype InsertOutcome<T> =
    | Inserted(newId: int)
    | Duplicate(stored: Option<seq<T>>)
    | InsertFailed
}
