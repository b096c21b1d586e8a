/**
  The pure helpers of the company-lookup route (app/api/lookup-cui/route.ts):
  cleaning the CUI before it is sent to the registry, and reading the locality
  and the county out of a comma-separated registry address.
*/
module LookupCuiRoute {
  import opened Optional
  import opened Seqs
  import opened Text

  /** `cui.replace(/\D/g, '')`: only the digits are kept, in their order. */
  function CleanCui(cui: string): (clean: string)
    ensures IsDigits(clean) && |clean| <= |cui|
    ensures forall c :: c in clean <==> c in cui && IsDigit(c)
    ensures forall c :: multiset(clean)[c] == if IsDigit(c) then multiset(cui)[c] else 0
  {
    FilterCounts(cui, IsDigit);
    KeepDigits(cui)
  }

  /** The digits are taken from the CUI in order, and a CUI that is already all
      digits is sent as it is. */
  lemma CleanCuiKeepsOrder(cui: string)
    ensures IsSubsequence(CleanCui(cui), cui)
    ensures IsDigits(cui) ==> CleanCui(cui) == cui
  {
    FilterIsSubsequence(cui, IsDigit);
    if IsDigits(cui) {
      KeepDigitsOfDigits(cui);
    }
  }

  /** The position of the first element passing `p`, at or after `from`: the
      `for (const part of parts)` loop that returns at its first hit. */
  function FirstIndex<T>(xs: seq<T>, p: T -> bool, from: nat): (r: Option<nat>)
    requires from <= |xs|
    ensures r.Some? ==> from <= r.value < |xs| && p(xs[r.value])
    ensures r.Some? ==> forall j :: from <= j < r.value ==> !p(xs[j])
    ensures r.None? ==> forall j :: from <= j < |xs| ==> !p(xs[j])
    decreases |xs| - from
  {
    if from == |xs| then None
    else if p(xs[from]) then Some(from)
    else FirstIndex(xs, p, from + 1)
  }

  /** The parts of an address, each with its white space trimmed. */
  function TrimmedParts(adresa: string): (parts: seq<string>)
    ensures |parts| == |Split(adresa, ',')| >= 1
    ensures forall i :: 0 <= i < |parts| ==> parts[i] == Trim(Split(adresa, ',')[i])
    ensures forall i :: 0 <= i < |parts| ==> ',' !in parts[i]
  {
    var raw := Split(adresa, ',');
    seq(|raw|, i requires 0 <= i < |raw| => Trim(raw[i]))
  }

  /** `t.toLowerCase().startsWith(prefix)`. */
  predicate LowerStartsWith(t: string, prefix: string)
  {
    StartsWith(Lower(t), prefix)
  }

  /** The length of the locality label a trimmed part starts with, if any: the
      three labels begin with different letters, so at most one applies, and
      `/^(oras |municipiul |comuna )/i` removes exactly that one. */
  function LocalityLabel(t: string): (n: Option<nat>)
    ensures n.Some? ==> n.value <= |t|
    ensures n == Some(5) <==> LowerStartsWith(t, "oras ")
    ensures n == Some(11) <==> LowerStartsWith(t, "municipiul ")
    ensures n == Some(7) <==> LowerStartsWith(t, "comuna ")
    ensures n.None? <==> (!LowerStartsWith(t, "oras ") && !LowerStartsWith(t, "municipiul ")
                          && !LowerStartsWith(t, "comuna "))
  {
    assert LowerStartsWith(t, "oras ") ==> Lower(t)[0] == 'o';
    assert LowerStartsWith(t, "municipiul ") ==> Lower(t)[0] == 'm';
    assert LowerStartsWith(t, "comuna ") ==> Lower(t)[0] == 'c';
    if LowerStartsWith(t, "oras ") then Some(5)
    else if LowerStartsWith(t, "municipiul ") then Some(11)
    else if LowerStartsWith(t, "comuna ") then Some(7)
    else None
  }

  predicate HasLocalityLabel(t: string)
  {
    LocalityLabel(t).Some?
  }

  /** `extractLocalitate`: the first part labelled as a town, city or commune,
      without its label; failing that, the first part. */
  function ExtractLocalitate(adresa: string): (localitate: string)
    ensures ',' !in localitate
    ensures var parts := TrimmedParts(adresa);
      || (exists i :: 0 <= i < |parts| && HasLocalityLabel(parts[i])
            && (forall j :: 0 <= j < i ==> !HasLocalityLabel(parts[j]))
            && localitate == parts[i][LocalityLabel(parts[i]).value..])
      || ((forall i :: 0 <= i < |parts| ==> !HasLocalityLabel(parts[i])) && localitate == parts[0])
  {
    var parts := TrimmedParts(adresa);
    match FirstIndex(parts, HasLocalityLabel, 0)
    case Some(i) => parts[i][LocalityLabel(parts[i]).value..]
    case None => parts[0]
  }

  /** An empty address has no locality. */
  lemma ExtractLocalitateOfEmpty()
    ensures ExtractLocalitate("") == ""
  {
    assert Split("", ',') == [""];
  }

  /** The length of the county label a trimmed part starts with, if any; as with
      the locality labels, at most one of `judet ` and `jud. ` applies. */
  function CountyLabel(t: string): (n: Option<nat>)
    ensures n.Some? ==> n.value <= |t|
    ensures n == Some(6) <==> LowerStartsWith(t, "judet ")
    ensures n == Some(5) <==> LowerStartsWith(t, "jud. ")
    ensures n.None? <==> !LowerStartsWith(t, "judet ") && !LowerStartsWith(t, "jud. ")
  {
    assert LowerStartsWith(t, "judet ") ==> Lower(t)[3] == 'e';
    assert LowerStartsWith(t, "jud. ") ==> Lower(t)[3] == '.';
    if LowerStartsWith(t, "judet ") then Some(6)
    else if LowerStartsWith(t, "jud. ") then Some(5)
    else None
  }

  predicate HasCountyLabel(t: string)
  {
    CountyLabel(t).Some?
  }

  /** `extractJudet`: the first part labelled as a county, without its label;
      failing that, the last part. */
  function ExtractJudet(adresa: string): (judet: string)
    ensures ',' !in judet
    ensures var parts := TrimmedParts(adresa);
      || (exists i :: 0 <= i < |parts| && HasCountyLabel(parts[i])
            && (forall j :: 0 <= j < i ==> !HasCountyLabel(parts[j]))
            && judet == parts[i][CountyLabel(parts[i]).value..])
      || ((forall i :: 0 <= i < |parts| ==> !HasCountyLabel(parts[i])) && judet == parts[|parts| - 1])
  {
    var parts := TrimmedParts(adresa);
    match FirstIndex(parts, HasCountyLabel, 0)
    case Some(i) => parts[i][CountyLabel(parts[i]).value..]
    case None => parts[|parts| - 1]
  }

  /** Splitting at the first separator gives the text before it as the first part. */
  lemma {:induction false} SplitAtFirst(a: string, b: string, sep: char)
    requires sep !in a
    ensures Split(a + [sep] + b, sep) == [a] + Split(b, sep)
    decreases |a|
  {
    if a == [] {
      assert (a + [sep] + b)[1..] == b;
    } else {
      SplitAtFirst(a[1..], b, sep);
      assert (a + [sep] + b)[1..] == a[1..] + [sep] + b;
      assert [a[0]] + a[1..] == a;
    }
  }

  /** The first part of an address that starts with a labelled name is that
      labelled name. */
  lemma FirstPartIsLabelled(tag: string, name: string, rest: string)
    requires tag != [] && !IsSpace(tag[0]) && ',' !in tag
    requires name != [] && ',' !in name && !IsSpace(name[|name| - 1])
    ensures TrimmedParts(tag + name + "," + rest)[0] == tag + name
  {
    var first := tag + name;
    assert ',' !in first;
    SplitAtFirst(first, rest, ',');
    assert tag + name + "," + rest == first + [','] + rest;
    TrimOfTrimmed(first);
  }

  lemma LabelledLocality(name: string)
    ensures LowerStartsWith("Municipiul " + name, "municipiul ")
  {
    assert Lower("Municipiul " + name)[..11] == "municipiul ";
  }

  lemma LabelledCounty(name: string)
    ensures LowerStartsWith("Judet " + name, "judet ")
  {
    assert Lower("Judet " + name)[..6] == "judet ";
  }

  /** A name that follows a locality label in the first part of an address is the
      locality read back. */
  lemma ExtractLocalitateOfLabelled(name: string, rest: string)
    requires name != [] && ',' !in name
    requires !IsSpace(name[0]) && !IsSpace(name[|name| - 1])
    ensures ExtractLocalitate("Municipiul " + name + "," + rest) == name
  {
    var first := "Municipiul " + name;
    FirstPartIsLabelled("Municipiul ", name, rest);
    var parts := TrimmedParts("Municipiul " + name + "," + rest);
    LabelledLocality(name);
    assert FirstIndex(parts, HasLocalityLabel, 0) == Some(0);
    assert first[11..] == name;
  }

  /** A county name after a `Judet` label in the first part of an address is the
      county read back. */
  lemma ExtractJudetOfLabelled(name: string, rest: string)
    requires name != [] && ',' !in name
    requires !IsSpace(name[0]) && !IsSpace(name[|name| - 1])
    ensures ExtractJudet("Judet " + name + "," + rest) == name
  {
    var first := "Judet " + name;
    FirstPartIsLabelled("Judet ", name, rest);
    var parts := TrimmedParts("Judet " + name + "," + rest);
    LabelledCounty(name);
    assert FirstIndex(parts, HasCountyLabel, 0) == Some(0);
    assert first[6..] == name;
  }
}
