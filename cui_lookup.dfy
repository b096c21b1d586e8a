/**
  The pasted-profile parser of the company lookup (components/cui-lookup.tsx):
  a chain of first-match extractors over the text of a company page, each one a
  hand-coded regular expression, assembled into a `CompanyData` or nothing.
*/
module CuiLookup {
  import opened Optional
  import opened Text
  import opened Patterns
  import opened Records

  // ---------------------------------------------------------------------------
  // CUI: /CUI\s*(\d+)/i

  /** `CUI\s*(\d+)` at `p`. Giving back white space or digits cannot let the next
      item match, so both greedy runs are final. */
  function CuiAt(s: string, p: nat): (r: Option<string>)
    ensures r.Some? ==> r.value != "" && IsDigits(r.value)
  {
    if !LitAt(s, p, "CUI") then None
    else
      var a := SpaceEnd(s, p + 3);
      var b := DigitEnd(s, a);
      if a < b then Some(s[a..b]) else None
  }

  /** The CUI digits, or "" when the label with digits after it is nowhere in the text. */
  function ExtractCui(text: string): (cui: string)
    ensures IsDigits(cui)
    ensures cui == "" <==> forall p :: 0 <= p <= |text| ==> CuiAt(text, p).None?
    ensures forall p :: LeftmostAt(text, CuiAt, p) ==> cui == CuiAt(text, p).value
  {
    Search(text, CuiAt).GetOr("")
  }

  /** Wherever the first "CUI" in any letter case stands, followed by white space
      and a number that ends the run of digits, that number is the CUI. */
  lemma ExtractCuiOfLabel(pre: string, lbl: string, w: string, d: string, rest: string)
    requires LitAt(lbl, 0, "CUI") && |lbl| == 3
    requires forall i :: 0 <= i < |w| ==> IsSpace(w[i])
    requires d != [] && IsDigits(d)
    requires rest == [] || !IsDigit(rest[0])
    requires forall q :: 0 <= q < |pre| ==> CuiAt(pre + lbl + w + d + rest, q).None?
    ensures ExtractCui(pre + lbl + w + d + rest) == d
  {
    var s := pre + lbl + w + d + rest;
    var p, a, b := |pre|, |pre| + 3 + |w|, |pre| + 3 + |w| + |d|;
    assert forall i :: 0 <= i < 3 ==> s[p + i] == lbl[i];
    assert LitAt(s, p, "CUI");
    RunEndIs(s, p + 3, a, IsSpace);
    RunEndIs(s, a, b, IsDigit);
    assert s[a..b] == d;
    assert LeftmostAt(s, CuiAt, p);
  }

  /** A text that opens with the label, a space and a number yields that number. */
  lemma ExtractCuiOfLabelledNumber(d: string, rest: string)
    requires d != [] && IsDigits(d)
    requires rest == [] || !IsDigit(rest[0])
    ensures ExtractCui("CUI " + d + rest) == d
  {
    var s := "CUI " + d + rest;
    assert LitAt(s, 0, "CUI");
    RunEndIs(s, 3, 4, IsSpace);
    RunEndIs(s, 4, 4 + |d|, IsDigit);
    assert s[4..4 + |d|] == d;
    SearchAtStart(s, CuiAt);
  }

  // ---------------------------------------------------------------------------
  // Company name: /Targetare\.ro\s+([A-ZĂÂÎȘȚ\s&.-]+SRL|[A-ZĂÂÎȘȚ\s&.-]+SA)/i

  /** `[A-ZĂÂÎȘȚ\s&.-]` under the `/i` flag. */
  predicate IsNameChar(c: char)
  {
    ('A' <= FoldAscii(c) <= 'Z') || c in "ĂÂÎȘȚăâîșț" || IsSpace(c) || c == '&' || c == '.' || c == '-'
  }

  /** A branch `[…]+<suffix>` started at `q` whose character run ends at `e`. The run
      is greedy, so the body ends `e`, `e - 1`, …, `q + 1` are tried in turn and the
      first one the suffix follows wins. The result is the end of the branch's match. */
  function BodyThenSuffix(s: string, q: nat, e: nat, suffix: string): (r: Option<nat>)
    ensures r.Some? ==> q + |suffix| < r.value <= |s| && LitAt(s, r.value - |suffix|, suffix)
    ensures r.Some? ==> r.value - |suffix| <= e && forall k :: r.value - |suffix| < k <= e ==> !LitAt(s, k, suffix)
    ensures r.None? ==> forall k :: q < k <= e ==> !LitAt(s, k, suffix)
    decreases e
  {
    if e <= q then None
    else if LitAt(s, e, suffix) then Some(e + |suffix|)
    else BodyThenSuffix(s, q, e - 1, suffix)
  }

  /** `([…]+SRL|[…]+SA)` once `\s+` has taken `k` white-space characters from
      `start`. The white-space run is greedy, so `k` counts down from the whole run
      to one, and at each `k` the `SRL` branch is tried before the `SA` branch. */
  function NameAfterSpaces(s: string, start: nat, k: nat): (r: Option<string>)
    requires start + k <= |s|
    ensures r.Some? ==> exists i :: 0 <= i < |r.value| && !IsSpace(r.value[i])
    decreases k
  {
    if k == 0 then None
    else
      var q := start + k;
      var e := RunEnd(s, q, IsNameChar);
      var srl := SuffixedName(s, q, e, "SRL");
      if srl.Some? then srl
      else
        var sa := SuffixedName(s, q, e, "SA");
        if sa.Some? then sa
        else NameAfterSpaces(s, start, k - 1)
  }

  /** One branch `[…]+<suffix>` of the name pattern, started at `q`, whose
      character run ends at `e`: the matched text, suffix included. */
  function SuffixedName(s: string, q: nat, e: nat, suffix: string): (r: Option<string>)
    requires suffix == "SRL" || suffix == "SA"
    ensures r.Some? ==> exists i :: 0 <= i < |r.value| && !IsSpace(r.value[i])
  {
    match BodyThenSuffix(s, q, e, suffix)
    case Some(end) =>
      SuffixEndsInLetter(s, q, end, suffix);
      Some(s[q..end])
    case None => None
  }

  /** When the suffix does not follow the body end `e`, the run gives back one character. */
  lemma BodyThenSuffixBacksOff(s: string, q: nat, e: nat, suffix: string)
    requires q < e && !LitAt(s, e, suffix)
    ensures BodyThenSuffix(s, q, e, suffix) == BodyThenSuffix(s, q, e - 1, suffix)
  {
  }

  /** When the suffix follows the body end `e`, the branch ends after the suffix. */
  lemma BodyThenSuffixHit(s: string, q: nat, e: nat, suffix: string)
    requires q < e && LitAt(s, e, suffix)
    ensures BodyThenSuffix(s, q, e, suffix) == Some(e + |suffix|)
  {
  }

  /** A match that ends with the suffix `SRL` or `SA` ends with a letter. */
  lemma SuffixEndsInLetter(s: string, q: nat, end: nat, suffix: string)
    requires suffix == "SRL" || suffix == "SA"
    requires q < end <= |s| && |suffix| <= end && LitAt(s, end - |suffix|, suffix)
    ensures !IsSpace(s[q..end][end - 1 - q])
  {
    var n := |suffix|;
    assert FoldAscii(s[end - n + (n - 1)]) == FoldAscii(suffix[n - 1]);
    assert s[q..end][end - 1 - q] == s[end - 1];
  }

  function NameAt(s: string, p: nat): (r: Option<string>)
    ensures r.Some? ==> exists i :: 0 <= i < |r.value| && !IsSpace(r.value[i])
  {
    if !LitAt(s, p, "Targetare.ro") then None
    else
      var start := p + 12;
      NameAfterSpaces(s, start, SpaceEnd(s, start) - start)
  }

  /** The trimmed company name, or "" when the pattern matches nowhere. */
  function ExtractName(text: string): (nume: string)
    ensures nume == "" <==> forall p :: 0 <= p <= |text| ==> NameAt(text, p).None?
    ensures forall p :: LeftmostAt(text, NameAt, p) ==> nume == Trim(NameAt(text, p).value)
  {
    match Search(text, NameAt)
    case Some(c) => Trim(c)
    case None => ""
  }

  /** A profile line "Targetare.ro " followed by a name that ends in "SRL" and a
      character outside the name class yields the name with its suffix: the greedy
      character run takes the suffix too and gives back exactly its three letters. */
  lemma ExtractNameOfSuffixed(n: string, rest: string)
    requires n != [] && !IsSpace(n[0]) && forall i :: 0 <= i < |n| ==> IsNameChar(n[i])
    requires rest == [] || !IsNameChar(rest[0])
    ensures ExtractName("Targetare.ro " + n + "SRL" + rest) == n + "SRL"
  {
    var s := "Targetare.ro " + n + "SRL" + rest;
    assert s[13..13 + |n|] == n && s[13 + |n|..16 + |n|] == "SRL";
    assert 16 + |n| < |s| ==> s[16 + |n|] == rest[0];
    SuffixedNameAfterLabel(s, 13, n);
    assert LitAt(s, 0, "Targetare.ro");
    assert s[13] == n[0];
    NameAtLabel(s, n + "SRL");
    SearchAtStart(s, NameAt);
    TrimOfSuffixed(n);
  }

  /** A name that opens with a non-space character and ends in "SRL" is its own trim. */
  lemma TrimOfSuffixed(n: string)
    requires n != [] && !IsSpace(n[0])
    ensures Trim(n + "SRL") == n + "SRL"
  {
    var name := n + "SRL";
    assert name[0] == n[0] && name[|name| - 1] == 'L';
    TrimOfTrimmed(name);
  }

  /** "Targetare.ro" and one space, followed by a name the SRL branch captures. */
  lemma NameAtLabel(s: string, name: string)
    requires |s| > 13 && LitAt(s, 0, "Targetare.ro") && IsSpace(s[12]) && !IsSpace(s[13])
    requires SuffixedName(s, 13, RunEnd(s, 13, IsNameChar), "SRL") == Some(name)
    ensures NameAt(s, 0) == Some(name)
  {
    assert SpaceEnd(s, 12) == 13;
    assert NameAfterSpaces(s, 12, 1) == Some(name);
  }

  /** A branch started at `q` on a name `n` followed by "SRL" and then by a
      character outside the name class captures the name and its suffix. */
  lemma SuffixedNameAfterLabel(s: string, q: nat, n: string)
    requires n != [] && forall i :: 0 <= i < |n| ==> IsNameChar(n[i])
    requires q + |n| + 3 <= |s| && s[q..q + |n|] == n && s[q + |n|..q + |n| + 3] == "SRL"
    requires q + |n| + 3 < |s| ==> !IsNameChar(s[q + |n| + 3])
    ensures SuffixedName(s, q, RunEnd(s, q, IsNameChar), "SRL") == Some(n + "SRL")
  {
    var m, e := q + |n|, q + |n| + 3;
    assert SuffixedName(s, q, RunEnd(s, q, IsNameChar), "SRL") == Some(s[q..e]) by {
      NameRunThenSrl(s, q, n, e);
      SuffixedRun(s, q, e);
    }
    assert s[q..e] == n + "SRL" by { SliceJoin(s, q, m, e); }
  }

  /** The name's characters and the letters S, R, L are all name characters. */
  lemma NameRunThenSrl(s: string, q: nat, n: string, e: nat)
    requires forall i :: 0 <= i < |n| ==> IsNameChar(n[i])
    requires e == q + |n| + 3 <= |s| && s[q..q + |n|] == n && s[q + |n|..e] == "SRL"
    ensures forall k :: q <= k < e ==> IsNameChar(s[k])
    ensures s[e - 3] == 'S' && s[e - 2] == 'R' && s[e - 1] == 'L'
  {
    var m := q + |n|;
    assert s[m] == s[m..e][0] && s[m + 1] == s[m..e][1] && s[m + 2] == s[m..e][2];
    assert IsNameChar('S') && IsNameChar('R') && IsNameChar('L') by {
      assert FoldAscii('S') == 'S' && FoldAscii('R') == 'R' && FoldAscii('L') == 'L';
    }
    SliceAll(s, q, n, IsNameChar);
    forall k | q <= k < e ensures IsNameChar(s[k]) {
      if k == m {
        assert s[k] == 'S';
      } else if k == m + 1 {
        assert s[k] == 'R';
      } else if k == m + 2 {
        assert s[k] == 'L';
      }
    }
  }

  lemma SliceJoin(s: string, q: nat, m: nat, e: nat)
    requires q <= m <= e <= |s|
    ensures s[q..e] == s[q..m] + s[m..e]
  {
  }

  /** The SRL branch started at `q` on a run of name characters that ends at `e`
      with the letters "SRL" captures the whole run. */
  lemma SuffixedRun(s: string, q: nat, e: nat)
    requires q + 3 < e <= |s|
    requires forall k :: q <= k < e ==> IsNameChar(s[k])
    requires e < |s| ==> !IsNameChar(s[e])
    requires s[e - 3] == 'S' && s[e - 2] == 'R' && s[e - 1] == 'L'
    ensures SuffixedName(s, q, RunEnd(s, q, IsNameChar), "SRL") == Some(s[q..e])
  {
    RunEndIs(s, q, e, IsNameChar);
    SuffixAtRunEnd(s, q, e);
  }

  /** The body backs off from `e` to the "SRL" that ends there, provided the
      character at `e` cannot start another "SRL". */
  lemma SuffixAtRunEnd(s: string, q: nat, e: nat)
    requires q + 3 < e <= |s|
    requires e < |s| ==> FoldAscii(s[e]) != 'S'
    requires s[e - 3] == 'S' && s[e - 2] == 'R' && s[e - 1] == 'L'
    ensures BodyThenSuffix(s, q, e, "SRL") == Some(e)
  {
    NotLitAt(s, e, "SRL", 0);
    NotLitAt(s, e - 1, "SRL", 0);
    NotLitAt(s, e - 2, "SRL", 0);
    SrlAt(s, e - 3);
    BodyThenSuffixBacksOff(s, q, e, "SRL");
    BodyThenSuffixBacksOff(s, q, e - 1, "SRL");
    BodyThenSuffixBacksOff(s, q, e - 2, "SRL");
    BodyThenSuffixHit(s, q, e - 3, "SRL");
  }

  /** The letters S, R, L at `p` are the literal "SRL". */
  lemma SrlAt(s: string, p: nat)
    requires p + 3 <= |s| && s[p] == 'S' && s[p + 1] == 'R' && s[p + 2] == 'L'
    ensures LitAt(s, p, "SRL")
  {
    assert forall i :: 0 <= i < 3 ==> s[p + i] == "SRL"[i];
  }

  // ---------------------------------------------------------------------------
  // CAEN code: /CAEN\s*(\d+)\s*-/i

  /** `CAEN\s*(\d+)\s*-` at `p`; as for the CUI, no run can usefully give back. */
  function CaenAt(s: string, p: nat): (r: Option<string>)
    ensures r.Some? ==> r.value != "" && IsDigits(r.value)
  {
    if !LitAt(s, p, "CAEN") then None
    else
      var a := SpaceEnd(s, p + 4);
      var b := DigitEnd(s, a);
      var c := SpaceEnd(s, b);
      if a < b && c < |s| && s[c] == '-' then Some(s[a..b]) else None
  }

  /** The CAEN code: the digits of the leftmost match, or "" when there is none. */
  function ExtractCodCaen(text: string): (code: string)
    ensures IsDigits(code)
    ensures code == "" <==> forall p :: 0 <= p <= |text| ==> CaenAt(text, p).None?
    ensures forall p :: LeftmostAt(text, CaenAt, p) ==> code == CaenAt(text, p).value
  {
    Search(text, CaenAt).GetOr("")
  }

  /** A text opening with "CAEN ", a code and " - " yields that code. */
  lemma ExtractCodCaenOfLabelled(d: string, rest: string)
    requires d != [] && IsDigits(d)
    ensures ExtractCodCaen("CAEN " + d + " - " + rest) == d
  {
    var s := "CAEN " + d + " - " + rest;
    var b := 5 + |d|;
    assert LitAt(s, 0, "CAEN");
    RunEndIs(s, 4, 5, IsSpace);
    RunEndIs(s, 5, b, IsDigit);
    RunEndIs(s, b, b + 1, IsSpace);
    assert s[5..b] == d;
    assert s[b + 1] == '-';
    SearchAtStart(s, CaenAt);
  }

  // ---------------------------------------------------------------------------
  // Phone

  /** `[\d\s\*\-]` */
  predicate IsPhoneChar(c: char)
  {
    IsDigit(c) || IsSpace(c) || c == '*' || c == '-'
  }

  /** A string that opens with `+` and a digit. */
  predicate OpensInternational(s: string)
  {
    |s| >= 2 && s[0] == '+' && IsDigit(s[1])
  }

  /** `looksLikePhone`: `/^\+\d/.test(s.trim()) && /[\d\*]/.test(s)`. */
  predicate LooksLikePhone(s: string)
  {
    OpensInternational(Trim(s)) && exists i :: 0 <= i < |s| && (IsDigit(s[i]) || s[i] == '*')
  }

  /** The second test of `looksLikePhone` never rejects what the first accepts. */
  lemma LooksLikePhoneIsPrefixTest(s: string)
    ensures LooksLikePhone(s) <==> OpensInternational(Trim(s))
  {
    var t := Trim(s);
    if OpensInternational(t) {
      assert t[1] in t;
      var i :| 0 <= i < |s| && s[i] == t[1];
      assert IsDigit(s[i]);
    }
  }

  /** `este\s+(\+\d[\d\s\*\-]+)` at `p`. */
  function PhoneSentenceAt(s: string, p: nat): (r: Option<string>)
    ensures r.Some? ==> |r.value| >= 3 && OpensInternational(r.value)
  {
    if !LitAt(s, p, "este") then None
    else
      var a := p + 4;
      var b := SpaceEnd(s, a);
      if a < b && b + 1 < |s| && s[b] == '+' && IsDigit(s[b + 1]) then
        var e := RunEnd(s, b + 2, IsPhoneChar);
        if b + 2 < e then Some(s[b..e]) else None
      else None
  }

  /** Some newline lies in `s[a..b]`. */
  predicate HasNewline(s: string, a: nat, b: nat)
    requires a <= b <= |s|
  {
    exists k :: a <= k < b && s[k] == '\n'
  }

  /** The last position in `s[a..b]` that holds no newline. */
  function LastNonNewline(s: string, a: nat, b: nat): (r: Option<nat>)
    requires a <= b <= |s|
    ensures r.Some? ==> a <= r.value < b && s[r.value] != '\n'
    ensures r.Some? ==> forall k :: r.value < k < b ==> s[k] == '\n'
    ensures r.None? ==> forall k :: a <= k < b ==> s[k] == '\n'
  {
    var i := RunStart(s, a, b, (c: char) => c == '\n');
    if a < i then Some(i - 1) else None
  }

  /** `\s*\n\s*([^\n]+)` from `a`. The first greedy run must stop just before a
      newline, so it ends before the last newline of the white space; the second
      takes the rest of the white space, and the capture is the rest of the line.
      When the white space reaches the end of the text, the runs give back
      characters and the capture is the last white-space character that is no
      newline, provided a newline comes before it. */
  function LineAfterBreak(s: string, a: nat): (r: Option<string>)
    requires a <= |s|
    ensures r.Some? ==> r.value != [] && '\n' !in r.value
  {
    var b := SpaceEnd(s, a);
    if b < |s| then
      if HasNewline(s, a, b) then Some(s[b..LineEnd(s, b)]) else None
    else
      match LastNonNewline(s, a, b)
      case Some(m) => if HasNewline(s, a, m) then Some([s[m]]) else None
      case None => None
  }

  /** `Telefon\s*\n\s*([^\n]+)` at `p`: the line after the label. */
  function TelefonLineAt(s: string, p: nat): (r: Option<string>)
    ensures r.Some? ==> LitAt(s, p, "Telefon") && r.value != [] && '\n' !in r.value
  {
    if !LitAt(s, p, "Telefon") then None else LineAfterBreak(s, p + 7)
  }

  function Min(a: nat, b: nat): nat
  {
    if a <= b then a else b
  }

  /** `\+\d{2,3}[\d\s\*\-]{8,15}` at `c`: three digits are tried before two, and the
      last run takes at most fifteen characters. */
  function ContactPhoneAt(s: string, c: nat): (r: Option<string>)
    ensures r.Some? ==> |r.value| >= 11 && OpensInternational(r.value) && IsDigit(r.value[2])
  {
    if c + 3 <= |s| && s[c] == '+' && IsDigit(s[c + 1]) && IsDigit(s[c + 2]) then
      if c + 3 < |s| && IsDigit(s[c + 3]) && RunEnd(s, c + 4, IsPhoneChar) - (c + 4) >= 8 then
        Some(s[c .. c + 4 + Min(RunEnd(s, c + 4, IsPhoneChar) - (c + 4), 15)])
      else if RunEnd(s, c + 3, IsPhoneChar) - (c + 3) >= 8 then
        Some(s[c .. c + 3 + Min(RunEnd(s, c + 3, IsPhoneChar) - (c + 3), 15)])
      else None
    else None
  }

  /** `Date de contact[\s\S]*?(\+\d{2,3}[\d\s\*\-]{8,15})` at `p`: the lazy gap grows
      from nothing, so the first phone after the label wins. */
  function ContactAt(s: string, p: nat): (r: Option<string>)
    ensures r.Some? ==> |r.value| >= 11 && OpensInternational(r.value) && IsDigit(r.value[2])
  {
    if !LitAt(s, p, "Date de contact") then None
    else
      match FindFirst(s, p + 15, ContactPhoneAt)
      case Some((_, c)) => Some(c)
      case None => None
  }

  /** A trimmed capture that opened with `+` and a digit still does. */
  lemma TrimOpensInternational(c: string)
    requires OpensInternational(c)
    ensures OpensInternational(Trim(c))
  {
    TrimKeepsHead(c, 2);
    assert Trim(c)[..2] == c[..2];
    assert Trim(c)[0] == c[..2][0] && Trim(c)[1] == c[..2][1];
  }

  /** The phone, tried in order: the sentence form, then the line after `Telefon`
      if it looks like a phone, then the first phone after `Date de contact`. */
  function ExtractTelefon(text: string): (telefon: string)
    ensures telefon != "" ==> OpensInternational(telefon)
    ensures forall p :: LeftmostAt(text, PhoneSentenceAt, p) ==> telefon == Trim(PhoneSentenceAt(text, p).value)
    ensures NoMatch(text, PhoneSentenceAt) ==>
              forall p :: LeftmostAt(text, TelefonLineAt, p) && LooksLikePhone(Trim(TelefonLineAt(text, p).value)) ==>
                telefon == Trim(TelefonLineAt(text, p).value)
    ensures NoMatch(text, PhoneSentenceAt) &&
            (forall p :: LeftmostAt(text, TelefonLineAt, p) ==> !LooksLikePhone(Trim(TelefonLineAt(text, p).value))) ==>
              && (forall p :: LeftmostAt(text, ContactAt, p) ==> telefon == Trim(ContactAt(text, p).value))
              && (NoMatch(text, ContactAt) ==> telefon == "")
  {
    var fromSentence := match Search(text, PhoneSentenceAt) case Some(c) => Trim(c) case None => "";
    var fromLine :=
      if fromSentence != "" then fromSentence
      else
        match Search(text, TelefonLineAt)
        case Some(c) => if LooksLikePhone(Trim(c)) then Trim(c) else ""
        case None => "";
    if fromLine != "" then
      TelefonLineOpensInternational(text, fromSentence, fromLine);
      fromLine
    else
      match Search(text, ContactAt)
      case Some(c) => TrimOpensInternational(c); Trim(c)
      case None => ""
  }

  lemma TelefonLineOpensInternational(text: string, fromSentence: string, fromLine: string)
    requires fromSentence == match Search(text, PhoneSentenceAt) case Some(c) => Trim(c) case None => ""
    requires fromLine == if fromSentence != "" then fromSentence
      else match Search(text, TelefonLineAt)
        case Some(c) => if LooksLikePhone(Trim(c)) then Trim(c) else ""
        case None => ""
    requires fromLine != ""
    ensures OpensInternational(fromLine)
  {
    if fromSentence != "" {
      var c := Search(text, PhoneSentenceAt).value;
      TrimOpensInternational(c);
    } else {
      var c := Search(text, TelefonLineAt).value;
      assert LooksLikePhone(Trim(c)) && fromLine == Trim(c);
      PhoneLikeLineOpensInternational(Trim(c));
    }
  }

  /** A trimmed line that looks like a phone starts with `+` and a digit. */
  lemma PhoneLikeLineOpensInternational(t: string)
    requires t == Trim(t) && LooksLikePhone(t)
    ensures OpensInternational(t)
  {
  }

  // ---------------------------------------------------------------------------
  // Administrator: /Administrator\s*\n\s*(?:GDPR\s*\n\s*)?([^\n]+)/i

  /** `Administrator\s*\n\s*(?:GDPR\s*\n\s*)?([^\n]+)` at `p`. Once the white space
      after the label is followed by text, the optional group is tried there first,
      and the plain line is the capture if the group fails. */
  function AdministratorAt(s: string, p: nat): (r: Option<string>)
    ensures r.Some? ==> r.value != [] && '\n' !in r.value
  {
    if !LitAt(s, p, "Administrator") then None
    else
      var a := p + 13;
      var b := SpaceEnd(s, a);
      if b < |s| && HasNewline(s, a, b) && LitAt(s, b, "GDPR") && LineAfterBreak(s, b + 4).Some? then
        LineAfterBreak(s, b + 4)
      else
        LineAfterBreak(s, a)
  }

  /** The trimmed administrator line of the leftmost match, or "" when the pattern
      matches nowhere: one line of text, never a newline. */
  function ExtractAdministrator(text: string): (administrator: string)
    ensures '\n' !in administrator
    ensures (forall p :: 0 <= p <= |text| ==> AdministratorAt(text, p).None?) ==> administrator == ""
    ensures NoMatch(text, AdministratorAt) ==> administrator == ""
    ensures forall p :: LeftmostAt(text, AdministratorAt, p) ==> administrator == Trim(AdministratorAt(text, p).value)
  {
    match Search(text, AdministratorAt)
    case Some(c) => Trim(c)
    case None => ""
  }

  // ---------------------------------------------------------------------------
  // Address block: /Adresa\s+([\s\S]+?)(?=Top firme|Administrator)/i

  predicate IsTerminatorAt(s: string, e: nat)
  {
    LitAt(s, e, "Top firme") || LitAt(s, e, "Administrator")
  }

  function TerminatorAt(s: string, e: nat): Option<()>
  {
    if IsTerminatorAt(s, e) then Some(()) else None
  }

  /** `Adresa\s+([\s\S]+?)(?=Top firme|Administrator)` at `p`. The lazy body grows
      from one character, so the capture ends at the first terminator after its
      first character. Failing that, `\s+` gives back its last character, which is
      the capture when a terminator follows the white space directly. */
  function AddressAt(s: string, p: nat): (r: Option<string>)
    ensures r.Some? ==> LitAt(s, p, "Adresa") && p + 6 < SpaceEnd(s, p + 6) && r.value != []
  {
    if !LitAt(s, p, "Adresa") then None
    else
      var a := p + 6;
      var b := SpaceEnd(s, a);
      if b == a then None
      else
        match FindFirst(s, b + 1, TerminatorAt)
        case Some((e, _)) => Some(s[b..e])
        case None => if b - a >= 2 && IsTerminatorAt(s, b) then Some(s[b - 1..b]) else None
  }

  /** The lazy capture starts after the white space following "Adresa" and ends
      at the first terminator after its first character. */
  lemma {:induction false} AddressAtFirstTerminator(s: string, p: nat, e: nat)
    requires LitAt(s, p, "Adresa") && p + 6 < SpaceEnd(s, p + 6) < e <= |s|
    requires IsTerminatorAt(s, e) && forall k :: SpaceEnd(s, p + 6) < k < e ==> !IsTerminatorAt(s, k)
    ensures AddressAt(s, p) == Some(s[SpaceEnd(s, p + 6)..e])
  {
    var b := SpaceEnd(s, p + 6);
    var r := FindFirst(s, b + 1, TerminatorAt);
    assert TerminatorAt(s, e).Some?;
    assert r.Some?;
    var f := r.value.0;
    assert IsTerminatorAt(s, f) by { assert TerminatorAt(s, f).Some?; }
    assert f == e;
  }

  /** With no terminator after the first character of the white space's end,
      `\s+` gives back its last character, and the capture is that character when
      a terminator follows the white space directly; otherwise nothing matches. */
  lemma {:induction false} AddressAtGivesBack(s: string, p: nat)
    requires LitAt(s, p, "Adresa") && p + 6 < SpaceEnd(s, p + 6)
    requires forall k :: SpaceEnd(s, p + 6) < k <= |s| ==> !IsTerminatorAt(s, k)
    ensures AddressAt(s, p).Some? <==> p + 8 <= SpaceEnd(s, p + 6) && IsTerminatorAt(s, SpaceEnd(s, p + 6))
    ensures AddressAt(s, p).Some? ==> AddressAt(s, p).value == [s[SpaceEnd(s, p + 6) - 1]]
  {
    var b := SpaceEnd(s, p + 6);
    var r := FindFirst(s, b + 1, TerminatorAt);
    if r.Some? {
      assert false;
    }
  }

  // ---------------------------------------------------------------------------
  // County: /Sector\s+(\d+)|Judet\s+([^,\n]+)|Jud\.\s+([^,\n]+)/i

  datatype CountyMatch = SectorNo(digits: string) | CountyName(name: string)

  /** `Sector\s+(\d+)` at `p`. */
  function SectorAt(s: string, p: nat): (r: Option<string>)
    ensures r.Some? ==> r.value != "" && IsDigits(r.value)
  {
    if !LitAt(s, p, "Sector") then None
    else
      var a := p + 6;
      var b := SpaceEnd(s, a);
      var d := DigitEnd(s, b);
      if a < b && b < d then Some(s[b..d]) else None
  }

  /** `[^,\n]` */
  predicate IsCountyChar(c: char)
  {
    c != ',' && c != '\n'
  }

  /** `<label>\s+([^,\n]+)` at `p`. The capture runs to the next comma or newline.
      When the white space meets a comma or the end of the text, `\s+` gives back
      characters and the capture is the last of them that is no newline, keeping
      at least one for `\s+`. */
  function CountyNameAt(s: string, p: nat, tag: string): (r: Option<string>)
    ensures r.Some? ==> forall c :: c in r.value ==> IsCountyChar(c)
  {
    if !LitAt(s, p, tag) then None
    else
      var a := p + |tag|;
      var b := SpaceEnd(s, a);
      if b == a then None
      else if b < |s| && s[b] != ',' then Some(s[b..RunEnd(s, b, IsCountyChar)])
      else
        match LastNonNewline(s, a + 1, b)
        case Some(m) => Some([s[m]])
        case None => None
  }

  /** The three branches at `p`, in their order in the pattern. */
  function CountyAt(s: string, p: nat): (r: Option<CountyMatch>)
    ensures r.Some? && r.value.SectorNo? ==> r.value.digits != "" && IsDigits(r.value.digits)
    ensures r.Some? && r.value.CountyName? ==> forall c :: c in r.value.name ==> IsCountyChar(c)
  {
    match SectorAt(s, p)
    case Some(d) => Some(SectorNo(d))
    case None =>
      match CountyNameAt(s, p, "Judet")
      case Some(n) => Some(CountyName(n))
      case None =>
        match CountyNameAt(s, p, "Jud.")
        case Some(n) => Some(CountyName(n))
        case None => None
  }

  /** How a county match is written in the record: "Sector n" or the trimmed name. */
  function CountyText(m: CountyMatch): (judet: string)
    requires m.SectorNo? ==> IsDigits(m.digits)
    requires m.CountyName? ==> forall c :: c in m.name ==> IsCountyChar(c)
    ensures ',' !in judet && '\n' !in judet
    ensures m.SectorNo? ==> judet == "Sector " + Trim(m.digits)
    ensures m.CountyName? ==> judet == Trim(m.name)
  {
    match m
    case SectorNo(d) =>
      var t := Trim(d);
      assert forall i :: 0 <= i < |t| ==> IsDigit(t[i]) by {
        forall i | 0 <= i < |t| ensures IsDigit(t[i]) { assert t[i] in t; }
      }
      "Sector " + t
    case CountyName(n) =>
      var t := Trim(n);
      assert !IsCountyChar(',') && !IsCountyChar('\n');
      t
  }

  /** The county read from the address block: "Sector n", a county name, or "",
      from the leftmost position where any of the three labels matches. */
  function ParseJudet(adresa: string): (judet: string)
    ensures ',' !in judet && '\n' !in judet
    ensures forall p :: LeftmostAt(adresa, CountyAt, p) ==> judet == CountyText(CountyAt(adresa, p).value)
    ensures NoMatch(adresa, CountyAt) ==> judet == ""
  {
    match Search<CountyMatch>(adresa, CountyAt)
    case Some(m) => CountyText(m)
    case None => ""
  }

  /** An address opening with "Sector ", a number and a character that is no
      digit names that sector. */
  lemma ParseJudetOfSector(d: string, rest: string)
    requires d != [] && IsDigits(d)
    requires rest == [] || !IsDigit(rest[0])
    ensures ParseJudet("Sector " + d + rest) == "Sector " + d
  {
    var s := "Sector " + d + rest;
    assert LitAt(s, 0, "Sector");
    assert s[7..7 + |d|] == d;
    assert 7 + |d| < |s| ==> s[7 + |d|] == rest[0];
    SectorAtLabel(s, d);
    SearchAtStart(s, CountyAt);
    TrimOfDigits(d);
  }

  lemma SectorAtLabel(s: string, d: string)
    requires d != [] && IsDigits(d) && 7 + |d| <= |s|
    requires LitAt(s, 0, "Sector") && s[6] == ' ' && s[7..7 + |d|] == d
    requires 7 + |d| < |s| ==> !IsDigit(s[7 + |d|])
    ensures CountyAt(s, 0) == Some(SectorNo(d))
  {
    assert !IsSpace(s[7]) by { assert s[7] == s[7..7 + |d|][0]; }
    SpaceEndOne(s, 6);
    DigitEndIs(s, 7, d);
  }

  /** An address opening with "Judet ", a name and a comma names that county,
      trimmed. */
  lemma ParseJudetOfCounty(x: string, rest: string)
    requires x != [] && !IsSpace(x[0]) && forall i :: 0 <= i < |x| ==> IsCountyChar(x[i])
    ensures ParseJudet("Judet " + x + "," + rest) == Trim(x)
  {
    var s := "Judet " + x + "," + rest;
    assert LitAt(s, 0, "Judet");
    NotLitAt(s, 0, "Sector", 0);
    assert s[6..6 + |x|] == x && s[6 + |x|] == ',';
    CountyNameAtLabel(s, "Judet", x);
    SearchAtStart(s, CountyAt);
  }

  /** The abbreviated label "Jud." is tried after "Judet" fails, and names the
      county the same way. */
  lemma ParseJudetOfJud(x: string, rest: string)
    requires x != [] && !IsSpace(x[0]) && forall i :: 0 <= i < |x| ==> IsCountyChar(x[i])
    ensures ParseJudet("Jud. " + x + "," + rest) == Trim(x)
  {
    var s := "Jud. " + x + "," + rest;
    assert LitAt(s, 0, "Jud.");
    NotLitAt(s, 0, "Sector", 0);
    NotLitAt(s, 0, "Judet", 3);
    assert s[5..5 + |x|] == x && s[5 + |x|] == ',';
    CountyNameAtLabel(s, "Jud.", x);
    SearchAtStart(s, CountyAt);
  }

  /** `<label>`, one space, a county name and a comma: the name is the capture. */
  lemma CountyNameAtLabel(s: string, tag: string, x: string)
    requires x != [] && !IsSpace(x[0]) && forall i :: 0 <= i < |x| ==> IsCountyChar(x[i])
    requires LitAt(s, 0, tag) && |tag| + 1 + |x| < |s|
    requires s[|tag|] == ' ' && s[|tag| + 1..|tag| + 1 + |x|] == x && s[|tag| + 1 + |x|] == ','
    ensures CountyNameAt(s, 0, tag) == Some(x)
  {
    var b := |tag| + 1;
    assert s[b] == x[0];
    SpaceEndOne(s, |tag|);
    SliceAll(s, b, x, IsCountyChar);
    RunEndIs(s, b, b + |x|, IsCountyChar);
  }

  // ---------------------------------------------------------------------------
  // Locality

  /** `[^,]`. */
  predicate IsPartChar(c: char)
  {
    c != ','
  }

  /** `\s+([^,]+)` from `a`. When the white space meets a comma or the end of the
      text, `\s+` gives back its last character and that is the capture. */
  function PartAfterSpaces(s: string, a: nat): (r: Option<string>)
    requires a <= |s|
    ensures r.Some? ==> ',' !in r.value
  {
    var b := SpaceEnd(s, a);
    if b == a then None
    else if b < |s| && s[b] != ',' then Some(s[b..RunEnd(s, b, IsPartChar)])
    else if b - a >= 2 then Some(s[b - 1..b])
    else None
  }

  /** `(Municipiul|Orasul|Comuna)\s+([^,]+)` at `p`; the three words differ in their
      first letter, so at most one branch can start at `p`. */
  function PlaceAt(s: string, p: nat): (r: Option<string>)
    ensures r.Some? ==> ',' !in r.value
  {
    if LitAt(s, p, "Municipiul") then PartAfterSpaces(s, p + 10)
    else if LitAt(s, p, "Orasul") then PartAfterSpaces(s, p + 6)
    else if LitAt(s, p, "Comuna") then PartAfterSpaces(s, p + 6)
    else None
  }

  /** `[^\s,]` (the same class as `[^,\s]`). */
  predicate IsWordChar(c: char)
  {
    !IsSpace(c) && c != ','
  }

  /** `\s+([^\s,]+)` from `a`: the word and where it ends. No run can usefully give
      back here, since each class excludes the next one's first character. */
  function WordAfterSpaces(s: string, a: nat): (r: Option<(string, nat)>)
    requires a <= |s|
    ensures r.Some? ==> r.value.0 != [] && a < r.value.1 <= |s|
    ensures r.Some? ==> forall c :: c in r.value.0 ==> IsWordChar(c)
  {
    var b := SpaceEnd(s, a);
    var e := RunEnd(s, b, IsWordChar);
    if a < b && b < e then Some((s[b..e], e)) else None
  }

  /** `<label>\s+([^,\s]+)` at `p`. */
  function LabelledWordAt(s: string, p: nat, tag: string): (r: Option<string>)
    ensures r.Some? ==> r.value != [] && forall c :: c in r.value ==> IsWordChar(c)
  {
    if !LitAt(s, p, tag) then None
    else
      match WordAfterSpaces(s, p + |tag|)
      case Some((w, _)) => Some(w)
      case None => None
  }

  /** `Sat\s+([^\s,]+)\s+<label>\s+([^,\s]+)` at `p`: a village and its town or commune. */
  function VillagePairAt(s: string, p: nat, tag: string): (r: Option<(string, string)>)
    ensures r.Some? ==> r.value.0 != [] && forall c :: c in r.value.0 ==> IsWordChar(c)
    ensures r.Some? ==> r.value.1 != [] && forall c :: c in r.value.1 ==> IsWordChar(c)
  {
    if !LitAt(s, p, "Sat") then None
    else
      match WordAfterSpaces(s, p + 3)
      case None => None
      case Some((village, e)) =>
        var b := SpaceEnd(s, e);
        if e < b then
          match LabelledWordAt(s, b, tag)
          case Some(town) => Some((village, town))
          case None => None
        else None
  }

  /** `Sat\s+([^\s,]+)\s+Ors\.\s+([^,\s]+)` at `p`. */
  function VillageOrsAt(s: string, p: nat): Option<(string, string)>
  {
    VillagePairAt(s, p, "Ors.")
  }

  /** `Sat\s+([^\s,]+)\s+Com\.\s+([^,\s]+)` at `p`. */
  function VillageComAt(s: string, p: nat): Option<(string, string)>
  {
    VillagePairAt(s, p, "Com.")
  }

  /** `Ors\.\s+([^,\s]+)` at `p`. */
  function TownAt(s: string, p: nat): Option<string>
  {
    LabelledWordAt(s, p, "Ors.")
  }

  /** `Com\.\s+([^,\s]+)` at `p`. */
  function CommuneAt(s: string, p: nat): Option<string>
  {
    LabelledWordAt(s, p, "Com.")
  }

  /** `Sat\s+([^,\s]+)` at `p`. */
  function VillageAt(s: string, p: nat): Option<string>
  {
    LabelledWordAt(s, p, "Sat")
  }

  /** A village and its town or commune as the locality writes them: "X, Y". */
  function PairText(pair: (string, string)): string
  {
    Trim(pair.0) + ", " + Trim(pair.1)
  }

  /** The locality read from the address block. Each alternative is tried only
      when every earlier one matches nowhere, and gives its trimmed leftmost
      capture: Municipiul/Orasul/Comuna X; Sat X Ors. Y and then Sat X Com. Y,
      written "X, Y"; Ors. Y; Com. Y; Sat X. Without any of them it is "". */
  function ParseLocalitate(adresa: string): (localitate: string)
    ensures forall p :: LeftmostAt(adresa, PlaceAt, p) ==> localitate == Trim(PlaceAt(adresa, p).value)
    ensures NoMatch(adresa, PlaceAt) ==>
              forall p :: LeftmostAt(adresa, VillageOrsAt, p) ==> localitate == PairText(VillageOrsAt(adresa, p).value)
    ensures NoMatch(adresa, PlaceAt) && NoMatch(adresa, VillageOrsAt) ==>
              forall p :: LeftmostAt(adresa, VillageComAt, p) ==> localitate == PairText(VillageComAt(adresa, p).value)
    ensures NoMatch(adresa, PlaceAt) && NoMatch(adresa, VillageOrsAt) && NoMatch(adresa, VillageComAt) ==>
              forall p :: LeftmostAt(adresa, TownAt, p) ==> localitate == Trim(TownAt(adresa, p).value)
    ensures NoMatch(adresa, PlaceAt) && NoMatch(adresa, VillageOrsAt) && NoMatch(adresa, VillageComAt)
            && NoMatch(adresa, TownAt) ==>
              forall p :: LeftmostAt(adresa, CommuneAt, p) ==> localitate == Trim(CommuneAt(adresa, p).value)
    ensures NoMatch(adresa, PlaceAt) && NoMatch(adresa, VillageOrsAt) && NoMatch(adresa, VillageComAt)
            && NoMatch(adresa, TownAt) && NoMatch(adresa, CommuneAt) ==>
              && (forall p :: LeftmostAt(adresa, VillageAt, p) ==> localitate == Trim(VillageAt(adresa, p).value))
              && (NoMatch(adresa, VillageAt) ==> localitate == "")
  {
    match Search(adresa, PlaceAt)
    case Some(c) => Trim(c)
    case None =>
      match Search(adresa, VillageOrsAt)
      case Some(pair) => PairText(pair)
      case None =>
        match Search(adresa, VillageComAt)
        case Some(pair) => PairText(pair)
        case None =>
          match Search(adresa, TownAt)
          case Some(t) => Trim(t)
          case None =>
            match Search(adresa, CommuneAt)
            case Some(t) => Trim(t)
            case None =>
              match Search(adresa, VillageAt)
              case Some(v) => Trim(v)
              case None => ""
  }

  /** An address opening with "Municipiul ", a name and a comma gives that name,
      trimmed: the first alternative wins before any other is tried. */
  lemma ParseLocalitateOfPlace(x: string, rest: string)
    requires x != [] && !IsSpace(x[0]) && ',' !in x
    ensures ParseLocalitate("Municipiul " + x + "," + rest) == Trim(x)
  {
    var s := "Municipiul " + x + "," + rest;
    assert LitAt(s, 0, "Municipiul");
    assert s[11..11 + |x|] == x && s[11 + |x|] == ',';
    PlaceAtLabel(s, x);
    SearchAtStart(s, PlaceAt);
  }

  lemma PlaceAtLabel(s: string, x: string)
    requires x != [] && !IsSpace(x[0]) && ',' !in x
    requires LitAt(s, 0, "Municipiul") && 11 + |x| < |s|
    requires s[10] == ' ' && s[11..11 + |x|] == x && s[11 + |x|] == ','
    ensures PlaceAt(s, 0) == Some(x)
  {
    assert s[11] == x[0];
    SpaceEndOne(s, 10);
    forall k | 11 <= k < 11 + |x| ensures IsPartChar(s[k]) {
      assert s[k] == s[11..11 + |x|][k - 11];
      assert s[k] in x;
    }
    RunEndIs(s, 11, 11 + |x|, IsPartChar);
  }

  /** An address of the form "Sat X Ors. Y" in which no Municipiul, Orasul or
      Comuna alternative matches gives "X, Y" for words X and Y. */
  lemma ParseLocalitateOfVillageOrs(x: string, y: string, rest: string)
    requires x != [] && forall i :: 0 <= i < |x| ==> IsWordChar(x[i])
    requires y != [] && forall i :: 0 <= i < |y| ==> IsWordChar(y[i])
    requires rest == [] || !IsWordChar(rest[0])
    requires NoMatch("Sat " + x + " Ors. " + y + rest, PlaceAt)
    ensures ParseLocalitate("Sat " + x + " Ors. " + y + rest) == x + ", " + y
  {
    var s := "Sat " + x + " Ors. " + y + rest;
    var m := 4 + |x|;
    assert s[..4] == "Sat " && s[4..m] == x && s[m..m + 6] == " Ors. " && s[m + 6..m + 6 + |y|] == y;
    assert m + 6 + |y| < |s| ==> s[m + 6 + |y|] == rest[0];
    VillageOrsInside(s, x, y, m);
    assert LeftmostAt(s, VillageOrsAt, 0);
    TrimOfWord(x);
    TrimOfWord(y);
  }

  /** The same, over any text laid out as "Sat X Ors. Y" from its start. */
  lemma VillageOrsInside(s: string, x: string, y: string, m: nat)
    requires x != [] && forall i :: 0 <= i < |x| ==> IsWordChar(x[i])
    requires y != [] && forall i :: 0 <= i < |y| ==> IsWordChar(y[i])
    requires m == 4 + |x| && m + 6 + |y| <= |s|
    requires s[..4] == "Sat " && s[4..m] == x && s[m..m + 6] == " Ors. " && s[m + 6..m + 6 + |y|] == y
    requires m + 6 + |y| < |s| ==> !IsWordChar(s[m + 6 + |y|])
    ensures VillageOrsAt(s, 0) == Some((x, y))
  {
    VillageOrsLiterals(s, m);
    WordAt(s, 3, x, m);
    WordAt(s, m + 5, y, m + 6 + |y|);
    VillageOrsAtStart(s, x, y, m);
  }

  /** The fixed parts of "Sat X Ors. Y": the labels and the single spaces. */
  lemma VillageOrsLiterals(s: string, m: nat)
    requires 4 <= m && m + 6 <= |s| && s[..4] == "Sat " && s[m..m + 6] == " Ors. "
    ensures LitAt(s, 0, "Sat") && IsSpace(s[3])
    ensures s[m] == ' ' && LitAt(s, m + 1, "Ors.") && IsSpace(s[m + 5])
  {
    assert s[0] == 'S' && s[1] == 'a' && s[2] == 't' && s[3] == ' ' by { assert s[..4][0] == s[0]; }
    assert s[m] == ' ' && s[m + 1] == 'O' && s[m + 2] == 'r' && s[m + 3] == 's' && s[m + 4] == '.' && s[m + 5] == ' ' by {
      var t := s[m..m + 6];
      assert t[0] == s[m] && t[1] == s[m + 1] && t[2] == s[m + 2] && t[3] == s[m + 3] && t[4] == s[m + 4] && t[5] == s[m + 5];
    }
    SatAt(s);
    OrsAt(s, m + 1);
  }

  lemma SatAt(s: string)
    requires 3 <= |s| && s[0] == 'S' && s[1] == 'a' && s[2] == 't'
    ensures LitAt(s, 0, "Sat")
  {
    assert forall i :: 0 <= i < 3 ==> s[i] == "Sat"[i];
  }

  lemma OrsAt(s: string, p: nat)
    requires p + 4 <= |s| && s[p] == 'O' && s[p + 1] == 'r' && s[p + 2] == 's' && s[p + 3] == '.'
    ensures LitAt(s, p, "Ors.")
  {
    assert forall i :: 0 <= i < 4 ==> s[p + i] == "Ors."[i];
  }

  /** One white-space character at `a`, then a word `w` that the next character
      ends: `\s+([^\s,]+)` captures `w`. */
  lemma WordAt(s: string, a: nat, w: string, e: nat)
    requires w != [] && forall i :: 0 <= i < |w| ==> IsWordChar(w[i])
    requires e == a + 1 + |w| <= |s| && IsSpace(s[a]) && s[a + 1..e] == w
    requires e < |s| ==> !IsWordChar(s[e])
    ensures WordAfterSpaces(s, a) == Some((w, e))
  {
    SliceAll(s, a + 1, w, IsWordChar);
    SpaceEndOne(s, a);
    RunEndIs(s, a + 1, e, IsWordChar);
  }

  /** "Sat", a word, one space, "Ors." and a word: the village and its town. */
  lemma VillageOrsAtStart(s: string, x: string, y: string, m: nat)
    requires LitAt(s, 0, "Sat") && WordAfterSpaces(s, 3) == Some((x, m))
    requires m + 1 < |s| && s[m] == ' ' && LitAt(s, m + 1, "Ors.")
    requires WordAfterSpaces(s, m + 5) == Some((y, m + 6 + |y|))
    ensures VillageOrsAt(s, 0) == Some((x, y))
  {
    assert FoldAscii(s[m + 1 + 0]) == FoldAscii("Ors."[0]);
    SpaceEndOne(s, m);
  }

  /** A word has no white space at its ends, so it is its own trim. */
  lemma TrimOfWord(w: string)
    requires w != [] && forall i :: 0 <= i < |w| ==> IsWordChar(w[i])
    ensures Trim(w) == w
  {
    TrimOfTrimmed(w);
  }

  /** The Ilfov address in the source's comment: "Sat Varteju Ors. Magurele" is
      the village Varteju of the town Magurele. */
  lemma ParseLocalitateExample()
    ensures ParseLocalitate("Sat Varteju Ors. Magurele") == "Varteju, Magurele"
  {
    var s := "Sat Varteju Ors. Magurele";
    var x, y := "Varteju", "Magurele";
    ExampleNoPlace(s);
    ExampleParts(s, x, y);
    ParseLocalitateOfVillageOrs(x, y, "");
    ExampleJoin(x, y);
  }

  /** The example address is "Sat ", a word, " Ors. " and a word. */
  lemma ExampleParts(s: string, x: string, y: string)
    requires s == "Sat Varteju Ors. Magurele" && x == "Varteju" && y == "Magurele"
    ensures s == "Sat " + x + " Ors. " + y + ""
    ensures x != [] && forall i :: 0 <= i < |x| ==> IsWordChar(x[i])
    ensures y != [] && forall i :: 0 <= i < |y| ==> IsWordChar(y[i])
  {
  }

  lemma ExampleJoin(x: string, y: string)
    requires x == "Varteju" && y == "Magurele"
    ensures x + ", " + y == "Varteju, Magurele"
  {
    var t := x + ", " + y;
    forall i | 0 <= i < 17 ensures t[i] == "Varteju, Magurele"[i] {
      if i < 7 { assert t[i] == x[i]; }
      else if i < 9 { assert t[i] == ", "[i - 7]; }
      else { assert t[i] == y[i - 9]; }
    }
  }

  /** No Municipiul, Orasul or Comuna alternative matches in the example address. */
  lemma ExampleNoPlace(s: string)
    requires s == "Sat Varteju Ors. Magurele"
    ensures NoMatch(s, PlaceAt)
  {
    ExampleInitials(s);
    forall p | 0 <= p <= |s| ensures PlaceAt(s, p).None? {
      if p == 12 {
        NotLitAt(s, p, "Municipiul", 0);
        NotLitAt(s, p, "Orasul", 2);
        NotLitAt(s, p, "Comuna", 0);
      } else {
        NoPlaceStart(s, p);
      }
    }
  }

  /** In the example address only the "O" of "Ors." can start a locality word,
      and "Magurele" starts too late for "Municipiul". */
  lemma ExampleInitials(s: string)
    requires s == "Sat Varteju Ors. Magurele"
    ensures forall k :: 0 <= k < |s| && k != 12 && k != 17 ==> FoldAscii(s[k]) !in "MOC"
    ensures FoldAscii(s[12]) == 'O' && FoldAscii(s[14]) == 'S' && s[17] == 'M' && |s| == 25
  {
  }

  /** No locality word starts at `p` when the character there cannot open one. */
  lemma NoPlaceStart(s: string, p: nat)
    requires p + 10 <= |s| ==> FoldAscii(s[p]) != 'M'
    requires p + 6 <= |s| ==> FoldAscii(s[p]) != 'O' && FoldAscii(s[p]) != 'C'
    ensures PlaceAt(s, p).None?
  {
    NotLitAt(s, p, "Municipiul", 0);
    NotLitAt(s, p, "Orasul", 0);
    NotLitAt(s, p, "Comuna", 0);
  }

  // ---------------------------------------------------------------------------
  // The whole record

  /** The address block, trimmed, when the `Adresa … (Top firme|Administrator)`
      pattern matches. */
  function ExtractAdresa(text: string): (r: Option<string>)
    ensures r.None? <==> NoMatch(text, AddressAt)
    ensures forall p :: LeftmostAt(text, AddressAt, p) ==> r == Some(Trim(AddressAt(text, p).value))
  {
    match Search(text, AddressAt)
    case Some(c) => Some(Trim(c))
    case None => None
  }

  /** `value || 'N/A'` on a text. */
  function OrNA(value: string): string
  {
    if value != "" then value else "N/A"
  }

  /** `parseTargetareText`: the company record, or `None` when the CUI or the name
      cannot be found. Missing locality, county and CAEN code become "N/A"; a
      missing phone or administrator is left out. */
  function ParseTargetareText(text: string): (r: Option<CompanyData>)
    ensures r.None? <==> ExtractCui(text) == "" || ExtractName(text) == ""
    ensures r.Some? ==> r.value.cui != "" && IsDigits(r.value.cui) && r.value.nume != ""
    ensures r.Some? ==> r.value.localitate != "" && r.value.judet != "" && r.value.codCaen != ""
    ensures r.Some? ==> r.value.telefon != Some("") && r.value.administrator != Some("")
    ensures r.Some? && r.value.telefon.Some? ==> OpensInternational(r.value.telefon.value)
  {
    var cui := ExtractCui(text);
    var nume := ExtractName(text);
    var codCaen := ExtractCodCaen(text);
    var telefon := ExtractTelefon(text);
    var administrator := ExtractAdministrator(text);
    var block := ExtractAdresa(text);
    var adresa := block.GetOr("");
    var localitate := if block.Some? then ParseLocalitate(adresa) else "";
    var judet := if block.Some? then ParseJudet(adresa) else "";
    if cui == "" || nume == "" then None
    else
      Some(CompanyData(
        cui, nume, adresa,
        if localitate != "" then localitate else "N/A",
        if judet != "" then judet else "N/A",
        if codCaen != "" then codCaen else "N/A",
        if telefon != "" then Some(telefon) else None,
        if administrator != "" then Some(administrator) else None))
  }

  /** Each field of the record is the matching extractor's text, with the `|| 'N/A'` and `|| undefined` defaults. */
  lemma ParseTargetareFields(text: string)
    ensures var r := ParseTargetareText(text);
      r.Some? ==> r.value.cui == ExtractCui(text) && r.value.nume == ExtractName(text)
    ensures var r := ParseTargetareText(text);
      r.Some? ==> r.value.codCaen == OrNA(ExtractCodCaen(text))
    ensures var r := ParseTargetareText(text);
      r.Some? ==> r.value.telefon == (if ExtractTelefon(text) != "" then Some(ExtractTelefon(text)) else None)
    ensures var r := ParseTargetareText(text);
      r.Some? ==> r.value.administrator == (if ExtractAdministrator(text) != "" then Some(ExtractAdministrator(text)) else None)
    ensures var r := ParseTargetareText(text);
      r.Some? ==> r.value.adresa == ExtractAdresa(text).GetOr("")
    ensures var r := ParseTargetareText(text);
      r.Some? && ExtractAdresa(text).Some? ==>
        && r.value.localitate == OrNA(ParseLocalitate(ExtractAdresa(text).value))
        && r.value.judet == OrNA(ParseJudet(ExtractAdresa(text).value))
    ensures var r := ParseTargetareText(text);
      r.Some? && ExtractAdresa(text).None? ==> r.value.localitate == "N/A" && r.value.judet == "N/A"
  {
  }

  /** Without an address block, the address is empty and locality and county are "N/A". */
  lemma NoAddressBlock(text: string)
    requires ParseTargetareText(text).Some? && ExtractAdresa(text).None?
    ensures ParseTargetareText(text).value.adresa == ""
    ensures ParseTargetareText(text).value.localitate == "N/A"
    ensures ParseTargetareText(text).value.judet == "N/A"
  {
  }

  // ---------------------------------------------------------------------------
  // The text-area handler

  /** What the lookup form shows after the text changes. */
  datatype LookupView = LookupView(pastedText: string, extracted: Option<CompanyData>, error: string)

  const PARSE_ERROR: string := "Nu s-au putut extrage datele. Verificați textul copiat."

  /** `handleTextChange`: the parser runs only on text longer than 100 characters;
      shorter text clears the extracted record and shows no error. */
  function HandleTextChange(text: string): (v: LookupView)
    ensures v.pastedText == text
    ensures |text| <= 100 ==> v.extracted.None? && v.error == ""
    ensures |text| > 100 ==> v.extracted == ParseTargetareText(text)
    ensures |text| > 100 ==> (v.error == "" <==> v.extracted.Some?)
  {
    if |text| > 100 then
      var parsed := ParseTargetareText(text);
      if parsed.Some? then LookupView(text, parsed, "") else LookupView(text, None, PARSE_ERROR)
    else
      LookupView(text, None, "")
  }
}
