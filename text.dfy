/**
  The character classes and string operations of the JavaScript runtime that the
  modelled code uses. A string is a sequence of code points.
*/
module Text {
  import opened Optional
  import opened Seqs

  /** `\s` in a regular expression: the WhiteSpace and LineTerminator code points.
      `String.prototype.trim` strips exactly this set. */
  predicate IsSpace(c: char)
  {
    || c == '\t' || c == '\n' || c == '\U{000B}' || c == '\U{000C}' || c == '\r' || c == ' '
    || c == '\U{00A0}' || c == '\U{1680}' || ('\U{2000}' <= c <= '\U{200A}')
    || c == '\U{2028}' || c == '\U{2029}' || c == '\U{202F}' || c == '\U{205F}'
    || c == '\U{3000}' || c == '\U{FEFF}'
  }

  /** `\d`: the ASCII decimal digits. */
  predicate IsDigit(c: char)
  {
    '0' <= c <= '9'
  }

  predicate IsDigits(s: string)
  {
    forall i :: 0 <= i < |s| ==> IsDigit(s[i])
  }

  /** The case folding of the `/i` flag for a pattern whose letters are ASCII: a
      character matches a letter exactly when both have the same upper case, and
      no non-ASCII character folds onto an ASCII one. */
  function FoldAscii(c: char): char
  {
    if 'a' <= c <= 'z' then (c as int - 32) as char else c
  }

  /** `String.prototype.toLowerCase` on one character, for the ASCII capitals and
      the Romanian capitals with diacritics; every other character is kept. */
  function LowerChar(c: char): char
  {
    if 'A' <= c <= 'Z' then (c as int + 32) as char
    else if c == 'Ă' then 'ă'
    else if c == 'Â' then 'â'
    else if c == 'Î' then 'î'
    else if c == 'Ș' then 'ș'
    else if c == 'Ț' then 'ț'
    else if c == 'Ş' then 'ş'
    else if c == 'Ţ' then 'ţ'
    else c
  }

  /** `String.prototype.toLowerCase`, character by character. */
  function Lower(s: string): (r: string)
    ensures |r| == |s|
    ensures forall i :: 0 <= i < |s| ==> r[i] == LowerChar(s[i])
  {
    seq(|s|, i requires 0 <= i < |s| => LowerChar(s[i]))
  }

  /** Lower-casing a lower-cased character changes nothing. */
  lemma LowerIsLower(s: string)
    ensures forall c :: c in Lower(s) ==> LowerChar(c) == c
  {
    forall c | c in Lower(s)
      ensures LowerChar(c) == c
    {
      var i :| 0 <= i < |s| && Lower(s)[i] == c;
      LowerCharIsLower(s[i]);
    }
  }

  lemma LowerCharIsLower(c: char)
    ensures LowerChar(LowerChar(c)) == LowerChar(c)
  {
  }

  predicate StartsWith(s: string, prefix: string)
  {
    |prefix| <= |s| && s[..|prefix|] == prefix
  }

  /** The end of the longest run of characters satisfying `P` that starts at `i`. */
  function RunEnd(s: string, i: nat, P: char -> bool): (j: nat)
    requires i <= |s|
    ensures i <= j <= |s|
    ensures forall k :: i <= k < j ==> P(s[k])
    ensures j < |s| ==> !P(s[j])
    decreases |s| - i
  {
    if i < |s| && P(s[i]) then RunEnd(s, i + 1, P) else i
  }

  /** A run that ends where `P` first fails is the one `RunEnd` finds. */
  lemma {:induction false} RunEndIs(s: string, i: nat, j: nat, P: char -> bool)
    requires i <= j <= |s|
    requires forall k :: i <= k < j ==> P(s[k])
    requires j < |s| ==> !P(s[j])
    ensures RunEnd(s, i, P) == j
    decreases j - i
  {
    if i < j {
      RunEndIs(s, i + 1, j, P);
    }
  }

  /** A slice equal to a string whose characters all satisfy `P` has only such
      characters. */
  lemma SliceAll(s: string, a: nat, w: string, P: char -> bool)
    requires forall i :: 0 <= i < |w| ==> P(w[i])
    requires a + |w| <= |s| && s[a..a + |w|] == w
    ensures forall k :: a <= k < a + |w| ==> P(s[k])
  {
    forall k | a <= k < a + |w| ensures P(s[k]) {
      assert s[k] == s[a..a + |w|][k - a];
    }
  }

  /** The start of the longest run of characters satisfying `P` that ends at `j`,
      not reaching below `lo`. */
  function RunStart(s: string, lo: nat, j: nat, P: char -> bool): (i: nat)
    requires lo <= j <= |s|
    ensures lo <= i <= j
    ensures forall k :: i <= k < j ==> P(s[k])
    ensures lo < i ==> !P(s[i - 1])
    decreases j
  {
    if lo < j && P(s[j - 1]) then RunStart(s, lo, j - 1, P) else j
  }

  /** `String.prototype.trim`: white space removed from both ends. */
  function Trim(s: string): (r: string)
    ensures |r| <= |s|
    ensures r != [] ==> !IsSpace(r[0]) && !IsSpace(r[|r| - 1])
    ensures r == [] <==> forall k :: 0 <= k < |s| ==> IsSpace(s[k])
    ensures forall c :: c in r ==> c in s
  {
    var i := RunEnd(s, 0, IsSpace);
    var j := RunStart(s, i, |s|, IsSpace);
    assert i < j ==> !IsSpace(s[i]);
    s[i..j]
  }

  /** Trimming keeps a head of non-space characters in place. */
  lemma TrimKeepsHead(s: string, k: nat)
    requires 0 < k <= |s|
    requires forall i :: 0 <= i < k ==> !IsSpace(s[i])
    ensures k <= |Trim(s)| && Trim(s)[..k] == s[..k]
  {
    var j := RunStart(s, 0, |s|, IsSpace);
    assert RunEnd(s, 0, IsSpace) == 0;
    assert !IsSpace(s[k - 1]);
    assert k <= j;
  }

  /** A string without white space at its ends is its own trim. */
  lemma TrimOfTrimmed(s: string)
    requires s != [] ==> !IsSpace(s[0]) && !IsSpace(s[|s| - 1])
    ensures Trim(s) == s
  {
    if s != [] {
      assert RunEnd(s, 0, IsSpace) == 0;
      assert RunStart(s, 0, |s|, IsSpace) == |s|;
    }
  }

  /** A string of digits is its own trim. */
  lemma TrimOfDigits(d: string)
    requires IsDigits(d)
    ensures Trim(d) == d
  {
    TrimOfTrimmed(d);
  }

  /** `String.prototype.split` with a one-character separator. */
  function Split(s: string, sep: char): (parts: seq<string>)
    ensures |parts| >= 1
    ensures forall i :: 0 <= i < |parts| ==> sep !in parts[i]
    decreases |s|
  {
    if |s| == 0 then [""]
    else
      var rest := Split(s[1..], sep);
      if s[0] == sep then [""] + rest else [[s[0]] + rest[0]] + rest[1..]
  }

  /** `Array.prototype.join` with a one-character separator. */
  function Join(parts: seq<string>, sep: char): string
    requires |parts| >= 1
    decreases |parts|
  {
    if |parts| == 1 then parts[0] else parts[0] + [sep] + Join(parts[1..], sep)
  }

  /** Splitting loses nothing: joining the parts gives back the string. */
  lemma {:induction false} SplitJoin(s: string, sep: char)
    ensures Join(Split(s, sep), sep) == s
    decreases |s|
  {
    if |s| > 0 {
      var rest := Split(s[1..], sep);
      SplitJoin(s[1..], sep);
      if s[0] == sep {
        assert ([""] + rest)[1..] == rest;
      } else {
        var parts := [[s[0]] + rest[0]] + rest[1..];
        if |rest| == 1 {
          assert Join(parts, sep) == [s[0]] + rest[0];
        } else {
          assert parts[1..] == rest[1..];
          assert Join(rest, sep) == rest[0] + [sep] + Join(rest[1..], sep);
        }
      }
    }
  }

  /** `s.replace(/\D/g, '')`: the digits of `s`, in order. */
  function KeepDigits(s: string): (r: string)
    ensures IsDigits(r)
  {
    Filter(s, IsDigit)
  }

  /** `s.replace(/\s/g, '')`: `s` without its white space. */
  function RemoveSpaces(s: string): (r: string)
    ensures forall c :: c in r ==> !IsSpace(c)
  {
    Filter(s, (c: char) => !IsSpace(c))
  }

  lemma RemoveSpacesAppend(a: string, b: string)
    ensures RemoveSpaces(a + b) == RemoveSpaces(a) + RemoveSpaces(b)
  {
    FilterAppend(a, b, (c: char) => !IsSpace(c));
  }

  /** A string of digits has no white space to remove. */
  lemma {:induction false} RemoveSpacesOfDigits(s: string)
    requires IsDigits(s)
    ensures RemoveSpaces(s) == s
    decreases |s|
  {
    if s != [] {
      RemoveSpacesOfDigits(s[1..]);
      assert s == [s[0]] + s[1..];
    }
  }

  /** A string of digits is kept whole by `KeepDigits`. */
  lemma {:induction false} KeepDigitsOfDigits(s: string)
    requires IsDigits(s)
    ensures KeepDigits(s) == s
    decreases |s|
  {
    if s != [] {
      KeepDigitsOfDigits(s[1..]);
      assert s == [s[0]] + s[1..];
    }
  }

  /** The character of a decimal digit value. */
  function DigitChar(d: nat): (c: char)
    requires d < 10
    ensures IsDigit(c) && c as int - '0' as int == d
  {
    ('0' as int + d) as char
  }

  /** `String(n)` for a natural number: its decimal digits, most significant first. */
  function NatToString(n: nat): (r: string)
    ensures |r| >= 1 && IsDigits(r)
    decreases n
  {
    if n < 10 then [DigitChar(n)] else NatToString(n / 10) + [DigitChar(n % 10)]
  }

  /** `String(i)` for an integer. */
  function IntToString(i: int): string
  {
    if i < 0 then "-" + NatToString(-i) else NatToString(i)
  }

  /** The number a string of decimal digits denotes. */
  function DigitsValue(s: string): nat
    requires IsDigits(s)
    decreases |s|
  {
    if s == [] then 0 else DigitsValue(s[..|s| - 1]) * 10 + (s[|s| - 1] as int - '0' as int)
  }

  lemma {:induction false} DigitsValueOfNatToString(n: nat)
    ensures DigitsValue(NatToString(n)) == n
    decreases n
  {
    if n >= 10 {
      DigitsValueOfNatToString(n / 10);
      var r := NatToString(n);
      assert r[..|r| - 1] == NatToString(n / 10);
    }
  }

  /** `parseInt(s, 10)`: leading white space is skipped, then an optional sign, then
      the longest run of decimal digits is read; `None` stands for `NaN`. */
  function ParseInt(s: string): Option<int>
  {
    var t := s[RunEnd(s, 0, IsSpace)..];
    var negative := |t| > 0 && t[0] == '-';
    var u := if |t| > 0 && (t[0] == '-' || t[0] == '+') then t[1..] else t;
    var d := u[..RunEnd(u, 0, IsDigit)];
    var value: int := DigitsValue(d);
    if d == [] then None else Some(if negative then -value else value)
  }

  /** `parseInt` reads back what `String` writes for every integer. */
  lemma ParseIntOfIntToString(i: int)
    ensures ParseInt(IntToString(i)) == Some(i)
  {
    var s := IntToString(i);
    var n: nat := if i < 0 then -i else i;
    var digits := NatToString(n);
    DigitsValueOfNatToString(n);
    assert RunEnd(digits, 0, IsDigit) == |digits|;
    if i < 0 {
      assert !IsSpace(s[0]);
      assert RunEnd(s, 0, IsSpace) == 0;
      assert s[0] == '-' && s[0..] == s && s[1..] == digits && digits[..|digits|] == digits;
    } else {
      assert !IsSpace(s[0]);
      assert RunEnd(s, 0, IsSpace) == 0;
      assert s[0..] == s && s == digits && digits[..|digits|] == digits;
      assert IsDigit(s[0]);
    }
  }
}
