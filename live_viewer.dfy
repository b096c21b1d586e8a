/**
  The live statistics panel (components/live-viewer.tsx): the responses of the
  selected operator are split into completed interviews and early endings, and
  the completed ones are tallied question by question.
*/
module LiveViewer {
  import opened Optional
  import opened Seqs
  import opened Text
  import opened Records
  import opened Tallies

  // ---------------------------------------------------------------------------
  // Tallying a free-text column: aggregateByField

  /** `String(val)` for a value that is neither `undefined`, `null` nor `''`;
      `None` for those three. */
  function ValueKey(v: Value): (r: Option<string>)
    requires !v.Arr?
    ensures r.Some? ==> r.value != ""
    ensures r.None? <==> v.Undefined? || v.Null? || v == Str("")
  {
    match v
    case Undefined => None
    case Null => None
    case Bool(b) => Some(if b then "true" else "false")
    case Num(n) => Some(IntToString(n))
    case Str(s) => if s == "" then None else Some(s)
  }

  /** A column of the response table, `row => row[field]`, as the aggregations
      receive it. */
  type Column = SurveyResponse -> Value

  function ColumnOf(field: Field): (column: Column)
    ensures forall r :: column(r) == FieldValue(r, field)
  {
    (r: SurveyResponse) => FieldValue(r, field)
  }

  /** No cell of the column holds an array, as no field of a row does. */
  ghost predicate Scalar(column: Column)
  {
    forall r :: !column(r).Arr?
  }

  lemma ColumnOfIsScalar(field: Field)
    ensures Scalar(ColumnOf(field))
  {
  }

  /** The key, if any, each row contributes to the tally of `column`. */
  function RowKeys(data: seq<SurveyResponse>, column: Column): (col: seq<Option<string>>)
    requires Scalar(column)
    ensures |col| == |data|
  {
    seq(|data|, k requires 0 <= k < |data| => ValueKey(column(data[k])))
  }

  /** The keys that are present, in order. */
  function Present(col: seq<Option<string>>): (keys: seq<string>)
    ensures |keys| <= |col|
    decreases |col|
  {
    if col == [] then []
    else
      var rest := Present(col[..|col| - 1]);
      match col[|col| - 1]
      case Some(k) => rest + [k]
      case None => rest
  }

  /** The keys the rows contribute to the tally of `column`, in row order. */
  function FieldKeys(data: seq<SurveyResponse>, column: Column): (keys: seq<string>)
    requires Scalar(column)
    ensures |keys| <= |data|
  {
    Present(RowKeys(data, column))
  }

  /** One more row adds its key, if it has one, at the end. */
  lemma FieldKeysStep(data: seq<SurveyResponse>, i: nat, column: Column)
    requires Scalar(column) && i < |data|
    ensures FieldKeys(data[..i + 1], column)
      == FieldKeys(data[..i], column) + (match ValueKey(column(data[i])) case Some(k) => [k] case None => [])
  {
    var col := RowKeys(data[..i + 1], column);
    assert col[..i] == RowKeys(data[..i], column);
  }

  /** `aggregateByField`: one pass over the rows that counts each key in a
      dictionary, remembering the order in which keys first appear. */
  method AggregateByField(data: seq<SurveyResponse>, column: Column) returns (entries: seq<(string, nat)>)
    requires Scalar(column)
    ensures entries == Tally(FieldKeys(data, column))
  {
    var counts: map<string, nat> := map[];
    var order: seq<string> := [];
    ghost var keys: seq<string> := [];
    var i := 0;
    while i < |data|
      invariant 0 <= i <= |data|
      invariant keys == FieldKeys(data[..i], column)
      invariant Counted(counts, order, keys)
    {
      FieldKeysStep(data, i, column);
      var val := column(data[i]);
      assert !val.Arr?;
      if val != Undefined && val != Null && val != Str("") {
        var key := ValueKey(val).value;
        counts, order := CountKey(counts, order, keys, key);
        keys := keys + [key];
      }
      i := i + 1;
    }
    assert data[..|data|] == data;
    CountedTally(counts, order, keys);
    entries := seq(|order|, j requires 0 <= j < |order| && order[j] in counts => (order[j], counts[order[j]]));
  }


  /** The entries of a column's tally count only rows with a value in it. */
  lemma AggregateTotal(data: seq<SurveyResponse>, column: Column)
    requires Scalar(column)
    ensures SumCounts(Tally(FieldKeys(data, column))) <= |data|
  {
    TallyTotal(FieldKeys(data, column));
  }

  // ---------------------------------------------------------------------------
  // Tallying a score column: aggregateScore1to5

  /** The answer the forms store for "don't know / no answer". */
  const DONT_KNOW: string := "Nu știu/Nu răspund"

  function InScoreRange(n: Option<int>): (b: Option<nat>)
    ensures b.Some? ==> b.value <= 5
  {
    match n
    case Some(v) => if 0 <= v <= 5 then Some(v) else None
    case None => None
  }

  /** The bucket a value goes to: 0 for the "don't know" answer; otherwise the
      number (read with `parseInt` from a string) when it lies in 0..5. */
  function ScoreBucket(v: Value): (b: Option<nat>)
    ensures b.Some? ==> b.value <= 5
  {
    match v
    case Str(s) => if s == DONT_KNOW then Some(0) else InScoreRange(ParseInt(s))
    case Num(n) => InScoreRange(Some(n))
    case _ => None
  }

  /** A score is counted under its own value whether it is stored as a number or
      as its decimal text, and a value outside 0..5 is not counted. */
  lemma ScoreBucketOfScore(n: int)
    ensures ScoreBucket(Num(n)) == ScoreBucket(Str(IntToString(n)))
    ensures ScoreBucket(Num(n)) == if 0 <= n <= 5 then Some(n) else None
  {
    ParseIntOfIntToString(n);
    var t := IntToString(n);
    assert t[0] != 'N';
  }

  /** The bucket, if any, each row's cell goes to. */
  function RowBuckets(data: seq<SurveyResponse>, column: Column): (col: seq<Option<nat>>)
    ensures |col| == |data|
  {
    seq(|data|, k requires 0 <= k < |data| => ScoreBucket(column(data[k])))
  }

  /** The number of rows whose cell goes to bucket `b`. */
  function BucketCount(data: seq<SurveyResponse>, column: Column, b: nat): nat
  {
    multiset(RowBuckets(data, column))[Some(b)]
  }


  /** One more row adds one to its own bucket and to no other. */
  lemma BucketCountSnoc(rows: seq<SurveyResponse>, row: SurveyResponse, column: Column)
    ensures forall b: nat ::
      BucketCount(rows + [row], column, b)
        == BucketCount(rows, column, b) + (if ScoreBucket(column(row)) == Some(b) then 1 else 0)
  {
    assert RowBuckets(rows + [row], column) == RowBuckets(rows, column) + [ScoreBucket(column(row))];
    MultisetSnoc(RowBuckets(rows, column), ScoreBucket(column(row)));
  }

  /** The six counters hold the bucket counts of `rows`. */
  ghost predicate BucketsCounted(counts: map<nat, nat>, rows: seq<SurveyResponse>, column: Column)
  {
    forall b :: 0 <= b < 6 ==> b in counts && counts[b] == BucketCount(rows, column, b)
  }

  /** The body of the `data.forEach` loop of `aggregateScore1to5`: the "don't
      know" answer goes to 0, a number or a numeric text from 0 to 5 to its own
      counter, and anything else nowhere. */
  method CountScore(counts: map<nat, nat>, ghost rows: seq<SurveyResponse>, column: Column, row: SurveyResponse)
    returns (counts': map<nat, nat>)
    requires BucketsCounted(counts, rows, column)
    ensures BucketsCounted(counts', rows + [row], column)
  {
    BucketCountSnoc(rows, row, column);
    var val := column(row);
    if val.Str? && val.s == DONT_KNOW {
      counts' := counts[0 := counts[0] + 1];
    } else {
      var num := if val.Str? then ParseInt(val.s) else if val.Num? then Some(val.n) else None;
      if num.Some? && 0 <= num.value <= 5 {
        assert ScoreBucket(val) == Some(num.value);
        counts' := counts[num.value := counts[num.value] + 1];
      } else {
        assert ScoreBucket(val).None?;
        counts' := counts;
      }
    }
  }

  /** The label of bucket `b` on the chart. */
  function BucketLabel(b: nat): string
  {
    if b == 0 then "Nu știu" else NatToString(b)
  }

  /** `aggregateScore1to5`: six counters keyed 0 to 5, filled in one pass over the
      rows, and returned as labelled pairs. */
  method AggregateScore1to5(data: seq<SurveyResponse>, column: Column) returns (rows: seq<(string, nat)>)
    ensures |rows| == 6
    ensures forall b :: 0 <= b < 6 ==> rows[b] == (BucketLabel(b), BucketCount(data, column, b))
  {
    var counts: map<nat, nat> := map[0 := 0, 1 := 0, 2 := 0, 3 := 0, 4 := 0, 5 := 0];
    var i := 0;
    while i < |data|
      invariant 0 <= i <= |data|
      invariant BucketsCounted(counts, data[..i], column)
    {
      assert data[..i + 1] == data[..i] + [data[i]];
      counts := CountScore(counts, data[..i], column, data[i]);
      i := i + 1;
    }
    assert data[..|data|] == data;
    rows := seq(6, b requires 0 <= b < 6 => (BucketLabel(b), counts[b]));
  }

  /** The six buckets together hold every row with a usable score and no other. */
  lemma BucketsTotal(data: seq<SurveyResponse>, column: Column)
    ensures BucketCount(data, column, 0) + BucketCount(data, column, 1) + BucketCount(data, column, 2)
      + BucketCount(data, column, 3) + BucketCount(data, column, 4) + BucketCount(data, column, 5)
      == |data| - multiset(RowBuckets(data, column))[None]
  {
    BucketsCover(RowBuckets(data, column));
  }

  /** How many elements of `m` are a bucket or no bucket at all. */
  function Covered(m: multiset<Option<nat>>): nat
  {
    m[Some(0)] + m[Some(1)] + m[Some(2)] + m[Some(3)] + m[Some(4)] + m[Some(5)] + m[None]
  }

  lemma CoveredAdd(m: multiset<Option<nat>>, x: Option<nat>)
    requires x.Some? ==> x.value <= 5
    ensures Covered(m + multiset{x}) == Covered(m) + 1
  {
    var m' := m + multiset{x};
    if x.None? {
      assert m'[None] == m[None] + 1;
    } else if x.value == 0 {
      assert m'[Some(0)] == m[Some(0)] + 1;
    } else if x.value == 1 {
      assert m'[Some(1)] == m[Some(1)] + 1;
    } else if x.value == 2 {
      assert m'[Some(2)] == m[Some(2)] + 1;
    } else if x.value == 3 {
      assert m'[Some(3)] == m[Some(3)] + 1;
    } else if x.value == 4 {
      assert m'[Some(4)] == m[Some(4)] + 1;
    } else {
      assert m'[Some(5)] == m[Some(5)] + 1;
    }
  }

  lemma {:induction false} BucketsCover(col: seq<Option<nat>>)
    requires forall i :: 0 <= i < |col| && col[i].Some? ==> col[i].value <= 5
    ensures Covered(multiset(col)) == |col|
    decreases |col|
  {
    if col != [] {
      var front := col[..|col| - 1];
      var last := col[|col| - 1];
      assert col == front + [last];
      BucketsCover(front);
      CoveredAdd(multiset(front), last);
    }
  }

  // ---------------------------------------------------------------------------
  // Question 1 and the row selections

  /** `aggregateDaNu`: how many respondents are and are not the administrator. */
  function AggregateDaNu(data: seq<SurveyResponse>): (r: seq<(string, nat)>)
    ensures |r| == 2 && r[0].0 == "DA" && r[1].0 == "NU"
    ensures r[0].1 == |Filter(data, (x: SurveyResponse) => x.este_administrator)|
    ensures r[0].1 + r[1].1 == |data|
  {
    var isAdmin := (x: SurveyResponse) => x.este_administrator;
    var notAdmin := (x: SurveyResponse) => !x.este_administrator;
    FilterSplits(data, isAdmin, notAdmin);
    [("DA", |Filter(data, isAdmin)|), ("NU", |Filter(data, notAdmin)|)]
  }

  /** The operator buttons of the panel. */
  datatype OperatorFilter = All | Nectarie | Alexandra | Ioana

  function OperatorName(f: OperatorFilter): string
  {
    match f
    case All => "all"
    case Nectarie => "nectarie"
    case Alexandra => "alexandra"
    case Ioana => "ioana"
  }

  predicate ByOperator(f: OperatorFilter, r: SurveyResponse)
  {
    Lower(r.operator) == OperatorName(f)
  }

  /** `filteredData`: every row, or the rows whose operator is the chosen one in
      any letter case. */
  function FilterByOperator(data: seq<SurveyResponse>, f: OperatorFilter): (rows: seq<SurveyResponse>)
    ensures f.All? ==> rows == data
    ensures !f.All? ==> forall r :: r in rows <==> r in data && Lower(r.operator) == OperatorName(f)
    ensures !f.All? ==> forall r :: multiset(rows)[r] == if Lower(r.operator) == OperatorName(f) then multiset(data)[r] else 0
    ensures IsSubsequence(rows, data)
  {
    if f.All? then
      SubsequenceRefl(data);
      data
    else
      FilterIsSubsequence(data, (r: SurveyResponse) => ByOperator(f, r));
      FilterCounts(data, (r: SurveyResponse) => ByOperator(f, r));
      Filter(data, (r: SurveyResponse) => ByOperator(f, r))
  }

  /** A completed interview: no end reason, or a blank one. */
  predicate IsCompleted(r: SurveyResponse)
  {
    r.motiv_incheiere.None? || Trim(r.motiv_incheiere.value) == ""
  }

  /** The rows question 1 is counted over: completed interviews, plus those that
      ended with the administrator absent or with the call abandoned. */
  predicate CountsForDaNu(r: SurveyResponse)
  {
    IsCompleted(r) || r.motiv_incheiere == Some(ADMIN_ABSENT) || r.motiv_incheiere == Some(ABANDONED)
  }

  predicate EndedWith(r: SurveyResponse, reason: string)
  {
    r.motiv_incheiere == Some(reason)
  }

  /** Question 1 is counted over the completed interviews and exactly the two
      extra reasons; the completed interviews are what remains of those rows
      once the two reasons are removed again. */
  lemma DaNuRowsExtendValid(rows: seq<SurveyResponse>)
    ensures Filter(Filter(rows, CountsForDaNu), IsCompleted) == Filter(rows, IsCompleted)
    ensures IsSubsequence(Filter(rows, IsCompleted), Filter(rows, CountsForDaNu))
    ensures forall r :: r in Filter(rows, CountsForDaNu) && r !in Filter(rows, IsCompleted) ==>
      r.motiv_incheiere == Some(ADMIN_ABSENT) || r.motiv_incheiere == Some(ABANDONED)
  {
    FilterOfFilter(rows, IsCompleted, CountsForDaNu);
    FilterIsSubsequence(Filter(rows, CountsForDaNu), IsCompleted);
  }

  // ---------------------------------------------------------------------------
  // Rates

  lemma DivBounds(n: nat, d: nat)
    requires d > 0
    ensures d * (n / d) <= n < d * (n / d) + d
  {
  }

  lemma MulMono(d: nat, a: nat, b: nat)
    requires a <= b
    ensures d * a <= d * b
  {
  }

  /** Rounding `1000 * k / total` half up lands within half a tenth of it, and a
      share of the rows is at most a thousand tenths. */
  lemma RoundedTenths(k: nat, total: nat)
    requires total > 0
    ensures var t := (2000 * k + total) / (2 * total);
      2000 * k - total < 2 * total * t <= 2000 * k + total && (k <= total ==> t <= 1000)
  {
    var n, d := 2000 * k + total, 2 * total;
    DivBounds(n, d);
    var t := n / d;
    if k <= total && t > 1000 {
      MulMono(d, 1001, t);
    }
  }

  /** The tenths of the percentage `100 * k / total`, rounded to the nearest tenth
      with halves rounded up, as `toFixed(1)` does for an exact quotient. */
  function RateTenths(k: nat, total: nat): (t: nat)
    requires total > 0
    ensures 2000 * k - total < 2 * total * t <= 2000 * k + total
    ensures k <= total ==> t <= 1000
  {
    RoundedTenths(k, total);
    (2000 * k + total) / (2 * total)
  }

  /** The percentage as the panel prints it: "0" without rows, else one decimal. */
  function Rate(k: nat, total: nat): (r: string)
    ensures total == 0 ==> r == "0"
  {
    if total == 0 then "0"
    else
      var t := RateTenths(k, total);
      NatToString(t / 10) + "." + [DigitChar(t % 10)]
  }

  /** The printed rate reads back as the rounded number of tenths. */
  lemma RateReadsBack(k: nat, total: nat)
    requires total > 0
    ensures var r := Rate(k, total);
      exists w, d :: r == w + "." + [d] && IsDigits(w) && IsDigit(d)
        && DigitsValue(w) * 10 + (d as int - '0' as int) == RateTenths(k, total)
  {
    var t := RateTenths(k, total);
    DigitsValueOfNatToString(t / 10);
    var w := NatToString(t / 10);
    var d := DigitChar(t % 10);
    assert Rate(k, total) == w + "." + [d];
  }

  // ---------------------------------------------------------------------------
  // The whole panel

  datatype LiveStats = LiveStats(
    total: nat,
    n0: nat,
    q2: seq<(string, nat)>,
    q3: seq<(string, nat)>,
    q4: seq<(string, nat)>,
    q5: seq<(string, nat)>,
    q6: seq<(string, nat)>,
    q7: seq<(string, nat)>,
    daNu: seq<(string, nat)>,
    noAnswer: nat,
    refused: nat,
    noAnswerRate: string,
    refusedRate: string,
    validRate: string)

  /** Everything the panel shows for one operator choice. The completed
      interviews, the unanswered calls and the refusals are disjoint, so they
      never add up to more than all the rows. */
  method ComputeLiveStats(data: seq<SurveyResponse>, f: OperatorFilter) returns (v: LiveStats)
    ensures var rows := FilterByOperator(data, f);
      && v.total == |rows|
      && v.n0 == |Filter(rows, IsCompleted)|
      && v.noAnswer == |Filter(rows, (r: SurveyResponse) => EndedWith(r, NO_ANSWER))|
      && v.refused == |Filter(rows, (r: SurveyResponse) => EndedWith(r, REFUSED))|
      && v.q2 == Tally(FieldKeys(Filter(rows, IsCompleted), ColumnOf(ProcentCheltuieliContabil)))
      && v.q7 == Tally(FieldKeys(Filter(rows, IsCompleted), ColumnOf(SumaLunaraContabilitate)))
      && v.daNu == AggregateDaNu(Filter(rows, CountsForDaNu))
      && v.noAnswerRate == Rate(v.noAnswer, v.total)
      && v.refusedRate == Rate(v.refused, v.total)
      && v.validRate == Rate(v.n0, v.total)
    ensures |v.q3| == |v.q4| == |v.q5| == |v.q6| == 6
    ensures forall b :: 0 <= b < 6 ==>
      var valid := Filter(FilterByOperator(data, f), IsCompleted);
      && v.q3[b] == (BucketLabel(b), BucketCount(valid, ColumnOf(ImpedimentContabilScore), b))
      && v.q4[b] == (BucketLabel(b), BucketCount(valid, ColumnOf(JustificareObligativitateScore), b))
      && v.q5[b] == (BucketLabel(b), BucketCount(valid, ColumnOf(CapabilContabilitateProprieScore), b))
      && v.q6[b] == (BucketLabel(b), BucketCount(valid, ColumnOf(InfluentaCosturiContabilitate), b))
    ensures v.n0 + v.noAnswer + v.refused <= v.total
  {
    var rows := FilterByOperator(data, f);
    var valid := Filter(rows, IsCompleted);
    ColumnOfIsScalar(ProcentCheltuieliContabil);
    ColumnOfIsScalar(SumaLunaraContabilitate);
    var q2 := AggregateByField(valid, ColumnOf(ProcentCheltuieliContabil));
    var q3 := AggregateScore1to5(valid, ColumnOf(ImpedimentContabilScore));
    var q4 := AggregateScore1to5(valid, ColumnOf(JustificareObligativitateScore));
    var q5 := AggregateScore1to5(valid, ColumnOf(CapabilContabilitateProprieScore));
    var q6 := AggregateScore1to5(valid, ColumnOf(InfluentaCosturiContabilitate));
    var q7 := AggregateByField(valid, ColumnOf(SumaLunaraContabilitate));
    var daNu := AggregateDaNu(Filter(rows, CountsForDaNu));
    var noAnswerRow := (r: SurveyResponse) => EndedWith(r, NO_ANSWER);
    var refusedRow := (r: SurveyResponse) => EndedWith(r, REFUSED);
    var noAnswer := |Filter(rows, noAnswerRow)|;
    var refused := |Filter(rows, refusedRow)|;
    assert Trim(NO_ANSWER) != "" by { assert !IsSpace(NO_ANSWER[0]); }
    assert Trim(REFUSED) != "" by { assert !IsSpace(REFUSED[0]); }
    FilterDisjoint3(rows, IsCompleted, noAnswerRow, refusedRow);
    v := LiveStats(|rows|, |valid|, q2, q3, q4, q5, q6, q7, daNu, noAnswer, refused,
      Rate(noAnswer, |rows|), Rate(refused, |rows|), Rate(|valid|, |rows|));
  }
}
