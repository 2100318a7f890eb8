/**
 * The data-quality gate of ingestion/data_validator.py: a raw frame is checked
 * for emptiness, required columns, null prices, OHLC consistency, date gaps and
 * its date range, and judged valid unless a critical issue was found. Issue
 * texts are tags; timestamps are day numbers, so a difference of timestamps is
 * the `.days` of the source.
 */
module DataValidator {
  import opened Wrappers
  import opened PriceSeries

  // ---------------------------------------------------------------------------
  // Frames and issues
  // ---------------------------------------------------------------------------

  /** A raw row; a `None` price is a null cell. */
  datatype Row = Row(timestamp: int, symbol: string, open: Option<real>, high: Option<real>, low: Option<real>, close: Option<real>)

  /** A raw frame: the column names it has and its rows. */
  datatype Table = Table(columns: set<string>, rows: seq<Row>)

  /** One reported gap: the two consecutive dates and the days between them. */
  datatype Gap = Gap(from: int, to: int, days: int)

  datatype Issue =
    | DataEmpty
    | MissingRequiredColumns(missing: seq<string>)
    | NullValues(columns: seq<string>)
    | HighBelowLow(count: nat)
    | HighBelowOpenOrClose(count: nat)
    | LowAboveOpenOrClose(count: nat)
    | NonPositivePrices(count: nat)
    | DateGaps(count: nat, shown: seq<Gap>)
    | DateRange(first: int, last: int, days: int, records: nat)
    | NoData

  /** `(is_valid, issues)`. */
  datatype Validation = Validation(valid: bool, issues: seq<Issue>)

  const RequiredColumns: seq<string> := ["timestamp", "symbol", "open", "high", "low", "close"]

  const OhlcColumns: seq<string> := ["open", "high", "low", "close"]

  /** How many gaps the gap issue lists. */
  const ShownGaps: nat := 5

  /** The largest distance between consecutive dates that is not a gap (a weekend). */
  const MaxGapDays: int := 3

  /**
   * The issues whose text contains "missing", "empty" or "null": the
   * emptiness, missing-column and null-value issues. The texts of the other
   * issues are made of fixed words without these, numbers and dates.
   */
  predicate IsCritical(issue: Issue)
  {
    issue.DataEmpty? || issue.MissingRequiredColumns? || issue.NullValues?
  }

  /** pandas' `DataFrame.empty`: no rows or no columns. */
  predicate IsEmptyTable(data: Table)
  {
    |data.rows| == 0 || data.columns == {}
  }

  // ---------------------------------------------------------------------------
  // Null values
  // ---------------------------------------------------------------------------

  /** The cell of price column `column` of a row (`None` for a null or another column). */
  function Price(r: Row, column: string): Option<real>
  {
    if column == "open" then r.open
    else if column == "high" then r.high
    else if column == "low" then r.low
    else if column == "close" then r.close
    else None
  }

  /** Some row has a null in this column. */
  predicate ColumnHasNull(rows: seq<Row>, column: string)
  {
    exists i :: 0 <= i < |rows| && Price(rows[i], column).None?
  }

  /** The price columns with a null, in column order. */
  function NullColumnsOf(rows: seq<Row>, columns: seq<string>): (nulls: seq<string>)
    ensures forall c :: c in nulls <==> c in columns && ColumnHasNull(rows, c)
  {
    if columns == [] then []
    else
      var rest := NullColumnsOf(rows, columns[1..]);
      assert forall c :: c in columns <==> c == columns[0] || c in columns[1..];
      if ColumnHasNull(rows, columns[0]) then [columns[0]] + rest else rest
  }

  /** `null_check[null_check].index.tolist()`. */
  function NullColumns(rows: seq<Row>): (nulls: seq<string>)
  {
    NullColumnsOf(rows, OhlcColumns)
  }

  /** Some column is reported exactly when some row lacks a price. */
  lemma NullColumnsSpec(rows: seq<Row>)
    ensures NullColumns(rows) == [] <==> forall i :: 0 <= i < |rows| ==> PricesPresent(rows[i])
  {
    var nulls := NullColumns(rows);
    if nulls == [] {
      forall i | 0 <= i < |rows| ensures PricesPresent(rows[i]) {
        assert !ColumnHasNull(rows, "open") && !ColumnHasNull(rows, "high");
        assert !ColumnHasNull(rows, "low") && !ColumnHasNull(rows, "close");
      }
    } else {
      assert nulls[0] in nulls;
      var i :| 0 <= i < |rows| && Price(rows[i], nulls[0]).None?;
      assert !PricesPresent(rows[i]);
    }
  }

  predicate PricesPresent(r: Row)
  {
    r.open.Some? && r.high.Some? && r.low.Some? && r.close.Some?
  }

  // ---------------------------------------------------------------------------
  // OHLC logic
  // ---------------------------------------------------------------------------

  /** A pandas comparison `a < b`: false when either side is null. */
  predicate Lt(a: Option<real>, b: Option<real>)
  {
    a.Some? && b.Some? && a.value < b.value
  }

  /** A pandas comparison `a <= 0`: false when `a` is null. */
  predicate AtMostZero(a: Option<real>)
  {
    a.Some? && a.value <= 0.0
  }

  /** `data[mask]` has this many rows. */
  function Count(rows: seq<Row>, mask: Row -> bool): (n: nat)
    ensures n <= |rows|
    ensures n == 0 <==> forall i :: 0 <= i < |rows| ==> !mask(rows[i])
  {
    if rows == [] then 0
    else
      var rest := Count(rows[1..], mask);
      assert forall i :: 1 <= i < |rows| ==> rows[1..][i - 1] == rows[i];
      (if mask(rows[0]) then 1 else 0) + rest
  }

  predicate HighBelowLowRow(r: Row) { Lt(r.high, r.low) }

  predicate HighBelowOpenOrCloseRow(r: Row) { Lt(r.high, r.open) || Lt(r.high, r.close) }

  predicate LowAboveOpenOrCloseRow(r: Row) { Lt(r.open, r.low) || Lt(r.close, r.low) }

  predicate NonPositivePricesRow(r: Row)
  {
    AtMostZero(r.open) || AtMostZero(r.high) || AtMostZero(r.low) || AtMostZero(r.close)
  }

  /** `a >= b` wherever both cells hold a price. */
  predicate NotBelow(a: Option<real>, b: Option<real>)
  {
    a.None? || b.None? || a.value >= b.value
  }

  /** A price wherever the cell holds one, and that price is positive. */
  predicate PositiveOrNull(a: Option<real>)
  {
    a.None? || a.value > 0.0
  }

  /**
   * A consistent bar, stated directly: the high is the highest price, the low
   * the lowest, every price is positive; a null cell is not compared.
   */
  predicate RowConsistent(r: Row)
  {
    && NotBelow(r.high, r.low)
    && NotBelow(r.high, r.open) && NotBelow(r.high, r.close)
    && NotBelow(r.open, r.low) && NotBelow(r.close, r.low)
    && PositiveOrNull(r.open) && PositiveOrNull(r.high) && PositiveOrNull(r.low) && PositiveOrNull(r.close)
  }

  /** The issues `_validate_ohlc_logic` reports: one per rule, with a row count. */
  predicate IsOhlcIssue(issue: Issue)
  {
    issue.HighBelowLow? || issue.HighBelowOpenOrClose? || issue.LowAboveOpenOrClose? || issue.NonPositivePrices?
  }

  /** The issue of one rule, when some row breaks it. */
  function RuleIssue(count: nat, issue: Issue): (issues: seq<Issue>)
    ensures issues == [] <==> count == 0
    ensures count > 0 ==> issues == [issue]
  {
    if count > 0 then [issue] else []
  }

  /**
   * `_validate_ohlc_logic`: one issue per broken rule, with the number of rows
   * breaking it, in the order high/low, high, low, positivity.
   */
  function OhlcLogicIssues(rows: seq<Row>): (issues: seq<Issue>)
    ensures |issues| <= 4
    ensures forall k :: 0 <= k < |issues| ==> IsOhlcIssue(issues[k]) && 0 < issues[k].count <= |rows|
  {
    var a := Count(rows, HighBelowLowRow);
    var b := Count(rows, HighBelowOpenOrCloseRow);
    var c := Count(rows, LowAboveOpenOrCloseRow);
    var d := Count(rows, NonPositivePricesRow);
    RuleIssue(a, HighBelowLow(a)) + RuleIssue(b, HighBelowOpenOrClose(b))
    + RuleIssue(c, LowAboveOpenOrClose(c)) + RuleIssue(d, NonPositivePrices(d))
  }

  /** The OHLC check reports nothing exactly when every row is consistent. */
  lemma OhlcLogicClean(rows: seq<Row>)
    ensures OhlcLogicIssues(rows) == [] <==> forall i :: 0 <= i < |rows| ==> RowConsistent(rows[i])
  {
    var a := Count(rows, HighBelowLowRow);
    var b := Count(rows, HighBelowOpenOrCloseRow);
    var c := Count(rows, LowAboveOpenOrCloseRow);
    var d := Count(rows, NonPositivePricesRow);
    assert OhlcLogicIssues(rows) == [] <==> a == 0 && b == 0 && c == 0 && d == 0;
    forall i | 0 <= i < |rows|
      ensures RowConsistent(rows[i]) <==>
                !HighBelowLowRow(rows[i]) && !HighBelowOpenOrCloseRow(rows[i])
                && !LowAboveOpenOrCloseRow(rows[i]) && !NonPositivePricesRow(rows[i])
    {
    }
  }

  /** `_validate_ohlc_logic`: the four filters, each appending its issue when it selects rows. */
  method ValidateOhlcLogic(rows: seq<Row>) returns (issues: seq<Issue>)
    ensures issues == OhlcLogicIssues(rows)
  {
    issues := [];
    var invalidHighLow := Count(rows, HighBelowLowRow);
    if invalidHighLow > 0 {
      issues := issues + [HighBelowLow(invalidHighLow)];
    }
    assert issues == RuleIssue(invalidHighLow, HighBelowLow(invalidHighLow));
    var invalidHigh := Count(rows, HighBelowOpenOrCloseRow);
    ghost var before := issues;
    if invalidHigh > 0 {
      issues := issues + [HighBelowOpenOrClose(invalidHigh)];
    } else {
      assert issues == issues + [];
    }
    assert issues == before + RuleIssue(invalidHigh, HighBelowOpenOrClose(invalidHigh));
    var invalidLow := Count(rows, LowAboveOpenOrCloseRow);
    before := issues;
    if invalidLow > 0 {
      issues := issues + [LowAboveOpenOrClose(invalidLow)];
    } else {
      assert issues == issues + [];
    }
    assert issues == before + RuleIssue(invalidLow, LowAboveOpenOrClose(invalidLow));
    var invalidPrices := Count(rows, NonPositivePricesRow);
    before := issues;
    if invalidPrices > 0 {
      issues := issues + [NonPositivePrices(invalidPrices)];
    } else {
      assert issues == issues + [];
    }
    assert issues == before + RuleIssue(invalidPrices, NonPositivePrices(invalidPrices));
  }

  /** On a row without nulls the rules are the plain OHLC inequalities. */
  lemma ConsistentRowWithoutNulls(r: Row)
    requires PricesPresent(r)
    ensures RowConsistent(r) <==>
              && r.high.value >= r.low.value
              && r.high.value >= r.open.value && r.high.value >= r.close.value
              && r.low.value <= r.open.value && r.low.value <= r.close.value
              && r.open.value > 0.0 && r.high.value > 0.0 && r.low.value > 0.0 && r.close.value > 0.0
  {
  }

  // ---------------------------------------------------------------------------
  // Sorting by timestamp
  // ---------------------------------------------------------------------------

  predicate Sorted(s: seq<int>)
  {
    forall i, j :: 0 <= i < j < |s| ==> s[i] <= s[j]
  }

  function Timestamps(rows: seq<Row>): (ts: seq<int>)
    ensures |ts| == |rows|
    ensures forall i :: 0 <= i < |rows| ==> ts[i] == rows[i].timestamp
  {
    seq(|rows|, i requires 0 <= i < |rows| => rows[i].timestamp)
  }

  /** `x` inserted into a sorted sequence at its place. */
  function Insert(x: int, s: seq<int>): (r: seq<int>)
    requires Sorted(s)
    ensures Sorted(r)
    ensures multiset(r) == multiset(s) + multiset{x}
    ensures |r| == |s| + 1
    ensures r[0] == x || (s != [] && r[0] == s[0])
  {
    if s == [] || x <= s[0] then [x] + s
    else
      SortedTail(s);
      var rest := Insert(x, s[1..]);
      assert s == [s[0]] + s[1..];
      [s[0]] + rest
  }

  /** `sort_values('timestamp')` on the timestamp column. */
  function SortTimestamps(ts: seq<int>): (r: seq<int>)
    ensures Sorted(r)
    ensures multiset(r) == multiset(ts)
    ensures |r| == |ts|
  {
    if ts == [] then []
    else
      assert ts == [ts[0]] + ts[1..];
      Insert(ts[0], SortTimestamps(ts[1..]))
  }

  lemma SortedTail(s: seq<int>)
    requires Sorted(s) && s != []
    ensures Sorted(s[1..])
  {
    var rest := s[1..];
    forall i, j | 0 <= i < j < |rest| ensures rest[i] <= rest[j] {
      assert rest[i] == s[i + 1] && rest[j] == s[j + 1];
    }
  }

  /** Two sorted permutations of each other start with the same, least, element. */
  lemma SortedPermutationHeads(a: seq<int>, b: seq<int>)
    requires Sorted(a) && Sorted(b) && a != []
    requires multiset(a) == multiset(b)
    ensures b != [] && a[0] == b[0]
  {
    assert a[0] in multiset(b);
    var i :| 0 <= i < |b| && b[i] == a[0];
    assert b[0] in multiset(a);
    var j :| 0 <= j < |a| && a[j] == b[0];
  }

  /**
   * A sorted permutation is unique, so the sorted column does not depend on
   * the algorithm pandas uses.
   */
  lemma {:induction false} SortedPermutationUnique(a: seq<int>, b: seq<int>)
    requires Sorted(a) && Sorted(b)
    requires multiset(a) == multiset(b)
    ensures a == b
    decreases |a|
  {
    if a == [] {
      assert |b| == |multiset(b)| == 0;
    } else {
      SortedPermutationHeads(a, b);
      var restA, restB := a[1..], b[1..];
      assert a == [a[0]] + restA;
      assert b == [b[0]] + restB;
      assert multiset(a) == multiset{a[0]} + multiset(restA);
      assert multiset(b) == multiset{b[0]} + multiset(restB);
      assert multiset(restA) == multiset(a) - multiset{a[0]};
      assert multiset(restB) == multiset(b) - multiset{b[0]};
      SortedTail(a);
      SortedTail(b);
      SortedPermutationUnique(restA, restB);
    }
  }

  // ---------------------------------------------------------------------------
  // Date gaps
  // ---------------------------------------------------------------------------

  /** The gaps among the consecutive pairs (k - 1, k) of `ts` with 1 <= k < n, in order. */
  function GapsUpTo(ts: seq<int>, n: int): (gaps: seq<Gap>)
    requires n <= |ts|
    decreases n
  {
    if n <= 1 then []
    else
      var days := ts[n - 1] - ts[n - 2];
      GapsUpTo(ts, n - 1) + (if days > MaxGapDays then [Gap(ts[n - 2], ts[n - 1], days)] else [])
  }

  /** The gaps of a timestamp column, found after sorting it. */
  function DataGaps(ts: seq<int>): (gaps: seq<Gap>)
  {
    GapsUpTo(SortTimestamps(ts), |ts|)
  }

  /**
   * A gap is reported exactly for a pair of consecutive dates more than three
   * days apart, from the earlier to the later date.
   */
  lemma {:induction false} GapsUpToMembers(ts: seq<int>, n: int)
    requires n <= |ts|
    ensures forall g :: g in GapsUpTo(ts, n) <==>
              exists k :: 1 <= k < n && ts[k] - ts[k - 1] > MaxGapDays && g == Gap(ts[k - 1], ts[k], ts[k] - ts[k - 1])
    decreases n
  {
    if n > 1 {
      GapsUpToMembers(ts, n - 1);
      forall g ensures g in GapsUpTo(ts, n) <==>
                         exists k :: 1 <= k < n && ts[k] - ts[k - 1] > MaxGapDays && g == Gap(ts[k - 1], ts[k], ts[k] - ts[k - 1])
      {
        if g in GapsUpTo(ts, n) && g !in GapsUpTo(ts, n - 1) {
          assert 1 <= n - 1 < n && ts[n - 1] - ts[n - 2] > MaxGapDays && g == Gap(ts[n - 2], ts[n - 1], ts[n - 1] - ts[n - 2]);
        }
      }
    }
  }

  /** At most one gap per consecutive pair: at most n - 1 gaps. */
  lemma {:induction false} GapsUpToLength(ts: seq<int>, n: int)
    requires n <= |ts|
    ensures |GapsUpTo(ts, n)| <= if n <= 1 then 0 else n - 1
    decreases n
  {
    if n > 1 {
      GapsUpToLength(ts, n - 1);
    }
  }

  /** Each reported gap spans more than three days and goes forward in time. */
  lemma {:induction false} GapsUpToForward(ts: seq<int>, n: int)
    requires n <= |ts|
    ensures forall k :: 0 <= k < |GapsUpTo(ts, n)| ==>
              var g := GapsUpTo(ts, n)[k]; g.days > MaxGapDays && g.to - g.from == g.days
    decreases n
  {
    if n > 1 {
      GapsUpToForward(ts, n - 1);
    }
  }

  /**
   * Without gaps, consecutive sorted dates are at most three days apart, so
   * the whole column spans at most 3 * (n - 1) days.
   */
  lemma {:induction false} NoGapsBoundsSpan(ts: seq<int>, n: int)
    requires 1 <= n <= |ts|
    requires GapsUpTo(ts, n) == []
    ensures ts[n - 1] - ts[0] <= MaxGapDays * (n - 1)
    decreases n
  {
    if n > 1 {
      assert GapsUpTo(ts, n - 1) == [];
      NoGapsBoundsSpan(ts, n - 1);
    }
  }

  /** `_check_data_gaps`: sort the dates, then walk the consecutive pairs, appending each gap. */
  method CheckDataGaps(rows: seq<Row>) returns (gaps: seq<Gap>)
    ensures gaps == DataGaps(Timestamps(rows))
  {
    gaps := [];
    var sorted := SortTimestamps(Timestamps(rows));
    var i := 1;
    while i < |sorted|
      invariant 1 <= i
      invariant i <= |sorted| || |sorted| == 0
      invariant gaps == GapsUpTo(sorted, if i <= |sorted| then i else |sorted|)
    {
      var timeDiff := sorted[i] - sorted[i - 1];
      if timeDiff > MaxGapDays {
        gaps := gaps + [Gap(sorted[i - 1], sorted[i], timeDiff)];
      }
      i := i + 1;
    }
  }

  // ---------------------------------------------------------------------------
  // Date range
  // ---------------------------------------------------------------------------

  function MinOf(s: seq<int>): (m: int)
    requires |s| > 0
    ensures m in s
    ensures forall i :: 0 <= i < |s| ==> m <= s[i]
  {
    if |s| == 1 then s[0]
    else
      var m' := MinOf(s[1..]);
      assert forall i :: 1 <= i < |s| ==> s[1..][i - 1] == s[i];
      if s[0] < m' then s[0] else m'
  }

  function MaxOf(s: seq<int>): (m: int)
    requires |s| > 0
    ensures m in s
    ensures forall i :: 0 <= i < |s| ==> s[i] <= m
  {
    if |s| == 1 then s[0]
    else
      var m' := MaxOf(s[1..]);
      assert forall i :: 1 <= i < |s| ==> s[1..][i - 1] == s[i];
      if s[0] > m' then s[0] else m'
  }

  /**
   * `_check_date_range`: "No data" for an empty frame, else the first and last
   * dates, the days between them and the number of records.
   */
  function CheckDateRange(rows: seq<Row>): (r: Issue)
    ensures rows == [] <==> r == NoData
    ensures rows != [] ==> r.DateRange? && r.records == |rows| && r.days == r.last - r.first >= 0
  {
    if rows == [] then NoData
    else
      var ts := Timestamps(rows);
      var minDate := MinOf(ts);
      var maxDate := MaxOf(ts);
      DateRange(minDate, maxDate, maxDate - minDate, |rows|)
  }

  /** The range runs from the earliest date of the frame to its latest. */
  lemma DateRangeBounds(rows: seq<Row>)
    requires rows != []
    ensures var r := CheckDateRange(rows);
            && (forall i :: 0 <= i < |rows| ==> r.first <= rows[i].timestamp <= r.last)
            && (exists i :: 0 <= i < |rows| && rows[i].timestamp == r.first)
            && (exists i :: 0 <= i < |rows| && rows[i].timestamp == r.last)
  {
    var ts := Timestamps(rows);
    assert MinOf(ts) in ts && MaxOf(ts) in ts;
  }

  /** A sorted permutation starts with the least element and ends with the greatest. */
  lemma SortedEnds(ts: seq<int>, sorted: seq<int>)
    requires Sorted(sorted) && multiset(sorted) == multiset(ts) && ts != []
    ensures sorted != [] && sorted[0] == MinOf(ts) && sorted[|sorted| - 1] == MaxOf(ts)
  {
    assert |sorted| == |multiset(sorted)| == |ts|;
    var lo, hi := MinOf(ts), MaxOf(ts);
    assert lo in multiset(sorted) && hi in multiset(sorted);
    var i :| 0 <= i < |sorted| && sorted[i] == lo;
    var j :| 0 <= j < |sorted| && sorted[j] == hi;
    assert sorted[0] in multiset(ts);
    assert sorted[|sorted| - 1] in multiset(ts);
  }

  /** The date range runs from the first to the last date of the sorted column. */
  lemma DateRangeIsSortedEnds(rows: seq<Row>)
    requires rows != []
    ensures var r := CheckDateRange(rows);
            var sorted := SortTimestamps(Timestamps(rows));
            r.first == sorted[0] && r.last == sorted[|sorted| - 1]
  {
    var ts := Timestamps(rows);
    SortedEnds(ts, SortTimestamps(ts));
    assert CheckDateRange(rows) == DateRange(MinOf(ts), MaxOf(ts), MaxOf(ts) - MinOf(ts), |rows|);
  }

  /** Without gaps a frame of n records spans at most 3 * (n - 1) days. */
  lemma NoGapsBoundsRange(rows: seq<Row>)
    requires rows != []
    requires DataGaps(Timestamps(rows)) == []
    ensures CheckDateRange(rows).days <= MaxGapDays * (|rows| - 1)
  {
    DateRangeIsSortedEnds(rows);
    NoGapsBoundsSpan(SortTimestamps(Timestamps(rows)), |rows|);
  }

  // ---------------------------------------------------------------------------
  // validate
  // ---------------------------------------------------------------------------

  /** The gap issue: how many gaps, and the first five of them. */
  function GapIssue(gaps: seq<Gap>): (issues: seq<Issue>)
    ensures gaps == [] <==> issues == []
    ensures gaps != [] ==> issues == [DateGaps(|gaps|, gaps[..if |gaps| < ShownGaps then |gaps| else ShownGaps])]
  {
    if gaps == [] then [] else [DateGaps(|gaps|, gaps[..if |gaps| < ShownGaps then |gaps| else ShownGaps])]
  }

  /** No issue of the list is critical. */
  predicate NoCritical(issues: seq<Issue>)
  {
    forall k :: 0 <= k < |issues| ==> !IsCritical(issues[k])
  }

  /** `[issue for issue in issues if <critical>]`, in order. */
  function CriticalIssues(issues: seq<Issue>): (critical: seq<Issue>)
    ensures forall x :: x in critical <==> x in issues && IsCritical(x)
  {
    if issues == [] then []
    else
      var rest := CriticalIssues(issues[1..]);
      assert forall x :: x in issues <==> x == issues[0] || x in issues[1..];
      if IsCritical(issues[0]) then [issues[0]] + rest else rest
  }

  /** `len(critical_issues) == 0`: valid exactly when no issue is critical. */
  function Verdict(issues: seq<Issue>): (valid: bool)
    ensures valid <==> NoCritical(issues)
  {
    var critical := CriticalIssues(issues);
    if critical != [] then
      assert critical[0] in critical;
      false
    else
      assert forall k :: 0 <= k < |issues| ==> issues[k] in issues;
      true
  }

  lemma NoCriticalAppend(a: seq<Issue>, b: seq<Issue>)
    ensures NoCritical(a + b) <==> NoCritical(a) && NoCritical(b)
  {
    if NoCritical(a) && NoCritical(b) {
      forall k | 0 <= k < |a + b| ensures !IsCritical((a + b)[k]) {
        if k < |a| {
          assert (a + b)[k] == a[k];
        } else {
          assert (a + b)[k] == b[k - |a|];
        }
      }
    }
    if NoCritical(a + b) {
      forall k | 0 <= k < |a| ensures !IsCritical(a[k]) {
        assert (a + b)[k] == a[k];
      }
      forall k | 0 <= k < |b| ensures !IsCritical(b[k]) {
        assert (a + b)[|a| + k] == b[k];
      }
    }
  }

  /** The null-value issue, when some price is null. */
  function NullIssue(rows: seq<Row>): (issues: seq<Issue>)
  {
    var nulls := NullColumns(rows);
    if nulls != [] then [NullValues(nulls)] else []
  }

  /**
   * The issues of a frame that passes every early return, in the order
   * `validate` appends them: nulls, OHLC logic, gaps, date range.
   */
  function ContentIssues(rows: seq<Row>): (issues: seq<Issue>)
  {
    NullIssue(rows) + OhlcLogicIssues(rows) + GapIssue(DataGaps(Timestamps(rows))) + [CheckDateRange(rows)]
  }

  /** The checks after the column check, with the strict-mode returns. */
  function ContentValidation(rows: seq<Row>, strict: bool): (v: Validation)
  {
    var withNulls := NullIssue(rows);
    if withNulls != [] && strict then Validation(false, withNulls)
    else
      var ohlc := OhlcLogicIssues(rows);
      if ohlc != [] && strict then Validation(false, withNulls + ohlc)
      else Validation(Verdict(ContentIssues(rows)), ContentIssues(rows))
  }

  /** `validate` as a value: the checks in order, with the early returns. */
  function ValidationOf(data: Table, strict: bool): (v: Validation)
  {
    if IsEmptyTable(data) then Validation(false, [DataEmpty])
    else
      var missing := MissingColumns(RequiredColumns, data.columns);
      if missing != [] then Validation(false, [MissingRequiredColumns(missing)])
      else ContentValidation(data.rows, strict)
  }

  /** `validate`: the checks in order, appending issues and returning early. */
  method Validate(data: Table, symbol: string, strict: bool) returns (valid: bool, issues: seq<Issue>)
    ensures Validation(valid, issues) == ValidationOf(data, strict)
  {
    issues := [];
    if IsEmptyTable(data) {
      issues := issues + [DataEmpty];
      return false, issues;
    }
    var missingCols := MissingColumns(RequiredColumns, data.columns);
    if missingCols != [] {
      issues := issues + [MissingRequiredColumns(missingCols)];
      return false, issues;
    }
    assert ValidationOf(data, strict) == ContentValidation(data.rows, strict);
    var nullCols := NullColumns(data.rows);
    if nullCols != [] {
      issues := issues + [NullValues(nullCols)];
      if strict {
        return false, issues;
      }
    }
    assert issues == NullIssue(data.rows);
    var ohlcIssues := ValidateOhlcLogic(data.rows);
    if ohlcIssues != [] {
      issues := issues + ohlcIssues;
      if strict {
        return false, issues;
      }
    } else {
      assert issues == issues + ohlcIssues;
    }
    ghost var beforeGaps := issues;
    var gaps := CheckDataGaps(data.rows);
    if gaps != [] {
      issues := issues + [DateGaps(|gaps|, gaps[..if |gaps| < ShownGaps then |gaps| else ShownGaps])];
    } else {
      assert issues == issues + GapIssue(gaps);
    }
    assert issues == beforeGaps + GapIssue(gaps);
    var dateRange := CheckDateRange(data.rows);
    issues := issues + [dateRange];
    valid := Verdict(issues);
  }

  /** An empty frame fails with the single emptiness issue. */
  lemma ValidateEmpty(data: Table, strict: bool)
    requires |data.rows| == 0 || data.columns == {}
    ensures ValidationOf(data, strict) == Validation(false, [DataEmpty])
  {
  }

  /** A frame lacking a required column fails with that one issue, naming exactly the missing columns. */
  lemma ValidateMissingColumns(data: Table, strict: bool)
    requires !IsEmptyTable(data)
    requires exists c :: c in RequiredColumns && c !in data.columns
    ensures var v := ValidationOf(data, strict);
            && !v.valid && |v.issues| == 1 && v.issues[0].MissingRequiredColumns?
            && forall c :: c in v.issues[0].missing <==> c in RequiredColumns && c !in data.columns
  {
    var c :| c in RequiredColumns && c !in data.columns;
    assert c in MissingColumns(RequiredColumns, data.columns);
  }

  /** The OHLC, gap and date-range issues are never critical. */
  lemma LaterIssuesNotCritical(rows: seq<Row>)
    ensures NoCritical(OhlcLogicIssues(rows))
    ensures NoCritical(GapIssue(DataGaps(Timestamps(rows))))
    ensures NoCritical([CheckDateRange(rows)])
  {
  }

  /**
   * Which content issues are critical: exactly the null-value issue, which
   * comes first when there is one.
   */
  lemma ContentIssuesCritical(rows: seq<Row>)
    ensures NoCritical(ContentIssues(rows)) <==> NullColumns(rows) == []
  {
    var nulls := NullIssue(rows);
    var ohlc := OhlcLogicIssues(rows);
    var gaps := GapIssue(DataGaps(Timestamps(rows)));
    var range := [CheckDateRange(rows)];
    assert ContentIssues(rows) == nulls + ohlc + gaps + range;
    NoCriticalAppend(nulls + ohlc + gaps, range);
    NoCriticalAppend(nulls + ohlc, gaps);
    NoCriticalAppend(nulls, ohlc);
    LaterIssuesNotCritical(rows);
    if NullColumns(rows) != [] {
      assert IsCritical(nulls[0]);
    }
  }

  /** Every frame judged valid has no critical issue; without strict mode the converse holds too. */
  lemma ValidCriticalFree(data: Table, strict: bool)
    ensures var v := ValidationOf(data, strict);
            && (v.valid ==> NoCritical(v.issues))
            && (!strict ==> (v.valid <==> NoCritical(v.issues)))
  {
    var v := ValidationOf(data, strict);
    if IsEmptyTable(data) {
      assert IsCritical(v.issues[0]);
    } else if MissingColumns(RequiredColumns, data.columns) != [] {
      assert IsCritical(v.issues[0]);
    } else if NullIssue(data.rows) != [] && strict {
      assert !v.valid;
    } else if OhlcLogicIssues(data.rows) != [] && strict {
      assert !v.valid;
    } else {
      assert v == Validation(Verdict(v.issues), v.issues);
    }
  }

  /**
   * The verdict for a non-empty frame with every required column: without
   * strict mode it is valid iff no price is null, whatever the OHLC logic,
   * gaps or range; in strict mode it also needs every row consistent.
   */
  lemma ValidateVerdict(data: Table, strict: bool)
    requires !IsEmptyTable(data)
    requires forall c :: c in RequiredColumns ==> c in data.columns
    ensures var rows := data.rows;
            ValidationOf(data, strict).valid <==>
              && (forall i :: 0 <= i < |rows| ==> PricesPresent(rows[i]))
              && (strict ==> forall i :: 0 <= i < |rows| ==> RowConsistent(rows[i]))
  {
    var rows := data.rows;
    assert ValidationOf(data, strict) == ContentValidation(rows, strict);
    OhlcLogicClean(rows);
    NullColumnsSpec(rows);
    ContentIssuesCritical(rows);
  }

  /**
   * A frame that passes the early returns ends with its date range, preceded
   * by the gap issue when there are gaps.
   */
  lemma ValidateEndsWithDateRange(data: Table, strict: bool)
    requires !IsEmptyTable(data)
    requires forall c :: c in RequiredColumns ==> c in data.columns
    requires strict ==> NullColumns(data.rows) == [] && OhlcLogicIssues(data.rows) == []
    ensures var issues := ValidationOf(data, strict).issues;
            var gaps := DataGaps(Timestamps(data.rows));
            && |issues| >= 1
            && issues[|issues| - 1] == CheckDateRange(data.rows)
            && issues[|issues| - 1].DateRange?
            && (gaps != [] ==> |issues| >= 2 && issues[|issues| - 2].DateGaps? && issues[|issues| - 2].count == |gaps|)
  {
    var rows := data.rows;
    var head := NullIssue(rows) + OhlcLogicIssues(rows);
    var gaps := GapIssue(DataGaps(Timestamps(rows)));
    assert ValidationOf(data, strict).issues == head + gaps + [CheckDateRange(rows)];
    assert rows != [];
  }

  /**
   * In strict mode `validate` stops at the first content check that finds
   * something: at the null issue, or else at the OHLC issues, with no gap or
   * date-range line after them.
   */
  lemma ValidateStrictStops(data: Table)
    requires !IsEmptyTable(data)
    requires forall c :: c in RequiredColumns ==> c in data.columns
    ensures NullColumns(data.rows) != [] ==>
              ValidationOf(data, true) == Validation(false, [NullValues(NullColumns(data.rows))])
    ensures NullColumns(data.rows) == [] && OhlcLogicIssues(data.rows) != [] ==>
              ValidationOf(data, true) == Validation(false, OhlcLogicIssues(data.rows))
  {
    assert MissingColumns(RequiredColumns, data.columns) == [];
  }

  // ---------------------------------------------------------------------------
  // validate_multiple
  // ---------------------------------------------------------------------------

  /** `validate_multiple`: one validation per symbol, in any order of the symbols. */
  method ValidateMultiple(dataDict: map<string, Table>, strict: bool) returns (results: map<string, Validation>)
    ensures results.Keys == dataDict.Keys
    ensures forall symbol :: symbol in results ==> results[symbol] == ValidationOf(dataDict[symbol], strict)
  {
    results := map[];
    var pending := dataDict.Keys;
    while pending != {}
      invariant pending <= dataDict.Keys
      invariant results.Keys == dataDict.Keys - pending
      invariant forall symbol :: symbol in results ==> results[symbol] == ValidationOf(dataDict[symbol], strict)
      decreases pending
    {
      var symbol :| symbol in pending;
      var isValid, issues := Validate(dataDict[symbol], symbol, strict);
      results := results[symbol := Validation(isValid, issues)];
      pending := pending - {symbol};
    }
  }
}
