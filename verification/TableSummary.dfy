/** The one-pass table summary of core/data_executor.py, against its meaning column
    by column on the padded and truncated table.

    Cells are texts; the conversion of a text to a finite number is a parameter. */
module TableSummary {
  import opened Tables
  import opened Text
  import opened Wrappers

  type Row = seq<string>

  /** How a cell is read: is it missing, and what number is a cell that is not. */
  datatype Reader = Reader(missing: string -> bool, parse: string -> Option<real>)

  const MAX_PREVIEW_CELL_LENGTH := 160
  const ELLIPSIS: char := '\U{2026}'

  datatype Stats = Stats(count: nat, missing: nat, min: real, max: real, mean: real)

  /** `Given`: a warning the caller passes in. */
  datatype Warning = Given(text: string) | ShorterRows | LongerRows | NoDataRows

  datatype Summary = Summary(
    rowCount: nat, columns: seq<string>,
    numericColumns: seq<string>, textColumns: seq<string>,
    missing: map<string, nat>, preview: seq<map<string, string>>, stats: map<string, Stats>,
    warnings: seq<Warning>)

  datatype Outcome =
    | EmptyHeader
    | BlankColumns(positions: seq<nat>)
    | DuplicateColumns(names: seq<string>)
    | TooManyRows(read: nat)
    | Summarized(summary: Summary)

  // ------------------------------------------------------------------- cells

  predicate IsMissing(cell: string) {
    var text := Strip(cell);
    || text == "" || text == "-"
    || EqualsIgnoringCase(text, "na") || EqualsIgnoringCase(text, "n/a") || EqualsIgnoringCase(text, "null")
    || EqualsIgnoringCase(text, "none") || EqualsIgnoringCase(text, "nan")
  }

  function Lowered(s: string): (r: string)
    ensures |r| == |s|
  {
    seq(|s|, i requires 0 <= i < |s| => Lower(s[i]))
  }

  /** A cell is missing exactly when its stripped, lower-cased text is one of seven tokens. */
  lemma {:induction false} MissingExact(cell: string)
    ensures IsMissing(cell) <==> Lowered(Strip(cell)) in {"", "na", "n/a", "null", "none", "nan", "-"}
  {
    var text := Strip(cell);
    forall word: string
      ensures EqualsIgnoringCase(text, word) <==> Lowered(text) == word
    {
      if EqualsIgnoringCase(text, word) {
        assert Lowered(text) == word;
      }
    }
    assert text == "-" <==> Lowered(text) == "-" by {
      assert |text| == 1 ==> (Lower(text[0]) == '-' <==> text[0] == '-');
    }
  }

  /** The reader of the source; `parse` converts a stripped text. */
  function SourceReader(parse: string -> Option<real>): Reader {
    Reader(IsMissing, (cell: string) => parse(Strip(cell)))
  }

  predicate IsNumber(reader: Reader, cell: string) {
    !reader.missing(cell) && reader.parse(cell).Some?
  }

  /** `_truncate_cell` */
  function Truncated(cell: string): (r: string)
    ensures |r| <= MAX_PREVIEW_CELL_LENGTH && (|cell| <= MAX_PREVIEW_CELL_LENGTH ==> r == cell)
    ensures |cell| > MAX_PREVIEW_CELL_LENGTH ==>
              var n := |r| - 1;
              && n >= 0 && r[n] == ELLIPSIS && r[..n] == cell[..n]
              && (n > 0 ==> !IsSpace(cell[n - 1]))
              && forall k :: n <= k < MAX_PREVIEW_CELL_LENGTH - 1 ==> IsSpace(cell[k])
  {
    if |cell| <= MAX_PREVIEW_CELL_LENGTH then cell
    else
      var kept := cell[..MAX_PREVIEW_CELL_LENGTH - 1];
      kept[..InkEnd(kept, 0, |kept|)] + [ELLIPSIS]
  }

  /** The row as the summary sees it: extra cells dropped, missing ones blank. */
  function Normal(row: Row, width: nat): (r: Row)
    ensures |r| == width
  {
    seq(width, c requires 0 <= c < width => if c < |row| then row[c] else "")
  }

  // ------------------------------------------------- meaning, column by column

  function Cell(rows: seq<Row>, i: nat, c: nat): string
    requires i < |rows|
  {
    if c < |rows[i]| then rows[i][c] else ""
  }

  function MissingCount(reader: Reader, rows: seq<Row>, n: nat, c: nat): nat
    requires n <= |rows|
  {
    if n == 0 then 0 else MissingCount(reader, rows, n - 1, c) + (if reader.missing(Cell(rows, n - 1, c)) then 1 else 0)
  }

  function TextCount(reader: Reader, rows: seq<Row>, n: nat, c: nat): nat
    requires n <= |rows|
  {
    if n == 0 then 0
    else
      var cell := Cell(rows, n - 1, c);
      TextCount(reader, rows, n - 1, c) + (if !reader.missing(cell) && !IsNumber(reader, cell) then 1 else 0)
  }

  function Numbers(reader: Reader, rows: seq<Row>, n: nat, c: nat): seq<real>
    requires n <= |rows|
  {
    if n == 0 then []
    else
      var cell := Cell(rows, n - 1, c);
      Numbers(reader, rows, n - 1, c) + (if IsNumber(reader, cell) then [reader.parse(cell).value] else [])
  }

  /** Some cell is present and every present cell is a number. */
  ghost predicate NumericColumn(reader: Reader, rows: seq<Row>, c: nat) {
    && (exists i :: 0 <= i < |rows| && !reader.missing(Cell(rows, i, c)))
    && (forall i :: 0 <= i < |rows| ==> reader.missing(Cell(rows, i, c)) || IsNumber(reader, Cell(rows, i, c)))
  }

  /** Every cell of a column is missing, a number or text, and counted as just that. */
  lemma {:induction false} CellsAreConserved(reader: Reader, rows: seq<Row>, n: nat, c: nat)
    requires n <= |rows|
    ensures MissingCount(reader, rows, n, c) + |Numbers(reader, rows, n, c)| + TextCount(reader, rows, n, c) == n
  {
    if n > 0 {
      CellsAreConserved(reader, rows, n - 1, c);
    }
  }

  lemma {:induction false} NoTextMeans(reader: Reader, rows: seq<Row>, n: nat, c: nat)
    requires n <= |rows|
    ensures TextCount(reader, rows, n, c) == 0 <==>
            forall i :: 0 <= i < n ==> reader.missing(Cell(rows, i, c)) || IsNumber(reader, Cell(rows, i, c))
    ensures MissingCount(reader, rows, n, c) == n <==> forall i :: 0 <= i < n ==> reader.missing(Cell(rows, i, c))
    ensures MissingCount(reader, rows, n, c) <= n
  {
    if n > 0 {
      NoTextMeans(reader, rows, n - 1, c);
    }
  }

  /** The counters tell exactly the numeric columns. */
  lemma {:induction false} CountersDecide(reader: Reader, rows: seq<Row>, c: nat)
    ensures NumericColumn(reader, rows, c) <==>
            |rows| - MissingCount(reader, rows, |rows|, c) > 0 && TextCount(reader, rows, |rows|, c) == 0
    ensures NumericColumn(reader, rows, c) ==> Numbers(reader, rows, |rows|, c) != []
  {
    NoTextMeans(reader, rows, |rows|, c);
    CellsAreConserved(reader, rows, |rows|, c);
  }

  // -------------------------------------------------------------- statistics

  function Sum(values: seq<real>, n: nat): real
    requires n <= |values|
  {
    if n == 0 then 0.0 else Sum(values, n - 1) + values[n - 1]
  }

  function Min(values: seq<real>, n: nat): real
    requires 0 < n <= |values|
  {
    if n == 1 || values[n - 1] < Min(values, n - 1) then values[n - 1] else Min(values, n - 1)
  }

  function Max(values: seq<real>, n: nat): real
    requires 0 < n <= |values|
  {
    if n == 1 || values[n - 1] > Max(values, n - 1) then values[n - 1] else Max(values, n - 1)
  }

  lemma {:induction false} Extremes(values: seq<real>, n: nat)
    requires 0 < n <= |values|
    ensures Min(values, n) in values && Max(values, n) in values
    ensures forall i :: 0 <= i < n ==> Min(values, n) <= values[i] <= Max(values, n)
  {
    if n > 1 {
      Extremes(values, n - 1);
    }
  }

  lemma {:induction false} OneMore(k: real, x: real)
    ensures (k + 1.0) * x == k * x + x
  {
  }

  lemma {:induction false} SumIsBounded(values: seq<real>, n: nat, low: real, high: real)
    requires n <= |values| && forall i :: 0 <= i < n ==> low <= values[i] <= high
    ensures n as real * low <= Sum(values, n) <= n as real * high
  {
    if n > 0 {
      SumIsBounded(values, n - 1, low, high);
      OneMore((n - 1) as real, low);
      OneMore((n - 1) as real, high);
    }
  }

  lemma {:induction false} LessTimes(n: real, a: real, b: real)
    requires n > 0.0 && a < b
    ensures n * a < n * b
  {
  }

  lemma {:induction false} QuotientIsBounded(n: real, sum: real, low: real, high: real)
    requires n > 0.0 && n * low <= sum <= n * high
    ensures low <= sum / n <= high
  {
    var q := sum / n;
    assert q * n == sum;
    if q < low {
      LessTimes(n, q, low);
    } else if q > high {
      LessTimes(n, high, q);
    }
  }

  function StatsOf(values: seq<real>, missing: nat): Stats
    requires values != []
  {
    Stats(|values|, missing, Min(values, |values|), Max(values, |values|), Sum(values, |values|) / |values| as real)
  }

  lemma {:induction false} SumOfConcat(a: seq<real>, b: seq<real>, n: nat)
    requires n <= |a| + |b|
    ensures Sum(a + b, n) == if n <= |a| then Sum(a, n) else Sum(a, |a|) + Sum(b, n - |a|)
  {
    if n > 0 {
      SumOfConcat(a, b, n - 1);
    }
  }

  /** The sum of no values is zero, that of one is the value, and sums add up. */
  lemma {:induction false} SumAddsUp(a: seq<real>, b: seq<real>, x: real)
    ensures Sum([], 0) == 0.0 && Sum([x], 1) == x
    ensures Sum(a + b, |a| + |b|) == Sum(a, |a|) + Sum(b, |b|)
  {
    SumOfConcat(a, b, |a| + |b|);
    assert Sum([x], 0) == 0.0;
  }

  /** The mean lies between the least and the greatest value, which both occur, and
      times the number of values it is their sum. */
  lemma {:induction false} MeanIsBetween(values: seq<real>, missing: nat)
    requires values != []
    ensures var s := StatsOf(values, missing);
            && s.min <= s.mean <= s.max && s.min in values && s.max in values
            && s.count == |values| && s.missing == missing && s.mean * s.count as real == Sum(values, |values|)
            && forall i :: 0 <= i < |values| ==> s.min <= values[i] <= s.max
  {
    var n := |values|;
    Extremes(values, n);
    SumIsBounded(values, n, Min(values, n), Max(values, n));
    QuotientIsBounded(n as real, Sum(values, n), Min(values, n), Max(values, n));
  }

  // ------------------------------------------------------------------- header

  function Stripped(header: Row): Row {
    seq(|header|, c requires 0 <= c < |header| => Strip(header[c]))
  }

  ghost predicate Distinct(columns: seq<string>) {
    forall i, j :: 0 <= i < j < |columns| ==> columns[i] != columns[j]
  }

  /** The name stands at two positions among the first `n`. */
  ghost predicate Repeated(columns: seq<string>, n: nat, name: string)
    requires n <= |columns|
  {
    exists i, j :: 0 <= i < j < n && columns[i] == columns[j] == name
  }

  method FindBlanks(normalized: Row) returns (blank: seq<nat>)
    ensures forall p :: p in blank <==> 1 <= p <= |normalized| && normalized[p - 1] == ""
    ensures blank == [] <==> "" !in normalized
  {
    blank := [];
    for i := 0 to |normalized|
      invariant forall p :: p in blank <==> 1 <= p <= i && normalized[p - 1] == ""
    {
      if normalized[i] == "" {
        blank := blank + [i + 1];
      }
    }
    if "" in normalized {
      var i :| 0 <= i < |normalized| && normalized[i] == "";
      assert i + 1 in blank;
    }
    assert blank != [] ==> blank[0] in blank;
  }

  /** Every name that is repeated, once. */
  method FindDuplicates(normalized: Row) returns (duplicates: seq<string>)
    ensures Distinct(duplicates) && forall name :: name in duplicates <==> Repeated(normalized, |normalized|, name)
    ensures duplicates == [] <==> Distinct(normalized)
  {
    var seen: set<string>;
    seen, duplicates := {}, [];
    for i := 0 to |normalized|
      invariant forall name :: name in seen <==> name in normalized[..i]
      invariant Distinct(duplicates) && forall name :: name in duplicates <==> Repeated(normalized, i, name)
    {
      var column := normalized[i];
      assert column in normalized[..i] ==> exists k :: 0 <= k < i && normalized[k] == column;
      if column in seen && column !in duplicates {
        duplicates := duplicates + [column];
      }
      seen := seen + {column};
    }
    assert duplicates != [] ==> duplicates[0] in duplicates;
    assert forall i, j :: 0 <= i < j < |normalized| && normalized[i] == normalized[j] ==> normalized[i] in duplicates;
  }

  ghost predicate ValidHeader(header: Row) {
    header != [] && "" !in Stripped(header) && Distinct(Stripped(header))
  }

  /** What is wrong with a header, in the order of the checks. */
  ghost predicate IsHeaderProblem(problem: Outcome, header: Row) {
    var columns := Stripped(header);
    if header == [] then problem == EmptyHeader
    else if "" in columns then
      problem.BlankColumns? && forall p :: p in problem.positions <==> 1 <= p <= |columns| && columns[p - 1] == ""
    else
      problem.DuplicateColumns? && Distinct(problem.names)
      && forall name :: name in problem.names <==> Repeated(columns, |columns|, name)
  }

  /** `_validate_header` */
  method ValidateHeader(header: Row) returns (problem: Option<Outcome>)
    ensures problem == None <==> ValidHeader(header)
    ensures problem.Some? ==> IsHeaderProblem(problem.value, header)
  {
    if header == [] {
      return Some(EmptyHeader);
    }
    var blank := FindBlanks(Stripped(header));
    if blank != [] {
      return Some(BlankColumns(blank));
    }
    var duplicates := FindDuplicates(Stripped(header));
    return if duplicates != [] then Some(DuplicateColumns(duplicates)) else None;
  }

  // --------------------------------------------------------- what a summary says

  /** The columns at the positions that `keep` accepts, among the first `n`. */
  function Kept(columns: seq<string>, keep: nat -> bool, n: nat): seq<string>
    requires n <= |columns|
  {
    if n == 0 then [] else Kept(columns, keep, n - 1) + (if keep(n - 1) then [columns[n - 1]] else [])
  }

  lemma {:induction false} KeptMembers(columns: seq<string>, keep: nat -> bool, n: nat, c: nat)
    requires Distinct(columns) && n <= |columns| && c < |columns|
    ensures columns[c] in Kept(columns, keep, n) <==> c < n && keep(c)
  {
    if n > 0 {
      KeptMembers(columns, keep, n - 1, c);
    }
  }

  lemma {:induction false} KeptIsFromColumns(columns: seq<string>, keep: nat -> bool, n: nat,
                                             name: string) returns (c: nat)
    requires n <= |columns| && name in Kept(columns, keep, n)
    ensures c < n && columns[c] == name && keep(c)
  {
    if keep(n - 1) && columns[n - 1] == name {
      c := n - 1;
    } else {
      c := KeptIsFromColumns(columns, keep, n - 1, name);
    }
  }

  ghost function NumericAt(reader: Reader, rows: seq<Row>): nat -> bool {
    (c: nat) => NumericColumn(reader, rows, c)
  }

  /** Numeric and text columns divide the header between them. */
  lemma {:induction false} ColumnsArePartitioned(reader: Reader, rows: seq<Row>, columns: seq<string>, c: nat)
    requires Distinct(columns) && c < |columns|
    ensures var numeric := NumericAt(reader, rows);
            columns[c] in Kept(columns, numeric, |columns|) <==>
            columns[c] !in Kept(columns, (d: nat) => !numeric(d), |columns|)
  {
    KeptMembers(columns, NumericAt(reader, rows), |columns|, c);
    KeptMembers(columns, (d: nat) => !NumericAt(reader, rows)(d), |columns|, c);
  }

  /** The cells of a row as the preview shows them, each with its column. */
  function Shown(columns: seq<string>, row: Row): (r: seq<(string, string)>)
    ensures |r| == |columns|
  {
    seq(|columns|, c requires 0 <= c < |columns| => (columns[c], Truncated(if c < |row| then row[c] else "")))
  }

  function PreviewRow(columns: seq<string>, row: Row): map<string, string> {
    Table(Shown(columns, row))
  }

  /** A preview row has exactly the columns, each with its cell, cut to its length. */
  lemma {:induction false} PreviewRowExact(columns: seq<string>, row: Row, c: nat)
    requires Distinct(columns) && c < |columns|
    ensures var preview := PreviewRow(columns, row);
            && (forall name :: name in preview ==> name in columns)
            && columns[c] in preview && preview[columns[c]] == Truncated(if c < |row| then row[c] else "")
  {
    var shown := Shown(columns, row);
    TableKeys(shown);
    assert shown[c] in shown && shown[c].0 == columns[c];
    TableLookup(shown, columns[c], shown[c].1);
  }

  // ----------------------------------------------------------------- counters

  /** The dictionaries the pass updates, keyed by column. */
  datatype Tally = Tally(
    missing: map<string, nat>, numbers: map<string, seq<real>>, present: map<string, nat>, texts: map<string, nat>)

  /** The counters of column `c` cover the first `n` rows. */
  ghost predicate Counts(t: Tally, reader: Reader, columns: seq<string>, rows: seq<Row>, n: nat, c: nat)
    requires n <= |rows| && c < |columns|
  {
    var column := columns[c];
    && column in t.missing && t.missing[column] == MissingCount(reader, rows, n, c)
    && column in t.numbers && t.numbers[column] == Numbers(reader, rows, n, c)
    && column in t.present && t.present[column] == n - MissingCount(reader, rows, n, c)
    && column in t.texts && t.texts[column] == TextCount(reader, rows, n, c)
  }

  ghost predicate CountsAll(t: Tally, reader: Reader, columns: seq<string>, rows: seq<Row>, n: nat)
    requires n <= |rows|
  {
    && t.missing.Keys == (set c | 0 <= c < |columns| :: columns[c])
    && forall c :: 0 <= c < |columns| ==> Counts(t, reader, columns, rows, n, c)
  }

  method StartTally(reader: Reader, columns: seq<string>, rows: seq<Row>) returns (t: Tally)
    ensures CountsAll(t, reader, columns, rows, 0)
  {
    var names := set c | 0 <= c < |columns| :: columns[c];
    t := Tally(map name | name in names :: 0, map name | name in names :: [],
               map name | name in names :: 0, map name | name in names :: 0);
  }

  /** One cell. */
  method AddCell(reader: Reader, columns: seq<string>, rows: seq<Row>, n: nat, c: nat, value: string,
                 t: Tally) returns (r: Tally)
    requires n < |rows| && c < |columns| && value == Cell(rows, n, c) && Counts(t, reader, columns, rows, n, c)
    ensures Counts(r, reader, columns, rows, n + 1, c)
    ensures r.missing.Keys == t.missing.Keys
    ensures forall d, m: nat :: 0 <= d < |columns| && columns[d] != columns[c] && m <= |rows| ==>
              (Counts(r, reader, columns, rows, m, d) <==> Counts(t, reader, columns, rows, m, d))
  {
    var column := columns[c];
    if reader.missing(value) {
      return t.(missing := t.missing[column := t.missing[column] + 1]);
    }
    r := t.(present := t.present[column := t.present[column] + 1]);
    var number := reader.parse(value);
    if number.None? {
      r := r.(texts := r.texts[column := r.texts[column] + 1]);
    } else {
      r := r.(numbers := r.numbers[column := r.numbers[column] + [number.value]]);
    }
  }

  method AddRow(reader: Reader, columns: seq<string>, rows: seq<Row>, n: nat, t: Tally) returns (r: Tally)
    requires Distinct(columns) && n < |rows| && CountsAll(t, reader, columns, rows, n)
    ensures CountsAll(r, reader, columns, rows, n + 1)
  {
    r := t;
    var cells := Normal(rows[n], |columns|);
    ghost var next := n + 1;
    for c := 0 to |columns|
      invariant r.missing.Keys == t.missing.Keys
      invariant forall d :: 0 <= d < c ==> Counts(r, reader, columns, rows, next, d)
      invariant forall d :: c <= d < |columns| ==> Counts(r, reader, columns, rows, n, d)
    {
      r := AddCell(reader, columns, rows, n, c, cells[c], r);
    }
  }

  // ------------------------------------------------------------------ results

  method NumericColumns(reader: Reader, columns: seq<string>, rows: seq<Row>, t: Tally) returns (r: seq<string>)
    requires CountsAll(t, reader, columns, rows, |rows|)
    ensures r == Kept(columns, NumericAt(reader, rows), |columns|)
  {
    r := [];
    for c := 0 to |columns|
      invariant r == Kept(columns, NumericAt(reader, rows), c)
    {
      assert Counts(t, reader, columns, rows, |rows|, c);
      CountersDecide(reader, rows, c);
      if t.present[columns[c]] > 0 && t.texts[columns[c]] == 0 {
        r := r + [columns[c]];
      }
    }
  }

  method TextColumns(columns: seq<string>, numeric: seq<string>, ghost keep: nat -> bool) returns (r: seq<string>)
    requires Distinct(columns) && numeric == Kept(columns, keep, |columns|)
    ensures r == Kept(columns, (c: nat) => !keep(c), |columns|)
  {
    r := [];
    for c := 0 to |columns|
      invariant r == Kept(columns, (d: nat) => !keep(d), c)
    {
      KeptMembers(columns, keep, |columns|, c);
      if columns[c] !in numeric {
        r := r + [columns[c]];
      }
    }
  }

  ghost predicate StatsAreRight(stats: map<string, Stats>, reader: Reader, columns: seq<string>, rows: seq<Row>) {
    forall c :: 0 <= c < |columns| && columns[c] in stats ==>
      && Numbers(reader, rows, |rows|, c) != []
      && stats[columns[c]] == StatsOf(Numbers(reader, rows, |rows|, c), MissingCount(reader, rows, |rows|, c))
  }

  lemma {:induction false} StatsAdded(stats: map<string, Stats>, reader: Reader, columns: seq<string>, rows: seq<Row>,
                                      c: nat)
    requires Distinct(columns) && c < |columns| && StatsAreRight(stats, reader, columns, rows)
    requires Numbers(reader, rows, |rows|, c) != []
    ensures var added := StatsOf(Numbers(reader, rows, |rows|, c), MissingCount(reader, rows, |rows|, c));
            StatsAreRight(stats[columns[c] := added], reader, columns, rows)
  {
  }

  method Statistics(reader: Reader, columns: seq<string>, rows: seq<Row>, t: Tally,
                    numeric: seq<string>) returns (stats: map<string, Stats>)
    requires Distinct(columns) && CountsAll(t, reader, columns, rows, |rows|)
    requires numeric == Kept(columns, NumericAt(reader, rows), |columns|)
    ensures forall name :: name in stats <==> name in numeric
    ensures StatsAreRight(stats, reader, columns, rows)
  {
    stats := map[];
    for k := 0 to |numeric|
      invariant forall name :: name in stats <==> name in numeric[..k]
      invariant StatsAreRight(stats, reader, columns, rows)
    {
      var column := numeric[k];
      ghost var c := KeptIsFromColumns(columns, NumericAt(reader, rows), |columns|, column);
      assert Counts(t, reader, columns, rows, |rows|, c);
      CountersDecide(reader, rows, c);
      StatsAdded(stats, reader, columns, rows, c);
      stats := stats[column := StatsOf(t.numbers[column], t.missing[column])];
      assert numeric[..k + 1] == numeric[..k] + [column];
    }
  }

  // ---------------------------------------------------------------- the pass

  /** The preview holds the first rows, at most `limit` of them. */
  ghost predicate Previews(preview: seq<map<string, string>>, columns: seq<string>, rows: seq<Row>, n: nat, limit: int)
    requires Distinct(columns) && n <= |rows|
  {
    && |preview| == (if limit <= 0 then 0 else if limit < n then limit else n)
    && forall i :: 0 <= i < |preview| ==> preview[i] == PreviewRow(columns, rows[i])
  }

  /** The kind of a row whose length is not that of the header. */
  function Misfit(row: Row, width: nat): Option<Warning> {
    if |row| < width then Some(ShorterRows) else if |row| > width then Some(LongerRows) else None
  }

  /** The warnings of the first `n` rows: each kind of misfit once, where it first occurs. */
  function RowWarnings(rows: seq<Row>, width: nat, n: nat): seq<Warning>
    requires n <= |rows|
  {
    if n == 0 then []
    else
      var before, misfit := RowWarnings(rows, width, n - 1), Misfit(rows[n - 1], width);
      if misfit.Some? && misfit.value !in before then before + [misfit.value] else before
  }

  /** A kind of misfit is warned of exactly when some row has it, once, and the kind
      that occurs first is named first. */
  lemma {:induction false} RowWarningsMean(rows: seq<Row>, width: nat, n: nat)
    requires n <= |rows|
    ensures var warnings := RowWarnings(rows, width, n);
            && |warnings| <= 2
            && (ShorterRows in warnings <==> exists i :: 0 <= i < n && |rows[i]| < width)
            && (LongerRows in warnings <==> exists i :: 0 <= i < n && |rows[i]| > width)
            && (forall w :: w in warnings ==> w.ShorterRows? || w.LongerRows?)
            && (|warnings| == 2 ==> warnings[0] != warnings[1])
            && (warnings != [] ==>
                  exists i :: 0 <= i < n && (if warnings[0].ShorterRows? then |rows[i]| < width else |rows[i]| > width)
                              && forall j :: 0 <= j < i ==> |rows[j]| == width)
  {
    if n > 0 {
      RowWarningsMean(rows, width, n - 1);
      var before, misfit := RowWarnings(rows, width, n - 1), Misfit(rows[n - 1], width);
      if |before| == 2 {
        assert before[0] in before && before[1] in before;
      } else if before == [] && misfit.Some? {
        forall j | 0 <= j < n - 1
          ensures |rows[j]| == width
        {
          assert ShorterRows !in before && LongerRows !in before;
        }
      }
    }
  }

  /** The summary of the table read through `reader`. */
  ghost predicate Describes(s: Summary, reader: Reader, columns: seq<string>, rows: seq<Row>, previewLimit: int,
                            given: seq<Warning>)
    requires Distinct(columns)
  {
    var n, numeric := |rows|, NumericAt(reader, rows);
    && s.rowCount == n && s.columns == columns
    && (forall name :: name in s.missing <==> name in columns)
    && (forall c :: 0 <= c < |columns| ==>
          columns[c] in s.missing && s.missing[columns[c]] == MissingCount(reader, rows, n, c))
    && s.numericColumns == Kept(columns, numeric, |columns|)
    && s.textColumns == (if n > 0 then Kept(columns, (c: nat) => !numeric(c), |columns|) else [])
    && (forall name :: name in s.stats <==> name in s.numericColumns)
    && StatsAreRight(s.stats, reader, columns, rows)
    && Previews(s.preview, columns, rows, n, previewLimit)
    && s.warnings == given + RowWarnings(rows, |columns|, n) + (if n == 0 then [NoDataRows] else [])
  }

  method PreviewNext(columns: seq<string>, rows: seq<Row>, n: nat, limit: int, preview: seq<map<string, string>>)
    returns (r: seq<map<string, string>>)
    requires Distinct(columns) && n < |rows| && Previews(preview, columns, rows, n, limit)
    ensures Previews(r, columns, rows, n + 1, limit)
  {
    r := preview;
    if |preview| < limit {
      var row := PreviewRow(columns, rows[n]);
      r := preview + [row];
    }
  }

  /** The loop's list of warnings and its two flags. */
  ghost predicate Warns(warnings: seq<Warning>, shorter: bool, longer: bool, given: seq<Warning>, rows: seq<Row>,
                        width: nat, n: nat)
    requires n <= |rows|
  {
    var added := RowWarnings(rows, width, n);
    warnings == given + added && (shorter <==> ShorterRows in added) && (longer <==> LongerRows in added)
  }

  method WarnNext(warnings: seq<Warning>, shorter: bool, longer: bool, ghost given: seq<Warning>, rows: seq<Row>,
                  width: nat, n: nat)
    returns (warnings': seq<Warning>, shorter': bool, longer': bool)
    requires n < |rows| && Warns(warnings, shorter, longer, given, rows, width, n)
    ensures Warns(warnings', shorter', longer', given, rows, width, n + 1)
  {
    warnings', shorter', longer' := warnings, shorter, longer;
    if |rows[n]| < width && !shorter {
      warnings', shorter' := warnings' + [ShorterRows], true;
    }
    if |rows[n]| > width && !longer {
      warnings', longer' := warnings' + [LongerRows], true;
    }
  }

  /** The loop over the rows; `read` rows were taken, one too many when it stopped early. */
  method ReadRows(reader: Reader, columns: seq<string>, rows: seq<Row>, maxRows: int, previewLimit: int,
                  given: seq<Warning>)
    returns (read: nat, tally: Tally, preview: seq<map<string, string>>, warnings: seq<Warning>)
    requires Distinct(columns)
    ensures read == (if rows == [] || |rows| <= maxRows then |rows| else if maxRows < 0 then 1 else maxRows + 1)
    ensures rows == [] || |rows| <= maxRows ==>
              && CountsAll(tally, reader, columns, rows, |rows|)
              && Previews(preview, columns, rows, |rows|, previewLimit)
              && warnings == given + RowWarnings(rows, |columns|, |rows|)
  {
    tally := StartTally(reader, columns, rows);
    var shorter, longer := false, false;
    preview, warnings := [], given;
    read := 0;
    for n := 0 to |rows|
      invariant read == n && (n > 0 ==> n <= maxRows)
      invariant CountsAll(tally, reader, columns, rows, n)
      invariant Previews(preview, columns, rows, n, previewLimit)
      invariant Warns(warnings, shorter, longer, given, rows, |columns|, n)
    {
      read := read + 1;
      if read > maxRows {
        return;
      }
      warnings, shorter, longer := WarnNext(warnings, shorter, longer, given, rows, |columns|, n);
      preview := PreviewNext(columns, rows, n, previewLimit, preview);
      tally := AddRow(reader, columns, rows, n, tally);
    }
  }

  /** The result of a pass that took all rows. */
  method Conclude(reader: Reader, columns: seq<string>, rows: seq<Row>, previewLimit: int, tally: Tally,
                  preview: seq<map<string, string>>, warnings: seq<Warning>, ghost given: seq<Warning>)
    returns (s: Summary)
    requires Distinct(columns) && CountsAll(tally, reader, columns, rows, |rows|)
    requires Previews(preview, columns, rows, |rows|, previewLimit)
    requires warnings == given + RowWarnings(rows, |columns|, |rows|)
    ensures Describes(s, reader, columns, rows, previewLimit, given)
  {
    var final := warnings;
    if rows == [] {
      final := final + [NoDataRows];
    }
    var numeric := NumericColumns(reader, columns, rows, tally);
    var text := [];
    if rows != [] {
      text := TextColumns(columns, numeric, NumericAt(reader, rows));
    }
    var stats := Statistics(reader, columns, rows, tally, numeric);
    s := Summary(|rows|, columns, numeric, text, tally.missing, preview, stats, final);
    forall c | 0 <= c < |columns|
      ensures columns[c] in tally.missing && tally.missing[columns[c]] == MissingCount(reader, rows, |rows|, c)
    {
      assert Counts(tally, reader, columns, rows, |rows|, c);
    }
  }

  /** `_summarize_table_rows` for any way of reading cells: one pass that stops at the
      first row over the limit. */
  method Summarize(reader: Reader, header: Row, rows: seq<Row>, maxRows: int, previewLimit: int, given: seq<Warning>)
    returns (r: Outcome)
    ensures !ValidHeader(header) ==> IsHeaderProblem(r, header)
    ensures ValidHeader(header) && rows != [] && |rows| > maxRows ==>
              r == TooManyRows(if maxRows < 0 then 1 else maxRows + 1)
    ensures ValidHeader(header) && !(rows != [] && |rows| > maxRows) ==>
              r.Summarized? && Describes(r.summary, reader, Stripped(header), rows, previewLimit, given)
  {
    var problem := ValidateHeader(header);
    if problem.Some? {
      return problem.value;
    }
    var columns := Stripped(header);
    var read, tally, preview, warnings := ReadRows(reader, columns, rows, maxRows, previewLimit, given);
    if read > 0 && read > maxRows {
      return TooManyRows(read);
    }
    var summary := Conclude(reader, columns, rows, previewLimit, tally, preview, warnings, given);
    return Summarized(summary);
  }

  /** Some cell of the column is no missing-value token, and every such cell, stripped,
      is a number. */
  ghost predicate HasOnlyNumbers(parse: string -> Option<real>, rows: seq<Row>, c: nat) {
    && (exists i :: 0 <= i < |rows| && !IsMissing(Cell(rows, i, c)))
    && (forall i :: 0 <= i < |rows| ==> IsMissing(Cell(rows, i, c)) || parse(Strip(Cell(rows, i, c))).Some?)
  }

  lemma {:induction false} NumericInSource(parse: string -> Option<real>, rows: seq<Row>, c: nat)
    ensures NumericColumn(SourceReader(parse), rows, c) <==> HasOnlyNumbers(parse, rows, c)
  {
  }

  /** `_summarize_table_rows`. A column is numeric exactly when one of its cells is
      not a missing-value token and every such cell, stripped, is a finite number. */
  method SummarizeTableRows(parse: string -> Option<real>, header: Row, rows: seq<Row>, maxRows: int, previewLimit: int,
                            given: seq<Warning>)
    returns (r: Outcome)
    ensures r.Summarized? <==> ValidHeader(header) && (rows == [] || |rows| <= maxRows)
    ensures r.Summarized? ==>
              var columns := Stripped(header);
              && Describes(r.summary, SourceReader(parse), columns, rows, previewLimit, given)
              && forall c :: 0 <= c < |columns| ==>
                   (columns[c] in r.summary.numericColumns <==> HasOnlyNumbers(parse, rows, c))
  {
    var reader, columns := SourceReader(parse), Stripped(header);
    r := Summarize(reader, header, rows, maxRows, previewLimit, given);
    if r.Summarized? {
      forall c | 0 <= c < |columns|
        ensures columns[c] in r.summary.numericColumns <==> HasOnlyNumbers(parse, rows, c)
      {
        KeptMembers(columns, NumericAt(reader, rows), |columns|, c);
        NumericInSource(parse, rows, c);
      }
    }
  }
}
