/** The input table of `specificDatesRetrieval` and what is derived from it
    before any remote call: column resolution, valid rows, the time-window
    expansion, site identity and each site's demand dates. */
module Demand {
  import opened Wrappers
  import opened Registry
  import opened PyText
  import Utils

  /** A cell of the input table: missing (NaN/None), text, a number (kept as
      the text `str()` gives it) or a calendar date. */
  datatype Cell = Missing | Text(text: string) | Num(repr: string) | Day(day: Date)

  /** `str(cell)`. Dates only occur in the date columns; for them the model uses
      an injective stand-in rather than the ISO text. */
  function Str(c: Cell): string
  {
    match c
    case Missing => "nan"
    case Text(s) => s
    case Num(r) => r
    case Day(d) => if d < 0 then "day-" + DecimalString(-d) else "day" + DecimalString(d)
  }

  predicate Rectangular(rows: seq<seq<Cell>>, width: nat)
  {
    forall i :: 0 <= i < |rows| ==> |rows[i]| == width
  }

  /** Column positions; -1 stands for "no such column". */
  datatype Layout = Layout(dateCol: int, idCol: int, latCol: int, longCol: int)

  /** The defaults of `specificDatesRetrieval`'s signature. */
  const DefaultLayout: Layout := Layout(0, 1, 2, 3)

  datatype InputError =
    | NoDataRows | TooFewColumns | TooFewColumnsKml | BadDateValues
    | NeedLatLong | UnknownIdColumn | LatLongNotNumeric | NoValidRows

  /** `colnames.index(x)`, None for the ValueError. */
  function IndexOf(names: seq<string>, x: string): (r: Option<nat>)
    ensures r.Some? ==> r.value < |names| && names[r.value] == x && x !in names[..r.value]
    ensures r.None? <==> x !in names
  {
    if names == [] then None
    else if names[0] == x then Some(0)
    else match IndexOf(names[1..], x)
      case None => None
      case Some(i) =>
        assert names[..i + 1] == [names[0]] + names[1..][..i];
        Some(i + 1)
  }

  /** The position of the column named `x`, otherwise `fallback`. */
  function ColumnIndex(names: seq<string>, x: string, fallback: int): (r: int)
    ensures x in names ==> 0 <= r < |names| && names[r] == x && x !in names[..r]
    ensures x !in names ==> r == fallback
  {
    match IndexOf(names, x)
    case Some(i) => i
    case None => fallback
  }

  predicate DateColumnParses(rows: seq<seq<Cell>>, col: nat)
  {
    forall i :: 0 <= i < |rows| && col < |rows[i]| ==> rows[i][col].Missing? || rows[i][col].Day?
  }

  /** `is_numeric_dtype`: every present value is a number. */
  predicate NumericColumn(rows: seq<seq<Cell>>, col: nat)
  {
    forall i :: 0 <= i < |rows| && col < |rows[i]| ==> rows[i][col].Missing? || rows[i][col].Num?
  }

  /** A resolved layout: the date column exists; KML sites have an id column;
      point sites have latitude and longitude columns. */
  predicate LayoutFits(l: Layout, ncols: nat, kml: bool)
  {
    0 <= l.dateCol < ncols &&
    -1 <= l.idCol < ncols && -1 <= l.latCol < ncols && -1 <= l.longCol < ncols &&
    (kml ==> l.idCol >= 0) &&
    (!kml ==> 0 <= l.latCol && 0 <= l.longCol) &&
    (l.idCol >= 0 ==> l.idCol != l.dateCol && l.idCol != l.latCol && l.idCol != l.longCol)
  }

  /** Lines 1822-1842: there is a data row, and at least three columns (two
      for KML sites). */
  predicate SizesAccepted(colnames: seq<string>, rows: seq<seq<Cell>>, kml: bool)
  {
    |rows| >= 1 && |colnames| >= (if kml then 2 else 3)
  }

  /** Lines 1844-1848: the column named "date", otherwise the first. */
  function DateColumnOf(colnames: seq<string>): nat
  {
    match IndexOf(colnames, "date")
    case Some(i) => i
    case None => 0
  }

  /** Lines 1868-1875: a point table of fewer than four columns that names an
      id column has no room left for latitude and longitude. */
  predicate NeedsLatLong(colnames: seq<string>, kml: bool)
  {
    "id" in colnames && |colnames| < 4 && !kml
  }

  /** Lines 1860-1867: the column named "id"; otherwise the second, or none
      in a point table of fewer than four columns. */
  function IdColumnOf(colnames: seq<string>, kml: bool): int
  {
    ColumnIndex(colnames, "id", if |colnames| < 4 && !kml then -1 else 1)
  }

  /** Lines 1864-1867, 1877-1889: the columns named "lat" and "long"; otherwise none for
      KML sites, and for point sites the third and fourth, or the second and
      third when a table of fewer than four columns has no id column. */
  function LatColumnOf(colnames: seq<string>, kml: bool): int
  {
    ColumnIndex(colnames, "lat", if kml then -1 else if "id" !in colnames && |colnames| < 4 then 1 else 2)
  }

  function LongColumnOf(colnames: seq<string>, kml: bool): int
  {
    ColumnIndex(colnames, "long", if kml then -1 else if "id" !in colnames && |colnames| < 4 then 2 else 3)
  }

  /** Lines 1891-1899: the id column is one of the others. */
  predicate IdClashes(colnames: seq<string>, kml: bool)
  {
    var id := IdColumnOf(colnames, kml);
    id == DateColumnOf(colnames) || id == LatColumnOf(colnames, kml) || id == LongColumnOf(colnames, kml)
  }

  /** Lines 1901-1907: both coordinate columns of a point table are numeric. */
  predicate PointsNumeric(colnames: seq<string>, rows: seq<seq<Cell>>)
  {
    var lat := LatColumnOf(colnames, false);
    var long := LongColumnOf(colnames, false);
    0 <= lat && 0 <= long && NumericColumn(rows, lat) && NumericColumn(rows, long)
  }

  /** Lines 1817-1907: the size checks, then the position of each column,
      looked up by its (lower-cased) name and otherwise defaulted. */
  function ResolveColumns(colnames: seq<string>, rows: seq<seq<Cell>>, kml: bool): (r: Result<Layout, InputError>)
    requires Rectangular(rows, |colnames|)
    ensures r.Ok? ==> LayoutFits(r.value, |colnames|, kml) && |rows| >= 1
    ensures r.Ok? ==> DateColumnParses(rows, r.value.dateCol)
    ensures r.Ok? && !kml ==> NumericColumn(rows, r.value.latCol) && NumericColumn(rows, r.value.longCol)
    ensures r.Ok? && "date" in colnames ==> colnames[r.value.dateCol] == "date"
    ensures r.Ok? && r.value.idCol >= 0 && "id" in colnames ==> colnames[r.value.idCol] == "id"
    ensures r.Ok? && "lat" in colnames ==> 0 <= r.value.latCol < |colnames| && colnames[r.value.latCol] == "lat"
    ensures r.Ok? && "long" in colnames ==> 0 <= r.value.longCol < |colnames| && colnames[r.value.longCol] == "long"
    ensures |rows| < 1 ==> r == Err(NoDataRows)
  {
    var ncols := |colnames|;
    if |rows| < 1 then Err(NoDataRows)
    else if ncols < 3 && !kml then Err(TooFewColumns)
    else if ncols < 2 && kml then Err(TooFewColumnsKml)
    else
      var dateCol := ColumnIndex(colnames, "date", DefaultLayout.dateCol);
      if !DateColumnParses(rows, dateCol) then Err(BadDateValues)
      else
        var hasId := IndexOf(colnames, "id");
        if hasId.Some? && ncols < 4 && !kml then Err(NeedLatLong)
        else
          var (idCol, lat0, long0) :=
            if hasId.Some? then (hasId.value as int, DefaultLayout.latCol, DefaultLayout.longCol)
            else if ncols < 4 && !kml then (-1, DefaultLayout.latCol - 1, DefaultLayout.longCol - 1)
            else (DefaultLayout.idCol, DefaultLayout.latCol, DefaultLayout.longCol);
          var latCol := ColumnIndex(colnames, "lat", if kml then -1 else lat0);
          var longCol := ColumnIndex(colnames, "long", if kml then -1 else long0);
          if (idCol == dateCol || idCol == latCol || idCol == longCol) && kml then Err(UnknownIdColumn)
          else
            var idCol' := if idCol == dateCol || idCol == latCol || idCol == longCol then -1 else idCol;
            if !kml && (!NumericColumn(rows, latCol) || !NumericColumn(rows, longCol)) then Err(LatLongNotNumeric)
            else Ok(Layout(dateCol, idCol', latCol, longCol))
  }

  /** Lines 1817-1907, check by check: each failing check, in the order the
      source makes them, gives its own error; a table that passes them all is
      accepted, with its columns found by name and otherwise defaulted. */
  lemma ResolveColumnsOutcome(colnames: seq<string>, rows: seq<seq<Cell>>, kml: bool)
    requires Rectangular(rows, |colnames|)
    ensures var r := ResolveColumns(colnames, rows, kml);
      var sized := SizesAccepted(colnames, rows, kml);
      var dated := sized && DateColumnParses(rows, DateColumnOf(colnames));
      (|rows| >= 1 && |colnames| < 3 && !kml ==> r == Err(TooFewColumns)) &&
      (|rows| >= 1 && |colnames| < 2 && kml ==> r == Err(TooFewColumnsKml)) &&
      (sized && !DateColumnParses(rows, DateColumnOf(colnames)) ==> r == Err(BadDateValues)) &&
      (dated && NeedsLatLong(colnames, kml) ==> r == Err(NeedLatLong)) &&
      (dated && kml && IdClashes(colnames, kml) ==> r == Err(UnknownIdColumn)) &&
      (dated && !kml && !NeedsLatLong(colnames, kml) && !PointsNumeric(colnames, rows) ==> r == Err(LatLongNotNumeric)) &&
      (r.Ok? <==> dated && !NeedsLatLong(colnames, kml) &&
                  (if kml then !IdClashes(colnames, kml) else PointsNumeric(colnames, rows))) &&
      (r.Ok? ==> r.value == Layout(DateColumnOf(colnames),
                                   if IdClashes(colnames, kml) then -1 else IdColumnOf(colnames, kml),
                                   LatColumnOf(colnames, kml), LongColumnOf(colnames, kml)))
  {
    if kml {
      assert !NeedsLatLong(colnames, kml);
    }
  }

  /** A full point table is accepted with the default layout. */
  lemma PointTableAccepted(a: Date)
    ensures ResolveColumns(["date", "id", "lat", "long"],
                           [[Day(a), Text("s1"), Num("-15.5"), Num("-47.8")], [Missing, Text("s2"), Num("3"), Missing]],
                           false) == Ok(Layout(0, 1, 2, 3))
  {
  }

  /** A three-column point table has no id column, and its columns are found
      by name in any order. */
  lemma ShortTableAccepted(a: Date)
    ensures ResolveColumns(["lat", "long", "date"], [[Num("1"), Num("2"), Day(a)]], false) == Ok(Layout(2, -1, 0, 1))
  {
  }

  /** A KML table needs only the date and the id. */
  lemma KmlTableAccepted(a: Date)
    ensures ResolveColumns(["date", "id"], [[Day(a), Text("lake")]], true) == Ok(Layout(0, 1, -1, -1))
  {
  }

  /** A date column holding text that is not a date is refused. */
  lemma UnparsedDateRefused()
    ensures ResolveColumns(["date", "lat", "long"], [[Text("2020-13-45"), Num("1"), Num("2")]], false) == Err(BadDateValues)
  {
    var rows: seq<seq<Cell>> := [[Text("2020-13-45"), Num("1"), Num("2")]];
    assert !rows[0][0].Day?;
  }

  /** Lines 1910-1921: a row is valid when its date and, for point sites, its
      coordinates, or, for KML sites, its id, are present. */
  function ValidityMask(rows: seq<seq<Cell>>, ncols: nat, l: Layout, kml: bool): (m: seq<bool>)
    requires Rectangular(rows, ncols) && LayoutFits(l, ncols, kml)
    ensures |m| == |rows|
  {
    seq(|rows|, i requires 0 <= i < |rows| =>
      !rows[i][l.dateCol].Missing? &&
      (if kml then !rows[i][l.idCol].Missing?
       else !rows[i][l.latCol].Missing? && !rows[i][l.longCol].Missing?))
  }

  // ------------------------------------------------------ time window

  /** `list.insert(k, x)`. */
  function InsertAt<T>(s: seq<T>, k: nat, x: T): (r: seq<T>)
    requires k <= |s|
    ensures |r| == |s| + 1 && r[k] == x
    ensures forall j :: 0 <= j < k ==> r[j] == s[j]
    ensures forall j :: k < j < |r| ==> r[j] == s[j - 1]
  {
    s[..k] + [x] + s[k..]
  }

  /** Lines 1960-1971: `img_date` goes right after the date column, which then
      points at it; the id, lat and long columns behind it move one to the right. */
  function ShiftLayout(l: Layout): Layout
  {
    var d := l.dateCol + 1;
    Layout(d, if d <= l.idCol then l.idCol + 1 else l.idCol,
              if d <= l.latCol then l.latCol + 1 else l.latCol,
              if d <= l.longCol then l.longCol + 1 else l.longCol)
  }

  /** After the insertion every column index still names the same column, and
      the date index names `img_date`. */
  lemma {:induction false} ShiftKeepsColumns(header: seq<string>, l: Layout, kml: bool)
    requires LayoutFits(l, |header|, kml)
    ensures var h := InsertAt(header, l.dateCol + 1, "img_date"); var s := ShiftLayout(l);
      LayoutFits(s, |h|, kml) && h[s.dateCol] == "img_date" &&
      (l.idCol >= 0 ==> h[s.idCol] == header[l.idCol]) &&
      (l.latCol >= 0 ==> h[s.latCol] == header[l.latCol]) &&
      (l.longCol >= 0 ==> h[s.longCol] == header[l.longCol])
  {
  }

  /** The rows one input row becomes: 2*tw+1 copies dated date-tw .. date+tw
      for a valid row, one copy with no `img_date` otherwise. */
  function Block(row: seq<Cell>, valid: bool, dateCol: nat, tw: nat): (b: seq<seq<Cell>>)
    requires dateCol < |row| && (valid ==> row[dateCol].Day?)
    ensures |b| == if valid then 2 * tw + 1 else 1
  {
    if valid then
      seq(2 * tw + 1, w requires 0 <= w < 2 * tw + 1 => InsertAt(row, dateCol + 1, Day(row[dateCol].day - tw + w)))
    else [InsertAt(row, dateCol + 1, Missing)]
  }

  predicate ExpandableRows(rows: seq<seq<Cell>>, validRows: seq<nat>, dateCol: nat)
  {
    (forall i :: 0 <= i < |rows| ==> dateCol < |rows[i]|) &&
    (forall k :: 0 <= k < |validRows| ==> validRows[k] < |rows| && rows[validRows[k]][dateCol].Day?)
  }

  /** The expanded table for the first `n` input rows. */
  function ExpandedRows(rows: seq<seq<Cell>>, validRows: seq<nat>, dateCol: nat, tw: nat, n: nat): seq<seq<Cell>>
    requires n <= |rows| && ExpandableRows(rows, validRows, dateCol)
  {
    if n == 0 then [] else
      ExpandedRows(rows, validRows, dateCol, tw, n - 1) + Block(rows[n - 1], n - 1 in validRows, dateCol, tw)
  }

  /** The m positions from `base` on. */
  function Positions(base: nat, m: nat): (p: seq<nat>)
    ensures |p| == m && forall w :: 0 <= w < m ==> p[w] == base + w
  {
    seq(m, w requires 0 <= w < m => base + w)
  }

  /** `validRows_new` after the first `n` input rows: the positions of the copies of valid rows. */
  function ExpandedValid(rows: seq<seq<Cell>>, validRows: seq<nat>, dateCol: nat, tw: nat, n: nat): seq<nat>
    requires n <= |rows| && ExpandableRows(rows, validRows, dateCol)
  {
    if n == 0 then [] else
      var before := |ExpandedRows(rows, validRows, dateCol, tw, n - 1)|;
      ExpandedValid(rows, validRows, dateCol, tw, n - 1) +
        (if n - 1 in validRows then Positions(before, 2 * tw + 1) else [])
  }

  /** Lines 1933-1975: the row-by-row fill of `tmpDF` with the `row_j` counter. */
  method ExpandTimeWindow(rows: seq<seq<Cell>>, validRows: seq<nat>, dateCol: nat, tw: nat)
      returns (out: seq<seq<Cell>>, validNew: seq<nat>)
    requires ExpandableRows(rows, validRows, dateCol)
    ensures out == ExpandedRows(rows, validRows, dateCol, tw, |rows|)
    ensures validNew == ExpandedValid(rows, validRows, dateCol, tw, |rows|)
  {
    var windowSize := 1 + tw * 2;
    out, validNew := [], [];
    var rowJ := 0;
    for rowI := 0 to |rows|
      invariant out == ExpandedRows(rows, validRows, dateCol, tw, rowI)
      invariant validNew == ExpandedValid(rows, validRows, dateCol, tw, rowI)
      invariant rowJ == |out|
    {
      if rowI in validRows {
        var dateJ := rows[rowI][dateCol].day - tw;
        ghost var start := |out|;
        for windowI := 0 to windowSize
          invariant rowJ == start + windowI && dateJ == rows[rowI][dateCol].day - tw + windowI
          invariant out == ExpandedRows(rows, validRows, dateCol, tw, rowI) +
            Block(rows[rowI], true, dateCol, tw)[..windowI]
          invariant validNew == ExpandedValid(rows, validRows, dateCol, tw, rowI) +
            Positions(start, windowI)
        {
          validNew := validNew + [rowJ];
          out := out + [InsertAt(rows[rowI], dateCol + 1, Day(dateJ))];
          dateJ := dateJ + 1;
          rowJ := rowJ + 1;
        }
        assert Block(rows[rowI], true, dateCol, tw)[..windowSize] == Block(rows[rowI], true, dateCol, tw);
      } else {
        out := out + [InsertAt(rows[rowI], dateCol + 1, Missing)];
        rowJ := rowJ + 1;
      }
    }
  }

  /** Number of valid input rows among the first `n`. */
  function ValidBefore(validRows: seq<nat>, n: nat): nat
  {
    if n == 0 then 0 else ValidBefore(validRows, n - 1) + (if n - 1 in validRows then 1 else 0)
  }

  /** The expanded table has (2*tw+1) rows per valid row and one per other row. */
  lemma {:induction false} ExpandedSize(rows: seq<seq<Cell>>, validRows: seq<nat>, dateCol: nat, tw: nat, n: nat)
    requires n <= |rows| && ExpandableRows(rows, validRows, dateCol)
    ensures ValidBefore(validRows, n) <= n
    ensures |ExpandedRows(rows, validRows, dateCol, tw, n)| ==
      ValidBefore(validRows, n) * (2 * tw + 1) + (n - ValidBefore(validRows, n))
  {
    if n > 0 {
      ExpandedSize(rows, validRows, dateCol, tw, n - 1);
      var valid := n - 1 in validRows;
      var b := Block(rows[n - 1], valid, dateCol, tw);
      assert |ExpandedRows(rows, validRows, dateCol, tw, n)| == |ExpandedRows(rows, validRows, dateCol, tw, n - 1)| + |b|;
      SizeStep(|ExpandedRows(rows, validRows, dateCol, tw, n - 1)|, ValidBefore(validRows, n - 1),
               ValidBefore(validRows, n), 2 * tw + 1, n, valid, |b|);
    }
  }

  /** One more input row adds m rows when it is valid and one otherwise. */
  lemma {:induction false} SizeStep(prevLen: nat, c: nat, v: nat, m: nat, n: nat, valid: bool, bLen: nat)
    requires n > 0 && c <= n - 1 && prevLen == c * m + (n - 1 - c)
    requires v == c + (if valid then 1 else 0) && bLen == (if valid then m else 1)
    ensures v <= n && prevLen + bLen == v * m + (n - v)
  {
    if valid {
      assert (c + 1) * m == c * m + m;
    }
  }

  /** When `validRows` lists distinct rows, all of them are counted. */
  lemma {:induction false} ValidBeforeAll(validRows: seq<nat>, n: nat)
    requires forall j, k :: 0 <= j < k < |validRows| ==> validRows[j] < validRows[k]
    requires forall k :: 0 <= k < |validRows| ==> validRows[k] < n
    ensures ValidBefore(validRows, n) == |validRows|
  {
    if n > 0 {
      if n - 1 in validRows {
        var last := |validRows| - 1;
        assert validRows[last] == n - 1 by {
          var k :| 0 <= k < |validRows| && validRows[k] == n - 1;
          assert validRows[k] <= validRows[last];
        }
        ValidBeforeSame(validRows, validRows[..last], n - 1);
        ValidBeforeAll(validRows[..last], n - 1);
      } else {
        ValidBeforeAll(validRows, n - 1);
      }
    }
  }

  lemma {:induction false} ValidBeforeSame(a: seq<nat>, b: seq<nat>, n: nat)
    requires forall x :: x < n ==> (x in a <==> x in b)
    ensures ValidBefore(a, n) == ValidBefore(b, n)
  {
    if n > 0 { ValidBeforeSame(a, b, n - 1); }
  }

  /** Every expanded row has the extra `img_date` column. */
  lemma {:induction false} ExpandedWidth(rows: seq<seq<Cell>>, validRows: seq<nat>, dateCol: nat, tw: nat, n: nat)
    requires n <= |rows| && ExpandableRows(rows, validRows, dateCol)
    ensures forall x :: 0 <= x < |ExpandedRows(rows, validRows, dateCol, tw, n)| ==>
      dateCol + 1 < |ExpandedRows(rows, validRows, dateCol, tw, n)[x]|
  {
    if n > 0 {
      ExpandedWidth(rows, validRows, dateCol, tw, n - 1);
      var prev := ExpandedRows(rows, validRows, dateCol, tw, n - 1);
      var b := Block(rows[n - 1], n - 1 in validRows, dateCol, tw);
      forall w | 0 <= w < |b| ensures |b[w]| == |rows[n - 1]| + 1 {
        if n - 1 in validRows {
          assert b[w] == InsertAt(rows[n - 1], dateCol + 1, Day(rows[n - 1][dateCol].day - tw + w));
        }
      }
      assert ExpandedRows(rows, validRows, dateCol, tw, n) == prev + b;
    }
  }

  /** Every expanded row is the input row with one cell inserted. */
  lemma {:induction false} ExpandedRectangular(rows: seq<seq<Cell>>, validRows: seq<nat>, dateCol: nat, tw: nat,
                                             n: nat, width: nat)
    requires n <= |rows| && ExpandableRows(rows, validRows, dateCol) && Rectangular(rows, width)
    ensures Rectangular(ExpandedRows(rows, validRows, dateCol, tw, n), width + 1)
  {
    if n > 0 {
      ExpandedRectangular(rows, validRows, dateCol, tw, n - 1, width);
      var prev := ExpandedRows(rows, validRows, dateCol, tw, n - 1);
      var b := Block(rows[n - 1], n - 1 in validRows, dateCol, tw);
      forall w | 0 <= w < |b| ensures |b[w]| == width + 1 {
        if n - 1 in validRows {
          assert b[w] == InsertAt(rows[n - 1], dateCol + 1, Day(rows[n - 1][dateCol].day - tw + w));
        }
      }
      assert ExpandedRows(rows, validRows, dateCol, tw, n) == prev + b;
    }
  }

  /** `v` is strictly ascending and every entry is an index below `bound`. */
  predicate AscendingBelow(v: seq<nat>, bound: nat)
  {
    (forall j, k :: 0 <= j < k < |v| ==> v[j] < v[k]) && (forall k :: 0 <= k < |v| ==> v[k] < bound)
  }

  /** `validRows_new` is ascending and points into the expanded table. */
  lemma {:induction false} ExpandedValidBounded(rows: seq<seq<Cell>>, validRows: seq<nat>, dateCol: nat, tw: nat, n: nat)
    requires n <= |rows| && ExpandableRows(rows, validRows, dateCol)
    ensures AscendingBelow(ExpandedValid(rows, validRows, dateCol, tw, n), |ExpandedRows(rows, validRows, dateCol, tw, n)|)
  {
    if n > 0 {
      ExpandedValidBounded(rows, validRows, dateCol, tw, n - 1);
      ExpansionStep(rows, validRows, dateCol, tw, n);
      AppendPositions(ExpandedValid(rows, validRows, dateCol, tw, n - 1), |ExpandedRows(rows, validRows, dateCol, tw, n - 1)|,
                      2 * tw + 1, n - 1 in validRows);
    }
  }

  /** Appending a block's positions, or a one-row block's nothing, keeps the valid rows ascending and in range. */
  lemma {:induction false} AppendPositions(vprev: seq<nat>, prevLen: nat, m: nat, valid: bool)
    requires AscendingBelow(vprev, prevLen)
    ensures AscendingBelow(vprev + (if valid then Positions(prevLen, m) else []), prevLen + (if valid then m else 1))
  {
    var added: seq<nat> := if valid then Positions(prevLen, m) else [];
    var v := vprev + added;
    forall k | 0 <= k < |v| ensures v[k] < prevLen + (if valid then m else 1) {
      if k >= |vprev| { assert v[k] == added[k - |vprev|]; }
    }
    forall j, k | 0 <= j < k < |v| ensures v[j] < v[k] {
      if k >= |vprev| {
        assert v[k] == added[k - |vprev|];
        if j >= |vprev| { assert v[j] == added[j - |vprev|]; }
      }
    }
  }

  /** Every row of `out` has a column `col`, and `v` lists exactly the rows dated there. */
  ghost predicate DatesMarked(out: seq<seq<Cell>>, v: seq<nat>, col: nat)
  {
    (forall x :: 0 <= x < |out| ==> col < |out[x]|) &&
    (forall x :: x in v <==> 0 <= x < |out| && out[x][col].Day?)
  }

  /** `validRows_new` holds exactly the positions whose `img_date` is present. */
  lemma {:induction false} ExpandedValidExact(rows: seq<seq<Cell>>, validRows: seq<nat>, dateCol: nat, tw: nat, n: nat)
    requires n <= |rows| && ExpandableRows(rows, validRows, dateCol)
    ensures DatesMarked(ExpandedRows(rows, validRows, dateCol, tw, n), ExpandedValid(rows, validRows, dateCol, tw, n), dateCol + 1)
  {
    if n > 0 {
      ExpandedValidExact(rows, validRows, dateCol, tw, n - 1);
      ExpansionStep(rows, validRows, dateCol, tw, n);
      BlockAppendedMarks(ExpandedRows(rows, validRows, dateCol, tw, n - 1), ExpandedValid(rows, validRows, dateCol, tw, n - 1),
                         rows[n - 1], n - 1 in validRows, dateCol, tw);
    }
  }

  /** Appending a row's block and, when it is valid, the block's positions keeps the dates marked. */
  lemma {:induction false} BlockAppendedMarks(prev: seq<seq<Cell>>, vprev: seq<nat>, row: seq<Cell>, valid: bool, dateCol: nat, tw: nat)
    requires DatesMarked(prev, vprev, dateCol + 1)
    requires dateCol < |row| && (valid ==> row[dateCol].Day?)
    ensures DatesMarked(prev + Block(row, valid, dateCol, tw),
                        vprev + (if valid then Positions(|prev|, 2 * tw + 1) else []), dateCol + 1)
  {
    var added: seq<nat> := if valid then Positions(|prev|, 2 * tw + 1) else [];
    BlockMarks(row, valid, dateCol, tw, |prev|);
    ConcatMarks(prev, vprev, Block(row, valid, dateCol, tw), added, dateCol + 1);
  }

  /** Input row n - 1 appends its block to the table and, when valid, the block's positions to `validRows_new`. */
  lemma {:induction false} ExpansionStep(rows: seq<seq<Cell>>, validRows: seq<nat>, dateCol: nat, tw: nat, n: nat)
    requires 0 < n <= |rows| && ExpandableRows(rows, validRows, dateCol)
    ensures var prev := ExpandedRows(rows, validRows, dateCol, tw, n - 1);
      var valid := n - 1 in validRows;
      ExpandedRows(rows, validRows, dateCol, tw, n) == prev + Block(rows[n - 1], valid, dateCol, tw) &&
      ExpandedValid(rows, validRows, dateCol, tw, n) ==
        ExpandedValid(rows, validRows, dateCol, tw, n - 1) + (if valid then Positions(|prev|, 2 * tw + 1) else [])
  {
  }

  /** The copies of a valid row, placed from `base` on, all carry a date; the single copy of another row does not. */
  lemma {:induction false} BlockMarks(row: seq<Cell>, valid: bool, dateCol: nat, tw: nat, base: nat)
    requires dateCol < |row| && (valid ==> row[dateCol].Day?)
    ensures var b := Block(row, valid, dateCol, tw);
      var added: seq<nat> := if valid then Positions(base, 2 * tw + 1) else [];
      (forall w :: 0 <= w < |b| ==> dateCol + 1 < |b[w]|) &&
      (forall x :: x in added ==> base <= x < base + |b|) &&
      (forall w :: 0 <= w < |b| ==> (base + w in added <==> b[w][dateCol + 1].Day?))
  {
    var b: seq<seq<Cell>> := Block(row, valid, dateCol, tw);
    var added: seq<nat> := if valid then Positions(base, 2 * tw + 1) else [];
    forall w: int | 0 <= w < |b| ensures dateCol + 1 < |b[w]| && (base + w in added <==> b[w][dateCol + 1].Day?) {
      if valid {
        assert b[w] == InsertAt(row, dateCol + 1, Day(row[dateCol].day - tw + w));
        assert added[w] == base + w;
      } else {
        assert b[w] == InsertAt(row, dateCol + 1, Missing);
      }
    }
  }

  /** Marking positions of `prev` and then of `b` after it marks the positions of `prev + b`. */
  lemma {:induction false} ConcatMarks(prev: seq<seq<Cell>>, vprev: seq<nat>, b: seq<seq<Cell>>, added: seq<nat>, col: nat)
    requires DatesMarked(prev, vprev, col)
    requires forall w :: 0 <= w < |b| ==> col < |b[w]|
    requires forall x :: x in added ==> |prev| <= x < |prev| + |b|
    requires forall w :: 0 <= w < |b| ==> (|prev| + w in added <==> b[w][col].Day?)
    ensures DatesMarked(prev + b, vprev + added, col)
  {
    var out: seq<seq<Cell>> := prev + b;
    forall x: int | 0 <= x < |out| ensures col < |out[x]| {
      if x < |prev| {
        assert out[x] == prev[x];
      } else {
        assert out[x] == b[x - |prev|];
      }
    }
    forall x: int ensures x in vprev + added <==> 0 <= x < |out| && out[x][col].Day? {
      if 0 <= x < |prev| {
        assert out[x] == prev[x];
      } else if |prev| <= x < |out| {
        assert out[x] == b[x - |prev|];
      }
    }
  }

  /** Each copy of a valid row carries the date `date - tw + w`, w = 0 .. 2*tw,
      and each expanded row is the input row with `img_date` inserted. */
  lemma {:induction false} BlockDates(row: seq<Cell>, dateCol: nat, tw: nat, w: nat)
    requires dateCol < |row| && row[dateCol].Day? && w < 2 * tw + 1
    ensures var c := Block(row, true, dateCol, tw)[w];
      c[dateCol + 1] == Day(row[dateCol].day - tw + w) &&
      c[..dateCol + 1] + c[dateCol + 2..] == row
  {
    var c := Block(row, true, dateCol, tw)[w];
    assert c == InsertAt(row, dateCol + 1, Day(row[dateCol].day - tw + w));
    assert c == row[..dateCol + 1] + [Day(row[dateCol].day - tw + w)] + row[dateCol + 1..];
    assert c[..dateCol + 1] == row[..dateCol + 1];
    assert c[dateCol + 2..] == row[dateCol + 1..];
  }

  // ----------------------------------------------------------------- sites

  /** Lines 1978-1986: a row's site, its id as text, or lat and long concatenated. */
  function SiteKey(row: seq<Cell>, l: Layout): string
    requires l.idCol < |row| && l.latCol < |row| && l.longCol < |row|
    requires l.idCol < 0 ==> 0 <= l.latCol && 0 <= l.longCol
  {
    if l.idCol >= 0 then Str(row[l.idCol]) else Str(row[l.latCol]) + Str(row[l.longCol])
  }

  predicate KeyedRows(rows: seq<seq<Cell>>, l: Layout)
  {
    forall i :: 0 <= i < |rows| ==>
      l.idCol < |rows[i]| && l.latCol < |rows[i]| && l.longCol < |rows[i]| &&
      (l.idCol < 0 ==> 0 <= l.latCol && 0 <= l.longCol)
  }

  function SiteKeys(rows: seq<seq<Cell>>, l: Layout): (keys: seq<string>)
    requires KeyedRows(rows, l)
    ensures |keys| == |rows|
  {
    seq(|rows|, i requires 0 <= i < |rows| => SiteKey(rows[i], l))
  }

  /** `unique()`: distinct values in order of first appearance. */
  function Unique<T(==, !new)>(s: seq<T>): (u: seq<T>)
    ensures forall x :: x in u <==> x in s
    ensures forall j, k :: 0 <= j < k < |u| ==> u[j] != u[k]
  {
    if s == [] then [] else
      var u := Unique(s[..|s| - 1]);
      assert forall x :: x in s <==> x in s[..|s| - 1] || x == s[|s| - 1];
      if s[|s| - 1] in u then u else u + [s[|s| - 1]]
  }

  /** Position of the first occurrence of `x` in `s`. */
  function FirstIndex(s: seq<string>, x: string): (i: nat)
    requires x in s
    ensures i < |s| && s[i] == x && x !in s[..i]
  {
    if s[0] == x then 0 else
      var i := FirstIndex(s[1..], x);
      assert s[..i + 1] == [s[0]] + s[1..][..i];
      i + 1
  }

  /** Sites come in the order of their first appearance. */
  lemma {:induction false} UniqueFirstAppearance(s: seq<string>, j: nat, k: nat)
    requires j < k < |Unique(s)|
    ensures FirstIndex(s, Unique(s)[j]) < FirstIndex(s, Unique(s)[k])
  {
    var p := s[..|s| - 1];
    var last := s[|s| - 1];
    var u := Unique(p);
    FirstIndexPrefix(s, Unique(s)[j]);
    FirstIndexPrefix(s, Unique(s)[k]);
    if last in u {
      UniqueFirstAppearance(p, j, k);
    } else if k < |u| {
      UniqueFirstAppearance(p, j, k);
    } else {
      assert Unique(s)[k] == last && last !in p;
      assert Unique(s)[j] in p;
    }
  }

  lemma {:induction false} FirstIndexPrefix(s: seq<string>, x: string)
    requires s != [] && x in s
    ensures x in s[..|s| - 1] ==> FirstIndex(s, x) == FirstIndex(s[..|s| - 1], x)
    ensures x !in s[..|s| - 1] ==> FirstIndex(s, x) == |s| - 1
  {
    var p := s[..|s| - 1];
    var i := FirstIndex(s, x);
    assert forall j :: 0 <= j < i ==> s[j] != x by {
      forall j | 0 <= j < i ensures s[j] != x { assert s[j] == s[..i][j]; }
    }
    if x in p {
      var i' := FirstIndex(p, x);
      assert s[i'] == x;
      assert forall j :: 0 <= j < i' ==> s[j] != x by {
        forall j | 0 <= j < i' ensures s[j] != x { assert s[j] == p[..i'][j]; }
      }
    } else {
      assert forall j :: 0 <= j < |s| - 1 ==> s[j] != x by {
        forall j | 0 <= j < |s| - 1 ensures s[j] != x { assert s[j] == p[j]; }
      }
    }
  }

  /** Lines 1977-1988: the sites of the valid rows, in first-appearance order. */
  function SiteList(keys: seq<string>, validRows: seq<nat>): (sites: seq<string>)
    requires forall k :: 0 <= k < |validRows| ==> validRows[k] < |keys|
    ensures forall x :: x in sites <==> exists k :: 0 <= k < |validRows| && keys[validRows[k]] == x
  {
    var atValid := seq(|validRows|, k requires 0 <= k < |validRows| => keys[validRows[k]]);
    assert forall x :: x in atValid <==> exists k :: 0 <= k < |validRows| && keys[validRows[k]] == x by {
      forall x ensures x in atValid <==> exists k :: 0 <= k < |validRows| && keys[validRows[k]] == x {
        if x in atValid {
          var k :| 0 <= k < |atValid| && atValid[k] == x;
          assert keys[validRows[k]] == x;
        }
        if exists k :: 0 <= k < |validRows| && keys[validRows[k]] == x {
          var k :| 0 <= k < |validRows| && keys[validRows[k]] == x;
          assert atValid[k] == x;
        }
      }
    }
    Unique(atValid)
  }

  /** Line 2005: the valid rows of one site, ascending. */
  function TargetRows(keys: seq<string>, site: string, validRows: seq<nat>): (t: seq<nat>)
    ensures forall i :: i in t <==> 0 <= i < |keys| && keys[i] == site && i in validRows
    ensures forall j, k :: 0 <= j < k < |t| ==> t[j] < t[k]
  {
    var mask := seq(|keys|, i requires 0 <= i < |keys| => keys[i] == site);
    Utils.IndicesExact(mask);
    FilterIn(Utils.Indices(mask), validRows)
  }

  /** `[i for i in xs if i in ys]`. */
  function FilterIn(xs: seq<nat>, ys: seq<nat>): (r: seq<nat>)
    requires forall j, k :: 0 <= j < k < |xs| ==> xs[j] < xs[k]
    ensures forall i :: i in r <==> i in xs && i in ys
    ensures forall j, k :: 0 <= j < k < |r| ==> r[j] < r[k]
    ensures |xs| > 0 ==> forall k :: 0 <= k < |r| ==> xs[0] <= r[k]
  {
    if xs == [] then []
    else
      var rest := FilterIn(xs[1..], ys);
      assert forall i :: i in xs <==> i == xs[0] || i in xs[1..];
      if xs[0] in ys then [xs[0]] + rest else rest
  }

  // ------------------------------------------------------ demand dates

  predicate StrictlyIncreasing(s: seq<int>)
  {
    forall j, k :: 0 <= j < k < |s| ==> s[j] < s[k]
  }

  /** Insert `x` into a strictly increasing list unless it is already there. */
  function InsertSorted(s: seq<int>, x: int): (r: seq<int>)
    requires StrictlyIncreasing(s)
    ensures StrictlyIncreasing(r)
    ensures forall y :: y in r <==> y in s || y == x
  {
    if s == [] then [x]
    else if x < s[0] then [x] + s
    else if x == s[0] then s
    else
      var t := InsertSorted(s[1..], x);
      assert forall y :: y in s <==> y == s[0] || y in s[1..];
      assert forall k :: 0 <= k < |t| ==> s[0] < t[k] by {
        forall k | 0 <= k < |t| ensures s[0] < t[k] {
          if t[k] != x {
            assert t[k] in t && t[k] in s[1..];
            var i :| 0 <= i < |s[1..]| && s[1..][i] == t[k];
            assert s[i + 1] == t[k];
          }
        }
      }
      [s[0]] + t
  }

  /** `sort_values()` followed by `unique()`: ascending and duplicate-free. */
  function SortedUnique(s: seq<int>): (r: seq<int>)
    ensures StrictlyIncreasing(r)
    ensures forall y :: y in r <==> y in s
  {
    if s == [] then [] else
      var init := SortedUnique(s[..|s| - 1]);
      LastSplit(s);
      InsertSorted(init, s[|s| - 1])
  }

  lemma {:induction false} LastSplit(s: seq<int>)
    requires s != []
    ensures forall y :: y in s <==> y in s[..|s| - 1] || y == s[|s| - 1]
  {
    assert s == s[..|s| - 1] + [s[|s| - 1]];
  }

  /** Lines 2006-2008: a site's demand dates, taken from its target rows. */
  function DateList(rows: seq<seq<Cell>>, targetRows: seq<nat>, dateCol: nat): (dates: seq<Date>)
    requires forall k :: 0 <= k < |targetRows| ==>
      targetRows[k] < |rows| && dateCol < |rows[targetRows[k]]| && rows[targetRows[k]][dateCol].Day?
    ensures StrictlyIncreasing(dates)
    ensures forall d :: d in dates <==> exists k :: 0 <= k < |targetRows| && rows[targetRows[k]][dateCol] == Day(d)
  {
    var ds := seq(|targetRows|, k requires 0 <= k < |targetRows| => rows[targetRows[k]][dateCol].day);
    assert forall d :: d in ds <==> exists k :: 0 <= k < |targetRows| && rows[targetRows[k]][dateCol] == Day(d) by {
      forall d ensures d in ds <==> exists k :: 0 <= k < |targetRows| && rows[targetRows[k]][dateCol] == Day(d) {
        if d in ds {
          var k :| 0 <= k < |ds| && ds[k] == d;
          assert rows[targetRows[k]][dateCol] == Day(d);
        }
        if exists k :: 0 <= k < |targetRows| && rows[targetRows[k]][dateCol] == Day(d) {
          var k :| 0 <= k < |targetRows| && rows[targetRows[k]][dateCol] == Day(d);
          assert ds[k] == d;
        }
      }
    }
    SortedUnique(ds)
  }
}
