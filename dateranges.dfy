/** `toSpecificDatesDF`: a table of date ranges, one site per row, becomes a
    table of specific dates, one row per day of each range. */
module DateRanges {
  import opened Wrappers
  import opened Registry
  import opened PyText
  import opened Demand

  /** The products whose start dates bound every range from below. */
  const SensorProducts: seq<int> := [101, 102, 301, 302, 303, 201]

  datatype RangeError = RangeColumnsPresent | MissingRangeColumns | NoRowConverted

  datatype DatesFrame = DatesFrame(columns: seq<string>, rows: seq<seq<Cell>>)

  /** The header names a range and a site: start and end, and an id or both coordinates. */
  predicate HasRangeColumns(colnames: seq<string>)
  {
    "start_date" in colnames && "end_date" in colnames &&
    ("id" in colnames || ("lat" in colnames && "long" in colnames))
  }

  /** Lines 1698-1706 as written: the exception is raised when the required columns ARE present. */
  function RangeGuardAsWritten(colnames: seq<string>): (r: Result<(), RangeError>)
    ensures r.Err? <==> HasRangeColumns(colnames)
  {
    if ("lat" in colnames && "long" in colnames && "start_date" in colnames && "end_date" in colnames) ||
       ("id" in colnames && "start_date" in colnames && "end_date" in colnames)
    then Err(RangeColumnsPresent) else Ok(())
  }

  /** The guard as written refuses the one header layout the message asks for. */
  lemma {:induction false} WellFormedHeaderRejectedAsWritten()
    ensures RangeGuardAsWritten(["id", "start_date", "end_date"]).Err?
    ensures RangeGuardAsWritten(["lat", "long", "start_date", "end_date"]).Err?
    ensures RangeGuardAsWritten(["start_date", "end_date"]).Ok?
  {
    assert "id" in ["id", "start_date", "end_date"];
    assert "lat" in ["lat", "long", "start_date", "end_date"];
    assert "id" !in ["start_date", "end_date"];
  }

  /** The columns copied into each output row: the index of the id column
      when there is one, then those of lat and long when both are present. */
  function ExportColumns(colnames: seq<string>): (cols: seq<nat>)
    ensures forall k :: 0 <= k < |cols| ==> cols[k] < |colnames| && colnames[cols[k]] in {"id", "lat", "long"}
    ensures "id" in colnames <==> exists k :: 0 <= k < |cols| && colnames[cols[k]] == "id"
    ensures "lat" in colnames && "long" in colnames <==>
      (exists k :: 0 <= k < |cols| && colnames[cols[k]] == "lat") &&
      (exists k :: 0 <= k < |cols| && colnames[cols[k]] == "long")
  {
    var idPart := match IndexOf(colnames, "id") case Some(i) => [i] case None => [];
    var coordPart :=
      match IndexOf(colnames, "lat")
      case None => []
      case Some(la) => match IndexOf(colnames, "long") case None => [] case Some(lo) => [la, lo];
    var cols := idPart + coordPart;
    assert "id" in colnames ==> colnames[cols[0]] == "id";
    assert "lat" in colnames && "long" in colnames ==>
      colnames[cols[|idPart|]] == "lat" && colnames[cols[|idPart| + 1]] == "long";
    cols
  }

  /** `min(today, start date of each product)`; None when a product is not
      registered (the KeyError that the row's `try` swallows). */
  function EarliestSensorDate(reg: Registries, today: Date, ids: seq<int>): (e: Option<Date>)
    ensures e.None? <==> exists k :: 0 <= k < |ids| && ids[k] !in reg.products
    ensures e.Some? ==> e.value <= today
    ensures e.Some? ==> forall k :: 0 <= k < |ids| ==> e.value <= reg.products[ids[k]].startDate
    ensures e.Some? ==> e.value == today || exists k :: 0 <= k < |ids| && e.value == reg.products[ids[k]].startDate
  {
    if ids == [] then Some(today)
    else
      var last := ids[|ids| - 1];
      match EarliestSensorDate(reg, today, ids[..|ids| - 1])
      case None =>
        assert forall k :: 0 <= k < |ids| - 1 ==> ids[..|ids| - 1][k] == ids[k];
        None
      case Some(e) =>
        assert forall k :: 0 <= k < |ids| - 1 ==> ids[..|ids| - 1][k] == ids[k];
        if last !in reg.products then None
        else
          var s := reg.products[last].startDate;
          if s < e then Some(s) else Some(e)
  }

  /** The user's start of a range: "1960-01-01" for a missing, non-text,
      "auto" or blank cell, otherwise the parsed text. */
  function UserStartDate(cell: Cell, toDate: Cell -> Option<Date>): (d: Option<Date>)
    ensures !cell.Text? ==> d == Some(Jan1st1960)
    ensures cell.Text? && Lower(cell.text) == "auto" ==> d == Some(Jan1st1960)
    ensures cell.Text? && ReplaceAll(cell.text, " ", "") == "" ==> d == Some(Jan1st1960)
    ensures cell.Text? && Lower(cell.text) != "auto" && ReplaceAll(cell.text, " ", "") != "" ==> d == toDate(cell)
  {
    if !cell.Text? || Lower(cell.text) == "auto" || ReplaceAll(cell.text, " ", "") == "" then Some(Jan1st1960)
    else toDate(cell)
  }

  /** `pd.date_range(lo, hi)`: every day from lo to hi, both included. */
  function DailyRange(lo: Date, hi: Date): (ds: seq<Date>)
    ensures forall d :: d in ds <==> lo <= d <= hi
    ensures forall k :: 0 <= k < |ds| - 1 ==> ds[k + 1] == ds[k] + 1
    ensures |ds| == if lo <= hi then hi - lo + 1 else 0
    ensures |ds| > 0 ==> ds[0] == lo
    decreases hi - lo
  {
    if lo > hi then [] else [lo] + DailyRange(lo + 1, hi)
  }

  /** Lines 1734-1754: the dates of one row, empty when any part of the
      range cannot be interpreted. */
  function RowDates(row: seq<Cell>, startCol: nat, endCol: nat, reg: Registries, today: Date,
                    toDate: Cell -> Option<Date>): (ds: seq<Date>)
    requires startCol < |row| && endCol < |row|
    ensures forall d :: d in ds <==>
      UserStartDate(row[startCol], toDate).Some? && toDate(row[endCol]).Some? &&
      EarliestSensorDate(reg, today, SensorProducts).Some? &&
      UserStartDate(row[startCol], toDate).value <= d &&
      EarliestSensorDate(reg, today, SensorProducts).value <= d &&
      d <= toDate(row[endCol]).value
    ensures forall k :: 0 <= k < |ds| - 1 ==> ds[k + 1] == ds[k] + 1
  {
    match (UserStartDate(row[startCol], toDate), EarliestSensorDate(reg, today, SensorProducts), toDate(row[endCol]))
    case (Some(user), Some(earliest), Some(end)) =>
      DailyRange(if user < earliest then earliest else user, end)
    case _ => []
  }

  /** The output rows of one input row: its dates beside the exported values. */
  function DatesTable(ds: seq<Date>, row: seq<Cell>, cols: seq<nat>): (t: seq<seq<Cell>>)
    requires forall k :: 0 <= k < |cols| ==> cols[k] < |row|
    ensures |t| == |ds|
  {
    seq(|ds|, i requires 0 <= i < |ds| => [Day(ds[i])] + seq(|cols|, k requires 0 <= k < |cols| => row[cols[k]]))
  }

  function ExportedValues(row: seq<Cell>, cols: seq<nat>): seq<Cell>
    requires forall k :: 0 <= k < |cols| ==> cols[k] < |row|
  {
    seq(|cols|, k requires 0 <= k < |cols| => row[cols[k]])
  }

  predicate RangeRows(rows: seq<seq<Cell>>, startCol: nat, endCol: nat, cols: seq<nat>)
  {
    forall i :: 0 <= i < |rows| ==>
      startCol < |rows[i]| && endCol < |rows[i]| && (forall k :: 0 <= k < |cols| ==> cols[k] < |rows[i]|)
  }

  /** `tmpList` after the first n input rows, concatenated. */
  function Converted(rows: seq<seq<Cell>>, startCol: nat, endCol: nat, cols: seq<nat>,
                     reg: Registries, today: Date, toDate: Cell -> Option<Date>, n: nat): seq<seq<Cell>>
    requires n <= |rows| && RangeRows(rows, startCol, endCol, cols)
  {
    if n == 0 then [] else
      Converted(rows, startCol, endCol, cols, reg, today, toDate, n - 1) +
      DatesTable(RowDates(rows[n - 1], startCol, endCol, reg, today, toDate), rows[n - 1], cols)
  }

  /** The specification of the conversion, with the guard the message describes. */
  function ToSpecificDates(header: seq<string>, rows: seq<seq<Cell>>, reg: Registries, today: Date,
                           toDate: Cell -> Option<Date>): Result<DatesFrame, RangeError>
    requires Rectangular(rows, |header|)
  {
    var colnames := seq(|header|, i requires 0 <= i < |header| => Lower(header[i]));
    if !HasRangeColumns(colnames) then Err(MissingRangeColumns)
    else
      var startCol := IndexOf(colnames, "start_date").value;
      var endCol := IndexOf(colnames, "end_date").value;
      var cols := ExportColumns(colnames);
      var out := Converted(rows, startCol, endCol, cols, reg, today, toDate, |rows|);
      if out == [] then Err(NoRowConverted)
      else Ok(DatesFrame(["date"] + seq(|cols|, k requires 0 <= k < |cols| => header[cols[k]]), out))
  }

  /** Lines 1687-1770 with the guard corrected: the row loop that fills `tmpList`. */
  method ToSpecificDatesDF(header: seq<string>, rows: seq<seq<Cell>>, reg: Registries, today: Date,
                           toDate: Cell -> Option<Date>) returns (r: Result<DatesFrame, RangeError>)
    requires Rectangular(rows, |header|)
    ensures r == ToSpecificDates(header, rows, reg, today, toDate)
  {
    var colnames := seq(|header|, i requires 0 <= i < |header| => Lower(header[i]));
    if !HasRangeColumns(colnames) {
      return Err(MissingRangeColumns);
    }
    var startCol := IndexOf(colnames, "start_date").value;
    var endCol := IndexOf(colnames, "end_date").value;
    var exportColumns := ExportColumns(colnames);
    var tmpList: seq<seq<Cell>> := [];
    for rowI := 0 to |rows|
      invariant tmpList == Converted(rows, startCol, endCol, exportColumns, reg, today, toDate, rowI)
    {
      var dates := RowDates(rows[rowI], startCol, endCol, reg, today, toDate);
      if !(|dates| > 0) {
        continue;
      }
      tmpList := tmpList + DatesTable(dates, rows[rowI], exportColumns);
    }
    if tmpList == [] {
      return Err(NoRowConverted);
    }
    r := Ok(DatesFrame(["date"] + seq(|exportColumns|, k requires 0 <= k < |exportColumns| => header[exportColumns[k]]),
                       tmpList));
  }

  /** One output row per day of each input row's range. */
  function TotalDays(rows: seq<seq<Cell>>, startCol: nat, endCol: nat, cols: seq<nat>,
                     reg: Registries, today: Date, toDate: Cell -> Option<Date>, n: nat): nat
    requires n <= |rows| && RangeRows(rows, startCol, endCol, cols)
  {
    if n == 0 then 0 else
      TotalDays(rows, startCol, endCol, cols, reg, today, toDate, n - 1) +
      |RowDates(rows[n - 1], startCol, endCol, reg, today, toDate)|
  }

  /** An output row made from input row `row`: one of its dates beside its id and coordinates. */
  predicate FromRangeRow(o: seq<Cell>, row: seq<Cell>, startCol: nat, endCol: nat, cols: seq<nat>,
                         reg: Registries, today: Date, toDate: Cell -> Option<Date>)
    requires startCol < |row| && endCol < |row| && forall k :: 0 <= k < |cols| ==> cols[k] < |row|
  {
    |o| == |cols| + 1 && o[0].Day? &&
    o[0].day in RowDates(row, startCol, endCol, reg, today, toDate) &&
    o[1..] == ExportedValues(row, cols)
  }

  /** There is one output row per day of each input row's range. */
  lemma {:induction false} ConvertedCount(rows: seq<seq<Cell>>, startCol: nat, endCol: nat, cols: seq<nat>,
                                reg: Registries, today: Date, toDate: Cell -> Option<Date>, n: nat)
    requires n <= |rows| && RangeRows(rows, startCol, endCol, cols)
    ensures |Converted(rows, startCol, endCol, cols, reg, today, toDate, n)| ==
      TotalDays(rows, startCol, endCol, cols, reg, today, toDate, n)
  {
    if n > 0 {
      ConvertedCount(rows, startCol, endCol, cols, reg, today, toDate, n - 1);
    }
  }

  lemma {:induction false} DatesTableFromRow(row: seq<Cell>, startCol: nat, endCol: nat, cols: seq<nat>,
                          reg: Registries, today: Date, toDate: Cell -> Option<Date>)
    requires startCol < |row| && endCol < |row| && forall k :: 0 <= k < |cols| ==> cols[k] < |row|
    ensures forall o :: o in DatesTable(RowDates(row, startCol, endCol, reg, today, toDate), row, cols) ==>
      FromRangeRow(o, row, startCol, endCol, cols, reg, today, toDate)
  {
    var ds := RowDates(row, startCol, endCol, reg, today, toDate);
    var t := DatesTable(ds, row, cols);
    forall o: seq<Cell> | o in t ensures FromRangeRow(o, row, startCol, endCol, cols, reg, today, toDate) {
      var j :| 0 <= j < |t| && t[j] == o;
      assert o[1..] == ExportedValues(row, cols);
      assert o[0].day == ds[j];
    }
  }

  /** Every output row is a date of some input row's range followed by that
      row's id and coordinates. */
  lemma {:induction false} ConvertedRowsFromRanges(rows: seq<seq<Cell>>, startCol: nat, endCol: nat, cols: seq<nat>,
                                reg: Registries, today: Date, toDate: Cell -> Option<Date>, n: nat)
    requires n <= |rows| && RangeRows(rows, startCol, endCol, cols)
    ensures forall o :: o in Converted(rows, startCol, endCol, cols, reg, today, toDate, n) ==>
      exists i :: 0 <= i < n && FromRangeRow(o, rows[i], startCol, endCol, cols, reg, today, toDate)
  {
    if n > 0 {
      ConvertedRowsFromRanges(rows, startCol, endCol, cols, reg, today, toDate, n - 1);
      DatesTableFromRow(rows[n - 1], startCol, endCol, cols, reg, today, toDate);
      var prev := Converted(rows, startCol, endCol, cols, reg, today, toDate, n - 1);
      var t := DatesTable(RowDates(rows[n - 1], startCol, endCol, reg, today, toDate), rows[n - 1], cols);
      assert Converted(rows, startCol, endCol, cols, reg, today, toDate, n) == prev + t;
      forall o: seq<Cell> | o in prev + t
        ensures exists i :: 0 <= i < n && FromRangeRow(o, rows[i], startCol, endCol, cols, reg, today, toDate)
      {
        if o !in prev {
          assert FromRangeRow(o, rows[n - 1], startCol, endCol, cols, reg, today, toDate);
        }
      }
    }
  }
}
