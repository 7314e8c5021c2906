/** The consolidation at the end of `specificDatesRetrieval` (geedar_lib/geedar.py,
    lines 2139-2193): the per-code result tables joined to the template either
    side by side or, in append mode, stacked with `ProcCode` and `Source`
    columns; in running mode 2 the rows without any data are dropped. */
module Consolidation {
  import opened Wrappers
  import opened Registry
  import opened PyText
  import opened Demand
  import Products
  import Utils

  /** A code's result table as it stands after the writing loop. */
  datatype TableValue = TableValue(columns: seq<string>, cells: map<(nat, string), Cell>)

  /** The cell at (row, col), NaN where nothing was written. */
  function At(t: TableValue, row: nat, col: string): Cell
  {
    if (row, col) in t.cells then t.cells[(row, col)] else Missing
  }

  // ------------------------------------------------------ row selection

  /** `[xs[i] for i in which(keep)]`. */
  function Select<T>(xs: seq<T>, keep: seq<bool>): seq<T>
    requires |keep| == |xs|
  {
    var idx := Utils.Indices(keep);
    seq(|idx|, k requires 0 <= k < |idx| => xs[idx[k]])
  }

  /** The selection keeps exactly the flagged elements, in their order. */
  lemma {:induction false} SelectExact<T>(xs: seq<T>, keep: seq<bool>)
    requires |keep| == |xs|
    ensures |Select(xs, keep)| <= |xs|
    ensures forall i :: 0 <= i < |xs| && keep[i] ==> xs[i] in Select(xs, keep)
    ensures forall k :: 0 <= k < |Select(xs, keep)| ==> exists i :: 0 <= i < |xs| && keep[i] && Select(xs, keep)[k] == xs[i]
    ensures (forall i :: 0 <= i < |xs| ==> keep[i]) ==> Select(xs, keep) == xs
  {
    var idx := Utils.Indices(keep);
    var r := Select(xs, keep);
    assert |r| <= |xs| by {
      IndicesCount(keep, 0);
    }
    assert forall i :: 0 <= i < |xs| && keep[i] ==> xs[i] in r by {
      Utils.IndicesExact(keep);
      forall i | 0 <= i < |xs| && keep[i] ensures xs[i] in r {
        var k :| 0 <= k < |idx| && idx[k] == i;
        assert r[k] == xs[i];
      }
    }
    assert forall k :: 0 <= k < |r| ==> exists i :: 0 <= i < |xs| && keep[i] && r[k] == xs[i] by {
      forall k | 0 <= k < |r| ensures exists i :: 0 <= i < |xs| && keep[i] && r[k] == xs[i] {
        assert keep[idx[k]] && r[k] == xs[idx[k]];
      }
    }
    if forall i :: 0 <= i < |xs| ==> keep[i] {
      AllIndices(keep, 0);
      assert |r| == |xs| && forall k :: 0 <= k < |r| ==> r[k] == xs[k];
    }
  }

  /** `which` returns at most one index per element. */
  lemma {:induction false} IndicesCount(keep: seq<bool>, offset: nat)
    ensures |Utils.IndicesFrom(keep, offset)| <= |keep|
    decreases |keep|
  {
    if keep != [] {
      IndicesCount(keep[1..], offset + 1);
    }
  }

  /** With every element flagged, `which` gives every index in order. */
  lemma {:induction false} AllIndices(keep: seq<bool>, offset: nat)
    requires forall i :: 0 <= i < |keep| ==> keep[i]
    ensures Utils.IndicesFrom(keep, offset) == seq(|keep|, i requires 0 <= i < |keep| => offset + i)
    decreases |keep|
  {
    if keep != [] {
      AllIndices(keep[1..], offset + 1);
      var rest := seq(|keep| - 1, i requires 0 <= i < |keep| - 1 => offset + 1 + i);
      assert seq(|keep|, i requires 0 <= i < |keep| => offset + i) == [offset] + rest;
    }
  }

  // ------------------------------------------------------ side by side

  /** One table's cells in a row, in its column order. */
  function BlockRow(t: TableValue, row: nat): (cells: seq<Cell>)
    ensures |cells| == |t.columns|
  {
    seq(|t.columns|, i requires 0 <= i < |t.columns| => At(t, row, t.columns[i]))
  }

  /** The columns of `pd.concat(tables, axis=1)`: each table's in turn. */
  function DataColumns(tables: seq<TableValue>): seq<string>
  {
    if tables == [] then [] else DataColumns(tables[..|tables| - 1]) + tables[|tables| - 1].columns
  }

  /** One row of `pd.concat(tables, axis=1)`. */
  function DataRow(tables: seq<TableValue>, row: nat): seq<Cell>
  {
    if tables == [] then [] else DataRow(tables[..|tables| - 1], row) + BlockRow(tables[|tables| - 1], row)
  }

  lemma {:induction false} DataRowWidth(tables: seq<TableValue>, row: nat)
    ensures |DataRow(tables, row)| == |DataColumns(tables)|
  {
    if tables != [] {
      DataRowWidth(tables[..|tables| - 1], row);
    }
  }

  /** Column i of block j sits after the columns of the blocks before it, and
      each row holds that table's cell there. */
  lemma {:induction false} DataRowCell(tables: seq<TableValue>, row: nat, j: nat, i: nat)
    requires j < |tables| && i < |tables[j].columns|
    ensures |DataRow(tables, row)| == |DataColumns(tables)|
    ensures |DataColumns(tables[..j])| + i < |DataColumns(tables)|
    ensures DataColumns(tables)[|DataColumns(tables[..j])| + i] == tables[j].columns[i]
    ensures DataRow(tables, row)[|DataColumns(tables[..j])| + i] == At(tables[j], row, tables[j].columns[i])
  {
    DataRowWidth(tables, row);
    var n := |tables| - 1;
    var front := tables[..n];
    DataRowWidth(front, row);
    if j == n {
      assert tables[..j] == front;
    } else {
      assert front[..j] == tables[..j];
      DataRowCell(front, row, j, i);
    }
  }

  /** A data frame: column names and rows of cells. */
  datatype Frame = Frame(columns: seq<string>, rows: seq<seq<Cell>>)

  /** Lines 2187-2188: the template with every code's block beside it. */
  function SideBySide(templateColumns: seq<string>, template: seq<seq<Cell>>, tables: seq<TableValue>): Frame
  {
    Frame(templateColumns + DataColumns(tables),
          seq(|template|, r requires 0 <= r < |template| => template[r] + DataRow(tables, r)))
  }

  /** Some cell is not NaN. */
  predicate HasData(cells: seq<Cell>)
  {
    exists i :: 0 <= i < |cells| && cells[i] != Missing
  }

  /** The data columns of a row start at `w`, and one of them is not NaN. */
  predicate RowDataPresent(row: seq<Cell>, w: nat)
  {
    w <= |row| && HasData(row[w..])
  }

  /** Lines 2189-2191: `dropna(subset=data columns, how="all")` on rows whose
      data columns start at `w`. */
  function DropEmptyRows(rows: seq<seq<Cell>>, w: nat): seq<seq<Cell>>
  {
    Select(rows, DataMask(rows, w))
  }

  /** Which rows have a data cell that is not NaN. */
  function DataMask(rows: seq<seq<Cell>>, w: nat): (keep: seq<bool>)
    ensures |keep| == |rows|
    ensures forall r :: 0 <= r < |rows| ==> (keep[r] <==> RowDataPresent(rows[r], w))
  {
    seq(|rows|, r requires 0 <= r < |rows| => RowDataPresent(rows[r], w))
  }

  /** Side by side: one row per template row, the template's cells first, then
      column i of code j's table at the offset of that block. */
  lemma {:induction false} SideBySideShape(templateColumns: seq<string>, template: seq<seq<Cell>>, tables: seq<TableValue>,
                        r: nat, j: nat, i: nat)
    requires Rectangular(template, |templateColumns|)
    requires r < |template| && j < |tables| && i < |tables[j].columns|
    ensures var f := SideBySide(templateColumns, template, tables);
      var at := |templateColumns| + |DataColumns(tables[..j])| + i;
      |f.rows| == |template| &&
      f.rows[r][..|templateColumns|] == template[r] &&
      at < |f.columns| && at < |f.rows[r]| &&
      f.columns[at] == tables[j].columns[i] &&
      f.rows[r][at] == At(tables[j], r, tables[j].columns[i])
  {
    DataRowCell(tables, r, j, i);
    var row := SideBySide(templateColumns, template, tables).rows[r];
    assert row == template[r] + DataRow(tables, r);
    assert row[..|templateColumns|] == template[r];
  }

  /** Mode 2: a row stays exactly when one of its data cells is not NaN. */
  lemma {:induction false} DropEmptyExact(rows: seq<seq<Cell>>, w: nat)
    ensures |DropEmptyRows(rows, w)| <= |rows|
    ensures forall r :: 0 <= r < |rows| && RowDataPresent(rows[r], w) ==> rows[r] in DropEmptyRows(rows, w)
    ensures forall x :: x in DropEmptyRows(rows, w) ==> x in rows && RowDataPresent(x, w)
  {
    var keep := DataMask(rows, w);
    SelectExact(rows, keep);
    var kept := DropEmptyRows(rows, w);
    forall x | x in kept ensures x in rows && RowDataPresent(x, w) {
      var k :| 0 <= k < |kept| && kept[k] == x;
      var r :| 0 <= r < |rows| && keep[r] && kept[k] == rows[r];
    }
  }

  /** Mode 2 on a stacked block: a row stays exactly when one of its data cells is not NaN. */
  lemma {:induction false} DropEmptyStackedExact(rows: seq<StackedRow>)
    ensures |DropEmptyStacked(rows)| <= |rows|
    ensures forall r :: 0 <= r < |rows| && RowHasData(rows[r]) ==> rows[r] in DropEmptyStacked(rows)
    ensures forall x :: x in DropEmptyStacked(rows) ==> x in rows && RowHasData(x)
  {
    SelectExact(rows, StackedMask(rows));
    forall x | x in DropEmptyStacked(rows) ensures x in rows && RowHasData(x) {
      KeptStackedRow(rows, x);
    }
  }

  /** A row left by the mode-2 filter is one of the block's rows with data. */
  lemma {:induction false} KeptStackedRow(rows: seq<StackedRow>, x: StackedRow)
    requires x in DropEmptyStacked(rows)
    ensures x in rows && RowHasData(x)
  {
    var keep := StackedMask(rows);
    var kept := DropEmptyStacked(rows);
    SelectExact(rows, keep);
    var k :| 0 <= k < |kept| && kept[k] == x;
    var r :| 0 <= r < |rows| && keep[r] && kept[k] == rows[r];
  }

  // ------------------------------------------------------ append mode

  /** A stacked row: a template row, the code and sensor, and the block's data
      cells by column name (their order follows a Python set and is not kept). */
  datatype StackedRow = StackedRow(template: seq<Cell>, procCode: nat, source: string, data: map<string, Cell>)

  /** Lines 2144-2148: every column of every code's table. */
  function AllColumns(tables: seq<TableValue>): set<string>
  {
    set j, c | 0 <= j < |tables| && c in tables[j].columns :: c
  }

  /** Lines 2154-2169: a column is carried when the text before its first "_"
      is not a common band name, or when it contains `band + "_"` for a common band. */
  predicate KeptInAppend(col: string, common: set<string>)
  {
    FirstSegment(col, '_') !in common || exists b :: b in common && Contains(col, b + "_")
  }

  /** The data columns of every stacked block. */
  function AppendDataColumns(tables: seq<TableValue>, common: set<string>): set<string>
  {
    set c | c in AllColumns(tables) && KeptInAppend(c, common)
  }

  /** Lines 2152-2180 for one code: each template row with the code, its
      sensor and the table's value of every data column, NaN where missing. */
  function StackedBlock(template: seq<seq<Cell>>, code: nat, sensor: string, t: TableValue,
                        dataColumns: set<string>): seq<StackedRow>
  {
    seq(|template|, r requires 0 <= r < |template| =>
      StackedRow(template[r], code, sensor, map c | c in dataColumns :: At(t, r, c)))
  }

  /** Some data cell of the row is not NaN. */
  predicate RowHasData(row: StackedRow)
  {
    exists c :: c in row.data && row.data[c] != Missing
  }

  /** Lines 2182-2184: `dropna(subset=dataColNames, how="all")` on one block. */
  function DropEmptyStacked(rows: seq<StackedRow>): seq<StackedRow>
  {
    Select(rows, StackedMask(rows))
  }

  /** Which stacked rows have a data cell that is not NaN. */
  function StackedMask(rows: seq<StackedRow>): (keep: seq<bool>)
    ensures |keep| == |rows|
    ensures forall r :: 0 <= r < |rows| ==> (keep[r] <==> RowHasData(rows[r]))
  {
    seq(|rows|, r requires 0 <= r < |rows| => RowHasData(rows[r]))
  }

  /** Line 2185: the blocks one after the other. */
  function Stack(blocks: seq<seq<StackedRow>>): seq<StackedRow>
  {
    if blocks == [] then [] else Stack(blocks[..|blocks| - 1]) + blocks[|blocks| - 1]
  }

  /** With blocks of n rows each, row j * n + r of the stack is row r of block j. */
  lemma {:induction false} StackIndex(blocks: seq<seq<StackedRow>>, n: nat, j: nat, r: nat)
    requires forall b :: 0 <= b < |blocks| ==> |blocks[b]| == n
    requires j < |blocks| && r < n
    ensures |Stack(blocks)| == |blocks| * n
    ensures j * n + r < |Stack(blocks)| && Stack(blocks)[j * n + r] == blocks[j][r]
  {
    StackLength(blocks, n);
    var m := |blocks| - 1;
    StackLength(blocks[..m], n);
    if j < m {
      StackIndex(blocks[..m], n, j, r);
      MulLess(j, m, n, r);
    } else {
      assert |Stack(blocks[..m])| == j * n;
    }
  }

  lemma {:induction false} MulLess(j: nat, m: nat, n: nat, r: nat)
    requires j < m && r < n
    ensures j * n + r < m * n
  {
    assert (j + 1) * n <= m * n;
  }

  lemma {:induction false} StackLength(blocks: seq<seq<StackedRow>>, n: nat)
    requires forall b :: 0 <= b < |blocks| ==> |blocks[b]| == n
    ensures |Stack(blocks)| == |blocks| * n
  {
    if blocks != [] {
      var m := |blocks| - 1;
      StackLength(blocks[..m], n);
      assert |Stack(blocks)| == m * n + n;
      assert (m + 1) * n == m * n + n;
    }
  }

  /** Every row of the stack comes from one of the blocks. */
  lemma {:induction false} StackMembers(blocks: seq<seq<StackedRow>>, x: StackedRow)
    ensures x in Stack(blocks) <==> exists b :: 0 <= b < |blocks| && x in blocks[b]
  {
    if blocks != [] {
      var m := |blocks| - 1;
      StackMembers(blocks[..m], x);
      if exists b :: 0 <= b < |blocks| && x in blocks[b] {
        var b :| 0 <= b < |blocks| && x in blocks[b];
        if b < m {
          assert x in blocks[..m][b];
        }
      }
      if x in Stack(blocks[..m]) {
        var b :| 0 <= b < m && x in blocks[..m][b];
        assert x in blocks[b];
      }
    }
  }

  datatype ConsolidationError = MissingProduct(productID: int)   // KeyError on PRODUCT_SPECS

  /** Lines 2172-2173: the sensor of each code's product `int(str(code)[0:3])`,
      or the first product the registry lacks. */
  function Sensors(reg: Registries, order: seq<nat>): (r: Result<seq<string>, ConsolidationError>)
    ensures r.Ok? <==> forall k :: 0 <= k < |order| ==> Products.ProductOfCode(order[k]) in reg.products
    ensures r.Ok? ==> |r.value| == |order|
    ensures r.Ok? ==> forall k :: 0 <= k < |order| ==> r.value[k] == reg.products[Products.ProductOfCode(order[k])].sensor
    ensures r.Err? ==> exists k :: (0 <= k < |order| && r.error == MissingProduct(Products.ProductOfCode(order[k])) &&
      Products.ProductOfCode(order[k]) !in reg.products &&
      forall j :: 0 <= j < k ==> Products.ProductOfCode(order[j]) in reg.products)
  {
    if order == [] then Ok([])
    else
      var p := Products.ProductOfCode(order[0]);
      if p !in reg.products then Err(MissingProduct(p))
      else
        match Sensors(reg, order[1..])
        case Err(e) =>
          assert forall k :: 0 < k < |order| ==> order[k] == order[1..][k - 1];
          Err(e)
        case Ok(rest) => Ok([reg.products[p].sensor] + rest)
  }

  /** The outcome of consolidation: None, a side-by-side frame, or the stacked
      append-mode frame (template columns, the data columns as a set, rows). */
  datatype Consolidated =
    | NoData
    | SideBySideResult(frame: Frame)
    | StackedResult(templateColumns: seq<string>, dataColumns: set<string>, rows: seq<StackedRow>)

  /** The stacked blocks of the codes in dictionary order, each emptied of
      rows without data in mode 2. */
  function Blocks(template: seq<seq<Cell>>, order: seq<nat>, sensors: seq<string>, tables: map<nat, TableValue>,
                  dataColumns: set<string>, mode2: bool): (blocks: seq<seq<StackedRow>>)
    requires |sensors| == |order| && forall k :: 0 <= k < |order| ==> order[k] in tables
    ensures |blocks| == |order|
  {
    seq(|order|, j requires 0 <= j < |order| =>
      var b := StackedBlock(template, order[j], sensors[j], tables[order[j]], dataColumns);
      if mode2 then DropEmptyStacked(b) else b)
  }

  /** Lines 2139-2193: the result frame, or None when nothing was retrieved. */
  function Consolidate(reg: Registries, order: seq<nat>, tables: map<nat, TableValue>,
                       templateColumns: seq<string>, template: seq<seq<Cell>>,
                       appendMode: bool, mode2: bool, dataRetrieved: bool): (r: Result<Consolidated, ConsolidationError>)
    requires forall k :: 0 <= k < |order| ==> order[k] in tables
    requires Rectangular(template, |templateColumns|)
    ensures !dataRetrieved ==> r == Ok(NoData)
    ensures dataRetrieved && !appendMode ==> (r.Ok? && r.value.SideBySideResult? &&
      |templateColumns| <= |r.value.frame.columns| &&
      r.value.frame.columns[..|templateColumns|] == templateColumns)
    ensures dataRetrieved && appendMode ==>
      (r.Ok? <==> 101 in reg.products && forall k :: 0 <= k < |order| ==> Products.ProductOfCode(order[k]) in reg.products)
    ensures dataRetrieved && appendMode && 101 !in reg.products ==> r == Err(MissingProduct(101))
    ensures dataRetrieved && appendMode && r.Ok? ==> (r.value.StackedResult? &&
      r.value.templateColumns == templateColumns &&
      r.value.dataColumns == AppendDataColumns(seq(|order|, j requires 0 <= j < |order| => tables[order[j]]),
                                               reg.products[101].commonBands.Keys))
  {
    if !dataRetrieved then Ok(NoData)
    else
      var ts := seq(|order|, j requires 0 <= j < |order| => tables[order[j]]);
      if !appendMode then
        var f := SideBySide(templateColumns, template, ts);
        assert f.columns[..|templateColumns|] == templateColumns;
        if mode2 then Ok(SideBySideResult(Frame(f.columns, DropEmptyRows(f.rows, |templateColumns|))))
        else Ok(SideBySideResult(f))
      else if 101 !in reg.products then Err(MissingProduct(101))
      else
        var dataColumns := AppendDataColumns(ts, reg.products[101].commonBands.Keys);
        match Sensors(reg, order)
        case Err(e) => Err(e)
        case Ok(sensors) =>
          Ok(StackedResult(templateColumns, dataColumns,
                           Stack(Blocks(template, order, sensors, tables, dataColumns, mode2))))
  }

  /** The code tables in dictionary order. */
  function InOrder(order: seq<nat>, tables: map<nat, TableValue>): (ts: seq<TableValue>)
    requires forall k :: 0 <= k < |order| ==> order[k] in tables
    ensures |ts| == |order| && forall k :: 0 <= k < |order| ==> ts[k] == tables[order[k]]
  {
    seq(|order|, j requires 0 <= j < |order| => tables[order[j]])
  }

  /** Without append mode: one row per template row holding the template's
      cells, then column i of code j's table after the columns of the codes
      before it, with that table's value for the row. */
  lemma {:induction false} SideBySideLayout(reg: Registries, order: seq<nat>, tables: map<nat, TableValue>,
                         templateColumns: seq<string>, template: seq<seq<Cell>>, r: nat, j: nat, i: nat)
    requires forall k :: 0 <= k < |order| ==> order[k] in tables
    requires Rectangular(template, |templateColumns|)
    requires r < |template| && j < |order| && i < |tables[order[j]].columns|
    ensures var res := Consolidate(reg, order, tables, templateColumns, template, false, false, true);
      var at := |templateColumns| + |DataColumns(InOrder(order[..j], tables))| + i;
      res.Ok? && res.value.SideBySideResult? &&
      |res.value.frame.rows| == |template| &&
      at < |res.value.frame.columns| && at < |res.value.frame.rows[r]| &&
      res.value.frame.rows[r][..|templateColumns|] == template[r] &&
      res.value.frame.columns[at] == tables[order[j]].columns[i] &&
      res.value.frame.rows[r][at] == At(tables[order[j]], r, tables[order[j]].columns[i])
  {
    var ts := seq(|order|, k requires 0 <= k < |order| => tables[order[k]]);
    assert ts[..j] == InOrder(order[..j], tables);
    SideBySideShape(templateColumns, template, ts, r, j, i);
  }

  /** Without append mode, in running mode 2: the rows kept are exactly the
      template rows, with their data, for which some data cell is not NaN. */
  lemma {:induction false} SideBySideMode2(reg: Registries, order: seq<nat>, tables: map<nat, TableValue>,
                        templateColumns: seq<string>, template: seq<seq<Cell>>)
    requires forall k :: 0 <= k < |order| ==> order[k] in tables
    requires Rectangular(template, |templateColumns|)
    ensures var res := Consolidate(reg, order, tables, templateColumns, template, false, true, true);
      var ts := InOrder(order, tables);
      res.Ok? && res.value.SideBySideResult? &&
      |res.value.frame.rows| <= |template| &&
      (forall r :: 0 <= r < |template| && HasData(DataRow(ts, r)) ==> template[r] + DataRow(ts, r) in res.value.frame.rows) &&
      (forall x :: x in res.value.frame.rows ==>
        exists r :: 0 <= r < |template| && x == template[r] + DataRow(ts, r) && HasData(DataRow(ts, r)))
  {
    var ts := InOrder(order, tables);
    var w := |templateColumns|;
    var f := SideBySide(templateColumns, template, ts);
    DropEmptyExact(f.rows, w);
    forall r | 0 <= r < |template| ensures RowDataPresent(f.rows[r], w) <==> HasData(DataRow(ts, r)) {
      assert f.rows[r] == template[r] + DataRow(ts, r);
      assert f.rows[r][w..] == DataRow(ts, r);
    }
    var kept := DropEmptyRows(f.rows, w);
    forall x | x in kept
      ensures exists r :: 0 <= r < |template| && x == template[r] + DataRow(ts, r) && HasData(DataRow(ts, r))
    {
      var r :| 0 <= r < |f.rows| && f.rows[r] == x;
      assert x == template[r] + DataRow(ts, r);
    }
  }

  /** In append mode: |codes| blocks of one row per template row, row r of
      block j holding the template row, the code, its product's sensor and the
      code's value of every data column. */
  lemma {:induction false} StackedLayout(reg: Registries, order: seq<nat>, tables: map<nat, TableValue>,
                      templateColumns: seq<string>, template: seq<seq<Cell>>, j: nat, r: nat)
    requires forall k :: 0 <= k < |order| ==> order[k] in tables
    requires Rectangular(template, |templateColumns|)
    requires 101 in reg.products && forall k :: 0 <= k < |order| ==> Products.ProductOfCode(order[k]) in reg.products
    requires j < |order| && r < |template|
    ensures var res := Consolidate(reg, order, tables, templateColumns, template, true, false, true);
      res.Ok? && res.value.StackedResult? &&
      |res.value.rows| == |order| * |template| &&
      j * |template| + r < |res.value.rows| &&
      res.value.rows[j * |template| + r] ==
        StackedRow(template[r], order[j], reg.products[Products.ProductOfCode(order[j])].sensor,
                   map c | c in res.value.dataColumns :: At(tables[order[j]], r, c))
  {
    var ts := seq(|order|, k requires 0 <= k < |order| => tables[order[k]]);
    var dataColumns := AppendDataColumns(ts, reg.products[101].commonBands.Keys);
    var sensors := Sensors(reg, order).value;
    var blocks := Blocks(template, order, sensors, tables, dataColumns, false);
    StackIndex(blocks, |template|, j, r);
  }

  /** In append mode, in running mode 2: every row left has a data cell that
      is not NaN and comes from one of the codes. */
  lemma {:induction false} StackedMode2Kept(reg: Registries, order: seq<nat>, tables: map<nat, TableValue>,
                         templateColumns: seq<string>, template: seq<seq<Cell>>)
    requires forall k :: 0 <= k < |order| ==> order[k] in tables
    requires Rectangular(template, |templateColumns|)
    requires 101 in reg.products && forall k :: 0 <= k < |order| ==> Products.ProductOfCode(order[k]) in reg.products
    ensures var res := Consolidate(reg, order, tables, templateColumns, template, true, true, true);
      res.Ok? && res.value.StackedResult? &&
      forall x :: x in res.value.rows ==> RowHasData(x) && x.procCode in order
  {
    var ts := seq(|order|, k requires 0 <= k < |order| => tables[order[k]]);
    var dataColumns := AppendDataColumns(ts, reg.products[101].commonBands.Keys);
    var sensors := Sensors(reg, order).value;
    var blocks := Blocks(template, order, sensors, tables, dataColumns, true);
    assert Consolidate(reg, order, tables, templateColumns, template, true, true, true) ==
      Ok(StackedResult(templateColumns, dataColumns, Stack(blocks)));
    forall x | x in Stack(blocks) ensures RowHasData(x) && x.procCode in order {
      StackMembers(blocks, x);
      var b :| 0 <= b < |blocks| && x in blocks[b];
      KeptRowOfBlock(template, order[b], sensors[b], tables[order[b]], dataColumns, x);
    }
  }

  /** A row left in a code's block in mode 2 has data and carries that code. */
  lemma {:induction false} KeptRowOfBlock(template: seq<seq<Cell>>, code: nat, sensor: string, t: TableValue,
                                          dataColumns: set<string>, x: StackedRow)
    requires x in DropEmptyStacked(StackedBlock(template, code, sensor, t, dataColumns))
    ensures RowHasData(x) && x.procCode == code
  {
    var full := StackedBlock(template, code, sensor, t, dataColumns);
    DropEmptyStackedExact(full);
    var r :| 0 <= r < |full| && full[r] == x;
  }

  /** In append mode, in running mode 2: every row of every code's block that
      has a data cell that is not NaN is left. */
  lemma {:induction false} StackedMode2Complete(reg: Registries, order: seq<nat>, tables: map<nat, TableValue>,
                             templateColumns: seq<string>, template: seq<seq<Cell>>, j: nat, r: nat)
    requires forall k :: 0 <= k < |order| ==> order[k] in tables
    requires Rectangular(template, |templateColumns|)
    requires 101 in reg.products && forall k :: 0 <= k < |order| ==> Products.ProductOfCode(order[k]) in reg.products
    requires j < |order| && r < |template|
    ensures var res := Consolidate(reg, order, tables, templateColumns, template, true, true, true);
      var row := StackedBlock(template, order[j], reg.products[Products.ProductOfCode(order[j])].sensor,
                              tables[order[j]], AppendDataColumns(InOrder(order, tables), reg.products[101].commonBands.Keys))[r];
      res.Ok? && res.value.StackedResult? &&
      (RowHasData(row) ==> row in res.value.rows)
  {
    var ts := seq(|order|, k requires 0 <= k < |order| => tables[order[k]]);
    assert ts == InOrder(order, tables);
    var dataColumns := AppendDataColumns(ts, reg.products[101].commonBands.Keys);
    var sensors := Sensors(reg, order).value;
    var blocks := Blocks(template, order, sensors, tables, dataColumns, true);
    assert Consolidate(reg, order, tables, templateColumns, template, true, true, true) ==
      Ok(StackedResult(templateColumns, dataColumns, Stack(blocks)));
    var full := StackedBlock(template, order[j], sensors[j], tables[order[j]], dataColumns);
    assert blocks[j] == DropEmptyStacked(full);
    if RowHasData(full[r]) {
      DropEmptyStackedExact(full);
      assert full[r] in blocks[j];
      StackMembers(blocks, full[r]);
    }
  }

  /** A column `band_suffix` of a common band is carried in append mode. */
  lemma {:induction false} SuffixedCommonColumnKept(tables: seq<TableValue>, common: set<string>, band: string, suffix: string, j: nat)
    requires band in common && j < |tables| && band + "_" + suffix in tables[j].columns
    ensures band + "_" + suffix in AppendDataColumns(tables, common)
  {
    var c := band + "_" + suffix;
    assert c[..|band + "_"|] == band + "_";
    assert OccursAt(c, band + "_", 0);
    assert c in AllColumns(tables);
  }

  /** A column named exactly like a common band, with no "_", is not carried in append mode. */
  lemma {:induction false} BareCommonColumnDropped(tables: seq<TableValue>, common: set<string>, c: string)
    requires c in common && '_' !in c
    ensures c !in AppendDataColumns(tables, common)
  {
    assert FirstSegment(c, '_') == c;
    forall b | b in common ensures !Contains(c, b + "_") {
      assert (b + "_")[|b|] == '_';
    }
  }
}
