/** The result-writing loop of `specificDatesRetrieval` (geedar_lib/geedar.py,
    lines 2106-2135): the column names a retrieved band key is written under,
    the rows of the current site that share its date, and the per-code result
    table that the loop fills cell by cell. */
module Results {
  import opened Registry
  import opened PyText
  import opened Demand
  import opened Reduction
  import Utils

  // ------------------------------------------------------ column names

  /** How a band key becomes column names. */
  datatype Naming =
    | CommonNames(pairs: set<(string, string)>)   // append mode: (common name, real band name)
    | CodePrefix(code: nat)                         // several processing codes
    | Plain

  /** Lines 2076-2082: each common band name with a non-negative index, paired with
      the real band name it indexes. */
  function CommonPairs(spec: ProductSpec): (pairs: set<(string, string)>)
    requires WellIndexed(spec)
    ensures forall c, r :: (c, r) in pairs <==>
      c in spec.commonBands && spec.commonBands[c] >= 0 && r == spec.bandList[spec.commonBands[c]]
  {
    set c | c in spec.commonBands && spec.commonBands[c] >= 0 :: (c, spec.bandList[spec.commonBands[c]])
  }

  /** Lines 2122-2126: `band.replace(real, common)` for every pair whose real name
      followed by "_" occurs in the key. */
  function AppendNames(band: string, pairs: set<(string, string)>): set<string>
  {
    set p | p in pairs && Contains(band, p.1 + "_") :: ReplaceAll(band, p.1, p.0)
  }

  /** Lines 2121-2130: the names a band key is written under; never none. */
  function ColumnNames(band: string, naming: Naming): (names: set<string>)
    ensures names != {}
    ensures naming.CodePrefix? ==> names == {DecimalString(naming.code) + "_" + band}
    ensures (naming.Plain? || (naming.CommonNames? && AppendNames(band, naming.pairs) == {})) ==> names == {band}
    ensures naming.CommonNames? && AppendNames(band, naming.pairs) != {} ==> names == AppendNames(band, naming.pairs)
  {
    var names := match naming
      case CommonNames(pairs) => AppendNames(band, pairs)
      case CodePrefix(code) => {DecimalString(code) + "_" + band}
      case Plain => {};
    if names == {} then {band} else names
  }

  /** The naming rule of the loop: common names in append mode, otherwise a
      code prefix when there are several processing codes, otherwise none. */
  function NamingFor(appendMode: bool, nProcCodes: nat, code: nat, spec: ProductSpec): Naming
    requires WellIndexed(spec)
  {
    if appendMode then CommonNames(CommonPairs(spec))
    else if nProcCodes > 1 then CodePrefix(code)
    else Plain
  }

  /** A reduced key `real_suffix` of a common band is written as `common_suffix`,
      when the real name does not occur again in the suffix. */
  lemma {:induction false} RenamedCommonBand(spec: ProductSpec, common: string, suffix: string)
    requires WellIndexed(spec)
    requires common in spec.commonBands && spec.commonBands[common] >= 0
    requires spec.bandList[spec.commonBands[common]] != ""
    requires !Contains("_" + suffix, spec.bandList[spec.commonBands[common]])
    ensures common + "_" + suffix in
      ColumnNames(spec.bandList[spec.commonBands[common]] + "_" + suffix, CommonNames(CommonPairs(spec)))
  {
    var realName := spec.bandList[spec.commonBands[common]];
    var band := realName + "_" + suffix;
    assert band == realName + ("_" + suffix);
    ReplaceLeading(realName, common, "_" + suffix);
    assert OccursAt(band, realName + "_", 0) by {
      assert band[..|realName + "_"|] == realName + "_";
    }
    assert (common, realName) in CommonPairs(spec);
    assert ReplaceAll(band, realName, common) == common + "_" + suffix;
    assert common + "_" + suffix in AppendNames(band, CommonPairs(spec));
  }

  // ------------------------------------------------------ rows of one date

  /** Line 2117: the rows, among the site's target rows, whose date cell is `d`. */
  function SameDateRows(dateCells: seq<Cell>, targetRows: seq<nat>, d: Date): (rows: seq<nat>)
    ensures forall i :: i in rows <==> 0 <= i < |dateCells| && dateCells[i] == Day(d) && i in targetRows
    ensures forall j, k :: 0 <= j < k < |rows| ==> rows[j] < rows[k]
  {
    var mask := seq(|dateCells|, i requires 0 <= i < |dateCells| => dateCells[i] == Day(d));
    Utils.IndicesExact(mask);
    FilterIn(Utils.Indices(mask), targetRows)
  }

  // ------------------------------------------------------ the result table

  /** A processing code's result table: `pd.DataFrame(index=range(nrows))`
      with the columns the loop creates, in creation order. A cell that was
      never written is NaN. */
  class CodeTable {
    const nrows: nat
    var columns: seq<string>
    var cells: map<(nat, string), Cell>

    ghost predicate Valid()
      reads this
    {
      (forall i, j :: 0 <= i < j < |columns| ==> columns[i] != columns[j]) &&
      (forall k :: k in cells ==> k.0 < nrows && k.1 in columns)
    }

    constructor (nrows: nat)
      ensures Valid() && this.nrows == nrows && columns == [] && cells == map[]
    {
      this.nrows := nrows;
      columns := [];
      cells := map[];
    }

    /** `.loc[row, col] = v`: an unknown column is appended, NaN everywhere else. */
    method Assign(row: nat, col: string, v: Cell)
      requires Valid() && row < nrows
      modifies this
      ensures Valid()
      ensures cells == old(cells)[(row, col) := v]
      ensures columns == if col in old(columns) then old(columns) else old(columns) + [col]
    {
      if col !in columns {
        columns := columns + [col];
      }
      cells := cells[(row, col) := v];
    }
  }

  /** A list of the elements of a set, in no particular order (a Python
      list built from a set or a dictionary). */
  method Listing(s: set<string>) returns (xs: seq<string>)
    ensures forall x :: x in xs <==> x in s
    ensures forall i, j :: 0 <= i < j < |xs| ==> xs[i] != xs[j]
  {
    xs := [];
    var todo := s;
    while todo != {}
      invariant forall x :: x in xs <==> x in s && x !in todo
      invariant todo <= s
      invariant forall i, j :: 0 <= i < j < |xs| ==> xs[i] != xs[j]
      decreases |todo|
    {
      var x :| x in todo;
      xs := xs + [x];
      todo := todo - {x};
    }
  }

  /** The innermost loop of lines 2132-2134 for one row. */
  method WriteRow(t: CodeTable, row: nat, names: seq<string>, v: Cell)
    requires t.Valid() && row < t.nrows
    modifies t
    ensures t.Valid()
    ensures forall k :: k in t.cells <==> k in old(t.cells) || (k.0 == row && k.1 in names)
    ensures forall k :: k in t.cells ==> t.cells[k] == if k.0 == row && k.1 in names then v else old(t.cells)[k]
    ensures old(t.columns) <= t.columns
    ensures forall c :: c in t.columns ==> c in old(t.columns) || c in names
  {
    for j := 0 to |names|
      invariant t.Valid()
      invariant forall k :: k in t.cells <==> k in old(t.cells) || (k.0 == row && k.1 in names[..j])
      invariant forall k :: k in t.cells ==> t.cells[k] == if k.0 == row && k.1 in names[..j] then v else old(t.cells)[k]
      invariant old(t.columns) <= t.columns
      invariant forall c :: c in t.columns ==> c in old(t.columns) || c in names[..j]
    {
      assert names[..j + 1] == names[..j] + [names[j]];
      t.Assign(row, names[j], v);
    }
    assert names[..|names|] == names;
  }

  /** Lines 2132-2134: one band value into every (row, name) pair. */
  method WriteBand(t: CodeTable, rows: seq<nat>, names: seq<string>, v: Cell)
    requires t.Valid() && forall i :: 0 <= i < |rows| ==> rows[i] < t.nrows
    modifies t
    ensures t.Valid()
    ensures forall k :: k in t.cells <==> k in old(t.cells) || (k.0 in rows && k.1 in names)
    ensures forall k :: k in t.cells ==> t.cells[k] == if k.0 in rows && k.1 in names then v else old(t.cells)[k]
    ensures old(t.columns) <= t.columns
    ensures forall c :: c in t.columns ==> c in old(t.columns) || c in names
  {
    for i := 0 to |rows|
      invariant t.Valid()
      invariant forall k :: k in t.cells <==> k in old(t.cells) || (k.0 in rows[..i] && k.1 in names)
      invariant forall k :: k in t.cells ==> t.cells[k] == if k.0 in rows[..i] && k.1 in names then v else old(t.cells)[k]
      invariant old(t.columns) <= t.columns
      invariant forall c :: c in t.columns ==> c in old(t.columns) || c in names
    {
      assert rows[..i + 1] == rows[..i] + [rows[i]];
      WriteRow(t, rows[i], names, v);
    }
    assert rows[..|rows|] == rows;
  }

  /** Band `b` of the date is written at cell `k`. */
  ghost predicate Hits(bands: Bands, naming: Naming, rows: seq<nat>, b: string, k: (nat, string))
  {
    b in bands && k.0 in rows && k.1 in ColumnNames(b, naming)
  }

  /** Some band of `done` is written at cell `k`. */
  ghost predicate HitInDate(bands: Bands, naming: Naming, rows: seq<nat>, done: set<string>, k: (nat, string))
  {
    exists b :: b in done && Hits(bands, naming, rows, b, k)
  }

  /** `v` is the value of a band of `done` written at cell `k`. */
  ghost predicate DateValue(bands: Bands, naming: Naming, rows: seq<nat>, done: set<string>, k: (nat, string), v: Cell)
  {
    exists b :: b in done && Hits(bands, naming, rows, b, k) && v == bands[b]
  }

  /** What writing the bands `done` of one date leaves in the table: only hit
      cells change, and each holds the value of a band that hits it. */
  ghost predicate DateWritten(cells: map<(nat, string), Cell>, before: map<(nat, string), Cell>,
                              bands: Bands, naming: Naming, rows: seq<nat>, done: set<string>)
  {
    (forall k :: k in cells <==> (k in before || HitInDate(bands, naming, rows, done, k))) &&
    (forall k :: k in before && !HitInDate(bands, naming, rows, done, k) ==> cells[k] == before[k]) &&
    (forall k :: HitInDate(bands, naming, rows, done, k) ==> DateValue(bands, naming, rows, done, k, cells[k]))
  }

  /** Lines 2116-2134 for one date: every band key, in the dictionary's order. */
  method WriteDate(t: CodeTable, bands: Bands, rows: seq<nat>, naming: Naming)
    requires t.Valid() && forall i :: 0 <= i < |rows| ==> rows[i] < t.nrows
    modifies t
    ensures t.Valid()
    ensures DateWritten(t.cells, old(t.cells), bands, naming, rows, bands.Keys)
    ensures old(t.columns) <= t.columns
    ensures forall c :: c in t.columns ==> (c in old(t.columns) || exists b :: b in bands && c in ColumnNames(b, naming))
  {
    var todo := bands.Keys;
    ghost var done: set<string> := {};
    NothingWrittenYet(t.cells, bands, naming, rows);
    while todo != {}
      invariant t.Valid()
      invariant todo + done == bands.Keys && todo !! done
      invariant DateWritten(t.cells, old(t.cells), bands, naming, rows, done)
      invariant old(t.columns) <= t.columns
      invariant forall c :: c in t.columns ==> (c in old(t.columns) || exists b :: b in bands && c in ColumnNames(b, naming))
      decreases |todo|
    {
      var b :| b in todo;
      MoveOne(todo, done, bands.Keys, b);
      WriteKey(t, bands, rows, naming, b, old(t.cells), old(t.columns), done);
      todo := todo - {b};
      done := done + {b};
    }
  }

  /** Lines 2121-2134 for one band key of the date. */
  method WriteKey(t: CodeTable, bands: Bands, rows: seq<nat>, naming: Naming, b: string,
                  ghost before: map<(nat, string), Cell>, ghost beforeCols: seq<string>, ghost done: set<string>)
    requires t.Valid() && forall i :: 0 <= i < |rows| ==> rows[i] < t.nrows
    requires b in bands
    requires DateWritten(t.cells, before, bands, naming, rows, done)
    requires beforeCols <= t.columns
    requires forall c :: c in t.columns ==> (c in beforeCols || exists b :: b in bands && c in ColumnNames(b, naming))
    modifies t
    ensures t.Valid()
    ensures DateWritten(t.cells, before, bands, naming, rows, done + {b})
    ensures beforeCols <= t.columns
    ensures forall c :: c in t.columns ==> (c in beforeCols || exists b :: b in bands && c in ColumnNames(b, naming))
  {
    var names := Listing(ColumnNames(b, naming));
    ghost var mid := t.cells;
    ghost var midCols := t.columns;
    WriteBand(t, rows, names, bands[b]);
    DateStep(t.cells, mid, before, bands, naming, rows, done, b);
    forall c | c in t.columns
      ensures c in beforeCols || exists b' :: b' in bands && c in ColumnNames(b', naming)
    {
      if c !in midCols {
        assert c in ColumnNames(b, naming);
      }
    }
  }

  /** Before the first band nothing is hit and nothing has changed. */
  lemma {:induction false} NothingWrittenYet(cells: map<(nat, string), Cell>, bands: Bands, naming: Naming, rows: seq<nat>)
    ensures DateWritten(cells, cells, bands, naming, rows, {})
  {
  }

  /** Adding band `b` to `done` adds exactly the cells `b` hits. */
  lemma {:induction false} HitInDateGrows(bands: Bands, naming: Naming, rows: seq<nat>, done: set<string>, b: string, k: (nat, string))
    ensures HitInDate(bands, naming, rows, done + {b}, k) <==>
      (HitInDate(bands, naming, rows, done, k) || Hits(bands, naming, rows, b, k))
  {
    if HitInDate(bands, naming, rows, done + {b}, k) {
      var b' :| b' in done + {b} && Hits(bands, naming, rows, b', k);
      if b' != b {
        assert b' in done;
      }
    }
    if HitInDate(bands, naming, rows, done, k) {
      var b' :| b' in done && Hits(bands, naming, rows, b', k);
      assert b' in done + {b};
    }
    if Hits(bands, naming, rows, b, k) {
      assert b in done + {b};
    }
  }

  /** One more band of the date keeps `DateWritten`. */
  lemma {:induction false} DateStep(cells: map<(nat, string), Cell>, mid: map<(nat, string), Cell>, before: map<(nat, string), Cell>,
                 bands: Bands, naming: Naming, rows: seq<nat>, done: set<string>, b: string)
    requires b in bands
    requires DateWritten(mid, before, bands, naming, rows, done)
    requires forall k :: k in cells <==> (k in mid || (k.0 in rows && k.1 in ColumnNames(b, naming)))
    requires forall k :: k in cells ==> cells[k] == if k.0 in rows && k.1 in ColumnNames(b, naming) then bands[b] else mid[k]
    ensures DateWritten(cells, before, bands, naming, rows, done + {b})
  {
    var d' := done + {b};
    forall k ensures HitInDate(bands, naming, rows, d', k) <==>
      (HitInDate(bands, naming, rows, done, k) || Hits(bands, naming, rows, b, k))
    {
      HitInDateGrows(bands, naming, rows, done, b, k);
    }
    forall k | HitInDate(bands, naming, rows, d', k)
      ensures DateValue(bands, naming, rows, d', k, cells[k])
    {
      if Hits(bands, naming, rows, b, k) {
        assert b in d' && cells[k] == bands[b];
      } else {
        var b2 :| b2 in done && Hits(bands, naming, rows, b2, k) && mid[k] == bands[b2];
        assert b2 in d' && cells[k] == bands[b2];
      }
    }
  }

  /** Band `b` of date `d` is written at cell `k`. */
  ghost predicate FragmentHits(frag: Fragment, dateCells: seq<Cell>, targetRows: seq<nat>, naming: Naming,
                               d: Date, b: string, k: (nat, string))
  {
    d in frag && Hits(frag[d], naming, SameDateRows(dateCells, targetRows, d), b, k)
  }

  /** Some band of a date in `done` is written at cell `k`. */
  ghost predicate HitInResult(frag: Fragment, dateCells: seq<Cell>, targetRows: seq<nat>, naming: Naming,
                              done: set<Date>, k: (nat, string))
  {
    exists d, b :: d in done && FragmentHits(frag, dateCells, targetRows, naming, d, b, k)
  }

  /** `v` is the value of a (date in `done`, band) written at cell `k`. */
  ghost predicate ResultValue(frag: Fragment, dateCells: seq<Cell>, targetRows: seq<nat>, naming: Naming,
                              done: set<Date>, k: (nat, string), v: Cell)
  {
    exists d, b :: d in done && FragmentHits(frag, dateCells, targetRows, naming, d, b, k) && v == frag[d][b]
  }

  /** What writing the dates `done` of a result leaves in the table: only hit
      cells change, and each holds the value of a (date, band) that hits it. */
  ghost predicate Written(cells: map<(nat, string), Cell>, before: map<(nat, string), Cell>,
                          frag: Fragment, dateCells: seq<Cell>, targetRows: seq<nat>, naming: Naming, done: set<Date>)
  {
    (forall k :: k in cells <==> (k in before || HitInResult(frag, dateCells, targetRows, naming, done, k))) &&
    (forall k :: k in before && !HitInResult(frag, dateCells, targetRows, naming, done, k) ==> cells[k] == before[k]) &&
    (forall k :: HitInResult(frag, dateCells, targetRows, naming, done, k) ==>
       ResultValue(frag, dateCells, targetRows, naming, done, k, cells[k]))
  }

  /** Lines 2114-2134: a retrieved result written into the code's table, date
      by date; only the current site's rows of each date are touched. */
  method WriteResult(t: CodeTable, frag: Fragment, dateCells: seq<Cell>, targetRows: seq<nat>, naming: Naming)
    requires t.Valid() && |dateCells| == t.nrows
    modifies t
    ensures t.Valid()
    ensures Written(t.cells, old(t.cells), frag, dateCells, targetRows, naming, frag.Keys)
    ensures old(t.columns) <= t.columns
    ensures forall c :: c in t.columns ==>
      (c in old(t.columns) || exists d, b :: d in frag && b in frag[d] && c in ColumnNames(b, naming))
  {
    var todo := frag.Keys;
    ghost var done: set<Date> := {};
    while todo != {}
      invariant t.Valid()
      invariant todo + done == frag.Keys && todo !! done
      invariant Written(t.cells, old(t.cells), frag, dateCells, targetRows, naming, done)
      invariant old(t.columns) <= t.columns
      invariant forall c :: c in t.columns ==>
        (c in old(t.columns) || exists d, b :: d in frag && b in frag[d] && c in ColumnNames(b, naming))
      decreases |todo|
    {
      NonEmptyHasDate(todo);
      var d :| d in todo;
      var rows := SameDateRows(dateCells, targetRows, d);
      assert forall i :: 0 <= i < |rows| ==> rows[i] in rows;
      ghost var mid := t.cells;
      ghost var midCols := t.columns;
      WriteDate(t, frag[d], rows, naming);
      ResultStep(t.cells, mid, old(t.cells), frag, dateCells, targetRows, naming, done, d);
      ColumnsStep(t.columns, midCols, old(t.columns), frag, naming, d);
      MoveOne(todo, done, frag.Keys, d);
      todo := todo - {d};
      done := done + {d};
    }
  }

  /** The columns a date's bands add are named after a band of the result. */
  lemma {:induction false} ColumnsStep(cols: seq<string>, mid: seq<string>, before: seq<string>,
                                       frag: Fragment, naming: Naming, d: Date)
    requires d in frag
    requires forall c :: c in mid ==> (c in before || exists d', b :: d' in frag && b in frag[d'] && c in ColumnNames(b, naming))
    requires forall c :: c in cols ==> (c in mid || exists b :: b in frag[d] && c in ColumnNames(b, naming))
    ensures forall c :: c in cols ==> (c in before || exists d', b :: d' in frag && b in frag[d'] && c in ColumnNames(b, naming))
  {
    forall c | c in cols
      ensures c in before || exists d', b :: d' in frag && b in frag[d'] && c in ColumnNames(b, naming)
    {
      if c !in mid {
        var b :| b in frag[d] && c in ColumnNames(b, naming);
        assert d in frag && b in frag[d] && c in ColumnNames(b, naming);
      }
    }
  }

  /** Adding date `d` to `done` adds exactly the cells its bands hit. */
  lemma {:induction false} HitInResultGrows(frag: Fragment, dateCells: seq<Cell>, targetRows: seq<nat>, naming: Naming,
                         done: set<Date>, d: Date, k: (nat, string))
    requires d in frag
    ensures HitInResult(frag, dateCells, targetRows, naming, done + {d}, k) <==>
      (HitInResult(frag, dateCells, targetRows, naming, done, k) ||
       HitInDate(frag[d], naming, SameDateRows(dateCells, targetRows, d), frag[d].Keys, k))
  {
    var rows := SameDateRows(dateCells, targetRows, d);
    if HitInResult(frag, dateCells, targetRows, naming, done + {d}, k) {
      var e, b :| e in done + {d} && FragmentHits(frag, dateCells, targetRows, naming, e, b, k);
      if e == d {
        assert b in frag[d].Keys && Hits(frag[d], naming, rows, b, k);
      } else {
        assert e in done;
      }
    }
    if HitInResult(frag, dateCells, targetRows, naming, done, k) {
      var e, b :| e in done && FragmentHits(frag, dateCells, targetRows, naming, e, b, k);
      assert e in done + {d};
    }
    if HitInDate(frag[d], naming, rows, frag[d].Keys, k) {
      var b :| b in frag[d].Keys && Hits(frag[d], naming, rows, b, k);
      assert d in done + {d} && FragmentHits(frag, dateCells, targetRows, naming, d, b, k);
    }
  }

  /** One more date keeps `Written`. */
  lemma {:induction false} ResultStep(cells: map<(nat, string), Cell>, mid: map<(nat, string), Cell>, before: map<(nat, string), Cell>,
                   frag: Fragment, dateCells: seq<Cell>, targetRows: seq<nat>, naming: Naming, done: set<Date>, d: Date)
    requires d in frag
    requires Written(mid, before, frag, dateCells, targetRows, naming, done)
    requires DateWritten(cells, mid, frag[d], naming, SameDateRows(dateCells, targetRows, d), frag[d].Keys)
    ensures Written(cells, before, frag, dateCells, targetRows, naming, done + {d})
  {
    var rows := SameDateRows(dateCells, targetRows, d);
    var d' := done + {d};
    forall k ensures HitInResult(frag, dateCells, targetRows, naming, d', k) <==>
      (HitInResult(frag, dateCells, targetRows, naming, done, k) || HitInDate(frag[d], naming, rows, frag[d].Keys, k))
    {
      HitInResultGrows(frag, dateCells, targetRows, naming, done, d, k);
    }
    forall k | HitInResult(frag, dateCells, targetRows, naming, d', k)
      ensures ResultValue(frag, dateCells, targetRows, naming, d', k, cells[k])
    {
      if HitInDate(frag[d], naming, rows, frag[d].Keys, k) {
        var b :| b in frag[d].Keys && Hits(frag[d], naming, rows, b, k) && cells[k] == frag[d][b];
        assert d in d' && FragmentHits(frag, dateCells, targetRows, naming, d, b, k);
      } else {
        var e, b :| e in done && FragmentHits(frag, dateCells, targetRows, naming, e, b, k) && mid[k] == frag[e][b];
        assert e in d' && cells[k] == frag[e][b];
      }
    }
  }

  /** No two band keys of one date share a column name. */
  ghost predicate NoNameClash(frag: Fragment, naming: Naming)
  {
    forall d, a, b :: d in frag && a in frag[d] && b in frag[d] && a != b ==>
      ColumnNames(a, naming) !! ColumnNames(b, naming)
  }

  /** A written cell holds exactly the value of the (date, band) aimed at it
      when no two keys of a date share a name: rows of different dates are
      disjoint, so nothing else competes for the cell. */
  lemma {:induction false} WrittenValue(cells: map<(nat, string), Cell>, before: map<(nat, string), Cell>,
                     frag: Fragment, dateCells: seq<Cell>, targetRows: seq<nat>, naming: Naming,
                     d: Date, b: string, k: (nat, string))
    requires Written(cells, before, frag, dateCells, targetRows, naming, frag.Keys)
    requires NoNameClash(frag, naming)
    requires FragmentHits(frag, dateCells, targetRows, naming, d, b, k)
    ensures k in cells && cells[k] == frag[d][b]
  {
    assert HitInResult(frag, dateCells, targetRows, naming, frag.Keys, k);
    var e, c :| e in frag.Keys && FragmentHits(frag, dateCells, targetRows, naming, e, c, k) && cells[k] == frag[e][c];
    assert dateCells[k.0] == Day(d) && dateCells[k.0] == Day(e);
    assert c == b;
  }

  /** A cell no (date, band) of the result is aimed at keeps its old value,
      or stays NaN. */
  lemma {:induction false} UnwrittenUnchanged(cells: map<(nat, string), Cell>, before: map<(nat, string), Cell>,
                           frag: Fragment, dateCells: seq<Cell>, targetRows: seq<nat>, naming: Naming, k: (nat, string))
    requires Written(cells, before, frag, dateCells, targetRows, naming, frag.Keys)
    requires forall d, b :: !FragmentHits(frag, dateCells, targetRows, naming, d, b, k)
    ensures (k in cells <==> k in before) && (k in before ==> cells[k] == before[k])
  {
  }

  /** With several codes, prefixed names never clash. */
  lemma {:induction false} CodePrefixNoClash(frag: Fragment, code: nat)
    ensures NoNameClash(frag, CodePrefix(code))
  {
    var p := DecimalString(code) + "_";
    forall a: string, b: string | a != b ensures p + a != p + b {
      assert (p + a)[|p|..] == a && (p + b)[|p|..] == b;
    }
  }
}
