/** `specificDatesRetrieval` (geedar_lib/geedar.py, lines 1775-2193): the
    input table is checked and prepared, then every site with an area of
    interest is processed code by code and batch by batch, and the per-code
    tables are consolidated. Earth Engine and the file system are oracles. */
module Retrieval {
  import opened Wrappers
  import opened Registry
  import opened PyText
  import opened Demand
  import DateRanges
  import opened Batching
  import opened Reduction
  import opened Estimation
  import Products
  import opened Results
  import opened Consolidation
  import Cli

  /** The exceptions that end a run. */
  datatype RunError =
    | BadInput(input: InputError)
    | BadRanges(ranges: DateRanges.RangeError)
    | MissingArgument        // TypeError: `toSpecificDatesDF()` without `input_df`
    | UndefinedTimeWindow    // NameError: the global `time_window` was never assigned
    | ZeroDivisionError
    | UnknownReducerError
    | EmptySuffixList
    | ServerSideResult       // iterating the unevaluated dictionary of reducer 0
    | ConsolidationFailed(consolidation: ConsolidationError)

  /** The arguments of `specificDatesRetrieval`, the five lists zipped into plans. */
  datatype Settings = Settings(runningMode: int, inputDir: string, kml: bool, appendMode: bool,
                               maxPixels: int, plans: seq<Plan>)

  /** What the run asks of the outside world. A site, a code position and a
      batch number identify one request. */
  datatype Remote = Remote(
    availableDates: (int, seq<Date>) -> seq<Date>,   // getAvailableDates
    pixelsInAoi: (string, int) -> real,              // aoi.area() / roughScale^2, getInfo()
    isFile: string -> bool,                          // os.path.isfile
    polygonFound: string -> bool,                    // polygonFromKML(f) != []
    service: (string, nat, nat) -> Service,          // the batch's reduction request
    perDate: (string, nat, nat) -> DateService)      // its one-date fallback requests

  /** One batch request: site, position of the code, batch number, dates. */
  datatype Request = Request(site: string, codeIndex: nat, group: nat, dates: seq<Date>)

  /** The registry entries a plan's lookups need: the image processing
      algorithm always, the product and estimation algorithm once it applies. */
  predicate Known(reg: Registries, p: Plan)
  {
    p.imgProcAlgo in reg.imgProcAlgos &&
    (p.productID in reg.imgProcAlgos[p.imgProcAlgo].applicableTo ==>
       p.productID in reg.products && WellIndexed(reg.products[p.productID]) &&
       p.estimationAlgo in reg.estimationAlgos)
  }

  predicate PlansKnown(reg: Registries, plans: seq<Plan>)
  {
    forall i :: 0 <= i < |plans| ==> Known(reg, plans[i])
  }

  // ------------------------------------------------------ the input table

  /** The table the run works on, with its time window. */
  datatype Input = Input(header: seq<string>, rows: seq<seq<Cell>>, timeWindow: nat)

  /** Lines 1807-1812 and 1933 as written. Mode 2 assigns `time_window = 0`
      and then calls `toSpecificDatesDF()` without its argument; any other mode
      reads `time_window`, which only an earlier mode-2 call can have set
      (`globalTimeWindow`). */
  function StartAsWritten(runningMode: int, header: seq<string>, rows: seq<seq<Cell>>,
                          globalTimeWindow: Option<nat>): (r: Result<Input, RunError>)
    ensures runningMode == 2 ==> r == Err(MissingArgument)
    ensures runningMode != 2 ==> (r.Ok? <==> globalTimeWindow.Some?)
    ensures runningMode != 2 && globalTimeWindow.None? ==> r == Err(UndefinedTimeWindow)
  {
    if runningMode == 2 then Err(MissingArgument)
    else match globalTimeWindow
      case None => Err(UndefinedTimeWindow)
      case Some(tw) => Ok(Input(header, rows, tw))
  }

  /** In a fresh interpreter no running mode gets past these lines. */
  lemma {:induction false} NoFreshRunStartsAsWritten(runningMode: int, header: seq<string>, rows: seq<seq<Cell>>)
    ensures StartAsWritten(runningMode, header, rows, None).Err?
  {
  }

  function Lowered(header: seq<string>): (colnames: seq<string>)
    ensures |colnames| == |header| && forall i :: 0 <= i < |header| ==> colnames[i] == Lower(header[i])
  {
    seq(|header|, i requires 0 <= i < |header| => Lower(header[i]))
  }

  /** The corrected start: mode 2 replaces the table by its conversion to
      specific dates, with no time window; other modes use the time window
      the caller gives. */
  function Start(runningMode: int, header: seq<string>, rows: seq<seq<Cell>>, reg: Registries, today: Date,
                 toDate: Cell -> Option<Date>, timeWindow: nat): (r: Result<Input, RunError>)
    requires Rectangular(rows, |header|)
    ensures r.Ok? ==> Rectangular(r.value.rows, |r.value.header|)
    ensures runningMode != 2 ==> r == Ok(Input(header, rows, timeWindow))
    ensures runningMode == 2 ==> (r.Ok? <==> DateRanges.ToSpecificDates(header, rows, reg, today, toDate).Ok?)
  {
    if runningMode != 2 then Ok(Input(header, rows, timeWindow))
    else match DateRanges.ToSpecificDates(header, rows, reg, today, toDate)
      case Err(e) => Err(BadRanges(e))
      case Ok(f) =>
        ConvertedFrame(header, rows, reg, today, toDate);
        Ok(Input(f.columns, f.rows, 0))
  }

  /** The converted frame has a `date` column first and at least one row, all
      as wide as its header. */
  lemma {:induction false} ConvertedFrame(header: seq<string>, rows: seq<seq<Cell>>, reg: Registries, today: Date,
                       toDate: Cell -> Option<Date>)
    requires Rectangular(rows, |header|)
    requires DateRanges.ToSpecificDates(header, rows, reg, today, toDate).Ok?
    ensures var f := DateRanges.ToSpecificDates(header, rows, reg, today, toDate).value;
      f.columns != [] && f.columns[0] == "date" && f.rows != [] && Rectangular(f.rows, |f.columns|)
  {
    var colnames := Lowered(header);
    var startCol := IndexOf(colnames, "start_date").value;
    var endCol := IndexOf(colnames, "end_date").value;
    var cols := DateRanges.ExportColumns(colnames);
    DateRanges.ConvertedRowsFromRanges(rows, startCol, endCol, cols, reg, today, toDate, |rows|);
    var f := DateRanges.ToSpecificDates(header, rows, reg, today, toDate).value;
    assert |f.columns| == |cols| + 1;
    forall j | 0 <= j < |f.rows| ensures |f.rows[j]| == |f.columns| {
      assert f.rows[j] in f.rows;
    }
  }

  /** In mode 2 the table the run works on leads with the `date` column, has at
      least one row, and its dates are used as they are (no time window). */
  lemma {:induction false} Mode2Shape(header: seq<string>, rows: seq<seq<Cell>>, reg: Registries, today: Date,
                   toDate: Cell -> Option<Date>, timeWindow: nat)
    requires Rectangular(rows, |header|)
    requires Start(2, header, rows, reg, today, toDate, timeWindow).Ok?
    ensures var input := Start(2, header, rows, reg, today, toDate, timeWindow).value;
      input.timeWindow == 0 && input.header != [] && input.header[0] == "date" && input.rows != []
  {
    ConvertedFrame(header, rows, reg, today, toDate);
  }

  /** In mode 2 every row of the table the run works on is one date of the
      range of some input row, beside that row's id and coordinates. */
  lemma {:induction false} Mode2RowsFromRanges(header: seq<string>, rows: seq<seq<Cell>>, reg: Registries, today: Date,
                            toDate: Cell -> Option<Date>, timeWindow: nat, o: seq<Cell>)
    requires Rectangular(rows, |header|)
    requires Start(2, header, rows, reg, today, toDate, timeWindow).Ok?
    requires o in Start(2, header, rows, reg, today, toDate, timeWindow).value.rows
    ensures var colnames := Lowered(header);
      var startCol := IndexOf(colnames, "start_date").value;
      var endCol := IndexOf(colnames, "end_date").value;
      var cols := DateRanges.ExportColumns(colnames);
      DateRanges.RangeRows(rows, startCol, endCol, cols) &&
      exists i :: 0 <= i < |rows| && DateRanges.FromRangeRow(o, rows[i], startCol, endCol, cols, reg, today, toDate)
  {
    var colnames := Lowered(header);
    var startCol := IndexOf(colnames, "start_date").value;
    var endCol := IndexOf(colnames, "end_date").value;
    var cols := DateRanges.ExportColumns(colnames);
    DateRanges.ConvertedRowsFromRanges(rows, startCol, endCol, cols, reg, today, toDate, |rows|);
  }

  /** The prepared demand: the result template with its header, the column
      layout and the valid rows. */
  datatype DemandTable = DemandTable(header: seq<string>, template: seq<seq<Cell>>, layout: Layout, validRows: seq<nat>)

  /** Valid rows, ascending, each in range and dated. */
  predicate DatedRows(rows: seq<seq<Cell>>, validRows: seq<nat>, dateCol: nat)
  {
    (forall k :: 0 <= k < |validRows| ==>
       validRows[k] < |rows| && dateCol < |rows[validRows[k]]| && rows[validRows[k]][dateCol].Day?) &&
    (forall j, k :: 0 <= j < k < |validRows| ==> validRows[j] < validRows[k])
  }

  predicate WellPrepared(d: DemandTable, kml: bool)
  {
    Rectangular(d.template, |d.header|) && LayoutFits(d.layout, |d.header|, kml) && KeyedRows(d.template, d.layout) &&
    DatedRows(d.template, d.validRows, d.layout.dateCol)
  }

  lemma {:induction false} FitsKeyed(rows: seq<seq<Cell>>, width: nat, l: Layout, kml: bool)
    requires Rectangular(rows, width) && LayoutFits(l, width, kml)
    ensures KeyedRows(rows, l)
  {
  }

  /** Lines 1910-1921: `which` of the validity mask lists exactly the valid
      rows, ascending, and each has a date. */
  lemma {:induction false} ValidRowsDated(rows: seq<seq<Cell>>, width: nat, l: Layout, kml: bool)
    requires Rectangular(rows, width) && LayoutFits(l, width, kml) && DateColumnParses(rows, l.dateCol)
    ensures var v := Utils.Indices(ValidityMask(rows, width, l, kml));
      DatedRows(rows, v, l.dateCol) && ExpandableRows(rows, v, l.dateCol) &&
      (forall i :: i in v <==> 0 <= i < |rows| && ValidityMask(rows, width, l, kml)[i]) &&
      (v == [] <==> forall i :: 0 <= i < |rows| ==> !ValidityMask(rows, width, l, kml)[i])
  {
    var mask := ValidityMask(rows, width, l, kml);
    Utils.IndicesExact(mask);
    var v := Utils.Indices(mask);
    assert forall k :: 0 <= k < |v| ==> v[k] in v;
    if v != [] {
      assert v[0] in v;
    }
  }

  /** Lines 1933-1975: the template with `img_date` after the date column and
      the copies of the valid rows. */
  function Expand(header: seq<string>, rows: seq<seq<Cell>>, l: Layout, validRows: seq<nat>, tw: nat, kml: bool)
      : (d: DemandTable)
    requires Rectangular(rows, |header|) && LayoutFits(l, |header|, kml) && ExpandableRows(rows, validRows, l.dateCol)
    ensures WellPrepared(d, kml)
    ensures d.header == InsertAt(header, l.dateCol + 1, "img_date") && d.layout == ShiftLayout(l)
    ensures DatesMarked(d.template, d.validRows, l.dateCol + 1)
  {
    var out := ExpandedRows(rows, validRows, l.dateCol, tw, |rows|);
    var validNew := ExpandedValid(rows, validRows, l.dateCol, tw, |rows|);
    var h := InsertAt(header, l.dateCol + 1, "img_date");
    ExpandedRectangular(rows, validRows, l.dateCol, tw, |rows|, |header|);
    ExpandedValidExact(rows, validRows, l.dateCol, tw, |rows|);
    ExpandedValidBounded(rows, validRows, l.dateCol, tw, |rows|);
    ShiftKeepsColumns(header, l, kml);
    assert forall k :: 0 <= k < |validNew| ==> validNew[k] in validNew;
    FitsKeyed(out, |h|, ShiftLayout(l), kml);
    DemandTable(h, out, ShiftLayout(l), validNew)
  }

  /** Lines 1822-1975: the columns are resolved, the valid rows found, and
      with a time window every valid row becomes 2*tw+1 dated copies. */
  function Prepare(input: Input, kml: bool): (r: Result<DemandTable, InputError>)
    requires Rectangular(input.rows, |input.header|)
    ensures r.Ok? ==> WellPrepared(r.value, kml)
    ensures ResolveColumns(Lowered(input.header), input.rows, kml).Err? ==>
      r == Err(ResolveColumns(Lowered(input.header), input.rows, kml).error)
    ensures ResolveColumns(Lowered(input.header), input.rows, kml).Ok? ==>
      var l := ResolveColumns(Lowered(input.header), input.rows, kml).value;
      (r == Err(NoValidRows) <==> forall i :: 0 <= i < |input.rows| ==> !ValidityMask(input.rows, |input.header|, l, kml)[i])
    ensures r.Ok? && input.timeWindow == 0 ==>
      var l := ResolveColumns(Lowered(input.header), input.rows, kml).value;
      r.value.header == input.header && r.value.template == input.rows && r.value.layout == l &&
      forall i :: i in r.value.validRows <==> (0 <= i < |input.rows| && ValidityMask(input.rows, |input.header|, l, kml)[i])
    ensures r.Ok? && input.timeWindow != 0 ==>
      var l := ResolveColumns(Lowered(input.header), input.rows, kml).value;
      r.value.header == InsertAt(input.header, l.dateCol + 1, "img_date") && r.value.layout == ShiftLayout(l) &&
      DatesMarked(r.value.template, r.value.validRows, l.dateCol + 1)
  {
    var resolved := ResolveColumns(Lowered(input.header), input.rows, kml);
    if resolved.Err? then Err(resolved.error)
    else PrepareResolved(input, resolved.value, kml)
  }

  /** Lines 1910-1975, once the columns are resolved to `l`. */
  function PrepareResolved(input: Input, l: Layout, kml: bool): (r: Result<DemandTable, InputError>)
    requires Rectangular(input.rows, |input.header|) && LayoutFits(l, |input.header|, kml)
    requires DateColumnParses(input.rows, l.dateCol)
    ensures r.Ok? ==> WellPrepared(r.value, kml)
    ensures r.Err? ==> r == Err(NoValidRows)
    ensures r.Err? <==> forall i :: 0 <= i < |input.rows| ==> !ValidityMask(input.rows, |input.header|, l, kml)[i]
    ensures r.Ok? && input.timeWindow == 0 ==>
      r.value.header == input.header && r.value.template == input.rows && r.value.layout == l &&
      forall i :: i in r.value.validRows <==> (0 <= i < |input.rows| && ValidityMask(input.rows, |input.header|, l, kml)[i])
    ensures r.Ok? && input.timeWindow != 0 ==>
      r.value.header == InsertAt(input.header, l.dateCol + 1, "img_date") && r.value.layout == ShiftLayout(l) &&
      DatesMarked(r.value.template, r.value.validRows, l.dateCol + 1)
  {
    var validRows := Utils.Indices(ValidityMask(input.rows, |input.header|, l, kml));
    ValidRowsDated(input.rows, |input.header|, l, kml);
    if validRows == [] then Err(NoValidRows)
    else if input.timeWindow == 0 then
      FitsKeyed(input.rows, |input.header|, l, kml);
      Ok(DemandTable(input.header, input.rows, l, validRows))
    else Ok(Expand(input.header, input.rows, l, validRows, input.timeWindow, kml))
  }

  /** Lines 1822-1975 with the expansion loop. */
  method PrepareDemand(input: Input, kml: bool) returns (r: Result<DemandTable, InputError>)
    requires Rectangular(input.rows, |input.header|)
    ensures r == Prepare(input, kml)
  {
    var colnames := Lowered(input.header);
    var resolved := ResolveColumns(colnames, input.rows, kml);
    if resolved.Err? {
      return Err(resolved.error);
    }
    var l := resolved.value;
    assert Prepare(input, kml) == PrepareResolved(input, l, kml);
    var validRows := Utils.Indices(ValidityMask(input.rows, |input.header|, l, kml));
    ValidRowsDated(input.rows, |input.header|, l, kml);
    if |validRows| < 1 {
      return Err(NoValidRows);
    }
    if input.timeWindow == 0 {
      return Ok(DemandTable(input.header, input.rows, l, validRows));
    }
    var out, validNew := ExpandTimeWindow(input.rows, validRows, l.dateCol, input.timeWindow);
    r := Ok(DemandTable(InsertAt(input.header, l.dateCol + 1, "img_date"), out, ShiftLayout(l), validNew));
    ExpandedPrepared(input, l, kml);
  }

  /** With a time window and some valid row, the prepared table is the expansion of the valid rows. */
  lemma {:induction false} ExpandedPrepared(input: Input, l: Layout, kml: bool)
    requires Rectangular(input.rows, |input.header|) && LayoutFits(l, |input.header|, kml)
    requires DateColumnParses(input.rows, l.dateCol)
    requires Utils.Indices(ValidityMask(input.rows, |input.header|, l, kml)) != [] && input.timeWindow != 0
    ensures var validRows := Utils.Indices(ValidityMask(input.rows, |input.header|, l, kml));
      PrepareResolved(input, l, kml) ==
      Ok(DemandTable(InsertAt(input.header, l.dateCol + 1, "img_date"),
                     ExpandedRows(input.rows, validRows, l.dateCol, input.timeWindow, |input.rows|), ShiftLayout(l),
                     ExpandedValid(input.rows, validRows, l.dateCol, input.timeWindow, |input.rows|)))
  {
    var validRows := Utils.Indices(ValidityMask(input.rows, |input.header|, l, kml));
    ValidRowsDated(input.rows, |input.header|, l, kml);
    assert PrepareResolved(input, l, kml) == Ok(Expand(input.header, input.rows, l, validRows, input.timeWindow, kml));
    ExpandValue(input.header, input.rows, l, validRows, input.timeWindow, kml);
  }

  lemma {:induction false} ExpandValue(header: seq<string>, rows: seq<seq<Cell>>, l: Layout, validRows: seq<nat>, tw: nat, kml: bool)
    requires Rectangular(rows, |header|) && LayoutFits(l, |header|, kml) && ExpandableRows(rows, validRows, l.dateCol)
    ensures Expand(header, rows, l, validRows, tw, kml) ==
      DemandTable(InsertAt(header, l.dateCol + 1, "img_date"), ExpandedRows(rows, validRows, l.dateCol, tw, |rows|),
                  ShiftLayout(l), ExpandedValid(rows, validRows, l.dateCol, tw, |rows|))
  {
  }

  // ------------------------------------------------------ sites

  function Keys(d: DemandTable, kml: bool): (keys: seq<string>)
    requires WellPrepared(d, kml)
    ensures |keys| == |d.template|
  {
    SiteKeys(d.template, d.layout)
  }

  /** Line 1988: the sites of the valid rows, in order of first appearance. */
  function Sites(d: DemandTable, kml: bool): seq<string>
    requires WellPrepared(d, kml)
  {
    SiteList(Keys(d, kml), d.validRows)
  }

  /** Line 2005: the valid rows of a site. */
  function SiteRows(d: DemandTable, kml: bool, site: string): (rows: seq<nat>)
    requires WellPrepared(d, kml)
    ensures forall i :: i in rows ==> i in d.validRows && i < |d.template|
  {
    TargetRows(Keys(d, kml), site, d.validRows)
  }

  /** Lines 2006-2008: the site's demand dates. */
  function SiteDates(d: DemandTable, kml: bool, site: string): seq<Date>
    requires WellPrepared(d, kml)
  {
    var rows := SiteRows(d, kml, site);
    assert forall k :: 0 <= k < |rows| ==> rows[k] in rows;
    DateList(d.template, rows, d.layout.dateCol)
  }

  /** The date column of the template, which line 2117 compares with each date. */
  function DateCells(d: DemandTable, kml: bool): (cells: seq<Cell>)
    requires WellPrepared(d, kml)
    ensures |cells| == |d.template|
  {
    seq(|d.template|, i requires 0 <= i < |d.template| => d.template[i][d.layout.dateCol])
  }

  /** Lines 2012-2024: the KML file of a site, looked up beside the input file
      and then in its `KML` folder. */
  function KmlFile(inputDir: string, site: string, isFile: string -> bool): (f: Option<string>)
    ensures f.Some? ==> isFile(f.value)
    ensures f.None? <==> !isFile(Cli.JoinPath(inputDir, site + ".kml")) &&
                         !isFile(Cli.JoinPath(Cli.JoinPath(inputDir, "KML"), site + ".kml"))
  {
    var searchPath1 := Cli.JoinPath(inputDir, site + ".kml");
    var searchPath2 := Cli.JoinPath(Cli.JoinPath(inputDir, "KML"), site + ".kml");
    if isFile(searchPath1) then Some(searchPath1)
    else if isFile(searchPath2) then Some(searchPath2)
    else None
  }

  /** Lines 2009-2045: a point site always has an area of interest; a KML site
      has one when its file exists and holds a polygon. */
  predicate HasAoi(s: Settings, remote: Remote, site: string)
  {
    !s.kml || (KmlFile(s.inputDir, site, remote.isFile).Some? &&
               remote.polygonFound(KmlFile(s.inputDir, site, remote.isFile).value))
  }

  // ------------------------------------------------------ the request plan

  /** Lines 2056-2064: the code is processed when its algorithm applies to its product. */
  predicate Applies(reg: Registries, p: Plan)
    requires p.imgProcAlgo in reg.imgProcAlgos
  {
    p.productID in reg.imgProcAlgos[p.imgProcAlgo].applicableTo
  }

  /** Lines 2066-2068: the site's dates the product has images for. */
  function Available(remote: Remote, p: Plan, dateList: seq<Date>): seq<Date>
  {
    AvailableDates(dateList, remote.availableDates(p.productID, dateList))
  }

  /** Lines 2087-2090: the batch length for the site and product. */
  function CodeGroupLen(reg: Registries, s: Settings, remote: Remote, site: string, p: Plan): Result<int, BatchError>
    requires p.imgProcAlgo in reg.imgProcAlgos
  {
    GroupLen(s.maxPixels, remote.pixelsInAoi(site, p.productID), reg.imgProcAlgos[p.imgProcAlgo].nSimImgs)
  }

  /** Lines 2091-2096: the batches; a negative length gives none. */
  function CodeBatches(dates: seq<Date>, groupLen: int): (bs: seq<seq<Date>>)
    requires groupLen != 0
    ensures groupLen < 0 ==> bs == []
    ensures groupLen > 0 ==> bs == Batches(dates, groupLen)
  {
    if groupLen > 0 then Batches(dates, groupLen) else []
  }

  function CodeRequests(site: string, i: nat, batches: seq<seq<Date>>): (rs: seq<Request>)
    ensures |rs| == |batches| && forall g :: 0 <= g < |rs| ==> rs[g] == Request(site, i, g, batches[g])
  {
    seq(|batches|, g requires 0 <= g < |batches| => Request(site, i, g, batches[g]))
  }

  /** The requests code `i` makes for a site: none when its algorithm does
      not apply, the ZeroDivisionError when its batch length cannot be
      computed, otherwise one per batch. */
  function CodeStep(reg: Registries, s: Settings, remote: Remote, site: string, dateList: seq<Date>, i: nat)
      : Result<seq<Request>, RunError>
    requires i < |s.plans| && PlansKnown(reg, s.plans)
  {
    var p := s.plans[i];
    if !Applies(reg, p) then Ok([])
    else match CodeGroupLen(reg, s, remote, site, p)
      case Err(_) => Err(ZeroDivisionError)
      case Ok(gl) => Ok(CodeRequests(site, i, CodeBatches(Available(remote, p, dateList), gl)))
  }

  /** The requests of the first `n` codes of a site, or the first error. */
  function SiteRequests(reg: Registries, s: Settings, remote: Remote, site: string, dateList: seq<Date>, n: nat)
      : Result<seq<Request>, RunError>
    requires n <= |s.plans| && PlansKnown(reg, s.plans)
  {
    if n == 0 then Ok([]) else
      match SiteRequests(reg, s, remote, site, dateList, n - 1)
      case Err(e) => Err(e)
      case Ok(prev) =>
        match CodeStep(reg, s, remote, site, dateList, n - 1)
        case Err(e) => Err(e)
        case Ok(rs) => Ok(prev + rs)
  }

  /** `steps` holds the result of every code of a site, in code order. */
  ghost predicate StepsOf(reg: Registries, s: Settings, remote: Remote, site: string, dateList: seq<Date>,
                          steps: seq<Result<seq<Request>, RunError>>)
  {
    PlansKnown(reg, s.plans) && |steps| == |s.plans| &&
    forall j {:trigger CodeStep(reg, s, remote, site, dateList, j)} :: 0 <= j < |s.plans| ==>
      steps[j] == CodeStep(reg, s, remote, site, dateList, j)
  }

  /** The requests of the first `n` step results, or the first error. */
  function Concatenated(steps: seq<Result<seq<Request>, RunError>>, n: nat): Result<seq<Request>, RunError>
    requires n <= |steps|
  {
    if n == 0 then Ok([]) else
      match Concatenated(steps, n - 1)
      case Err(e) => Err(e)
      case Ok(prev) =>
        match steps[n - 1]
        case Err(e) => Err(e)
        case Ok(rs) => Ok(prev + rs)
  }

  /** Folding the codes' results one by one gives the site's requests. */
  lemma {:induction false} ConcatenatedSteps(reg: Registries, s: Settings, remote: Remote, site: string,
                                             dateList: seq<Date>, steps: seq<Result<seq<Request>, RunError>>, n: nat)
    requires StepsOf(reg, s, remote, site, dateList, steps) && n <= |s.plans|
    ensures Concatenated(steps, n) == SiteRequests(reg, s, remote, site, dateList, n)
  {
    if n > 0 {
      ConcatenatedSteps(reg, s, remote, site, dateList, steps, n - 1);
      assert steps[n - 1] == CodeStep(reg, s, remote, site, dateList, n - 1);
    }
  }

  /** The requests of one site: none without an area of interest. */
  function SiteStep(reg: Registries, s: Settings, remote: Remote, d: DemandTable, site: string)
      : Result<seq<Request>, RunError>
    requires PlansKnown(reg, s.plans) && WellPrepared(d, s.kml)
  {
    if !HasAoi(s, remote, site) then Ok([])
    else SiteRequests(reg, s, remote, site, SiteDates(d, s.kml, site), |s.plans|)
  }

  /** Every site's result, in site order. */
  function SiteSteps(reg: Registries, s: Settings, remote: Remote, d: DemandTable): (steps: seq<Result<seq<Request>, RunError>>)
    requires PlansKnown(reg, s.plans) && WellPrepared(d, s.kml)
    ensures |steps| == |Sites(d, s.kml)|
  {
    var sites := Sites(d, s.kml);
    seq(|sites|, j requires 0 <= j < |sites| => SiteStep(reg, s, remote, d, sites[j]))
  }

  /** The requests of the whole run: the sites' requests in order, or the first error. */
  function PlannedRequests(reg: Registries, s: Settings, remote: Remote, d: DemandTable): Result<seq<Request>, RunError>
    requires PlansKnown(reg, s.plans) && WellPrepared(d, s.kml)
  {
    Concatenated(SiteSteps(reg, s, remote, d), |Sites(d, s.kml)|)
  }

  /** A batch request of code `i`: one of its batches, of one to `nSimImgs` dates. */
  predicate ServedBatch(reg: Registries, s: Settings, remote: Remote, site: string, dateList: seq<Date>, q: Request)
    requires PlansKnown(reg, s.plans)
  {
    q.site == site && q.codeIndex < |s.plans| &&
    var p := s.plans[q.codeIndex];
    Applies(reg, p) && CodeGroupLen(reg, s, remote, site, p).Ok? &&
    var gl := CodeGroupLen(reg, s, remote, site, p).value;
    gl > 0 && q.group < |Batches(Available(remote, p, dateList), gl)| &&
    q.dates == Batches(Available(remote, p, dateList), gl)[q.group] &&
    1 <= |q.dates| <= reg.imgProcAlgos[p.imgProcAlgo].nSimImgs
  }

  lemma {:induction false} CodeStepServed(reg: Registries, s: Settings, remote: Remote, site: string, dateList: seq<Date>, i: nat,
                       q: Request)
    requires i < |s.plans| && PlansKnown(reg, s.plans)
    requires CodeStep(reg, s, remote, site, dateList, i).Ok? && q in CodeStep(reg, s, remote, site, dateList, i).value
    ensures ServedBatch(reg, s, remote, site, dateList, q) && q.codeIndex == i
  {
    var p := s.plans[i];
    var gl := CodeGroupLen(reg, s, remote, site, p).value;
    var avail := Available(remote, p, dateList);
    var rs := CodeRequests(site, i, CodeBatches(avail, gl));
    var g :| 0 <= g < |rs| && rs[g] == q;
    BatchSizes(avail, gl, g);
  }

  /** Every planned request of a site is a batch of an applicable code: a run
      of its available dates, at most as many as the algorithm processes at once. */
  lemma {:induction false} SiteRequestsServed(reg: Registries, s: Settings, remote: Remote, site: string,
                                              dateList: seq<Date>, n: nat, q: Request)
    requires n <= |s.plans| && PlansKnown(reg, s.plans)
    requires SiteRequests(reg, s, remote, site, dateList, n).Ok? && q in SiteRequests(reg, s, remote, site, dateList, n).value
    ensures ServedBatch(reg, s, remote, site, dateList, q) && q.codeIndex < n
  {
    var prev := SiteRequests(reg, s, remote, site, dateList, n - 1).value;
    if q in prev {
      SiteRequestsServed(reg, s, remote, site, dateList, n - 1, q);
    } else {
      CodeStepServed(reg, s, remote, site, dateList, n - 1, q);
    }
  }

  /** For each applicable code the batches of a site, in order, request every
      available date exactly once. */
  lemma {:induction false} CodeStepCovers(reg: Registries, s: Settings, remote: Remote, site: string, dateList: seq<Date>, i: nat)
    requires i < |s.plans| && PlansKnown(reg, s.plans)
    requires CodeStep(reg, s, remote, site, dateList, i).Ok? && Applies(reg, s.plans[i])
    requires CodeGroupLen(reg, s, remote, site, s.plans[i]).value > 0
    ensures var rs := CodeStep(reg, s, remote, site, dateList, i).value;
      Concat(seq(|rs|, g requires 0 <= g < |rs| => rs[g].dates)) == Available(remote, s.plans[i], dateList)
  {
    var p := s.plans[i];
    var gl := CodeGroupLen(reg, s, remote, site, p).value;
    var avail := Available(remote, p, dateList);
    var rs := CodeStep(reg, s, remote, site, dateList, i).value;
    BatchesCover(avail, gl);
    assert seq(|rs|, g requires 0 <= g < |rs| => rs[g].dates) == Batches(avail, gl);
  }

  // ------------------------------------------------------ the code tables

  /** Lines 1993-1996: one table per processing code; a repeated code gets a
      new table in place of the first one. */
  method NewTables(plans: seq<Plan>, nrows: nat) returns (tables: map<nat, CodeTable>)
    ensures forall c :: c in tables <==> exists i :: 0 <= i < |plans| && plans[i].code == c
    ensures forall c :: c in tables ==> (tables[c].Valid() && tables[c].nrows == nrows &&
      tables[c].columns == [] && tables[c].cells == map[])
    ensures forall a, b :: a in tables && b in tables && a != b ==> tables[a] != tables[b]
    ensures forall c :: c in tables ==> fresh(tables[c])
  {
    tables := map[];
    for i := 0 to |plans|
      invariant forall c :: c in tables <==> exists j :: 0 <= j < i && plans[j].code == c
      invariant forall c :: c in tables ==> (tables[c].Valid() && tables[c].nrows == nrows &&
        tables[c].columns == [] && tables[c].cells == map[])
      invariant forall a, b :: a in tables && b in tables && a != b ==> tables[a] != tables[b]
      invariant forall c :: c in tables ==> fresh(tables[c])
    {
      var t := new CodeTable(nrows);
      tables := tables[plans[i].code := t];
    }
  }

  /** The cells of a table, by (row, column); a cell that is absent is NaN. */
  type Cells = map<(nat, string), Cell>

  /** Every table is valid, has the template's rows, and no two codes share one. */
  ghost predicate TablesOk(tables: map<nat, CodeTable>, nrows: nat)
    reads tables.Values
  {
    (forall c :: c in tables ==> tables[c].Valid() && tables[c].nrows == nrows) &&
    (forall a, b :: a in tables && b in tables && a != b ==> tables[a] != tables[b])
  }

  /** The cells of every code's table. */
  function CellsOf(tables: map<nat, CodeTable>): (snap: map<nat, Cells>)
    reads tables.Values
    ensures snap.Keys == tables.Keys
    ensures forall c :: c in tables ==> snap[c] == tables[c].cells
  {
    map c | c in tables :: tables[c].cells
  }

  /** The cells of `cells` that are new or changed since `before` lie in `rows`;
      none disappears. */
  ghost predicate OnlyRows(cells: Cells, before: Cells, rows: seq<nat>)
  {
    (forall k :: k in before ==> k in cells) &&
    (forall k :: k in cells && k.0 !in rows ==> k in before && cells[k] == before[k])
  }

  /** Every table differs from its snapshot in `base` only at `rows`. */
  ghost predicate TablesOnlyRows(tables: map<nat, CodeTable>, base: map<nat, Cells>, rows: seq<nat>)
    reads tables.Values
  {
    forall c :: c in tables ==> c in base && OnlyRows(tables[c].cells, base[c], rows)
  }

  /** Writing a result touches only the site's target rows. */
  lemma {:induction false} WrittenOnlyRows(cells: Cells, before: Cells,
                        frag: Fragment, dateCells: seq<Cell>, targetRows: seq<nat>, naming: Naming)
    requires Written(cells, before, frag, dateCells, targetRows, naming, frag.Keys)
    ensures OnlyRows(cells, before, targetRows)
  {
    forall k | k in cells && k.0 !in targetRows ensures k in before && cells[k] == before[k] {
      assert !HitInResult(frag, dateCells, targetRows, naming, frag.Keys, k);
    }
  }

  lemma {:induction false} OnlyRowsTrans(a: Cells, b: Cells, c: Cells, rows: seq<nat>)
    requires OnlyRows(a, b, rows) && OnlyRows(b, c, rows)
    ensures OnlyRows(a, c, rows)
  {
  }

  // ------------------------------------------------------ what a batch does

  /** A plan the run requests data for: its lookups succeed and its algorithm
      applies to its product. */
  predicate Runnable(reg: Registries, p: Plan)
  {
    Known(reg, p) && Applies(reg, p)
  }

  /** Lines 2121-2130: the naming rule of a plan's columns. */
  function PlanNaming(reg: Registries, s: Settings, p: Plan): Naming
    requires Runnable(reg, p)
  {
    NamingFor(s.appendMode, |s.plans|, p.code, reg.products[p.productID])
  }

  /** The bands reduced for a product: the values of `bands` after image
      processing, and the parameters estimation added. */
  function ReducedBands(reg: Registries, p: Plan): set<string>
    requires p.productID in reg.products && WellIndexed(reg.products[p.productID]) && p.estimationAlgo in reg.estimationAlgos
  {
    var bands := Products.GetSpectralBands(reg.products[p.productID]);
    var added := AddedParams(reg, [p.estimationAlgo], bands.Keys, 1);
    (set k | k in bands :: bands[k]) + (set x | x in added)
  }

  /** `dataRetrieved = True`: the batch brought back a non-empty result. */
  predicate Brought(o: ReduceOutcome)
  {
    o.Retrieved? && o.values != map[]
  }

  /** Some batch brought back data. */
  ghost predicate AnyData(os: seq<ReduceOutcome>)
  {
    exists j :: 0 <= j < |os| && Brought(os[j])
  }

  /** The exception an outcome of `reduction` leads to. */
  function OutcomeError(o: ReduceOutcome): (e: Option<RunError>)
    ensures e.None? <==> o.NoResult? || o.Retrieved?
  {
    match o
    case NoResult => None
    case Retrieved(_) => None
    case ServerSideParams => Some(ServerSideResult)
    case UnknownReducer => Some(UnknownReducerError)
    case NoSuffix => Some(EmptySuffixList)
  }

  /** No batch raised. */
  ghost predicate AllQuiet(os: seq<ReduceOutcome>)
  {
    forall j :: 0 <= j < |os| ==> OutcomeError(os[j]).None?
  }

  /** Request `q` ended with outcome `o` and took the tables from `before` to
      `after`: `o` is what `reduction` gives for the batch's answers, only the
      table of the request's code changes, and it changes only when data came
      back, which is then written at the site's rows of each date. */
  ghost predicate BatchApplied(reg: Registries, s: Settings, remote: Remote, d: DemandTable, q: Request,
                               o: ReduceOutcome, before: map<nat, Cells>, after: map<nat, Cells>)
    requires WellPrepared(d, s.kml)
  {
    q.codeIndex < |s.plans| && Runnable(reg, s.plans[q.codeIndex]) &&
    var p := s.plans[q.codeIndex];
    Reduced(p.reducer, reg, ReducedBands(reg, p), remote.service(q.site, q.codeIndex, q.group), q.dates,
            remote.perDate(q.site, q.codeIndex, q.group), o) &&
    p.code in before && after.Keys == before.Keys &&
    (forall c :: c in before && c != p.code ==> after[c] == before[c]) &&
    if o.Retrieved? then
      Written(after[p.code], before[p.code], o.values, DateCells(d, s.kml), SiteRows(d, s.kml, q.site),
              PlanNaming(reg, s, p), o.values.Keys)
    else after[p.code] == before[p.code]
  }

  /** `h` is the history of the tables while the requests `rs` ran, in order,
      with outcomes `os`: request j took them from `h[j]` to `h[j + 1]`. */
  ghost predicate Replay(reg: Registries, s: Settings, remote: Remote, d: DemandTable,
                         rs: seq<Request>, os: seq<ReduceOutcome>, h: seq<map<nat, Cells>>)
    requires WellPrepared(d, s.kml)
  {
    |os| == |rs| && |h| == |rs| + 1 &&
    forall j :: 0 <= j < |rs| ==> BatchApplied(reg, s, remote, d, rs[j], os[j], h[j], h[j + 1])
  }

  /** One more request extends a history. */
  lemma {:induction false} ReplaySnoc(reg: Registries, s: Settings, remote: Remote, d: DemandTable,
                                      rs: seq<Request>, os: seq<ReduceOutcome>, h: seq<map<nat, Cells>>,
                                      q: Request, o: ReduceOutcome, next: map<nat, Cells>)
    requires WellPrepared(d, s.kml) && Replay(reg, s, remote, d, rs, os, h)
    requires BatchApplied(reg, s, remote, d, q, o, h[|rs|], next)
    ensures Replay(reg, s, remote, d, rs + [q], os + [o], h + [next])
    ensures AnyData(os + [o]) <==> AnyData(os) || Brought(o)
    ensures AllQuiet(os + [o]) <==> AllQuiet(os) && OutcomeError(o).None?
  {
    var h2 := [h[|rs|], next];
    assert Replay(reg, s, remote, d, [q], [o], h2) by {
      assert [q][0] == q && [o][0] == o && h2[0] == h[|rs|] && h2[1] == next;
    }
    ReplayConcat(reg, s, remote, d, rs, os, h, [q], [o], h2);
    assert h2[1..] == [next];
    assert AnyData([o]) <==> Brought(o) by {
      assert [o][0] == o;
      if Brought(o) { assert Brought([o][0]); }
    }
    assert AllQuiet([o]) <==> OutcomeError(o).None? by {
      assert [o][0] == o;
    }
  }

  /** Two histories, the second starting where the first ends, run one after the other. */
  lemma {:induction false} ReplayConcat(reg: Registries, s: Settings, remote: Remote, d: DemandTable,
                                        rs1: seq<Request>, os1: seq<ReduceOutcome>, h1: seq<map<nat, Cells>>,
                                        rs2: seq<Request>, os2: seq<ReduceOutcome>, h2: seq<map<nat, Cells>>)
    requires WellPrepared(d, s.kml)
    requires Replay(reg, s, remote, d, rs1, os1, h1) && Replay(reg, s, remote, d, rs2, os2, h2)
    requires h1[|rs1|] == h2[0]
    ensures Replay(reg, s, remote, d, rs1 + rs2, os1 + os2, h1 + h2[1..])
    ensures (h1 + h2[1..])[0] == h1[0] && (h1 + h2[1..])[|rs1 + rs2|] == h2[|rs2|]
    ensures AnyData(os1 + os2) <==> AnyData(os1) || AnyData(os2)
    ensures AllQuiet(os1 + os2) <==> AllQuiet(os1) && AllQuiet(os2)
  {
    var rs, os, h := rs1 + rs2, os1 + os2, h1 + h2[1..];
    forall j | 0 <= j < |rs| ensures BatchApplied(reg, s, remote, d, rs[j], os[j], h[j], h[j + 1]) {
      if j < |rs1| {
        assert rs[j] == rs1[j] && os[j] == os1[j] && h[j] == h1[j] && h[j + 1] == h1[j + 1];
      } else {
        var k := j - |rs1|;
        assert rs[j] == rs2[k] && os[j] == os2[k] && h[j] == h2[k] && h[j + 1] == h2[k + 1];
      }
    }
    AnyDataConcat(os1, os2);
    AllQuietConcat(os1, os2);
  }

  lemma {:induction false} AnyDataConcat(a: seq<ReduceOutcome>, b: seq<ReduceOutcome>)
    ensures AnyData(a + b) <==> AnyData(a) || AnyData(b)
  {
    if AnyData(a + b) {
      var j :| 0 <= j < |a + b| && Brought((a + b)[j]);
      if j < |a| { assert Brought(a[j]); } else { assert Brought(b[j - |a|]); }
    }
    if AnyData(a) {
      var j :| 0 <= j < |a| && Brought(a[j]);
      assert Brought((a + b)[j]);
    }
    if AnyData(b) {
      var j :| 0 <= j < |b| && Brought(b[j]);
      assert Brought((a + b)[|a| + j]);
    }
  }

  lemma {:induction false} AllQuietConcat(a: seq<ReduceOutcome>, b: seq<ReduceOutcome>)
    ensures AllQuiet(a + b) <==> AllQuiet(a) && AllQuiet(b)
  {
    if AllQuiet(a + b) {
      forall j | 0 <= j < |a| ensures OutcomeError(a[j]).None? { assert a[j] == (a + b)[j]; }
      forall j | 0 <= j < |b| ensures OutcomeError(b[j]).None? { assert b[j] == (a + b)[|a| + j]; }
    }
  }

  /** What a request wrote: a result into code `code`'s table, at the rows
      `rows` of its dates, under `naming`. A request that brought nothing
      back wrote an empty result. */
  datatype Effect = Effect(code: nat, values: Fragment, rows: seq<nat>, naming: Naming)

  ghost function EffectOf(reg: Registries, s: Settings, d: DemandTable, q: Request, o: ReduceOutcome): (e: Effect)
    requires WellPrepared(d, s.kml)
    ensures forall i :: i in e.rows ==> i in d.validRows
  {
    if q.codeIndex < |s.plans| && Runnable(reg, s.plans[q.codeIndex]) && o.Retrieved? then
      Effect(s.plans[q.codeIndex].code, o.values, SiteRows(d, s.kml, q.site), PlanNaming(reg, s, s.plans[q.codeIndex]))
    else Effect(0, map[], [], Plain)
  }

  /** The effects of the requests `rs` with outcomes `os`, in order. */
  ghost function Effects(reg: Registries, s: Settings, d: DemandTable, rs: seq<Request>, os: seq<ReduceOutcome>)
      : (es: seq<Effect>)
    requires WellPrepared(d, s.kml) && |os| == |rs|
    ensures |es| == |rs| && forall j :: 0 <= j < |rs| ==> es[j] == EffectOf(reg, s, d, rs[j], os[j])
  {
    seq(|rs|, j requires 0 <= j < |rs| => EffectOf(reg, s, d, rs[j], os[j]))
  }

  /** The cells effect `e` wrote into code `c`'s table. */
  ghost function WrittenBy(e: Effect, dateCells: seq<Cell>, c: nat): iset<(nat, string)>
  {
    iset k | e.code == c && HitInResult(e.values, dateCells, e.rows, e.naming, e.values.Keys, k)
  }

  /** The (cell, value) pairs effect `e` may leave: a value of the result
      written at that cell. */
  ghost function ValuesBy(e: Effect, dateCells: seq<Cell>): iset<((nat, string), Cell)>
  {
    iset kv: ((nat, string), Cell) | ResultValue(e.values, dateCells, e.rows, e.naming, e.values.Keys, kv.0, kv.1)
  }

  /** `WrittenBy` of each effect, in order. */
  ghost function WrittenSets(es: seq<Effect>, dateCells: seq<Cell>, c: nat): (ws: seq<iset<(nat, string)>>)
    ensures |ws| == |es| && forall j :: 0 <= j < |es| ==> ws[j] == WrittenBy(es[j], dateCells, c)
  {
    seq(|es|, j requires 0 <= j < |es| => WrittenBy(es[j], dateCells, c))
  }

  /** `ValuesBy` of each effect, in order. */
  ghost function ValueSets(es: seq<Effect>, dateCells: seq<Cell>): (vs: seq<iset<((nat, string), Cell)>>)
    ensures |vs| == |es| && forall j :: 0 <= j < |es| ==> vs[j] == ValuesBy(es[j], dateCells)
  {
    seq(|es|, j requires 0 <= j < |es| => ValuesBy(es[j], dateCells))
  }

  /** Of the first `n` writes `ws`, write `j` put `v` at cell `k` (as `vs[j]`
      allows) and no later one wrote there. */
  ghost predicate LastWrite<K, V>(ws: seq<iset<K>>, vs: seq<iset<(K, V)>>, n: nat, k: K, v: V)
    requires n <= |ws| && n <= |vs|
  {
    exists j :: 0 <= j < n && k in ws[j] && (k, v) in vs[j] && forall i :: j < i < n ==> k !in ws[i]
  }

  /** A written cell lies in one of the effect's rows. */
  lemma {:induction false} WrittenRow(e: Effect, dateCells: seq<Cell>, c: nat, k: (nat, string))
    requires k in WrittenBy(e, dateCells, c)
    ensures k.0 in e.rows
  {
    var dt, b :| dt in e.values.Keys && FragmentHits(e.values, dateCells, e.rows, e.naming, dt, b, k);
  }

  /** What one request does to code `c`'s table, cell by cell: a cell is
      present when it was or the request wrote it; unwritten cells keep their
      value; written ones hold a value of the result. */
  lemma {:induction false} BatchCells(reg: Registries, s: Settings, remote: Remote, d: DemandTable, q: Request,
                                      o: ReduceOutcome, before: map<nat, Cells>, after: map<nat, Cells>, c: nat)
    requires WellPrepared(d, s.kml) && BatchApplied(reg, s, remote, d, q, o, before, after) && c in before
    ensures c in after
    ensures WriteStep(WrittenBy(EffectOf(reg, s, d, q, o), DateCells(d, s.kml), c),
                      ValuesBy(EffectOf(reg, s, d, q, o), DateCells(d, s.kml)), before[c], after[c])
  {
  }

  /** What the tables hold after the first `n` requests of a run that started
      with code `c`'s table empty: a cell is present exactly when one of those
      requests wrote it, and it holds a value the last such request wrote
      there; every cell lies in a row of the demand. */
  lemma {:induction false} ReplayCells(reg: Registries, s: Settings, remote: Remote, d: DemandTable,
                                       rs: seq<Request>, os: seq<ReduceOutcome>, h: seq<map<nat, Cells>>,
                                       c: nat, n: nat)
    requires WellPrepared(d, s.kml) && Replay(reg, s, remote, d, rs, os, h)
    requires c in h[0] && h[0][c] == map[] && n <= |rs|
    ensures c in h[n]
    ensures forall k :: k in h[n][c] <==>
      exists j :: 0 <= j < n && k in WrittenSets(Effects(reg, s, d, rs, os), DateCells(d, s.kml), c)[j]
    ensures forall k :: k in h[n][c] ==>
      LastWrite(WrittenSets(Effects(reg, s, d, rs, os), DateCells(d, s.kml), c),
                ValueSets(Effects(reg, s, d, rs, os), DateCells(d, s.kml)), n, k, h[n][c][k])
    ensures forall k :: k in h[n][c] ==> k.0 in d.validRows
  {
    var es, dateCells := Effects(reg, s, d, rs, os), DateCells(d, s.kml);
    var ws, vs := WrittenSets(es, dateCells, c), ValueSets(es, dateCells);
    ReplayKeys(reg, s, remote, d, rs, os, h, |rs|);
    forall j | 0 <= j < n ensures StepAt(ws, vs, h, c, j)
    {
      assert h[j].Keys == h[0].Keys;
      assert BatchApplied(reg, s, remote, d, rs[j], os[j], h[j], h[j + 1]);
      ReplayStep(reg, s, remote, d, rs, os, h[j], h[j + 1], c, j + 1);
    }
    TrackWrites(ws, vs, h, c, n);
    forall k | k in h[n][c] ensures k.0 in d.validRows {
      var j :| 0 <= j < n && k in ws[j];
      SetRow(es, dateCells, c, j, k);
    }
  }

  /** The first `n` requests of a run leave the set of codes as it was. */
  lemma {:induction false} ReplayKeys(reg: Registries, s: Settings, remote: Remote, d: DemandTable,
                                      rs: seq<Request>, os: seq<ReduceOutcome>, h: seq<map<nat, Cells>>, n: nat)
    requires WellPrepared(d, s.kml) && Replay(reg, s, remote, d, rs, os, h) && n <= |rs|
    ensures forall j :: 0 <= j <= n ==> h[j].Keys == h[0].Keys
  {
    if n > 0 {
      ReplayKeys(reg, s, remote, d, rs, os, h, n - 1);
      assert BatchApplied(reg, s, remote, d, rs[n - 1], os[n - 1], h[n - 1], h[n]);
    }
  }

  /** A cell in a written set lies in a row of that effect. */
  lemma {:induction false} SetRow(es: seq<Effect>, dateCells: seq<Cell>, c: nat, j: nat, k: (nat, string))
    requires j < |es| && k in WrittenSets(es, dateCells, c)[j]
    ensures k.0 in es[j].rows
  {
    WrittenRow(es[j], dateCells, c, k);
  }

  /** `BatchCells` for request `n - 1` of a run, in terms of the run's
      written sets. */
  lemma {:induction false} ReplayStep(reg: Registries, s: Settings, remote: Remote, d: DemandTable,
                                      rs: seq<Request>, os: seq<ReduceOutcome>, before: map<nat, Cells>,
                                      after: map<nat, Cells>, c: nat, n: nat)
    requires WellPrepared(d, s.kml) && |os| == |rs| && 0 < n <= |rs| && c in before
    requires BatchApplied(reg, s, remote, d, rs[n - 1], os[n - 1], before, after)
    ensures c in after
    ensures WriteStep(WrittenSets(Effects(reg, s, d, rs, os), DateCells(d, s.kml), c)[n - 1],
                      ValueSets(Effects(reg, s, d, rs, os), DateCells(d, s.kml))[n - 1], before[c], after[c])
  {
    var e := EffectOf(reg, s, d, rs[n - 1], os[n - 1]);
    BatchCells(reg, s, remote, d, rs[n - 1], os[n - 1], before, after, c);
    assert Effects(reg, s, d, rs, os)[n - 1] == e;
  }

  /** Write `w` (putting values allowed by `v`) took table `before` to
      `after`: the cells present are the old ones and the written ones,
      unwritten cells keep their value, written ones hold an allowed value. */
  ghost predicate WriteStep<K(!new), V>(w: iset<K>, v: iset<(K, V)>, before: map<K, V>, after: map<K, V>)
  {
    (forall k :: k in after <==> k in before || k in w) &&
    (forall k :: k in after && k !in w ==> after[k] == before[k]) &&
    (forall k :: k in w ==> k in after && (k, after[k]) in v)
  }

  /** Write `j` took entry `c` of `h[j]` to that of `h[j + 1]`. */
  ghost predicate StepAt<C, K(!new), V>(ws: seq<iset<K>>, vs: seq<iset<(K, V)>>, h: seq<map<C, map<K, V>>>, c: C, j: nat)
  {
    j < |ws| && j < |vs| && j + 1 < |h| && c in h[j] && c in h[j + 1] && WriteStep(ws[j], vs[j], h[j][c], h[j + 1][c])
  }

  /** A table (entry `c` of each map of `h`) that starts empty and goes
      through the writes `ws`: after the first `n`, a cell is present exactly
      when one of them wrote it, and holds a value its last writer allowed. */
  lemma {:induction false} TrackWrites<C, K(!new), V>(ws: seq<iset<K>>, vs: seq<iset<(K, V)>>,
                                                        h: seq<map<C, map<K, V>>>, c: C, n: nat)
    requires n <= |ws| && n <= |vs| && n < |h| && c in h[0] && h[0][c] == map[]
    requires forall j :: 0 <= j < n ==> StepAt(ws, vs, h, c, j)
    ensures c in h[n]
    ensures forall k :: k in h[n][c] <==> exists j :: 0 <= j < n && k in ws[j]
    ensures forall k :: k in h[n][c] ==> LastWrite(ws, vs, n, k, h[n][c][k])
  {
    if n > 0 {
      TrackWrites(ws, vs, h, c, n - 1);
      assert StepAt(ws, vs, h, c, n - 1);
      StepCells(ws, vs, h[n - 1][c], h[n][c], n);
    }
  }

  /** A table that holds the cells the first `n - 1` writes put there, and
      then goes through write `n - 1`, holds the cells the first `n` wrote,
      each with a value its last writer allowed. */
  lemma {:induction false} StepCells<K(!new), V>(ws: seq<iset<K>>, vs: seq<iset<(K, V)>>, before: map<K, V>,
                                               after: map<K, V>, n: nat)
    requires 0 < n <= |ws| && n <= |vs|
    requires forall k :: k in before <==> exists j :: 0 <= j < n - 1 && k in ws[j]
    requires forall k :: k in before ==> LastWrite(ws, vs, n - 1, k, before[k])
    requires WriteStep(ws[n - 1], vs[n - 1], before, after)
    ensures forall k :: k in after <==> exists j :: 0 <= j < n && k in ws[j]
    ensures forall k :: k in after ==> LastWrite(ws, vs, n, k, after[k])
  {
    forall k | k in after ensures exists j :: 0 <= j < n && k in ws[j] {
      if k in before {
        var j :| 0 <= j < n - 1 && k in ws[j];
      }
    }
    forall k, j | 0 <= j < n && k in ws[j] ensures k in after {
      if j < n - 1 {
        assert k in before;
      }
    }
    forall k | k in after ensures LastWrite(ws, vs, n, k, after[k]) {
      if k !in ws[n - 1] {
        var j :| 0 <= j < n - 1 && k in ws[j] && (k, before[k]) in vs[j] && forall i :: j < i < n - 1 ==> k !in ws[i];
        assert forall i :: j < i < n ==> k !in ws[i];
      }
    }
  }

  // ------------------------------------------------------ one batch

  /** Lines 2102-2126: the product's bands and the estimation algorithm's
      parameters are requested for a batch and reduced. */
  method ReduceBatch(reg: Registries, p: Plan, batch: seq<Date>, service: Service, perDate: DateService)
      returns (outcome: ReduceOutcome)
    requires p.productID in reg.products && WellIndexed(reg.products[p.productID]) && p.estimationAlgo in reg.estimationAlgos
    ensures Reduced(p.reducer, reg, ReducedBands(reg, p), service, batch, perDate, outcome)
  {
    var bands := Products.GetSpectralBands(reg.products[p.productID]);
    var session := new Session(bands.Keys);
    session.Estimation(reg, OneAlgo(p.estimationAlgo));
    assert session.exportBands == AddedParams(reg, [p.estimationAlgo], bands.Keys, 1);
    var reduced := (set k | k in bands :: bands[k]) + (set x | x in session.exportBands);
    var log;
    outcome, log := Reduce(p.reducer, reg, reduced, service, batch, perDate);
  }

  /** Lines 2102-2135: one batch processed, reduced and, when something came
      back, written into the code's table at the site's rows. */
  method WriteBatch(reg: Registries, p: Plan, batch: seq<Date>, service: Service, perDate: DateService,
                    t: CodeTable, dateCells: seq<Cell>, targetRows: seq<nat>, naming: Naming)
      returns (outcome: ReduceOutcome)
    requires p.productID in reg.products && WellIndexed(reg.products[p.productID]) && p.estimationAlgo in reg.estimationAlgos
    requires t.Valid() && |dateCells| == t.nrows
    modifies t
    ensures t.Valid()
    ensures Reduced(p.reducer, reg, ReducedBands(reg, p), service, batch, perDate, outcome)
    ensures Brought(outcome) ==> Written(t.cells, old(t.cells), outcome.values, dateCells, targetRows, naming, outcome.values.Keys)
    ensures !Brought(outcome) ==> t.cells == old(t.cells)
    ensures OnlyRows(t.cells, old(t.cells), targetRows)
  {
    outcome := ReduceBatch(reg, p, batch, service, perDate);
    if Brought(outcome) {
      WriteResult(t, outcome.values, dateCells, targetRows, naming);
      WrittenOnlyRows(t.cells, old(t.cells), outcome.values, dateCells, targetRows, naming);
    }
  }

  /** One batch of request `q` run on the tables: only its code's table changes. */
  method RunBatch(reg: Registries, s: Settings, remote: Remote, d: DemandTable, q: Request,
                  tables: map<nat, CodeTable>, dateCells: seq<Cell>, targetRows: seq<nat>, naming: Naming)
      returns (outcome: ReduceOutcome, err: Option<RunError>)
    requires WellPrepared(d, s.kml) && q.codeIndex < |s.plans| && Runnable(reg, s.plans[q.codeIndex])
    requires TablesOk(tables, |d.template|) && s.plans[q.codeIndex].code in tables
    requires dateCells == DateCells(d, s.kml) && targetRows == SiteRows(d, s.kml, q.site)
    requires naming == PlanNaming(reg, s, s.plans[q.codeIndex])
    modifies tables[s.plans[q.codeIndex].code]
    ensures TablesOk(tables, |d.template|) && err == OutcomeError(outcome)
    ensures BatchApplied(reg, s, remote, d, q, outcome, old(CellsOf(tables)), CellsOf(tables))
    ensures OnlyRows(tables[s.plans[q.codeIndex].code].cells, old(tables[s.plans[q.codeIndex].code].cells), targetRows)
  {
    var p := s.plans[q.codeIndex];
    var t := tables[p.code];
    ghost var before := CellsOf(tables);
    outcome := WriteBatch(reg, p, q.dates, remote.service(q.site, q.codeIndex, q.group),
                          remote.perDate(q.site, q.codeIndex, q.group), t, dateCells, targetRows, naming);
    err := OutcomeError(outcome);
    forall c | c in tables && c != p.code ensures tables[c].cells == before[c] {
      assert tables[c] != t;
    }
    AppliedByWriting(reg, s, remote, d, q, outcome, before, CellsOf(tables));
  }

  /** A batch whose outcome is `reduction`'s and which wrote a non-empty
      result into its code's table, or left that table as it was, and left
      every other table as it was, took the tables from `before` to `after`. */
  lemma {:induction false} AppliedByWriting(reg: Registries, s: Settings, remote: Remote, d: DemandTable, q: Request,
                                            o: ReduceOutcome, before: map<nat, Cells>, after: map<nat, Cells>)
    requires WellPrepared(d, s.kml) && q.codeIndex < |s.plans| && Runnable(reg, s.plans[q.codeIndex])
    requires s.plans[q.codeIndex].code in before && after.Keys == before.Keys
    requires forall c :: c in before && c != s.plans[q.codeIndex].code ==> after[c] == before[c]
    requires Reduced(s.plans[q.codeIndex].reducer, reg, ReducedBands(reg, s.plans[q.codeIndex]),
                     remote.service(q.site, q.codeIndex, q.group), q.dates, remote.perDate(q.site, q.codeIndex, q.group), o)
    requires Brought(o) ==>
      Written(after[s.plans[q.codeIndex].code], before[s.plans[q.codeIndex].code], o.values, DateCells(d, s.kml),
              SiteRows(d, s.kml, q.site), PlanNaming(reg, s, s.plans[q.codeIndex]), o.values.Keys)
    requires !Brought(o) ==> after[s.plans[q.codeIndex].code] == before[s.plans[q.codeIndex].code]
    ensures BatchApplied(reg, s, remote, d, q, o, before, after)
  {
    var p := s.plans[q.codeIndex];
    if o.Retrieved? && o.values == map[] {
      var dateCells, targetRows, naming := DateCells(d, s.kml), SiteRows(d, s.kml, q.site), PlanNaming(reg, s, p);
      forall k ensures !HitInResult(o.values, dateCells, targetRows, naming, {}, k) { }
      assert Written(after[p.code], before[p.code], o.values, dateCells, targetRows, naming, o.values.Keys);
    }
  }

  /** One more batch adds its request to a code's requests. */
  lemma {:induction false} CodeRequestsSnoc(site: string, i: nat, batches: seq<seq<Date>>, g: nat)
    requires g < |batches|
    ensures CodeRequests(site, i, batches[..g + 1]) == CodeRequests(site, i, batches[..g]) + [Request(site, i, g, batches[g])]
  {
    var a, b := CodeRequests(site, i, batches[..g + 1]), CodeRequests(site, i, batches[..g]) + [Request(site, i, g, batches[g])];
    assert |a| == |b|;
    forall k | 0 <= k < |a| ensures a[k] == b[k] {
      assert batches[..g + 1][k] == batches[k];
      if k < g { assert batches[..g][k] == batches[k]; }
    }
  }

  /** One round of the loop over batches: the batch runs and the run so far
      is extended by its request, its outcome and the tables after it. */
  method BatchRound(reg: Registries, s: Settings, remote: Remote, d: DemandTable, site: string, i: nat,
                    batches: seq<seq<Date>>, g: nat,
                    tables: map<nat, CodeTable>, dateCells: seq<Cell>, targetRows: seq<nat>, naming: Naming,
                    ghost base: Cells,
                    retrieved: bool, rs: seq<Request>, outcomes: seq<ReduceOutcome>, ghost history: seq<map<nat, Cells>>)
      returns (err: Option<RunError>, retrieved': bool, rs': seq<Request>, outcomes': seq<ReduceOutcome>,
               ghost history': seq<map<nat, Cells>>)
    requires WellPrepared(d, s.kml) && i < |s.plans| && Runnable(reg, s.plans[i]) && g < |batches|
    requires TablesOk(tables, |d.template|) && s.plans[i].code in tables
    requires dateCells == DateCells(d, s.kml) && targetRows == SiteRows(d, s.kml, site)
    requires naming == PlanNaming(reg, s, s.plans[i])
    requires OnlyRows(tables[s.plans[i].code].cells, base, targetRows)
    requires rs == CodeRequests(site, i, batches[..g])
    requires Replay(reg, s, remote, d, rs, outcomes, history) && history[|rs|] == CellsOf(tables)
    requires retrieved == AnyData(outcomes) && AllQuiet(outcomes)
    modifies tables[s.plans[i].code]
    ensures TablesOk(tables, |d.template|)
    ensures OnlyRows(tables[s.plans[i].code].cells, base, targetRows)
    ensures rs' == CodeRequests(site, i, batches[..g + 1])
    ensures Replay(reg, s, remote, d, rs', outcomes', history')
    ensures history'[0] == history[0] && history'[|rs'|] == CellsOf(tables)
    ensures retrieved' == AnyData(outcomes')
    ensures err.None? <==> AllQuiet(outcomes')
    ensures err.Some? ==> |outcomes'| > 0 && err == OutcomeError(outcomes'[|outcomes'| - 1])
  {
    var q := Request(site, i, g, batches[g]);
    var t := tables[s.plans[i].code];
    var outcome;
    outcome, err := RunBatch(reg, s, remote, d, q, tables, dateCells, targetRows, naming);
    OnlyRowsTrans(t.cells, old(t.cells), base, targetRows);
    ReplaySnoc(reg, s, remote, d, rs, outcomes, history, q, outcome, CellsOf(tables));
    CodeRequestsSnoc(site, i, batches, g);
    rs', outcomes', history' := rs + [q], outcomes + [outcome], history + [CellsOf(tables)];
    retrieved' := retrieved || Brought(outcome);
  }

  // ------------------------------------------------------ one code

  /** Lines 2049-2135 for one code of a site: skipped when its algorithm does
      not apply, otherwise its available dates requested batch by batch. */
  method RunCode(reg: Registries, s: Settings, remote: Remote, d: DemandTable, site: string, i: nat,
                 dateList: seq<Date>, tables: map<nat, CodeTable>, dateCells: seq<Cell>, targetRows: seq<nat>)
      returns (err: Option<RunError>, retrieved: bool, rs: seq<Request>, outcomes: seq<ReduceOutcome>,
               ghost history: seq<map<nat, Cells>>)
    requires PlansKnown(reg, s.plans) && WellPrepared(d, s.kml) && i < |s.plans|
    requires TablesOk(tables, |d.template|) && s.plans[i].code in tables
    requires dateCells == DateCells(d, s.kml) && targetRows == SiteRows(d, s.kml, site)
    modifies tables[s.plans[i].code]
    ensures TablesOk(tables, |d.template|)
    ensures OnlyRows(tables[s.plans[i].code].cells, old(tables[s.plans[i].code].cells), targetRows)
    ensures Replay(reg, s, remote, d, rs, outcomes, history)
    ensures history[0] == old(CellsOf(tables)) && history[|rs|] == CellsOf(tables)
    ensures retrieved == AnyData(outcomes)
    ensures err.None? ==> CodeStep(reg, s, remote, site, dateList, i) == Ok(rs) && AllQuiet(outcomes)
    ensures err.Some? && AllQuiet(outcomes) ==> CodeStep(reg, s, remote, site, dateList, i) == Err(err.value)
    ensures err.Some? && !AllQuiet(outcomes) ==> |outcomes| > 0 && err == OutcomeError(outcomes[|outcomes| - 1])
  {
    history := [CellsOf(tables)];
    var p := s.plans[i];
    if !(p.productID in reg.imgProcAlgos[p.imgProcAlgo].applicableTo) {
      return None, false, [], [], history;
    }
    var availableDates := Available(remote, p, dateList);
    var naming := PlanNaming(reg, s, p);
    var groupLen := CodeGroupLen(reg, s, remote, site, p);
    if groupLen.Err? {
      return Some(ZeroDivisionError), false, [], [], history;
    }
    var batches := CodeBatches(availableDates, groupLen.value);
    err, retrieved, rs, outcomes, history := RunBatches(reg, s, remote, d, site, i, batches, tables, dateCells, targetRows, naming);
  }

  /** Lines 2091-2135: the batches of one code in order, each written into the
      code's table; a batch whose reduction raises ends the run. */
  method RunBatches(reg: Registries, s: Settings, remote: Remote, d: DemandTable, site: string, i: nat,
                    batches: seq<seq<Date>>, tables: map<nat, CodeTable>, dateCells: seq<Cell>, targetRows: seq<nat>,
                    naming: Naming)
      returns (err: Option<RunError>, retrieved: bool, rs: seq<Request>, outcomes: seq<ReduceOutcome>,
               ghost history: seq<map<nat, Cells>>)
    requires WellPrepared(d, s.kml) && i < |s.plans| && Runnable(reg, s.plans[i])
    requires TablesOk(tables, |d.template|) && s.plans[i].code in tables
    requires dateCells == DateCells(d, s.kml) && targetRows == SiteRows(d, s.kml, site)
    requires naming == PlanNaming(reg, s, s.plans[i])
    modifies tables[s.plans[i].code]
    ensures TablesOk(tables, |d.template|)
    ensures OnlyRows(tables[s.plans[i].code].cells, old(tables[s.plans[i].code].cells), targetRows)
    ensures Replay(reg, s, remote, d, rs, outcomes, history)
    ensures history[0] == old(CellsOf(tables)) && history[|rs|] == CellsOf(tables)
    ensures retrieved == AnyData(outcomes)
    ensures err.None? ==> rs == CodeRequests(site, i, batches) && AllQuiet(outcomes)
    ensures err.Some? ==> !AllQuiet(outcomes) && |outcomes| > 0 && err == OutcomeError(outcomes[|outcomes| - 1])
  {
    var t := tables[s.plans[i].code];
    rs, retrieved, err, outcomes := [], false, None, [];
    history := [CellsOf(tables)];
    for g := 0 to |batches|
      invariant TablesOk(tables, |d.template|) && OnlyRows(t.cells, old(t.cells), targetRows)
      invariant rs == CodeRequests(site, i, batches[..g])
      invariant Replay(reg, s, remote, d, rs, outcomes, history)
      invariant history[0] == old(CellsOf(tables)) && history[|rs|] == CellsOf(tables)
      invariant retrieved == AnyData(outcomes) && AllQuiet(outcomes)
    {
      var e;
      e, retrieved, rs, outcomes, history :=
        BatchRound(reg, s, remote, d, site, i, batches, g, tables, dateCells, targetRows, naming,
                   old(t.cells), retrieved, rs, outcomes, history);
      if e.Some? {
        return e, retrieved, rs, outcomes, history;
      }
    }
    assert batches[..|batches|] == batches;
  }

  // ------------------------------------------------------ one site

  /** Lines 2048-2135: every code of a site with an area of interest. */
  method RunSite(reg: Registries, s: Settings, remote: Remote, d: DemandTable, site: string, tables: map<nat, CodeTable>)
      returns (err: Option<RunError>, retrieved: bool, requests: seq<Request>, outcomes: seq<ReduceOutcome>,
               ghost history: seq<map<nat, Cells>>)
    requires PlansKnown(reg, s.plans) && WellPrepared(d, s.kml)
    requires TablesOk(tables, |d.template|) && forall i :: 0 <= i < |s.plans| ==> s.plans[i].code in tables
    modifies tables.Values
    ensures TablesOk(tables, |d.template|)
    ensures forall c :: c in tables ==> OnlyRows(tables[c].cells, old(tables[c].cells), SiteRows(d, s.kml, site))
    ensures Replay(reg, s, remote, d, requests, outcomes, history)
    ensures history[0] == old(CellsOf(tables)) && history[|requests|] == CellsOf(tables)
    ensures retrieved == AnyData(outcomes)
    ensures err.None? ==> SiteRequests(reg, s, remote, site, SiteDates(d, s.kml, site), |s.plans|) == Ok(requests) &&
                          AllQuiet(outcomes)
    ensures err.Some? && AllQuiet(outcomes) ==>
      SiteRequests(reg, s, remote, site, SiteDates(d, s.kml, site), |s.plans|) == Err(err.value)
    ensures err.Some? && !AllQuiet(outcomes) ==> |outcomes| > 0 && err == OutcomeError(outcomes[|outcomes| - 1])
  {
    var targetRows := SiteRows(d, s.kml, site);
    var dateList := SiteDates(d, s.kml, site);
    var dateCells := DateCells(d, s.kml);
    ghost var start := CellsOf(tables);
    ghost var steps := seq(|s.plans|, j requires 0 <= j < |s.plans| => CodeStep(reg, s, remote, site, dateList, j));
    assert StepsOf(reg, s, remote, site, dateList, steps);
    err, retrieved, requests, outcomes, history :=
      RunCodes(reg, s, remote, d, site, dateList, tables, dateCells, targetRows, start, steps);
    ConcatenatedSteps(reg, s, remote, site, dateList, steps, |s.plans|);
  }

  /** A failing step fails every longer fold with its error, once the steps before it succeeded. */
  lemma {:induction false} ConcatenatedErr(steps: seq<Result<seq<Request>, RunError>>, n: nat, m: nat)
    requires n < m <= |steps| && Concatenated(steps, n).Ok? && steps[n].Err?
    ensures Concatenated(steps, m) == Err(steps[n].error)
    decreases m
  {
    if m > n + 1 {
      ConcatenatedErr(steps, n, m - 1);
    }
  }

  /** One round of a loop that folds step results: the round's requests,
      outcomes and history extend the loop's, and its error, when it has one,
      is the whole loop's. */
  lemma {:induction false} FoldRound(reg: Registries, s: Settings, remote: Remote, d: DemandTable,
                                     steps: seq<Result<seq<Request>, RunError>>, i: nat,
                                     requests: seq<Request>, outcomes: seq<ReduceOutcome>, history: seq<map<nat, Cells>>,
                                     rs: seq<Request>, os: seq<ReduceOutcome>, h: seq<map<nat, Cells>>,
                                     e: Option<RunError>)
    requires WellPrepared(d, s.kml)
    requires i < |steps| && Concatenated(steps, i) == Ok(requests)
    requires Replay(reg, s, remote, d, requests, outcomes, history) && AllQuiet(outcomes)
    requires Replay(reg, s, remote, d, rs, os, h) && h[0] == history[|requests|]
    requires e.None? ==> steps[i] == Ok(rs) && AllQuiet(os)
    requires e.Some? && AllQuiet(os) ==> steps[i] == Err(e.value)
    requires e.Some? && !AllQuiet(os) ==> |os| > 0 && e == OutcomeError(os[|os| - 1])
    ensures Replay(reg, s, remote, d, requests + rs, outcomes + os, history + h[1..])
    ensures (history + h[1..])[0] == history[0] && (history + h[1..])[|requests + rs|] == h[|rs|]
    ensures AnyData(outcomes + os) <==> AnyData(outcomes) || AnyData(os)
    ensures e.None? ==> Concatenated(steps, i + 1) == Ok(requests + rs) && AllQuiet(outcomes + os)
    ensures e.Some? && AllQuiet(outcomes + os) ==> Concatenated(steps, |steps|) == Err(e.value)
    ensures e.Some? && !AllQuiet(outcomes + os) ==>
      |outcomes + os| > 0 && e == OutcomeError((outcomes + os)[|outcomes + os| - 1])
  {
    ReplayConcat(reg, s, remote, d, requests, outcomes, history, rs, os, h);
    if e.Some? && AllQuiet(outcomes + os) {
      ConcatenatedErr(steps, i, |steps|);
    }
    if e.Some? && !AllQuiet(outcomes + os) {
      assert (outcomes + os)[|outcomes + os| - 1] == os[|os| - 1];
    }
  }

  /** Lines 2049-2135: the loop over the codes of one site, given the site's
      target rows and dates. */
  method RunCodes(reg: Registries, s: Settings, remote: Remote, d: DemandTable, site: string, dateList: seq<Date>,
                  tables: map<nat, CodeTable>, dateCells: seq<Cell>, targetRows: seq<nat>,
                  ghost base: map<nat, Cells>, ghost steps: seq<Result<seq<Request>, RunError>>)
      returns (err: Option<RunError>, retrieved: bool, requests: seq<Request>, outcomes: seq<ReduceOutcome>,
               ghost history: seq<map<nat, Cells>>)
    requires WellPrepared(d, s.kml) && StepsOf(reg, s, remote, site, dateList, steps)
    requires TablesOk(tables, |d.template|) && forall i :: 0 <= i < |s.plans| ==> s.plans[i].code in tables
    requires dateCells == DateCells(d, s.kml) && targetRows == SiteRows(d, s.kml, site)
    requires TablesOnlyRows(tables, base, targetRows)
    modifies tables.Values
    ensures TablesOk(tables, |d.template|)
    ensures TablesOnlyRows(tables, base, targetRows)
    ensures Replay(reg, s, remote, d, requests, outcomes, history)
    ensures history[0] == old(CellsOf(tables)) && history[|requests|] == CellsOf(tables)
    ensures retrieved == AnyData(outcomes)
    ensures err.None? ==> Concatenated(steps, |steps|) == Ok(requests) && AllQuiet(outcomes)
    ensures err.Some? && AllQuiet(outcomes) ==> Concatenated(steps, |steps|) == Err(err.value)
    ensures err.Some? && !AllQuiet(outcomes) ==> |outcomes| > 0 && err == OutcomeError(outcomes[|outcomes| - 1])
  {
    err, retrieved, requests, outcomes := None, false, [], [];
    history := [CellsOf(tables)];
    for i := 0 to |s.plans|
      invariant TablesOk(tables, |d.template|)
      invariant TablesOnlyRows(tables, base, targetRows)
      invariant Concatenated(steps, i) == Ok(requests)
      invariant Replay(reg, s, remote, d, requests, outcomes, history)
      invariant history[0] == old(CellsOf(tables)) && history[|requests|] == CellsOf(tables)
      invariant retrieved == AnyData(outcomes) && AllQuiet(outcomes)
    {
      var e;
      e, retrieved, requests, outcomes, history :=
        CodeRound(reg, s, remote, d, site, i, dateList, tables, dateCells, targetRows, base, steps,
                  retrieved, requests, outcomes, history);
      if e.Some? {
        return e, retrieved, requests, outcomes, history;
      }
    }
  }

  /** A round of the loop over codes, folded into the requests, outcomes and
      history of the rounds before it. */
  method CodeRound(reg: Registries, s: Settings, remote: Remote, d: DemandTable, site: string, i: nat,
                   dateList: seq<Date>, tables: map<nat, CodeTable>, dateCells: seq<Cell>, targetRows: seq<nat>,
                   ghost base: map<nat, Cells>, ghost steps: seq<Result<seq<Request>, RunError>>,
                   retrieved: bool, requests: seq<Request>, outcomes: seq<ReduceOutcome>,
                   ghost history: seq<map<nat, Cells>>)
      returns (err: Option<RunError>, retrieved': bool, requests': seq<Request>, outcomes': seq<ReduceOutcome>,
               ghost history': seq<map<nat, Cells>>)
    requires WellPrepared(d, s.kml)
    requires i < |s.plans| && StepsOf(reg, s, remote, site, dateList, steps)
    requires TablesOk(tables, |d.template|) && forall j :: 0 <= j < |s.plans| ==> s.plans[j].code in tables
    requires dateCells == DateCells(d, s.kml) && targetRows == SiteRows(d, s.kml, site)
    requires TablesOnlyRows(tables, base, targetRows)
    requires Concatenated(steps, i) == Ok(requests)
    requires Replay(reg, s, remote, d, requests, outcomes, history) && history[|requests|] == CellsOf(tables)
    requires retrieved == AnyData(outcomes) && AllQuiet(outcomes)
    modifies tables.Values
    ensures TablesOk(tables, |d.template|)
    ensures TablesOnlyRows(tables, base, targetRows)
    ensures Replay(reg, s, remote, d, requests', outcomes', history')
    ensures history'[0] == history[0] && history'[|requests'|] == CellsOf(tables)
    ensures retrieved' == AnyData(outcomes')
    ensures err.None? ==> Concatenated(steps, i + 1) == Ok(requests') && AllQuiet(outcomes')
    ensures err.Some? && AllQuiet(outcomes') ==> Concatenated(steps, |steps|) == Err(err.value)
    ensures err.Some? && !AllQuiet(outcomes') ==> |outcomes'| > 0 && err == OutcomeError(outcomes'[|outcomes'| - 1])
  {
    var got, rs, os;
    ghost var h;
    err, got, rs, os, h := RunSiteCode(reg, s, remote, d, site, i, dateList, tables, dateCells, targetRows, base, steps);
    FoldRound(reg, s, remote, d, steps, i, requests, outcomes, history, rs, os, h, err);
    requests', outcomes', history' := requests + rs, outcomes + os, history + h[1..];
    retrieved' := retrieved || got;
  }

  /** One round of the loop over codes: the table of code `i` is the only one
      touched, and a successful round extends the site's requests by the code's. */
  method RunSiteCode(reg: Registries, s: Settings, remote: Remote, d: DemandTable, site: string, i: nat,
                     dateList: seq<Date>, tables: map<nat, CodeTable>, dateCells: seq<Cell>, targetRows: seq<nat>,
                     ghost base: map<nat, Cells>, ghost steps: seq<Result<seq<Request>, RunError>>)
      returns (err: Option<RunError>, retrieved: bool, rs: seq<Request>, outcomes: seq<ReduceOutcome>,
               ghost history: seq<map<nat, Cells>>)
    requires WellPrepared(d, s.kml)
    requires i < |s.plans| && StepsOf(reg, s, remote, site, dateList, steps)
    requires TablesOk(tables, |d.template|) && forall j :: 0 <= j < |s.plans| ==> s.plans[j].code in tables
    requires dateCells == DateCells(d, s.kml) && targetRows == SiteRows(d, s.kml, site)
    requires TablesOnlyRows(tables, base, targetRows)
    modifies tables[s.plans[i].code]
    ensures TablesOk(tables, |d.template|)
    ensures TablesOnlyRows(tables, base, targetRows)
    ensures forall c :: c in tables && c != s.plans[i].code ==> tables[c].cells == old(tables[c].cells)
    ensures Replay(reg, s, remote, d, rs, outcomes, history)
    ensures history[0] == old(CellsOf(tables)) && history[|rs|] == CellsOf(tables)
    ensures retrieved == AnyData(outcomes)
    ensures err.None? ==> steps[i] == Ok(rs) && AllQuiet(outcomes)
    ensures err.Some? && AllQuiet(outcomes) ==> steps[i] == Err(err.value)
    ensures err.Some? && !AllQuiet(outcomes) ==> |outcomes| > 0 && err == OutcomeError(outcomes[|outcomes| - 1])
  {
    var t := tables[s.plans[i].code];
    assert steps[i] == CodeStep(reg, s, remote, site, dateList, i);
    err, retrieved, rs, outcomes, history := RunCode(reg, s, remote, d, site, i, dateList, tables, dateCells, targetRows);
    forall c | c in tables ensures c in base && OnlyRows(tables[c].cells, base[c], targetRows) {
      if tables[c] == t {
        OnlyRowsTrans(t.cells, old(t.cells), base[c], targetRows);
      }
    }
  }

  // ------------------------------------------------------ all sites

  /** Lines 2002-2135: the sites in order; a KML site without a polygon is ignored. */
  method RunSites(reg: Registries, s: Settings, remote: Remote, d: DemandTable, tables: map<nat, CodeTable>)
      returns (err: Option<RunError>, retrieved: bool, requests: seq<Request>, outcomes: seq<ReduceOutcome>,
               ghost history: seq<map<nat, Cells>>)
    requires PlansKnown(reg, s.plans) && WellPrepared(d, s.kml)
    requires TablesOk(tables, |d.template|) && forall i :: 0 <= i < |s.plans| ==> s.plans[i].code in tables
    modifies tables.Values
    ensures TablesOk(tables, |d.template|)
    ensures Replay(reg, s, remote, d, requests, outcomes, history)
    ensures history[0] == old(CellsOf(tables)) && history[|requests|] == CellsOf(tables)
    ensures retrieved == AnyData(outcomes)
    ensures err.None? ==> PlannedRequests(reg, s, remote, d) == Ok(requests) && AllQuiet(outcomes)
    ensures err.Some? && AllQuiet(outcomes) ==> PlannedRequests(reg, s, remote, d) == Err(err.value)
    ensures err.Some? && !AllQuiet(outcomes) ==> |outcomes| > 0 && err == OutcomeError(outcomes[|outcomes| - 1])
  {
    ghost var steps := SiteSteps(reg, s, remote, d);
    assert SiteStepsOf(reg, s, remote, d, steps);
    err, retrieved, requests, outcomes, history := RunEachSite(reg, s, remote, d, tables, steps);
  }

  /** `steps` holds the result of every site, in site order. */
  ghost predicate SiteStepsOf(reg: Registries, s: Settings, remote: Remote, d: DemandTable,
                              steps: seq<Result<seq<Request>, RunError>>)
  {
    PlansKnown(reg, s.plans) && WellPrepared(d, s.kml) && |steps| == |Sites(d, s.kml)| &&
    forall j {:trigger SiteStep(reg, s, remote, d, Sites(d, s.kml)[j])} :: 0 <= j < |steps| ==>
      steps[j] == SiteStep(reg, s, remote, d, Sites(d, s.kml)[j])
  }

  /** The loop over the sites, given each site's planned result. */
  method RunEachSite(reg: Registries, s: Settings, remote: Remote, d: DemandTable, tables: map<nat, CodeTable>,
                     ghost steps: seq<Result<seq<Request>, RunError>>)
      returns (err: Option<RunError>, retrieved: bool, requests: seq<Request>, outcomes: seq<ReduceOutcome>,
               ghost history: seq<map<nat, Cells>>)
    requires SiteStepsOf(reg, s, remote, d, steps)
    requires TablesOk(tables, |d.template|) && forall i :: 0 <= i < |s.plans| ==> s.plans[i].code in tables
    modifies tables.Values
    ensures TablesOk(tables, |d.template|)
    ensures Replay(reg, s, remote, d, requests, outcomes, history)
    ensures history[0] == old(CellsOf(tables)) && history[|requests|] == CellsOf(tables)
    ensures retrieved == AnyData(outcomes)
    ensures err.None? ==> Concatenated(steps, |steps|) == Ok(requests) && AllQuiet(outcomes)
    ensures err.Some? && AllQuiet(outcomes) ==> Concatenated(steps, |steps|) == Err(err.value)
    ensures err.Some? && !AllQuiet(outcomes) ==> |outcomes| > 0 && err == OutcomeError(outcomes[|outcomes| - 1])
  {
    err, retrieved, requests, outcomes := None, false, [], [];
    history := [CellsOf(tables)];
    for n := 0 to |Sites(d, s.kml)|
      invariant TablesOk(tables, |d.template|)
      invariant Concatenated(steps, n) == Ok(requests)
      invariant Replay(reg, s, remote, d, requests, outcomes, history)
      invariant history[0] == old(CellsOf(tables)) && history[|requests|] == CellsOf(tables)
      invariant retrieved == AnyData(outcomes) && AllQuiet(outcomes)
    {
      var e, got, rs, os, h := RunSiteStep(reg, s, remote, d, tables, steps, n);
      FoldRound(reg, s, remote, d, steps, n, requests, outcomes, history, rs, os, h, e);
      requests, outcomes, history := requests + rs, outcomes + os, history + h[1..];
      retrieved := retrieved || got;
      if e.Some? {
        return e, retrieved, requests, outcomes, history;
      }
    }
  }

  /** One round of the loop over sites: a site without an area of interest is
      skipped; otherwise its codes run, writing only its rows. */
  method RunSiteStep(reg: Registries, s: Settings, remote: Remote, d: DemandTable, tables: map<nat, CodeTable>,
                     ghost steps: seq<Result<seq<Request>, RunError>>, n: nat)
      returns (err: Option<RunError>, retrieved: bool, rs: seq<Request>, outcomes: seq<ReduceOutcome>,
               ghost history: seq<map<nat, Cells>>)
    requires SiteStepsOf(reg, s, remote, d, steps) && n < |steps|
    requires TablesOk(tables, |d.template|) && forall i :: 0 <= i < |s.plans| ==> s.plans[i].code in tables
    modifies tables.Values
    ensures TablesOk(tables, |d.template|)
    ensures forall c :: c in tables ==> OnlyRows(tables[c].cells, old(tables[c].cells), SiteRows(d, s.kml, Sites(d, s.kml)[n]))
    ensures Replay(reg, s, remote, d, rs, outcomes, history)
    ensures history[0] == old(CellsOf(tables)) && history[|rs|] == CellsOf(tables)
    ensures retrieved == AnyData(outcomes)
    ensures err.None? ==> steps[n] == Ok(rs) && AllQuiet(outcomes)
    ensures err.Some? && AllQuiet(outcomes) ==> steps[n] == Err(err.value)
    ensures err.Some? && !AllQuiet(outcomes) ==> |outcomes| > 0 && err == OutcomeError(outcomes[|outcomes| - 1])
  {
    var site := Sites(d, s.kml)[n];
    assert steps[n] == SiteStep(reg, s, remote, d, site);
    if !HasAoi(s, remote, site) {
      return None, false, [], [], [CellsOf(tables)];
    }
    err, retrieved, rs, outcomes, history := RunSite(reg, s, remote, d, site, tables);
  }

  // ------------------------------------------------------ the run

  /** What the tables hold at the end of the loop. */
  function Snapshot(tables: map<nat, CodeTable>): (values: map<nat, TableValue>)
    reads tables.Values
    ensures values.Keys == tables.Keys
    ensures forall c :: c in tables ==> values[c] == TableValue(tables[c].columns, tables[c].cells)
    ensures CellValues(values) == CellsOf(tables)
  {
    map c | c in tables :: TableValue(tables[c].columns, tables[c].cells)
  }

  /** The cells of table values. */
  function CellValues(tables: map<nat, TableValue>): (snap: map<nat, Cells>)
    ensures snap.Keys == tables.Keys && forall c :: c in tables ==> snap[c] == tables[c].cells
  {
    map c | c in tables :: tables[c].cells
  }

  /** Empty tables for the codes `codes`. */
  function Blank(codes: set<nat>): (snap: map<nat, Cells>)
    ensures snap.Keys == codes && forall c :: c in codes ==> snap[c] == map[]
  {
    map c | c in codes :: map[]
  }

  function Codes(plans: seq<Plan>): (codes: seq<nat>)
    ensures |codes| == |plans| && forall i :: 0 <= i < |plans| ==> codes[i] == plans[i].code
  {
    seq(|plans|, i requires 0 <= i < |plans| => plans[i].code)
  }

  /** The tables made for the plans are keyed by exactly the plans' codes, each code listed once in `order`. */
  lemma {:induction false} CodeKeys(plans: seq<Plan>, keys: set<nat>)
    requires forall c :: c in keys <==> exists i :: 0 <= i < |plans| && plans[i].code == c
    ensures forall c :: c in keys <==> c in Codes(plans)
    ensures forall k :: 0 <= k < |Unique(Codes(plans))| ==> Unique(Codes(plans))[k] in keys
  {
    var codes := Codes(plans);
    forall c ensures c in keys <==> c in codes {
      if c in codes {
        var i :| 0 <= i < |plans| && codes[i] == c;
        assert plans[i].code == c;
      }
    }
    var order := Unique(codes);
    forall k | 0 <= k < |order| ensures order[k] in keys {
      assert order[k] in order;
    }
  }

  /** Lines 2137-2193 on tables keyed by the plans' codes: `Consolidate`, its
      error raised as the run's. */
  function Consolidated(reg: Registries, s: Settings, d: DemandTable, tables: map<nat, TableValue>, retrieved: bool)
      : Result<Consolidated, RunError>
    requires Rectangular(d.template, |d.header|) && forall c :: c in tables <==> c in Codes(s.plans)
  {
    var order := Unique(Codes(s.plans));
    assert forall k :: 0 <= k < |order| ==> order[k] in tables by {
      forall k | 0 <= k < |order| ensures order[k] in tables { assert order[k] in order; }
    }
    match Consolidate(reg, order, tables, d.header, d.template, s.appendMode, s.runningMode == 2, retrieved)
    case Err(e) => Err(ConsolidationFailed(e))
    case Ok(v) => Ok(v)
  }

  /** What a run on the prepared demand `d` promises. The tables start empty,
      one per code, and `history` follows them request by request to what they
      hold at the end; `retrieved` says whether any batch brought data. The
      result is then fixed: the error of the batch whose reduction raised (the
      last one), else the first error of the request plan, else the
      consolidation of the tables after exactly the planned requests. */
  ghost predicate RetrievalAgrees(reg: Registries, s: Settings, remote: Remote, d: DemandTable,
                                  r: Result<Consolidated, RunError>, requests: seq<Request>,
                                  outcomes: seq<ReduceOutcome>, tables: map<nat, TableValue>,
                                  history: seq<map<nat, Cells>>, retrieved: bool)
    requires PlansKnown(reg, s.plans) && WellPrepared(d, s.kml)
  {
    (forall c :: c in tables <==> c in Codes(s.plans)) &&
    Replay(reg, s, remote, d, requests, outcomes, history) &&
    history[0] == Blank(tables.Keys) && history[|requests|] == CellValues(tables) &&
    retrieved == AnyData(outcomes) &&
    (!AllQuiet(outcomes) ==>
       (|outcomes| > 0 && OutcomeError(outcomes[|outcomes| - 1]).Some? &&
        r == Err(OutcomeError(outcomes[|outcomes| - 1]).value))) &&
    (AllQuiet(outcomes) && PlannedRequests(reg, s, remote, d).Err? ==>
       r == Err(PlannedRequests(reg, s, remote, d).error)) &&
    (AllQuiet(outcomes) && PlannedRequests(reg, s, remote, d).Ok? ==>
       requests == PlannedRequests(reg, s, remote, d).value && r == Consolidated(reg, s, d, tables, retrieved))
  }

  /** The tables a run hands to consolidation hold exactly the cells its
      requests wrote, each with a value the last request to write it wrote,
      and only in rows of the demand. */
  lemma {:induction false} RetrievedCells(reg: Registries, s: Settings, remote: Remote, d: DemandTable,
                                          r: Result<Consolidated, RunError>, requests: seq<Request>,
                                          outcomes: seq<ReduceOutcome>, tables: map<nat, TableValue>,
                                          history: seq<map<nat, Cells>>, retrieved: bool, c: nat)
    requires PlansKnown(reg, s.plans) && WellPrepared(d, s.kml)
    requires RetrievalAgrees(reg, s, remote, d, r, requests, outcomes, tables, history, retrieved)
    requires c in tables
    ensures forall k :: k in tables[c].cells <==>
      exists j :: 0 <= j < |requests| && k in WrittenSets(Effects(reg, s, d, requests, outcomes), DateCells(d, s.kml), c)[j]
    ensures forall k :: k in tables[c].cells ==>
      LastWrite(WrittenSets(Effects(reg, s, d, requests, outcomes), DateCells(d, s.kml), c),
                ValueSets(Effects(reg, s, d, requests, outcomes), DateCells(d, s.kml)), |requests|, k, tables[c].cells[k])
    ensures forall k :: k in tables[c].cells ==> k.0 in d.validRows
  {
    ReplayCells(reg, s, remote, d, requests, outcomes, history, c, |requests|);
  }

  /** Lines 1990-2193 on a prepared demand: one table per code, filled site by
      site with exactly the planned requests, then consolidated. */
  method Retrieve(reg: Registries, s: Settings, remote: Remote, d: DemandTable)
      returns (r: Result<Consolidated, RunError>, requests: seq<Request>, outcomes: seq<ReduceOutcome>,
               tables: map<nat, TableValue>, ghost history: seq<map<nat, Cells>>, retrieved: bool)
    requires PlansKnown(reg, s.plans) && WellPrepared(d, s.kml)
    ensures RetrievalAgrees(reg, s, remote, d, r, requests, outcomes, tables, history, retrieved)
  {
    var err;
    err, retrieved, requests, outcomes, tables, history := FillTables(reg, s, remote, d);
    if err.Some? {
      r := Err(err.value);
    } else {
      r := Consolidated(reg, s, d, tables, retrieved);
    }
    RunAgrees(reg, s, remote, d, err, r, requests, outcomes, tables, history, retrieved);
  }

  /** The empty tables of the plans' codes, as the run starts. */
  method BlankTables(plans: seq<Plan>, nrows: nat) returns (tables: map<nat, CodeTable>)
    ensures TablesOk(tables, nrows) && forall i :: 0 <= i < |plans| ==> plans[i].code in tables
    ensures forall c :: c in tables <==> c in Codes(plans)
    ensures CellsOf(tables) == Blank(tables.Keys)
    ensures forall c :: c in tables ==> fresh(tables[c])
  {
    tables := NewTables(plans, nrows);
    CodeKeys(plans, tables.Keys);
  }

  /** Lines 1990-2135: one empty table per code, filled by the loop over the
      sites; what they hold at its end. */
  method FillTables(reg: Registries, s: Settings, remote: Remote, d: DemandTable)
      returns (err: Option<RunError>, retrieved: bool, requests: seq<Request>, outcomes: seq<ReduceOutcome>,
               tables: map<nat, TableValue>, ghost history: seq<map<nat, Cells>>)
    requires PlansKnown(reg, s.plans) && WellPrepared(d, s.kml)
    ensures forall c :: c in tables <==> c in Codes(s.plans)
    ensures Replay(reg, s, remote, d, requests, outcomes, history)
    ensures history[0] == Blank(tables.Keys) && history[|requests|] == CellValues(tables)
    ensures retrieved == AnyData(outcomes)
    ensures err.None? ==> PlannedRequests(reg, s, remote, d) == Ok(requests) && AllQuiet(outcomes)
    ensures err.Some? && AllQuiet(outcomes) ==> PlannedRequests(reg, s, remote, d) == Err(err.value)
    ensures err.Some? && !AllQuiet(outcomes) ==> |outcomes| > 0 && err == OutcomeError(outcomes[|outcomes| - 1])
  {
    var codeTables := BlankTables(s.plans, |d.template|);
    err, retrieved, requests, outcomes, history := RunSites(reg, s, remote, d, codeTables);
    tables := Snapshot(codeTables);
  }

  /** The outcome of the loop over sites fixes the result of the run. */
  lemma {:induction false} RunAgrees(reg: Registries, s: Settings, remote: Remote, d: DemandTable, err: Option<RunError>,
                                     r: Result<Consolidated, RunError>, requests: seq<Request>,
                                     outcomes: seq<ReduceOutcome>, tables: map<nat, TableValue>,
                                     history: seq<map<nat, Cells>>, retrieved: bool)
    requires PlansKnown(reg, s.plans) && WellPrepared(d, s.kml)
    requires forall c :: c in tables <==> c in Codes(s.plans)
    requires Replay(reg, s, remote, d, requests, outcomes, history)
    requires history[0] == Blank(tables.Keys) && history[|requests|] == CellValues(tables)
    requires retrieved == AnyData(outcomes)
    requires err.None? ==> PlannedRequests(reg, s, remote, d) == Ok(requests) && AllQuiet(outcomes)
    requires err.Some? && AllQuiet(outcomes) ==> PlannedRequests(reg, s, remote, d) == Err(err.value)
    requires err.Some? && !AllQuiet(outcomes) ==> |outcomes| > 0 && err == OutcomeError(outcomes[|outcomes| - 1])
    requires err.Some? ==> r == Err(err.value)
    requires err.None? ==> r == Consolidated(reg, s, d, tables, retrieved)
    ensures RetrievalAgrees(reg, s, remote, d, r, requests, outcomes, tables, history, retrieved)
  {
  }

  /** The input checks up to the prepared demand. */
  function Demanded(reg: Registries, s: Settings, header: seq<string>, rows: seq<seq<Cell>>, timeWindow: nat,
                    today: Date, toDate: Cell -> Option<Date>): (r: Result<DemandTable, RunError>)
    requires Rectangular(rows, |header|)
    ensures r.Ok? ==> WellPrepared(r.value, s.kml)
  {
    match Start(s.runningMode, header, rows, reg, today, toDate, timeWindow)
    case Err(e) => Err(e)
    case Ok(input) =>
      match Prepare(input, s.kml)
      case Err(e) => Err(BadInput(e))
      case Ok(d) => Ok(d)
  }

  /** Lines 1775-2193 with the start corrected: an input error ends the run
      before any request; otherwise the run is `Retrieve` on the prepared demand. */
  method SpecificDatesRetrieval(reg: Registries, s: Settings, remote: Remote, header: seq<string>,
                                rows: seq<seq<Cell>>, timeWindow: nat, today: Date, toDate: Cell -> Option<Date>)
      returns (r: Result<Consolidated, RunError>, requests: seq<Request>, outcomes: seq<ReduceOutcome>,
               tables: map<nat, TableValue>, ghost history: seq<map<nat, Cells>>, retrieved: bool)
    requires Rectangular(rows, |header|) && PlansKnown(reg, s.plans)
    ensures Demanded(reg, s, header, rows, timeWindow, today, toDate).Err? ==>
      r == Err(Demanded(reg, s, header, rows, timeWindow, today, toDate).error) && requests == []
    ensures Demanded(reg, s, header, rows, timeWindow, today, toDate).Ok? ==>
      RetrievalAgrees(reg, s, remote, Demanded(reg, s, header, rows, timeWindow, today, toDate).value,
                      r, requests, outcomes, tables, history, retrieved)
  {
    var input;
    if s.runningMode == 2 {
      var converted := DateRanges.ToSpecificDatesDF(header, rows, reg, today, toDate);
      if converted.Err? {
        return Err(BadRanges(converted.error)), [], [], map[], [], false;
      }
      ConvertedFrame(header, rows, reg, today, toDate);
      input := Input(converted.value.columns, converted.value.rows, 0);
    } else {
      input := Input(header, rows, timeWindow);
    }
    assert Start(s.runningMode, header, rows, reg, today, toDate, timeWindow) == Ok(input);
    var prepared := PrepareDemand(input, s.kml);
    if prepared.Err? {
      return Err(BadInput(prepared.error)), [], [], map[], [], false;
    }
    assert Demanded(reg, s, header, rows, timeWindow, today, toDate) == Ok(prepared.value);
    r, requests, outcomes, tables, history, retrieved := Retrieve(reg, s, remote, prepared.value);
  }
}
