/**
 * The spreadsheet parser: a workbook of worksheets, a configuration naming the
 * worksheets to read with their header row and required and optional headers,
 * a row cursor per worksheet, and a writer that puts row dictionaries back
 * into the cells.  A worksheet is a grid of cells; row `k` (counted from 1, as
 * in the spreadsheet) is `grid[k - 1]`, and a cell beyond a row's end is empty.
 */
module XlsxParser {
  import opened Wrappers
  import opened Text

  /** A cell value as the spreadsheet library returns it; `NoValue` is Python's `None`. */
  datatype Cell = NoValue | Str(s: string) | Int(i: int) | DateTime(year: int, month: int, day: int)

  /** Python truthiness of a cell value. */
  predicate CellTruthy(c: Cell)
  {
    match c
    case NoValue => false
    case Str(s) => s != ""
    case Int(i) => i != 0
    case DateTime(_, _, _) => true
  }

  type Grid = seq<seq<Cell>>

  /** A data row: each configured header to its cell, plus `row_num`. */
  type Row = map<string, Cell>

  /** The configuration of one worksheet. */
  datatype SheetConf = SheetConf(headerRow: int, required: seq<string>, optional: seq<string>)

  /** The configuration: the worksheets to read, in order, and each one's section. */
  datatype Conf = Conf(worksheets: seq<string>, sheets: map<string, SheetConf>)

  /** Every listed worksheet has a section, whose header row is a spreadsheet row number. */
  predicate ConfWellFormed(conf: Conf)
  {
    forall t :: t in conf.worksheets ==> t in conf.sheets && conf.sheets[t].headerRow >= 1
  }

  // ---------------------------------------------------------------------
  // Cells of a grid

  /** The cell at row `r`, column `c` (both from 1); empty outside the grid. */
  function CellAt(grid: Grid, r: int, c: int): Cell
  {
    if 1 <= r <= |grid| && 1 <= c <= |grid[r - 1]| then grid[r - 1][c - 1] else NoValue
  }

  /** What a cell holds after openpyxl writes `v` to it: a `None` value is not assigned, so the earlier value stays. */
  function Written(before: Cell, v: Cell): Cell
  {
    if v == NoValue then before else v
  }

  /**
   * `worksheet.cell(row, column, value)`: the cell is created, growing the grid
   * when it lies beyond it, and takes the value unless the value is `None`.
   */
  function SetCell(grid: Grid, r: int, c: int, v: Cell): (g: Grid)
    requires r >= 1 && c >= 1
    ensures |g| == if r > |grid| then r else |grid|
    ensures c <= |g[r - 1]|
    ensures v != NoValue ==> CellAt(g, r, c) == v
    ensures v == NoValue ==> CellAt(g, r, c) == CellAt(grid, r, c)
    ensures forall r', c' {:trigger CellAt(g, r', c')} :: (r', c') != (r, c) ==> CellAt(g, r', c') == CellAt(grid, r', c')
  {
    var rows := if r > |grid| then grid + seq(r - |grid|, _ => []) else grid;
    var row := rows[r - 1];
    var cells := if c > |row| then row + seq(c - |row|, _ => NoValue) else row;
    rows[r - 1 := cells[c - 1 := Written(cells[c - 1], v)]]
  }

  // ---------------------------------------------------------------------
  // Worksheet validity

  /** A header cell is stripped; an empty one stays `None`; any other value has no `strip`. */
  function HeaderName(c: Cell): Result<Option<string>>
  {
    match c
    case NoValue => Ok(None)
    case Str(s) => Ok(Some(Strip(s)))
    case _ => Err("AttributeError")
  }

  function HeaderNames(cells: seq<Cell>): (r: Result<seq<Option<string>>>)
    ensures r.Ok? ==> |r.value| == |cells|
    ensures r.Ok? <==> forall i :: 0 <= i < |cells| ==> HeaderName(cells[i]).Ok?
    ensures r.Ok? ==> forall i :: 0 <= i < |cells| ==> r.value[i] == HeaderName(cells[i]).value
  {
    if cells == [] then Ok([])
    else
      var init := cells[..|cells| - 1];
      assert forall i :: 0 <= i < |init| ==> init[i] == cells[i];
      match HeaderNames(init)
      case Err(e) => Err(e)
      case Ok(names) =>
        match HeaderName(cells[|cells| - 1])
        case Err(e) => Err(e)
        case Ok(name) => Ok(names + [name])
  }

  /** The worksheet exists and has at least one row below its header row. */
  predicate Present(workbook: map<string, Grid>, sc: SheetConf, title: string)
  {
    title in workbook && sc.headerRow >= 1 && |workbook[title]| >= sc.headerRow + 1
  }

  function HeaderRowOf(workbook: map<string, Grid>, sc: SheetConf, title: string): Result<seq<Option<string>>>
    requires Present(workbook, sc, title)
  {
    HeaderNames(workbook[title][sc.headerRow - 1])
  }

  predicate HasRequired(sc: SheetConf, headers: seq<Option<string>>)
  {
    forall h :: h in sc.required ==> Some(h) in headers
  }

  predicate Configured(conf: Conf, titles: seq<string>)
  {
    forall t :: t in titles ==> t in conf.sheets && conf.sheets[t].headerRow >= 1
  }

  /** The valid worksheets among `titles`, in order: present, with all their required headers. */
  function ValidTitles(workbook: map<string, Grid>, conf: Conf, titles: seq<string>): Result<seq<string>>
    requires Configured(conf, titles)
  {
    if titles == [] then Ok([])
    else
      var init := titles[..|titles| - 1];
      var t := titles[|titles| - 1];
      match ValidTitles(workbook, conf, init)
      case Err(e) => Err(e)
      case Ok(ts) =>
        if !Present(workbook, conf.sheets[t], t) then Ok(ts)
        else match HeaderRowOf(workbook, conf.sheets[t], t)
          case Err(e) => Err(e)
          case Ok(headers) => if HasRequired(conf.sheets[t], headers) then Ok(ts + [t]) else Ok(ts)
  }

  /** A worksheet is valid exactly when it is listed, present and has its required headers. */
  lemma {:induction false} ValidTitlesMembers(workbook: map<string, Grid>, conf: Conf, titles: seq<string>, t: string)
    requires Configured(conf, titles)
    requires ValidTitles(workbook, conf, titles).Ok?
    ensures t in ValidTitles(workbook, conf, titles).value <==>
      (t in titles && Present(workbook, conf.sheets[t], t) &&
       HeaderRowOf(workbook, conf.sheets[t], t).Ok? &&
       HasRequired(conf.sheets[t], HeaderRowOf(workbook, conf.sheets[t], t).value))
  {
    if titles != [] {
      var init := titles[..|titles| - 1];
      assert titles == init + [titles[|titles| - 1]];
      ValidTitlesMembers(workbook, conf, init, t);
    }
  }

  /** Some worksheet among `titles` is present but lacks a required header. */
  ghost predicate ListedInvalid(workbook: map<string, Grid>, conf: Conf, titles: seq<string>)
    requires Configured(conf, titles)
  {
    exists t :: t in titles && Present(workbook, conf.sheets[t], t) &&
      HeaderRowOf(workbook, conf.sheets[t], t).Ok? && !HasRequired(conf.sheets[t], HeaderRowOf(workbook, conf.sheets[t], t).value)
  }

  /**
   * The loop of `valid_worksheets`: each listed worksheet that is present has
   * its header row recorded, and is kept when it has its required headers.  On
   * an error the worksheets found so far stay recorded.
   */
  method ScanWorksheets(workbook: map<string, Grid>, conf: Conf, titles: seq<string>, headers0: map<string, seq<Option<string>>>)
    returns (r: Result<seq<string>>, found: seq<string>, headers: map<string, seq<Option<string>>>, anyInvalid: bool)
    requires Configured(conf, titles)
    ensures r == ValidTitles(workbook, conf, titles)
    ensures r.Ok? ==> found == r.value
    ensures forall t :: t in found ==> t in titles && t in workbook && t in headers && HasRequired(conf.sheets[t], headers[t])
    ensures r.Ok? ==> forall t :: t in titles && Present(workbook, conf.sheets[t], t) ==>
      t in headers && HeaderRowOf(workbook, conf.sheets[t], t) == Ok(headers[t])
    ensures r.Ok? ==> (anyInvalid <==> ListedInvalid(workbook, conf, titles))
  {
    found := [];
    headers := headers0;
    anyInvalid := false;
    for i := 0 to |titles|
      invariant ScanSoFar(workbook, conf, titles[..i], found, headers, anyInvalid)
    {
      assert titles[..i + 1] == titles[..i] + [titles[i]];
      var err;
      err, found, headers, anyInvalid := ScanWorksheet(workbook, conf, titles[..i], titles[i], found, headers, anyInvalid);
      if err.Some? {
        r := Err(err.value);
        ValidTitlesStopsAtError(workbook, conf, titles, i + 1);
        return;
      }
    }
    assert titles[..|titles|] == titles;
    r := Ok(found);
  }

  /** What the loop of `valid_worksheets` has recorded once the worksheets `done` are scanned. */
  ghost predicate ScanSoFar(workbook: map<string, Grid>, conf: Conf, done: seq<string>, found: seq<string>,
                            headers: map<string, seq<Option<string>>>, anyInvalid: bool)
    requires Configured(conf, done)
  {
    ValidTitles(workbook, conf, done) == Ok(found) &&
    (forall t :: t in found ==> t in done && t in workbook && t in headers && HasRequired(conf.sheets[t], headers[t])) &&
    (forall t :: t in done && Present(workbook, conf.sheets[t], t) ==>
      t in headers && HeaderRowOf(workbook, conf.sheets[t], t) == Ok(headers[t])) &&
    (anyInvalid <==> ListedInvalid(workbook, conf, done))
  }

  /** One turn of the loop of `valid_worksheets`: the worksheet `title` is looked up and its header row read. */
  method ScanWorksheet(workbook: map<string, Grid>, conf: Conf, done: seq<string>, title: string, found: seq<string>,
                       headers: map<string, seq<Option<string>>>, anyInvalid: bool)
    returns (err: Option<string>, found': seq<string>, headers': map<string, seq<Option<string>>>, anyInvalid': bool)
    requires Configured(conf, done + [title])
    requires ScanSoFar(workbook, conf, done, found, headers, anyInvalid)
    ensures err.Some? ==> ValidTitles(workbook, conf, done + [title]) == Err(err.value) && found' == found && headers' == headers
    ensures err.None? ==> ScanSoFar(workbook, conf, done + [title], found', headers', anyInvalid')
  {
    var titles := done + [title];
    assert titles[..|titles| - 1] == done;
    found', headers', anyInvalid' := found, headers, anyInvalid;
    var sc := conf.sheets[title];
    if title !in workbook || |workbook[title]| < sc.headerRow + 1 {
      return None, found', headers', anyInvalid';
    }
    var names := HeaderNames(workbook[title][sc.headerRow - 1]);
    if names.Err? {
      return Some(names.error), found', headers', anyInvalid';
    }
    headers' := headers[title := names.value];
    if HasRequired(sc, names.value) {
      found' := found + [title];
    } else {
      anyInvalid' := true;
    }
    err := None;
  }

  /** Once the scan errs, the later worksheets change nothing. */
  lemma {:induction false} ValidTitlesStopsAtError(workbook: map<string, Grid>, conf: Conf, titles: seq<string>, n: nat)
    requires Configured(conf, titles) && n <= |titles|
    requires ValidTitles(workbook, conf, titles[..n]).Err?
    ensures ValidTitles(workbook, conf, titles) == ValidTitles(workbook, conf, titles[..n])
    decreases |titles| - n
  {
    if n < |titles| {
      assert titles[..n + 1][..n] == titles[..n];
      ValidTitlesStopsAtError(workbook, conf, titles, n + 1);
    } else {
      assert titles[..n] == titles;
    }
  }

  // ---------------------------------------------------------------------
  // Reading rows

  /** Python's `list.index`: the first position of `Some(h)`, or the length when absent. */
  function HeaderIndex(headers: seq<Option<string>>, h: string): (i: nat)
    ensures i <= |headers|
    ensures i < |headers| ==> headers[i] == Some(h)
    ensures forall j :: 0 <= j < i ==> headers[j] != Some(h)
    ensures i == |headers| <==> Some(h) !in headers
  {
    if headers == [] then 0
    else if headers[0] == Some(h) then 0
    else 1 + HeaderIndex(headers[1..], h)
  }

  /** The cell of a row under header `h`; `None` when the header is absent or the row is shorter. */
  function CellFor(cells: seq<Cell>, headers: seq<Option<string>>, h: string): Cell
  {
    var index := if Some(h) in headers then HeaderIndex(headers, h) else |cells|;
    if index >= |cells| then NoValue else cells[index]
  }

  /** The data read from a row: every wanted header to its cell. */
  function RowData(cells: seq<Cell>, headers: seq<Option<string>>, wanted: seq<string>): Row
  {
    map h | h in wanted :: CellFor(cells, headers, h)
  }

  /** The row holds a value under at least one wanted header. */
  predicate HasValue(cells: seq<Cell>, headers: seq<Option<string>>, wanted: seq<string>)
  {
    exists h :: h in wanted && CellFor(cells, headers, h) != NoValue
  }

  /** Row `i` of the grid holds no value under any wanted header. */
  predicate EmptyRow(grid: Grid, i: int, headers: seq<Option<string>>, wanted: seq<string>)
  {
    1 <= i <= |grid| && !HasValue(grid[i - 1], headers, wanted)
  }

  /** The first row from `k` on that holds a value, if any. */
  function FirstDataRow(grid: Grid, k: int, headers: seq<Option<string>>, wanted: seq<string>): (r: Option<int>)
    requires k >= 1
    ensures r.Some? ==> k <= r.value <= |grid|
    decreases |grid| + 1 - k
  {
    if k > |grid| then None
    else if HasValue(grid[k - 1], headers, wanted) then Some(k)
    else FirstDataRow(grid, k + 1, headers, wanted)
  }

  /** The row found is the first one at or after `k` with a value; without one, every row from `k` on is empty. */
  lemma {:induction false} FirstDataRowIsFirst(grid: Grid, k: int, headers: seq<Option<string>>, wanted: seq<string>)
    requires k >= 1
    ensures match FirstDataRow(grid, k, headers, wanted)
      case Some(j) =>
        k <= j <= |grid| && HasValue(grid[j - 1], headers, wanted) &&
        forall i :: k <= i < j ==> EmptyRow(grid, i, headers, wanted)
      case None => forall i :: k <= i <= |grid| ==> EmptyRow(grid, i, headers, wanted)
    decreases |grid| + 1 - k
  {
    if k <= |grid| && !HasValue(grid[k - 1], headers, wanted) {
      FirstDataRowIsFirst(grid, k + 1, headers, wanted);
    }
  }

  /** Every data row from row `k` on, in sheet order, each tagged with its row number. */
  function DataRowsFrom(grid: Grid, k: int, headers: seq<Option<string>>, wanted: seq<string>): seq<Row>
    requires k >= 1
    decreases |grid| + 1 - k
  {
    FirstDataRowIsFirst(grid, k, headers, wanted);
    match FirstDataRow(grid, k, headers, wanted)
    case None => []
    case Some(j) => [RowData(grid[j - 1], headers, wanted)["row_num" := Int(j)]] + DataRowsFrom(grid, j + 1, headers, wanted)
  }

  /** What one `next` from row `k` returns, and the reader's offset afterwards. */
  function ReadFrom(grid: Grid, k: int, headers: seq<Option<string>>, wanted: seq<string>): (Option<Row>, int)
    requires k >= 1
  {
    match FirstDataRow(grid, k, headers, wanted)
    case Some(j) => (Some(RowData(grid[j - 1], headers, wanted)["row_num" := Int(j)]), j)
    case None => (None, if k > |grid| then k else |grid| + 1)
  }

  /** A read returns the next data row and leaves the offset on it, or ends past the last row. */
  lemma ReadFromFacts(grid: Grid, k: int, headers: seq<Option<string>>, wanted: seq<string>)
    requires k >= 1
    ensures var (row, offset) := ReadFrom(grid, k, headers, wanted);
      offset >= k &&
      (row.Some? ==> offset <= |grid| && DataRowsFrom(grid, k, headers, wanted) == [row.value] + DataRowsFrom(grid, offset + 1, headers, wanted)) &&
      (row.None? ==> offset > |grid| && DataRowsFrom(grid, k, headers, wanted) == [])
  {
  }

  /** The data rows from row `k` start with row `k` when it has a value, and go on from row `k + 1`. */
  lemma DataRowsFromStep(grid: Grid, k: int, headers: seq<Option<string>>, wanted: seq<string>)
    requires 1 <= k <= |grid|
    ensures DataRowsFrom(grid, k, headers, wanted) ==
      (if HasValue(grid[k - 1], headers, wanted) then [RowData(grid[k - 1], headers, wanted)["row_num" := Int(k)]] else []) +
      DataRowsFrom(grid, k + 1, headers, wanted)
  {
    if HasValue(grid[k - 1], headers, wanted) {
      assert FirstDataRow(grid, k, headers, wanted) == Some(k);
    } else {
      assert FirstDataRow(grid, k, headers, wanted) == FirstDataRow(grid, k + 1, headers, wanted);
      FirstDataRowIsFirst(grid, k, headers, wanted);
      FirstDataRowIsFirst(grid, k + 1, headers, wanted);
    }
  }

  /** One step of the reader loop: the rows read so far plus row `k`'s contribution keep the remaining data rows in step. */
  lemma ReadAllStep(grid: Grid, k: int, headers: seq<Option<string>>, wanted: seq<string>, rows: seq<Row>, next: seq<Row>)
    requires 1 <= k <= |grid|
    requires next == if HasValue(grid[k - 1], headers, wanted) then [RowData(grid[k - 1], headers, wanted)["row_num" := Int(k)]] else []
    ensures rows + DataRowsFrom(grid, k, headers, wanted) == (rows + next) + DataRowsFrom(grid, k + 1, headers, wanted)
  {
    DataRowsFromStep(grid, k, headers, wanted);
  }

  /** The data rows from row `start` on, row by row. */
  method ReadAll(grid: Grid, start: int, headers: seq<Option<string>>, wanted: seq<string>) returns (rows: seq<Row>)
    requires start >= 1
    ensures rows == DataRowsFrom(grid, start, headers, wanted)
  {
    rows := [];
    var k := start;
    while k <= |grid|
      invariant k >= start
      invariant DataRowsFrom(grid, start, headers, wanted) == rows + DataRowsFrom(grid, k, headers, wanted)
      decreases |grid| + 1 - k
    {
      var data, hasNotNull := ReadRow(grid[k - 1], headers, wanted);
      var next: seq<Row> := if hasNotNull then [data["row_num" := Int(k)]] else [];
      ReadAllStep(grid, k, headers, wanted, rows, next);
      rows := rows + next;
      k := k + 1;
    }
  }

  /**
   * The scan behind `next`: rows from `start` on until one holds a value, moving
   * the offset past every empty row; past the last row it stops with `None`.
   */
  method ScanFrom(grid: Grid, start: int, headers: seq<Option<string>>, wanted: seq<string>) returns (row: Option<Row>, offset: int)
    requires start >= 1
    ensures (row, offset) == ReadFrom(grid, start, headers, wanted)
  {
    offset := start;
    while offset <= |grid|
      invariant start <= offset <= (if start > |grid| then start else |grid| + 1)
      invariant FirstDataRow(grid, start, headers, wanted) == FirstDataRow(grid, offset, headers, wanted)
      decreases |grid| + 1 - offset
    {
      var data, hasNotNull := ReadRow(grid[offset - 1], headers, wanted);
      if hasNotNull {
        return Some(data["row_num" := Int(offset)]), offset;
      }
      offset := offset + 1;
    }
    row := None;
  }

  /** A header missing from the header row reads as `None` in every row. */
  lemma MissingHeaderReadsNone(cells: seq<Cell>, headers: seq<Option<string>>, wanted: seq<string>, h: string)
    requires h in wanted && Some(h) !in headers
    ensures RowData(cells, headers, wanted)[h] == NoValue
  {
  }

  /** A present header reads the cell in its column. */
  lemma PresentHeaderReadsColumn(cells: seq<Cell>, headers: seq<Option<string>>, wanted: seq<string>, h: string)
    requires h in wanted && Some(h) in headers
    ensures RowData(cells, headers, wanted)[h] == CellAt([cells], 1, HeaderIndex(headers, h) + 1)
  {
  }

  lemma HasValueSnoc(cells: seq<Cell>, headers: seq<Option<string>>, wanted: seq<string>, h: string)
    ensures HasValue(cells, headers, wanted + [h]) <==> HasValue(cells, headers, wanted) || CellFor(cells, headers, h) != NoValue
  {
    if HasValue(cells, headers, wanted + [h]) {
      var g :| g in wanted + [h] && CellFor(cells, headers, g) != NoValue;
      if g != h {
        assert g in wanted;
      }
    }
  }

  /** One row's data and whether any of it is set, header by header. */
  method ReadRow(cells: seq<Cell>, headers: seq<Option<string>>, wanted: seq<string>) returns (data: Row, hasNotNull: bool)
    ensures data == RowData(cells, headers, wanted)
    ensures hasNotNull == HasValue(cells, headers, wanted)
  {
    data := map[];
    hasNotNull := false;
    for i := 0 to |wanted|
      invariant data == RowData(cells, headers, wanted[..i])
      invariant hasNotNull == HasValue(cells, headers, wanted[..i])
    {
      var h := wanted[i];
      assert wanted[..i + 1] == wanted[..i] + [h];
      HasValueSnoc(cells, headers, wanted[..i], h);
      var index := |cells|;
      if Some(h) in headers {
        index := HeaderIndex(headers, h);
      }
      if index >= |cells| {
        data := data[h := NoValue];
      } else {
        if cells[index] != NoValue {
          hasNotNull := true;
        }
        data := data[h := cells[index]];
      }
    }
    assert wanted[..|wanted|] == wanted;
  }

  // ---------------------------------------------------------------------
  // Writing rows

  /** What a sequence of writes has reached: the grid, and the error that stopped it. */
  datatype Progress = Progress(grid: Grid, error: Option<string>)

  /** One `cell(row=row_num, column=c, value=v)` call; the row number must be an integer of at least 1. */
  function WriteCell(p: Progress, rowNum: Cell, c: int, v: Cell): Progress
    requires c >= 1
  {
    if p.error.Some? then p
    else match rowNum
      case Int(n) => if n >= 1 then Progress(SetCell(p.grid, n, c, v), None) else Progress(p.grid, Some("ValueError"))
      case _ => Progress(p.grid, Some("TypeError"))
  }

  /** The required headers, in order: each must be in the header row and in the data. */
  function WriteRequired(p: Progress, headers: seq<Option<string>>, hs: seq<string>, data: Row, rowNum: Cell): Progress
    decreases |hs|
  {
    if p.error.Some? || hs == [] then p
    else
      var h := hs[0];
      if Some(h) !in headers || h !in data then Progress(p.grid, Some("ValueError"))
      else WriteRequired(WriteCell(p, rowNum, HeaderIndex(headers, h) + 1, data[h]), headers, hs[1..], data, rowNum)
  }

  /** The optional headers present in the header row, in order: the data's value, or blanked. */
  function WriteOptional(p: Progress, headers: seq<Option<string>>, hs: seq<string>, data: Row, rowNum: Cell, blankMissing: bool): Progress
    decreases |hs|
  {
    if p.error.Some? || hs == [] then p
    else
      var h := hs[0];
      var q :=
        if Some(h) !in headers then p
        else if h !in data && blankMissing then WriteCell(p, rowNum, HeaderIndex(headers, h) + 1, Str(""))
        else if h in data then WriteCell(p, rowNum, HeaderIndex(headers, h) + 1, data[h])
        else p;
      WriteOptional(q, headers, hs[1..], data, rowNum, blankMissing)
  }

  /** `edit_row`: the data's cells written into row `row_num`; a missing `row_num` raises KeyError. */
  function EditedRow(grid: Grid, headers: seq<Option<string>>, sc: SheetConf, data: Row, blankMissing: bool): Progress
  {
    if "row_num" !in data then Progress(grid, Some("KeyError"))
    else
      var p := WriteRequired(Progress(grid, None), headers, sc.required, data, data["row_num"]);
      WriteOptional(p, headers, sc.optional, data, data["row_num"], blankMissing)
  }

  /** `set_rows`: the i-th row is written as spreadsheet row `first + i`, stopping at the first error. */
  function RowsWritten(p: Progress, headers: seq<Option<string>>, sc: SheetConf, rows: seq<Row>, first: int): Progress
    decreases |rows|
  {
    if p.error.Some? || rows == [] then p
    else RowsWritten(EditedRow(p.grid, headers, sc, rows[0]["row_num" := Int(first)], true), headers, sc, rows[1..], first + 1)
  }

  /** Writes to row `n` leave every other row alone. */
  lemma {:induction false} WriteRequiredKeepsOtherRows(p: Progress, headers: seq<Option<string>>, hs: seq<string>, data: Row, n: int, r: int, c: int)
    requires r != n
    ensures CellAt(WriteRequired(p, headers, hs, data, Int(n)).grid, r, c) == CellAt(p.grid, r, c)
    decreases |hs|
  {
    if p.error.None? && hs != [] && Some(hs[0]) in headers && hs[0] in data {
      WriteRequiredKeepsOtherRows(WriteCell(p, Int(n), HeaderIndex(headers, hs[0]) + 1, data[hs[0]]), headers, hs[1..], data, n, r, c);
    }
  }

  lemma {:induction false} WriteOptionalKeepsOtherRows(p: Progress, headers: seq<Option<string>>, hs: seq<string>, data: Row, n: int, blankMissing: bool, r: int, c: int)
    requires r != n
    ensures CellAt(WriteOptional(p, headers, hs, data, Int(n), blankMissing).grid, r, c) == CellAt(p.grid, r, c)
    decreases |hs|
  {
    if p.error.None? && hs != [] {
      var h := hs[0];
      var q :=
        if Some(h) !in headers then p
        else if h !in data && blankMissing then WriteCell(p, Int(n), HeaderIndex(headers, h) + 1, Str(""))
        else if h in data then WriteCell(p, Int(n), HeaderIndex(headers, h) + 1, data[h])
        else p;
      assert CellAt(q.grid, r, c) == CellAt(p.grid, r, c);
      WriteOptionalKeepsOtherRows(q, headers, hs[1..], data, n, blankMissing, r, c);
    }
  }

  /** `edit_row` changes no row but its own. */
  lemma EditedRowKeepsOtherRows(grid: Grid, headers: seq<Option<string>>, sc: SheetConf, data: Row, blankMissing: bool, n: int, r: int, c: int)
    requires "row_num" in data && data["row_num"] == Int(n) && r != n
    ensures CellAt(EditedRow(grid, headers, sc, data, blankMissing).grid, r, c) == CellAt(grid, r, c)
  {
    var p := WriteRequired(Progress(grid, None), headers, sc.required, data, Int(n));
    WriteRequiredKeepsOtherRows(Progress(grid, None), headers, sc.required, data, n, r, c);
    WriteOptionalKeepsOtherRows(p, headers, sc.optional, data, n, blankMissing, r, c);
  }

  /** A required header missing from the data (or from the header row) stops the edit with ValueError. */
  lemma {:induction false} WriteRequiredMissingFails(p: Progress, headers: seq<Option<string>>, hs: seq<string>, data: Row, rowNum: Cell, h: string)
    requires h in hs && (h !in data || Some(h) !in headers)
    ensures WriteRequired(p, headers, hs, data, rowNum).error.Some?
    decreases |hs|
  {
    if p.error.None? && hs[0] != h && Some(hs[0]) in headers && hs[0] in data {
      WriteRequiredMissingFails(WriteCell(p, rowNum, HeaderIndex(headers, hs[0]) + 1, data[hs[0]]), headers, hs[1..], data, rowNum, h);
    }
  }

  lemma {:induction false} WriteOptionalKeepsError(p: Progress, headers: seq<Option<string>>, hs: seq<string>, data: Row, rowNum: Cell, blankMissing: bool)
    requires p.error.Some?
    ensures WriteOptional(p, headers, hs, data, rowNum, blankMissing) == p
  {
  }

  /** `edit_row` raises when `row_num` is missing and when a required header has no value. */
  lemma EditedRowFailures(grid: Grid, headers: seq<Option<string>>, sc: SheetConf, data: Row, blankMissing: bool)
    ensures "row_num" !in data ==> EditedRow(grid, headers, sc, data, blankMissing).error == Some("KeyError")
    ensures "row_num" in data && (exists h :: h in sc.required && h !in data) ==>
      EditedRow(grid, headers, sc, data, blankMissing).error.Some?
  {
    if "row_num" in data && exists h :: h in sc.required && h !in data {
      var h :| h in sc.required && h !in data;
      WriteRequiredMissingFails(Progress(grid, None), headers, sc.required, data, data["row_num"], h);
    }
  }

  /**
   * A write to another column of the same row keeps a cell, and so does a
   * later write of the same value: a cell holding what writing `data[h]` over
   * some `x` leaves still holds it.
   */
  lemma {:induction false} WriteOptionalKeepsCell(p: Progress, headers: seq<Option<string>>, hs: seq<string>, data: Row, n: int, blankMissing: bool, h: string, x: Cell)
    requires Some(h) in headers && h in data
    requires CellAt(p.grid, n, HeaderIndex(headers, h) + 1) == Written(x, data[h])
    ensures CellAt(WriteOptional(p, headers, hs, data, Int(n), blankMissing).grid, n, HeaderIndex(headers, h) + 1) == Written(x, data[h])
    decreases |hs|
  {
    if p.error.None? && hs != [] {
      var g := hs[0];
      var q :=
        if Some(g) !in headers then p
        else if g !in data && blankMissing then WriteCell(p, Int(n), HeaderIndex(headers, g) + 1, Str(""))
        else if g in data then WriteCell(p, Int(n), HeaderIndex(headers, g) + 1, data[g])
        else p;
      if Some(g) in headers && g != h {
        assert HeaderIndex(headers, g) != HeaderIndex(headers, h);
      }
      assert CellAt(q.grid, n, HeaderIndex(headers, h) + 1) == Written(x, data[h]);
      WriteOptionalKeepsCell(q, headers, hs[1..], data, n, blankMissing, h, x);
    }
  }

  lemma {:induction false} WriteRequiredKeepsCell(p: Progress, headers: seq<Option<string>>, hs: seq<string>, data: Row, n: int, h: string, x: Cell)
    requires Some(h) in headers && h in data
    requires CellAt(p.grid, n, HeaderIndex(headers, h) + 1) == Written(x, data[h])
    ensures CellAt(WriteRequired(p, headers, hs, data, Int(n)).grid, n, HeaderIndex(headers, h) + 1) == Written(x, data[h])
    decreases |hs|
  {
    if p.error.None? && hs != [] && Some(hs[0]) in headers && hs[0] in data {
      var g := hs[0];
      if g != h {
        assert HeaderIndex(headers, g) != HeaderIndex(headers, h);
      }
      WriteRequiredKeepsCell(WriteCell(p, Int(n), HeaderIndex(headers, g) + 1, data[g]), headers, hs[1..], data, n, h, x);
    }
  }

  /**
   * After a successful run over the required headers, each one's value is in
   * its column; a `None` value leaves the cell's earlier value there.
   */
  lemma {:induction false} WriteRequiredStores(p: Progress, headers: seq<Option<string>>, hs: seq<string>, data: Row, n: int, h: string)
    requires h in hs
    requires WriteRequired(p, headers, hs, data, Int(n)).error.None?
    ensures Some(h) in headers && h in data
    ensures CellAt(WriteRequired(p, headers, hs, data, Int(n)).grid, n, HeaderIndex(headers, h) + 1) ==
      Written(CellAt(p.grid, n, HeaderIndex(headers, h) + 1), data[h])
    decreases |hs|
  {
    var g := hs[0];
    var q := WriteCell(p, Int(n), HeaderIndex(headers, g) + 1, data[g]);
    if g == h {
      WriteRequiredKeepsCell(q, headers, hs[1..], data, n, h, CellAt(p.grid, n, HeaderIndex(headers, h) + 1));
    } else {
      assert HeaderIndex(headers, g) != HeaderIndex(headers, h);
      WriteRequiredStores(q, headers, hs[1..], data, n, h);
    }
  }

  /**
   * A successful `edit_row` leaves every required header's value in its column
   * of row `row_num`; a `None` value leaves the cell as it was.
   */
  lemma EditedRowStoresRequired(grid: Grid, headers: seq<Option<string>>, sc: SheetConf, data: Row, blankMissing: bool, n: int, h: string)
    requires "row_num" in data && data["row_num"] == Int(n) && h in sc.required
    requires EditedRow(grid, headers, sc, data, blankMissing).error.None?
    ensures h in data && Some(h) in headers
    ensures CellAt(EditedRow(grid, headers, sc, data, blankMissing).grid, n, HeaderIndex(headers, h) + 1) ==
      Written(CellAt(grid, n, HeaderIndex(headers, h) + 1), data[h])
  {
    var p := WriteRequired(Progress(grid, None), headers, sc.required, data, Int(n));
    if p.error.Some? {
      WriteOptionalKeepsError(p, headers, sc.optional, data, Int(n), blankMissing);
    }
    WriteRequiredStores(Progress(grid, None), headers, sc.required, data, n, h);
    WriteOptionalKeepsCell(p, headers, sc.optional, data, n, blankMissing, h, CellAt(grid, n, HeaderIndex(headers, h) + 1));
  }

  /**
   * A successful `set_rows` puts the i-th row's required values in spreadsheet
   * row `first + i`; a `None` value leaves the cell as it was before.
   */
  lemma RowsWrittenPlacesRows(p: Progress, headers: seq<Option<string>>, sc: SheetConf, rows: seq<Row>, first: int, i: nat, h: string)
    requires i < |rows| && h in sc.required
    requires p.error.None?
    requires RowsWritten(p, headers, sc, rows, first).error.None?
    ensures h in rows[i]["row_num" := Int(first + i)] && Some(h) in headers
    ensures CellAt(RowsWritten(p, headers, sc, rows, first).grid, first + i, HeaderIndex(headers, h) + 1) ==
      Written(CellAt(p.grid, first + i, HeaderIndex(headers, h) + 1), rows[i]["row_num" := Int(first + i)][h])
  {
    RowsWrittenPlacesAt(p, headers, sc, rows, first, i, first + i, h);
  }

  /** The same, with the target spreadsheet row `k` named, so the induction on `rows` keeps it fixed. */
  lemma {:induction false} RowsWrittenPlacesAt(p: Progress, headers: seq<Option<string>>, sc: SheetConf, rows: seq<Row>, first: int, i: nat, k: int, h: string)
    requires i < |rows| && h in sc.required && k == first + i
    requires p.error.None?
    requires RowsWritten(p, headers, sc, rows, first).error.None?
    ensures h in rows[i]["row_num" := Int(k)] && Some(h) in headers
    ensures CellAt(RowsWritten(p, headers, sc, rows, first).grid, k, HeaderIndex(headers, h) + 1) ==
      Written(CellAt(p.grid, k, HeaderIndex(headers, h) + 1), rows[i]["row_num" := Int(k)][h])
    decreases |rows|
  {
    if i == 0 {
      RowsWrittenPlacesHead(p, headers, sc, rows, first, h);
    } else {
      var data := rows[0]["row_num" := Int(first)];
      var q := EditedRow(p.grid, headers, sc, data, true);
      RowsWrittenUnfold(p, headers, sc, rows, first);
      var rest := rows[1..];
      assert rest[i - 1] == rows[i];
      RowsWrittenPlacesAt(q, headers, sc, rest, first + 1, i - 1, k, h);
      EditedRowKeepsOtherRows(p.grid, headers, sc, data, true, first, k, HeaderIndex(headers, h) + 1);
    }
  }

  /** Writing starts with one `edit_row` of the first row, which must succeed for the whole to succeed. */
  lemma RowsWrittenUnfold(p: Progress, headers: seq<Option<string>>, sc: SheetConf, rows: seq<Row>, first: int)
    requires |rows| > 0 && p.error.None?
    requires RowsWritten(p, headers, sc, rows, first).error.None?
    ensures var q := EditedRow(p.grid, headers, sc, rows[0]["row_num" := Int(first)], true);
      q.error.None? && RowsWritten(p, headers, sc, rows, first) == RowsWritten(q, headers, sc, rows[1..], first + 1)
  {
    var q := EditedRow(p.grid, headers, sc, rows[0]["row_num" := Int(first)], true);
    RowsWrittenStopsAtError(q, headers, sc, rows[1..], first + 1);
  }

  /** The first row written lands in spreadsheet row `first`, and later rows leave it alone. */
  lemma RowsWrittenPlacesHead(p: Progress, headers: seq<Option<string>>, sc: SheetConf, rows: seq<Row>, first: int, h: string)
    requires |rows| > 0 && h in sc.required
    requires p.error.None?
    requires RowsWritten(p, headers, sc, rows, first).error.None?
    ensures h in rows[0]["row_num" := Int(first)] && Some(h) in headers
    ensures CellAt(RowsWritten(p, headers, sc, rows, first).grid, first, HeaderIndex(headers, h) + 1) ==
      Written(CellAt(p.grid, first, HeaderIndex(headers, h) + 1), rows[0]["row_num" := Int(first)][h])
  {
    var data := rows[0]["row_num" := Int(first)];
    var q := EditedRow(p.grid, headers, sc, data, true);
    assert RowsWritten(p, headers, sc, rows, first) == RowsWritten(q, headers, sc, rows[1..], first + 1);
    RowsWrittenStopsAtError(q, headers, sc, rows[1..], first + 1);
    EditedRowStoresRequired(p.grid, headers, sc, data, true, first, h);
    RowsWrittenKeepsRow(q, headers, sc, rows[1..], first + 1, first, HeaderIndex(headers, h) + 1);
  }

  /** Rows written from `first` on leave the rows above `first` alone. */
  lemma {:induction false} RowsWrittenKeepsRow(p: Progress, headers: seq<Option<string>>, sc: SheetConf, rows: seq<Row>, first: int, r: int, c: int)
    requires r < first
    ensures CellAt(RowsWritten(p, headers, sc, rows, first).grid, r, c) == CellAt(p.grid, r, c)
    decreases |rows|
  {
    if p.error.None? && rows != [] {
      var data := rows[0]["row_num" := Int(first)];
      EditedRowKeepsOtherRows(p.grid, headers, sc, data, true, first, r, c);
      RowsWrittenKeepsRow(EditedRow(p.grid, headers, sc, data, true), headers, sc, rows[1..], first + 1, r, c);
    }
  }

  /** Writing rows `i..` starts with one `edit_row` of row `i`, and stops there when it fails. */
  lemma RowsWrittenFirst(g: Grid, headers: seq<Option<string>>, sc: SheetConf, rows: seq<Row>, first: int, i: nat)
    requires i < |rows|
    ensures var q := EditedRow(g, headers, sc, rows[i]["row_num" := Int(first + i)], true);
      RowsWritten(Progress(g, None), headers, sc, rows[i..], first + i) ==
        if q.error.Some? then q else RowsWritten(Progress(q.grid, None), headers, sc, rows[i + 1..], first + i + 1)
  {
    assert rows[i..][0] == rows[i] && rows[i..][1..] == rows[i + 1..];
    var q := EditedRow(g, headers, sc, rows[i]["row_num" := Int(first + i)], true);
    RowsWrittenStopsAtError(q, headers, sc, rows[i + 1..], first + i + 1);
  }

  lemma RowsWrittenStopsAtError(p: Progress, headers: seq<Option<string>>, sc: SheetConf, rows: seq<Row>, first: int)
    ensures p.error.Some? ==> RowsWritten(p, headers, sc, rows, first) == p
  {
  }

  // ---------------------------------------------------------------------
  // The parser

  /**
   * `XLSBaseParser` with its reader (`next`) and writer (`edit_row`,
   * `set_rows`) operations, over one workbook.
   */
  class XlsxParser {
    const conf: Conf
    var workbook: map<string, Grid>
    /** The valid worksheets, once computed. */
    var worksheets: Option<seq<string>>
    var activeWorksheet: Option<string>
    /** The last row read in each worksheet. */
    var rowOffset: map<string, int>
    /** The stripped header row of each present worksheet. */
    var headers: map<string, seq<Option<string>>>
    var valid: Option<bool>

    ghost predicate Valid()
      reads this
    {
      ConfWellFormed(conf) &&
      (worksheets.Some? ==> forall t :: t in worksheets.value ==>
        t in conf.worksheets && t in workbook && t in headers && HasRequired(conf.sheets[t], headers[t])) &&
      (activeWorksheet.Some? ==> worksheets.Some? && activeWorksheet.value in worksheets.value) &&
      (forall t :: t in rowOffset ==> rowOffset[t] >= 1)
    }

    constructor (conf: Conf, workbook: map<string, Grid>)
      requires ConfWellFormed(conf)
      ensures Valid()
      ensures this.conf == conf && this.workbook == workbook
      ensures worksheets == None && activeWorksheet == None && rowOffset == map[] && headers == map[] && valid == None
    {
      this.conf := conf;
      this.workbook := workbook;
      worksheets := None;
      activeWorksheet := None;
      rowOffset := map[];
      headers := map[];
      valid := None;
    }

    /** `valid_worksheets`: computed once, then returned as cached. */
    method ValidWorksheets() returns (r: Result<seq<string>>)
      requires Valid()
      modifies this
      ensures Valid()
      ensures workbook == old(workbook) && activeWorksheet == old(activeWorksheet) && rowOffset == old(rowOffset)
      ensures old(worksheets).Some? ==> r == Ok(old(worksheets).value) && unchanged(this)
      ensures old(worksheets).None? ==> r == ValidTitles(workbook, conf, conf.worksheets)
      ensures r.Ok? ==> worksheets == Some(r.value)
      ensures old(worksheets).None? && r.Ok? ==>
        (forall t :: t in conf.worksheets && Present(workbook, conf.sheets[t], t) ==>
          t in headers && HeaderRowOf(workbook, conf.sheets[t], t) == Ok(headers[t])) &&
        (valid == if ListedInvalid(workbook, conf, conf.worksheets) then Some(false) else old(valid))
    {
      if worksheets.Some? {
        return Ok(worksheets.value);
      }
      var found, hdrs, anyInvalid;
      r, found, hdrs, anyInvalid := ScanWorksheets(workbook, conf, conf.worksheets, headers);
      worksheets := Some(found);
      headers := hdrs;
      if anyInvalid {
        valid := Some(false);
      }
    }

    /** Setting the active worksheet: it must be one of the valid worksheets, else ValueError. */
    method SetActiveWorksheet(worksheet: string) returns (r: Result<()>)
      requires Valid()
      modifies this
      ensures Valid()
      ensures workbook == old(workbook) && rowOffset == old(rowOffset)
      ensures r.Ok? ==> worksheets.Some? && worksheet in worksheets.value && activeWorksheet == Some(worksheet)
      ensures r.Err? ==> activeWorksheet == old(activeWorksheet)
      ensures old(worksheets).Some? && worksheet !in old(worksheets).value ==> r == Err("ValueError")
    {
      if worksheets.None? {
        var v := ValidWorksheets();
        if v.Err? {
          return Err(v.error);
        }
      }
      if worksheet !in worksheets.value {
        return Err("ValueError");
      }
      activeWorksheet := Some(worksheet);
      r := Ok(());
    }

    /** `is_valid`: true unless some listed worksheet lacked its required headers. */
    method IsValid() returns (r: Result<bool>)
      requires Valid()
      modifies this
      ensures Valid()
      ensures workbook == old(workbook) && rowOffset == old(rowOffset) && activeWorksheet == old(activeWorksheet)
      ensures old(valid).Some? ==> r == Ok(old(valid).value)
      ensures old(valid).None? && old(worksheets).None? && r.Ok? ==> (r.value <==> !ListedInvalid(workbook, conf, conf.worksheets))
    {
      if valid.None? {
        valid := Some(true);
        var v := ValidWorksheets();
        if v.Err? {
          return Err(v.error);
        }
      }
      r := Ok(valid.value);
    }

    function BaseRowOffset(worksheet: string): int
      reads this
      requires worksheet in conf.sheets
    {
      conf.sheets[worksheet].headerRow
    }

    /** The row the next read of `worksheet` starts from. */
    function NextStart(worksheet: string): int
      reads this
      requires worksheet in conf.sheets
    {
      (if worksheet in rowOffset then rowOffset[worksheet] else BaseRowOffset(worksheet)) + 1
    }

    function Wanted(worksheet: string): seq<string>
      reads this
      requires worksheet in conf.sheets
    {
      conf.sheets[worksheet].required + conf.sheets[worksheet].optional
    }

    /**
     * `next`: the first row from the one after the last read that holds a value
     * under some configured header, tagged with its row number; `None` stands
     * for StopIteration.
     */
    method Next() returns (row: Option<Row>)
      requires Valid()
      modifies this
      ensures Valid()
      ensures workbook == old(workbook) && worksheets == old(worksheets) && activeWorksheet == old(activeWorksheet)
      ensures headers == old(headers) && valid == old(valid)
      ensures activeWorksheet.None? ==> row.None? && rowOffset == old(rowOffset)
      ensures activeWorksheet.Some? ==>
        var ws := activeWorksheet.value;
        ws in rowOffset && rowOffset == old(rowOffset)[ws := rowOffset[ws]] &&
        (row, rowOffset[ws]) == ReadFrom(workbook[ws], old(NextStart(ws)), headers[ws], Wanted(ws))
    {
      if activeWorksheet.None? {
        return None;
      }
      var ws := activeWorksheet.value;
      var grid := workbook[ws];
      var hdrs := headers[ws];
      var wanted := Wanted(ws);
      var start := NextStart(ws);
      var offset;
      row, offset := ScanFrom(grid, start, hdrs, wanted);
      rowOffset := rowOffset[ws := offset];
    }

    /**
     * All rows of the active worksheet from the cursor on, as repeated `next`
     * calls until StopIteration return them; the cursor ends past the last row.
     */
    method GetRows() returns (rows: seq<Row>)
      requires Valid() && activeWorksheet.Some?
      modifies this
      ensures Valid()
      ensures workbook == old(workbook) && worksheets == old(worksheets) && activeWorksheet == old(activeWorksheet)
      ensures headers == old(headers) && valid == old(valid)
      ensures var ws := activeWorksheet.value;
        var start := old(NextStart(ws));
        rows == DataRowsFrom(workbook[ws], start, headers[ws], Wanted(ws)) &&
        rowOffset == old(rowOffset)[ws := if start > |workbook[ws]| then start else |workbook[ws]| + 1]
    {
      var ws := activeWorksheet.value;
      var start := NextStart(ws);
      rows := ReadAll(workbook[ws], start, headers[ws], Wanted(ws));
      rowOffset := rowOffset[ws := if start > |workbook[ws]| then start else |workbook[ws]| + 1];
    }

    /** `edit_row`: an active worksheet is needed (ValueError otherwise). */
    method EditRow(data: Row, blankMissing: bool) returns (r: Result<()>)
      requires Valid()
      modifies this
      ensures Valid()
      ensures worksheets == old(worksheets) && activeWorksheet == old(activeWorksheet) && headers == old(headers)
      ensures rowOffset == old(rowOffset) && valid == old(valid)
      ensures activeWorksheet.None? ==> r == Err("ValueError") && workbook == old(workbook)
      ensures activeWorksheet.Some? ==>
        var ws := activeWorksheet.value;
        var p := EditedRow(old(workbook)[ws], headers[ws], conf.sheets[ws], data, blankMissing);
        workbook == old(workbook)[ws := p.grid] && (r.Ok? <==> p.error.None?) && (r.Err? ==> r.error == p.error.value)
    {
      if activeWorksheet.None? {
        return Err("ValueError");
      }
      var ws := activeWorksheet.value;
      var p := EditRowSteps(workbook[ws], headers[ws], conf.sheets[ws], data, blankMissing);
      workbook := workbook[ws := p.grid];
      if p.error.Some? {
        return Err(p.error.value);
      }
      r := Ok(());
    }

    /** `set_rows`: the rows written from the row after the header row on. */
    method SetRows(rows: seq<Row>) returns (r: Result<()>)
      requires Valid()
      modifies this
      ensures Valid()
      ensures worksheets == old(worksheets) && activeWorksheet == old(activeWorksheet) && headers == old(headers)
      ensures activeWorksheet.None? ==> r == Err("ValueError") && workbook == old(workbook)
      ensures activeWorksheet.Some? ==>
        var ws := activeWorksheet.value;
        var p := RowsWritten(Progress(old(workbook)[ws], None), headers[ws], conf.sheets[ws], rows, BaseRowOffset(ws) + 1);
        workbook == old(workbook)[ws := p.grid] && (r.Ok? <==> p.error.None?)
    {
      if activeWorksheet.None? {
        return Err("ValueError");
      }
      var ws := activeWorksheet.value;
      var p := RowsWrittenSteps(workbook[ws], headers[ws], conf.sheets[ws], rows, BaseRowOffset(ws) + 1);
      workbook := workbook[ws := p.grid];
      if p.error.Some? {
        return Err(p.error.value);
      }
      r := Ok(());
    }
  }

  /** The loop of `set_rows`: one `edit_row` per row, numbered from `first`, stopping at the first failure. */
  method RowsWrittenSteps(grid: Grid, headers: seq<Option<string>>, sc: SheetConf, rows: seq<Row>, first: int) returns (p: Progress)
    ensures p == RowsWritten(Progress(grid, None), headers, sc, rows, first)
  {
    p := Progress(grid, None);
    for i := 0 to |rows|
      invariant p.error.None?
      invariant RowsWritten(Progress(grid, None), headers, sc, rows, first) == RowsWritten(p, headers, sc, rows[i..], first + i)
    {
      RowsWrittenFirst(p.grid, headers, sc, rows, first, i);
      var q := EditRowSteps(p.grid, headers, sc, rows[i]["row_num" := Int(first + i)], true);
      if q.error.Some? {
        return q;
      }
      p := q;
    }
    assert rows[|rows|..] == [];
  }

  /** The writes of one `edit_row`, header by header. */
  method EditRowSteps(grid: Grid, headers: seq<Option<string>>, sc: SheetConf, data: Row, blankMissing: bool) returns (p: Progress)
    ensures p == EditedRow(grid, headers, sc, data, blankMissing)
  {
    if "row_num" !in data {
      return Progress(grid, Some("KeyError"));
    }
    var rowNum := data["row_num"];
    p := WriteRequiredSteps(Progress(grid, None), headers, sc.required, data, rowNum);
    p := WriteOptionalSteps(p, headers, sc.optional, data, rowNum, blankMissing);
  }

  /** The loop over the required headers: each must be in the header row and in the data. */
  method WriteRequiredSteps(p0: Progress, headers: seq<Option<string>>, hs: seq<string>, data: Row, rowNum: Cell) returns (p: Progress)
    ensures p == WriteRequired(p0, headers, hs, data, rowNum)
  {
    p := p0;
    var i := 0;
    while i < |hs| && p.error.None?
      invariant 0 <= i <= |hs|
      invariant WriteRequired(p0, headers, hs, data, rowNum) == WriteRequired(p, headers, hs[i..], data, rowNum)
    {
      var h := hs[i];
      assert hs[i..][1..] == hs[i + 1..];
      if Some(h) !in headers || h !in data {
        p := Progress(p.grid, Some("ValueError"));
      } else {
        p := WriteCell(p, rowNum, HeaderIndex(headers, h) + 1, data[h]);
      }
      i := i + 1;
    }
    if i == |hs| {
      assert hs[i..] == [];
    }
  }

  /** The loop over the optional headers present in the header row. */
  method WriteOptionalSteps(p0: Progress, headers: seq<Option<string>>, hs: seq<string>, data: Row, rowNum: Cell, blankMissing: bool)
    returns (p: Progress)
    ensures p == WriteOptional(p0, headers, hs, data, rowNum, blankMissing)
  {
    p := p0;
    var j := 0;
    while j < |hs| && p.error.None?
      invariant 0 <= j <= |hs|
      invariant WriteOptional(p0, headers, hs, data, rowNum, blankMissing) == WriteOptional(p, headers, hs[j..], data, rowNum, blankMissing)
    {
      var h := hs[j];
      assert hs[j..][1..] == hs[j + 1..];
      if Some(h) in headers {
        if h !in data && blankMissing {
          p := WriteCell(p, rowNum, HeaderIndex(headers, h) + 1, Str(""));
        } else if h in data {
          p := WriteCell(p, rowNum, HeaderIndex(headers, h) + 1, data[h]);
        }
      }
      j := j + 1;
    }
    if j == |hs| {
      assert hs[j..] == [];
    }
  }
}
