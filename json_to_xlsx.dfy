/**
 * Converting an eva-sub-cli JSON submission into the EVA metadata
 * spreadsheet: the lenient date parser, the flattening of the samples (with
 * the sample-name swap), and the cell rule that fills each worksheet row
 * column by column in the sorted order of the worksheet's key mapping.
 */
module JsonToXlsx {
  import opened Wrappers
  import opened Text
  import opened JsonValues
  import opened XlsxValidation

  // ---------------------------------------------------------------------
  // Cells and transforms

  /** A value written to a cell: a JSON value as is, or a calendar date. */
  datatype XCell = Val(json: Json) | Day(year: int, month: int, day: int)

  /**
   * `parse_date`: the first of `%Y-%m-%d`, `%Y-%m` and `%Y` that parses gives
   * the date (a missing month or day being 1); otherwise the text as it is.
   */
  function ParseDate(x: string): (r: XCell)
    ensures r.Val? <==> !DateStrFormat(x)
    ensures r.Val? ==> r == Val(JStr(x))
    ensures r.Day? ==> 1 <= r.year <= 9999 && 1 <= r.month <= 12 && 1 <= r.day <= DaysIn(r.year, r.month)
    ensures YearField(x) ==> r == Day(DigitsValue(x), 1, 1)
  {
    if DateStrFormat(x) then
      assert YearField(x) ==> x[..4] == x;
      var p := DateParts(x);
      Day(p.0, p.1, p.2)
    else Val(JStr(x))
  }

  /** The transforms the key mapping attaches to a column. */
  datatype Transform =
    | ToInt       // int(x)
    | JoinComma   // ','.join(x)
    | ToDate      // datetime.strptime(x, "%Y-%m-%d").date()
    | Flag        // '1' if x == True else ''
    | LenientDate // parse_date
    | FileType    // 'vcf' if x ends with .vcf.gz or .vcf, else ''

  /** The strings of a list, None when an item is not a string. */
  function Strings(items: seq<Json>): (r: Option<seq<string>>)
    ensures r.Some? ==> |r.value| == |items| && forall i :: 0 <= i < |items| ==> items[i] == JStr(r.value[i])
  {
    if items == [] then Some([])
    else if !items[0].JStr? then None
    else match Strings(items[1..])
      case None => None
      case Some(rest) => Some([items[0].s] + rest)
  }

  function Chars(s: string): (r: seq<string>)
    ensures |r| == |s| && forall i :: 0 <= i < |s| ==> r[i] == [s[i]]
  {
    seq(|s|, i requires 0 <= i < |s| => [s[i]])
  }

  /** A transform applied to a value, with the exception Python raises where it fails. */
  function Apply(t: Transform, x: Json): Result<XCell>
  {
    match t
    case ToInt =>
      (match x
       case JInt(i) => Ok(Val(JInt(i)))
       case JBool(b) => Ok(Val(JInt(if b then 1 else 0)))
       case JStr(s) => (match ParseInt(s) case Some(i) => Ok(Val(JInt(i))) case None => Err("ValueError"))
       case _ => Err("TypeError"))
    case JoinComma =>
      (match x
       case JList(items) => (match Strings(items) case Some(ss) => Ok(Val(JStr(Join(ss, ",")))) case None => Err("TypeError"))
       case JStr(s) => Ok(Val(JStr(Join(Chars(s), ","))))
       case _ => Err("TypeError"))
    case ToDate =>
      (match x
       case JStr(s) =>
         if FullDate(s) then
           assert DateStrFormat(s);
           var p := DateParts(s);
           Ok(Day(p.0, p.1, p.2))
         else Err("ValueError")
       case _ => Err("TypeError"))
    case Flag => Ok(Val(JStr(if x == JBool(true) || x == JInt(1) then "1" else "")))
    case LenientDate => (match x case JStr(s) => Ok(ParseDate(s)) case _ => Err("TypeError"))
    case FileType =>
      (match x
       case JStr(s) => Ok(Val(JStr(if EndsWith(s, ".vcf.gz") || EndsWith(s, ".vcf") then "vcf" else "")))
       case _ => Err("AttributeError"))
  }

  /** A file is typed 'vcf' exactly when its name ends with .vcf or .vcf.gz. */
  lemma FileTypeMeaning(name: string)
    ensures Apply(FileType, JStr(name)) == Ok(Val(JStr("vcf"))) <==> EndsWith(name, ".vcf.gz") || EndsWith(name, ".vcf")
    ensures Apply(FileType, JStr(name)).Ok?
  {
  }

  // ---------------------------------------------------------------------
  // Columns

  /** A column of the key mapping: a plain header, or a header with a transform, a default and a link. */
  datatype Header =
    | Plain(name: string)
    | Spec(name: string, transform: Option<Transform>, default: Option<Json>, link: Option<(string, string)>)

  /**
   * The value a linked column takes: `data[worksheet][column]` for a link to
   * another worksheet; the row's own `column` (None when absent) for a link
   * starting with '.'.
   */
  function Linked(link: (string, string), element: map<string, Json>, data: map<string, Json>): Result<Json>
  {
    var (worksheet, column) := link;
    if worksheet != "" then
      if worksheet !in data then Err("KeyError")
      else match data[worksheet]
        case JObj(f) => if column in f then Ok(f[column]) else Err("KeyError")
        case _ => Err("TypeError")
    else Ok(if column in element then element[column] else JNull)
  }

  /** The value before any transform: the row's own value, else '' then the default then the link. */
  function RawValue(key: string, h: Header, element: map<string, Json>, data: map<string, Json>): Result<Json>
  {
    if key in element then Ok(element[key])
    else
      var empty := JStr("");
      if h.Plain? then Ok(empty)
      else
        var v := if h.default.Some? && !Truthy(empty) then h.default.value else empty;
        if h.link.Some? && !Truthy(v) then Linked(h.link.value, element, data) else Ok(v)
  }

  /** The cell of one column: the raw value, transformed only when the column has a transform and the value is truthy. */
  function CellFor(key: string, h: Header, element: map<string, Json>, data: map<string, Json>): (r: Result<XCell>)
    ensures RawValue(key, h, element, data).Ok? && (h.Plain? || h.transform.None? || !Truthy(RawValue(key, h, element, data).value)) ==>
      r == Ok(Val(RawValue(key, h, element, data).value))
    ensures key in element && Truthy(element[key]) && h.Spec? && h.transform.Some? ==> r == Apply(h.transform.value, element[key])
  {
    match RawValue(key, h, element, data)
    case Err(e) => Err(e)
    case Ok(v) => if h.Spec? && h.transform.Some? && Truthy(v) then Apply(h.transform.value, v) else Ok(Val(v))
  }

  /** One row, in the order of `columns`. */
  function FillRow(mapper: map<string, Header>, columns: seq<string>, element: map<string, Json>, data: map<string, Json>): Result<seq<XCell>>
    requires forall k :: k in columns ==> k in mapper
  {
    if columns == [] then Ok([])
    else
      var k := columns[|columns| - 1];
      match FillRow(mapper, columns[..|columns| - 1], element, data)
      case Err(e) => Err(e)
      case Ok(cells) =>
        match CellFor(k, mapper[k], element, data)
        case Err(e) => Err(e)
        case Ok(c) => Ok(cells + [c])
  }

  /** Every column's cell is filled without error. */
  predicate CellsOk(mapper: map<string, Header>, columns: seq<string>, element: map<string, Json>, data: map<string, Json>)
    requires forall k :: k in columns ==> k in mapper
  {
    forall j :: 0 <= j < |columns| ==> CellFor(columns[j], mapper[columns[j]], element, data).Ok?
  }

  /** The cells are the columns' cells, one for one. */
  predicate CellsMatch(mapper: map<string, Header>, columns: seq<string>, element: map<string, Json>, data: map<string, Json>,
                       cells: seq<XCell>)
    requires forall k :: k in columns ==> k in mapper
  {
    CellsOk(mapper, columns, element, data) && |cells| == |columns| &&
    forall j :: 0 <= j < |columns| ==> cells[j] == CellFor(columns[j], mapper[columns[j]], element, data).value
  }

  /** A row has one cell per column, each given by the column's own rule; it fails exactly when some column's cell fails. */
  lemma {:induction false} FillRowMeaning(mapper: map<string, Header>, columns: seq<string>, element: map<string, Json>, data: map<string, Json>)
    requires forall k :: k in columns ==> k in mapper
    ensures FillRow(mapper, columns, element, data).Ok? <==> CellsOk(mapper, columns, element, data)
    ensures FillRow(mapper, columns, element, data).Ok? ==> CellsMatch(mapper, columns, element, data, FillRow(mapper, columns, element, data).value)
  {
    if columns != [] {
      var init, k := columns[..|columns| - 1], columns[|columns| - 1];
      FillRowMeaning(mapper, init, element, data);
      assert columns == init + [k];
      CellsOkSnoc(mapper, init, k, element, data);
      var r := FillRow(mapper, init, element, data);
      var c := CellFor(k, mapper[k], element, data);
      if r.Ok? && c.Ok? {
        CellsMatchSnoc(mapper, init, k, element, data, r.value, c.value);
      }
    }
  }

  lemma CellsOkSnoc(mapper: map<string, Header>, init: seq<string>, k: string, element: map<string, Json>, data: map<string, Json>)
    requires forall c :: c in init + [k] ==> c in mapper
    ensures CellsOk(mapper, init + [k], element, data) <==> CellsOk(mapper, init, element, data) && CellFor(k, mapper[k], element, data).Ok?
  {
    var columns := init + [k];
    assert forall j :: 0 <= j < |init| ==> columns[j] == init[j];
    assert columns[|init|] == k;
  }

  lemma CellsMatchSnoc(mapper: map<string, Header>, init: seq<string>, k: string, element: map<string, Json>, data: map<string, Json>,
                       cells: seq<XCell>, c: XCell)
    requires forall c :: c in init + [k] ==> c in mapper
    requires CellsMatch(mapper, init, element, data, cells) && CellFor(k, mapper[k], element, data) == Ok(c)
    ensures CellsMatch(mapper, init + [k], element, data, cells + [c])
  {
    CellsOkSnoc(mapper, init, k, element, data);
    var columns := init + [k];
    assert forall j :: 0 <= j < |init| ==> columns[j] == init[j];
  }

  /** The columns of a worksheet: the mapping's keys, sorted. */
  ghost function Columns(mapper: map<string, Header>): (r: seq<string>)
    ensures forall k :: k in r <==> k in mapper
  {
    SortedSet(mapper.Keys)
  }

  /** The header row: each column's name, in column order. */
  ghost function HeaderRow(mapper: map<string, Header>): (r: seq<string>)
    ensures |r| == |mapper| && forall j :: 0 <= j < |r| ==> r[j] == mapper[Columns(mapper)[j]].name
  {
    var cols := Columns(mapper);
    assert |cols| == |mapper.Keys| == |mapper|;
    seq(|cols|, j requires 0 <= j < |cols| => mapper[cols[j]].name)
  }

  /** `_fill_in_worksheet`: one row per element, after the header and any rows before `start`. */
  ghost function FillWorksheet(mapper: map<string, Header>, elements: seq<map<string, Json>>, data: map<string, Json>): Result<seq<seq<XCell>>>
  {
    FillRows(mapper, Columns(mapper), elements, data)
  }

  /** The rows of the elements in turn over the given columns, or the first error. */
  function FillRows(mapper: map<string, Header>, columns: seq<string>, elements: seq<map<string, Json>>, data: map<string, Json>)
    : Result<seq<seq<XCell>>>
    requires forall k :: k in columns ==> k in mapper
  {
    if elements == [] then Ok([])
    else
      match FillRows(mapper, columns, elements[..|elements| - 1], data)
      case Err(e) => Err(e)
      case Ok(rows) =>
        match FillRow(mapper, columns, elements[|elements| - 1], data)
        case Err(e) => Err(e)
        case Ok(row) => Ok(rows + [row])
  }

  /** The worksheet's rows follow the elements one for one. */
  lemma FillWorksheetRows(mapper: map<string, Header>, elements: seq<map<string, Json>>, data: map<string, Json>, i: nat)
    requires FillWorksheet(mapper, elements, data).Ok? && i < |elements|
    ensures |FillWorksheet(mapper, elements, data).value| == |elements|
    ensures FillRow(mapper, Columns(mapper), elements[i], data) == Ok(FillWorksheet(mapper, elements, data).value[i])
  {
    FillRowsFollow(mapper, Columns(mapper), elements, data, i);
  }

  lemma {:induction false} FillRowsFollow(mapper: map<string, Header>, columns: seq<string>, elements: seq<map<string, Json>>,
                                          data: map<string, Json>, i: nat)
    requires forall k :: k in columns ==> k in mapper
    requires FillRows(mapper, columns, elements, data).Ok? && i < |elements|
    ensures |FillRows(mapper, columns, elements, data).value| == |elements|
    ensures FillRow(mapper, columns, elements[i], data) == Ok(FillRows(mapper, columns, elements, data).value[i])
  {
    var init := elements[..|elements| - 1];
    FillRowsSnoc(mapper, columns, elements, data);
    var rows := FillRows(mapper, columns, init, data).value;
    if i < |init| {
      FillRowsFollow(mapper, columns, init, data, i);
      assert init[i] == elements[i];
      assert (rows + [FillRow(mapper, columns, elements[|elements| - 1], data).value])[i] == rows[i];
    } else if init != [] {
      FillRowsFollow(mapper, columns, init, data, 0);
    }
  }

  /** Filled rows are the rows of all but the last element, then the last element's row. */
  lemma FillRowsSnoc(mapper: map<string, Header>, columns: seq<string>, elements: seq<map<string, Json>>, data: map<string, Json>)
    requires forall k :: k in columns ==> k in mapper
    requires FillRows(mapper, columns, elements, data).Ok? && elements != []
    ensures FillRows(mapper, columns, elements[..|elements| - 1], data).Ok?
    ensures FillRow(mapper, columns, elements[|elements| - 1], data).Ok?
    ensures FillRows(mapper, columns, elements, data).value ==
      FillRows(mapper, columns, elements[..|elements| - 1], data).value + [FillRow(mapper, columns, elements[|elements| - 1], data).value]
  {
  }

  /** The row of the header and the row after which the data start, per worksheet. */
  function HeaderRowIndex(worksheet: string): nat
  {
    if worksheet == "sample" then 3 else 1
  }

  function StartRowIndex(worksheet: string): nat
  {
    if worksheet == "project" then 2 else if worksheet == "sample" then 3 else 1
  }

  /** Data rows never overwrite the header row. */
  lemma DataBelowHeader(worksheet: string)
    ensures StartRowIndex(worksheet) + 1 > HeaderRowIndex(worksheet)
  {
  }

  /** The mapping of the Files worksheet. */
  const FilesMapper: map<string, Header> := map[
    "analysisAlias" := Plain("Analysis Alias"),
    "fileName" := Plain("File Name"),
    "DUMMY1" := Plain("MD5"),
    "DUMMY2" := FileTypeHeader]

  /** The File Type column: the row's file name, typed. */
  const FileTypeHeader: Header := Spec("File Type", Some(FileType), None, Some(("", "fileName")))

  /**
   * In a Files row, the File Type column is 'vcf' when the row's file name
   * ends with .vcf or .vcf.gz, '' for any other non-empty name, and '' as it
   * is for an empty name.
   */
  lemma FilesFileTypeCell(element: map<string, Json>, data: map<string, Json>, name: string)
    requires "DUMMY2" !in element && "fileName" in element && element["fileName"] == JStr(name)
    ensures CellFor("DUMMY2", FileTypeHeader, element, data) ==
      Ok(Val(JStr(if name != "" && (EndsWith(name, ".vcf.gz") || EndsWith(name, ".vcf")) then "vcf" else "")))
  {
  }

  // ---------------------------------------------------------------------
  // Samples

  /**
   * `char_data[0].get('text')`: the first entry's `text`, None when absent.
   * An empty list or string has no first entry (IndexError), a dictionary
   * has no key 0 (KeyError), a first entry that is not a dictionary has no
   * `get` (AttributeError), and other values cannot be indexed (TypeError).
   */
  function CharText(c: Json): Result<Json>
  {
    match c
    case JList(items) =>
      if items == [] then Err("IndexError")
      else if items[0].JObj? then Ok(if "text" in items[0].fields then items[0].fields["text"] else JNull)
      else Err("AttributeError")
    case JStr(text) => if text == [] then Err("IndexError") else Err("AttributeError")
    case JObj(_) => Err("KeyError")
    case _ => Err("TypeError")
  }

  predicate CharsWellFormed(chars: map<string, Json>)
  {
    forall k :: k in chars ==> CharText(chars[k]).Ok?
  }

  /**
   * The error raised by reading the characteristics when some of them has
   * no first text: the error of a failing characteristic.  Which one the
   * source meets first depends on the dictionary's order; among several,
   * this takes the first of IndexError, AttributeError, KeyError, TypeError.
   */
  function CharError(chars: map<string, Json>): (e: string)
    requires !CharsWellFormed(chars)
    ensures exists k :: k in chars && CharText(chars[k]) == Err(e)
  {
    var errors := set k | k in chars && CharText(chars[k]).Err? :: CharText(chars[k]).error;
    var k :| k in chars && CharText(chars[k]).Err?;
    assert CharText(chars[k]).error in errors;
    if "IndexError" in errors then "IndexError"
    else if "AttributeError" in errors then "AttributeError"
    else if "KeyError" in errors then "KeyError"
    else "TypeError"
  }

  /**
   * One sample flattened: its own fields, overridden by those of its
   * BioSample object, then its BioSample name as `bioSampleName` when truthy,
   * then each characteristic as its first text.  A BioSample object that is
   * not a dictionary cannot be unpacked (TypeError), characteristics that are
   * not a dictionary have no `items` (AttributeError), and a characteristic
   * without a first text raises as `CharText` does.
   */
  function FlattenSample(sample: map<string, Json>): (r: Result<map<string, Json>>)
    ensures r.Ok? ==> forall k :: k in sample ==> k in r.value
    ensures "bioSampleObject" in sample && !sample["bioSampleObject"].JObj? ==> r == Err("TypeError")
    ensures "bioSampleObject" in sample && sample["bioSampleObject"].JObj? ==>
      var bso := sample["bioSampleObject"].fields;
      "characteristics" in bso ==>
        (!bso["characteristics"].JObj? ==> r == Err("AttributeError")) &&
        (bso["characteristics"].JObj? ==>
          (r.Ok? <==> CharsWellFormed(bso["characteristics"].fields)) &&
          (r.Err? ==> exists k :: k in bso["characteristics"].fields && CharText(bso["characteristics"].fields[k]) == Err(r.error)))
    ensures "bioSampleObject" !in sample ==> r.Ok?
  {
    var bso := if "bioSampleObject" in sample then sample["bioSampleObject"] else JObj(map[]);
    if !bso.JObj? then Err("TypeError")
    else
      var named := if "bioSampleObject" in sample && "name" in bso.fields && Truthy(bso.fields["name"])
        then map["bioSampleName" := bso.fields["name"]] else map[];
      var chars := if "characteristics" in bso.fields then bso.fields["characteristics"] else JObj(map[]);
      if !chars.JObj? then Err("AttributeError")
      else if !CharsWellFormed(chars.fields) then Err(CharError(chars.fields))
      else
        var texts := map k | k in chars.fields :: CharText(chars.fields[k]).value;
        Ok(sample + bso.fields + named + texts)
  }

  /** Each characteristic becomes its first text, whatever the other fields say. */
  lemma CharacteristicsWin(sample: map<string, Json>, k: string)
    requires FlattenSample(sample).Ok? && "bioSampleObject" in sample
    requires "characteristics" in sample["bioSampleObject"].fields && sample["bioSampleObject"].fields["characteristics"].JObj?
    requires k in sample["bioSampleObject"].fields["characteristics"].fields
    ensures k in FlattenSample(sample).value
    ensures FlattenSample(sample).value[k] == CharText(sample["bioSampleObject"].fields["characteristics"].fields[k]).value
  {
  }

  function Lookup(m: map<string, Json>, k: string): Json
  {
    if k in m then m[k] else JNull
  }

  /** Where the VCF sample name and the BioSample name are both given and differ, they change places. */
  function SwapNames(s: map<string, Json>): (r: map<string, Json>)
    ensures r.Keys == s.Keys
  {
    var inVcf, bioName := Lookup(s, "sampleInVCF"), Lookup(s, "bioSampleName");
    if Truthy(inVcf) && Truthy(bioName) && inVcf != bioName then
      s["sampleInVCF" := bioName]["bioSampleName" := inVcf]
    else s
  }

  /** Swapping twice gives the sample back; after a swap the VCF name is the BioSample name. */
  lemma SwapNamesInvolution(s: map<string, Json>)
    ensures SwapNames(SwapNames(s)) == s
    ensures var inVcf, bioName := Lookup(s, "sampleInVCF"), Lookup(s, "bioSampleName");
      Truthy(inVcf) && Truthy(bioName) && inVcf != bioName ==>
        Lookup(SwapNames(s), "sampleInVCF") == bioName && Lookup(SwapNames(s), "bioSampleName") == inVcf
  {
    var inVcf, bioName := Lookup(s, "sampleInVCF"), Lookup(s, "bioSampleName");
    if Truthy(inVcf) && Truthy(bioName) && inVcf != bioName {
      var t := SwapNames(s);
      assert t["sampleInVCF" := inVcf]["bioSampleName" := bioName] == s;
    }
  }

  /** The BioSample name a swap sets aside: the original BioSample name when the swap happens. */
  function Ignored(s: map<string, Json>): (r: seq<Json>)
    ensures |r| <= 1
  {
    var inVcf, bioName := Lookup(s, "sampleInVCF"), Lookup(s, "bioSampleName");
    if Truthy(inVcf) && Truthy(bioName) && inVcf != bioName then [bioName] else []
  }

  /** A BioSample name is set aside exactly when the swap changes the sample. */
  lemma IgnoredIffSwapped(s: map<string, Json>)
    ensures Ignored(s) != [] <==> SwapNames(s) != s
  {
    var inVcf, bioName := Lookup(s, "sampleInVCF"), Lookup(s, "bioSampleName");
    if Ignored(s) != [] {
      assert "sampleInVCF" in s;
      assert SwapNames(s)["sampleInVCF"] == bioName != inVcf == s["sampleInVCF"];
    }
  }

  /** The samples flattened one by one, failing with the first sample that cannot be. */
  function FlattenAll(samples: seq<map<string, Json>>): (r: Result<seq<map<string, Json>>>)
    ensures r.Ok? ==> |r.value| == |samples|
  {
    if samples == [] then Ok([])
    else
      match FlattenAll(samples[..|samples| - 1])
      case Err(e) => Err(e)
      case Ok(acc) =>
        match FlattenSample(samples[|samples| - 1])
        case Err(e) => Err(e)
        case Ok(f) => Ok(acc + [f])
  }

  /** Flattening succeeds exactly when every sample flattens. */
  lemma {:induction false} FlattenAllOk(samples: seq<map<string, Json>>)
    ensures FlattenAll(samples).Ok? <==> forall j :: 0 <= j < |samples| ==> FlattenSample(samples[j]).Ok?
  {
    if samples != [] {
      var init := samples[..|samples| - 1];
      FlattenAllOk(init);
      assert forall j :: 0 <= j < |init| ==> init[j] == samples[j];
    }
  }

  /** A successful flattening holds sample `j` flattened at position `j`. */
  lemma {:induction false} FlattenAllAt(samples: seq<map<string, Json>>, j: nat)
    requires FlattenAll(samples).Ok? && j < |samples|
    ensures FlattenSample(samples[j]).Ok? && FlattenAll(samples).value[j] == FlattenSample(samples[j]).value
  {
    var init, last := samples[..|samples| - 1], samples[|samples| - 1];
    assert FlattenAll(samples).value == FlattenAll(init).value + [FlattenSample(last).value];
    if j < |init| {
      FlattenAllAt(init, j);
      assert init[j] == samples[j];
    }
  }

  /** Flattening succeeds exactly when every sample flattens, and then flattens each in place. */
  lemma FlattenAllMeaning(samples: seq<map<string, Json>>)
    ensures FlattenAll(samples).Ok? <==> forall j :: 0 <= j < |samples| ==> FlattenSample(samples[j]).Ok?
    ensures FlattenAll(samples).Ok? ==> forall j :: 0 <= j < |samples| ==> FlattenAll(samples).value[j] == FlattenSample(samples[j]).value
  {
    FlattenAllOk(samples);
    if FlattenAll(samples).Ok? {
      forall j | 0 <= j < |samples|
        ensures FlattenAll(samples).value[j] == FlattenSample(samples[j]).value
      {
        FlattenAllAt(samples, j);
      }
    }
  }

  /** Once a sample fails, every longer prefix fails with its error. */
  lemma {:induction false} FlattenAllFailsOnward(samples: seq<map<string, Json>>, i: nat, n: nat)
    requires i < n <= |samples| && FlattenAll(samples[..i]).Ok? && FlattenSample(samples[i]).Err?
    ensures FlattenAll(samples[..n]) == Err(FlattenSample(samples[i]).error)
    decreases n
  {
    assert samples[..n][..n - 1] == samples[..n - 1];
    if n > i + 1 {
      FlattenAllFailsOnward(samples, i, n - 1);
    }
  }

  /** The swap applied to every flattened sample, with the BioSample names set aside in order. */
  function SwapAll(flat: seq<map<string, Json>>): (r: (seq<map<string, Json>>, seq<Json>))
    ensures |r.0| == |flat| && |r.1| <= |flat|
  {
    if flat == [] then ([], [])
    else
      var acc := SwapAll(flat[..|flat| - 1]);
      var f := flat[|flat| - 1];
      (acc.0 + [SwapNames(f)], acc.1 + Ignored(f))
  }

  /** Each sample is swapped in place. */
  lemma {:induction false} SwapAllPointwise(flat: seq<map<string, Json>>)
    ensures forall j :: 0 <= j < |flat| ==> SwapAll(flat).0[j] == SwapNames(flat[j])
  {
    if flat != [] {
      SwapAllPointwise(flat[..|flat| - 1]);
    }
  }

  /** Swapping the swapped samples again gives the flattened samples back. */
  lemma SwapAllTwice(flat: seq<map<string, Json>>)
    ensures SwapAll(SwapAll(flat).0).0 == flat
  {
    var once := SwapAll(flat).0;
    SwapAllPointwise(flat);
    SwapAllPointwise(once);
    forall j | 0 <= j < |flat|
      ensures SwapAll(once).0[j] == flat[j]
    {
      SwapNamesInvolution(flat[j]);
    }
  }

  /** No BioSample name is set aside exactly when no sample is swapped. */
  lemma {:induction false} NothingIgnoredIffUnchanged(flat: seq<map<string, Json>>)
    ensures SwapAll(flat).1 == [] <==> SwapAll(flat).0 == flat
  {
    if flat != [] {
      var init := flat[..|flat| - 1];
      var f := flat[|flat| - 1];
      NothingIgnoredIffUnchanged(init);
      IgnoredIffSwapped(f);
      var r := SwapAll(flat);
      if r.0 == flat {
        assert r.0[..|flat| - 1] == init;
      }
    }
  }

  /** `_flatten_sample_data`: the flattened samples after the swap, with the BioSample names set aside. */
  function FlattenSamples(samples: seq<map<string, Json>>): Result<(seq<map<string, Json>>, seq<Json>)>
  {
    match FlattenAll(samples)
    case Err(e) => Err(e)
    case Ok(flat) => Ok(SwapAll(flat))
  }

  /** `_flatten_sample_data`: the flattening loop, then the swapping loop over the flattened samples. */
  method FlattenSampleData(samples: seq<map<string, Json>>) returns (r: Result<(seq<map<string, Json>>, seq<Json>)>)
    ensures r == FlattenSamples(samples)
  {
    var flat := FlattenEach(samples);
    if flat.Err? {
      return Err(flat.error);
    }
    var swapped, ignored := SwapEach(flat.value);
    r := Ok((swapped, ignored));
  }

  /** The flattening loop: each sample flattened in turn, stopping at the first error. */
  method FlattenEach(samples: seq<map<string, Json>>) returns (r: Result<seq<map<string, Json>>>)
    ensures r == FlattenAll(samples)
  {
    var flat: seq<map<string, Json>> := [];
    for i := 0 to |samples|
      invariant FlattenAll(samples[..i]) == Ok(flat)
    {
      var f := FlattenSample(samples[i]);
      if f.Err? {
        FlattenAllFailsOnward(samples, i, |samples|);
        assert samples[..|samples|] == samples;
        return Err(f.error);
      }
      assert samples[..i + 1][..i] == samples[..i];
      flat := flat + [f.value];
    }
    assert samples[..|samples|] == samples;
    r := Ok(flat);
  }

  /** The swapping loop: a sample whose two names are both set and differ has them exchanged, its BioSample name set aside. */
  method SwapEach(flat: seq<map<string, Json>>) returns (swapped: seq<map<string, Json>>, ignored: seq<Json>)
    ensures (swapped, ignored) == SwapAll(flat)
  {
    swapped, ignored := [], [];
    for i := 0 to |flat|
      invariant SwapAll(flat[..i]) == (swapped, ignored)
    {
      assert flat[..i + 1][..i] == flat[..i];
      var s := flat[i];
      var inVcf, bioName := Lookup(s, "sampleInVCF"), Lookup(s, "bioSampleName");
      if Truthy(inVcf) && Truthy(bioName) && inVcf != bioName {
        ignored := ignored + [bioName];
        s := s["sampleInVCF" := bioName]["bioSampleName" := inVcf];
      }
      assert s == SwapNames(flat[i]) && ignored == SwapAll(flat[..i]).1 + Ignored(flat[i]);
      swapped := swapped + [s];
    }
    assert flat[..|flat|] == flat;
  }
}
