/**
 * The sample-name concordance check: the names the metadata spreadsheet gives
 * for an analysis's samples against the sample columns of its VCF files.
 * Reading the VCF headers is an input: the header lines of a file, or what the
 * VCF library reads from it.
 */
module SamplesChecker {
  import opened Wrappers
  import opened Text
  import opened Collections
  import opened XlsxParser
  import opened XlsxParserEva
  import EloadUtils

  // ---------------------------------------------------------------------
  // Sample names in the VCF header

  /** The samples of the first `#CHROM` line: the tab-separated columns after the ninth. */
  function HeaderSamples(lines: seq<string>): seq<string>
  {
    if lines == [] then []
    else if StartsWith(lines[0], "#CHROM") then
      var cols := Split(Strip(lines[0]), '\t');
      if |cols| > 9 then cols[9..] else []
    else HeaderSamples(lines[1..])
  }

  /** `get_samples_from_vcf_manual`: scans the lines and returns at the first header line. */
  method SamplesFromVcfLines(lines: seq<string>) returns (samples: seq<string>)
    ensures samples == HeaderSamples(lines)
  {
    for i := 0 to |lines|
      invariant HeaderSamples(lines) == HeaderSamples(lines[i..])
    {
      assert lines[i..][1..] == lines[i + 1..];
      if StartsWith(lines[i], "#CHROM") {
        var cols := Split(Strip(lines[i]), '\t');
        if |cols| > 9 {
          return cols[9..];
        }
        return [];
      }
    }
    assert lines[|lines|..] == [];
    return [];
  }

  /** Only the first header line counts; a file without one has no samples. */
  lemma {:induction false} HeaderSamplesFromFirstHeader(before: seq<string>, header: string, after: seq<string>)
    requires forall i :: 0 <= i < |before| ==> !StartsWith(before[i], "#CHROM")
    requires StartsWith(header, "#CHROM")
    ensures HeaderSamples(before + [header] + after) == HeaderSamples([header])
    decreases |before|
  {
    if before != [] {
      assert (before + [header] + after)[1..] == before[1..] + [header] + after;
      HeaderSamplesFromFirstHeader(before[1..], header, after);
    }
  }

  /** `get_samples_from_vcf`: the VCF library's reading, or the manual scan when the library fails. */
  function SamplesFromVcf(libraryReading: Option<seq<string>>, lines: seq<string>): seq<string>
  {
    match libraryReading
    case Some(samples) => samples
    case None => HeaderSamples(lines)
  }

  // ---------------------------------------------------------------------
  // Sample names in the spreadsheet

  predicate HasSampleName(row: Row)
  {
    "Sample Name" in row && CellTruthy(row["Sample Name"])
  }

  predicate HasSampleId(row: Row)
  {
    "Sample ID" in row && CellTruthy(row["Sample ID"])
  }

  predicate Named(row: Row)
  {
    HasSampleName(row) || HasSampleId(row)
  }

  /** The name of a row: its Sample Name, or else its Sample ID. */
  function NameOf(row: Row): Cell
  {
    if HasSampleName(row) then row["Sample Name"]
    else if HasSampleId(row) then row["Sample ID"]
    else NoValue
  }

  /** `get_sample_names`: one name per named row, in row order; rows with neither are skipped. */
  method GetSampleNames(rows: seq<Row>) returns (names: seq<Cell>)
    ensures names == MapFilter(rows, Named, NameOf)
  {
    names := [];
    for i := 0 to |rows|
      invariant names == MapFilter(rows[..i], Named, NameOf)
    {
      assert rows[..i + 1] == rows[..i] + [rows[i]];
      MapFilterStep(rows[..i], rows[i], Named, NameOf);
      var row := rows[i];
      if "Sample Name" in row && CellTruthy(row["Sample Name"]) {
        names := names + [row["Sample Name"]];
      } else if "Sample ID" in row && CellTruthy(row["Sample ID"]) {
        names := names + [row["Sample ID"]];
      }
    }
    assert rows[..|rows|] == rows;
  }

  /**
   * A name is listed exactly when some row gives it as its Sample Name, or
   * gives it as its Sample ID without a Sample Name.
   */
  lemma SampleNamesPreferName(rows: seq<Row>, name: Cell)
    ensures name in MapFilter(rows, Named, NameOf) <==>
      exists i :: 0 <= i < |rows| &&
        ((HasSampleName(rows[i]) && rows[i]["Sample Name"] == name) ||
         (!HasSampleName(rows[i]) && HasSampleId(rows[i]) && rows[i]["Sample ID"] == name))
  {
    MapFilterMembers(rows, Named, NameOf, name);
  }

  /** Every listed name is truthy: an empty cell never names a sample. */
  lemma SampleNamesAreCellTruthy(rows: seq<Row>, k: nat)
    requires k < |MapFilter(rows, Named, NameOf)|
    ensures CellTruthy(MapFilter(rows, Named, NameOf)[k])
  {
    var name := MapFilter(rows, Named, NameOf)[k];
    MapFilterMembers(rows, Named, NameOf, name);
  }

  // ---------------------------------------------------------------------
  // Comparing the two

  /** The outcome for one analysis: whether they differ, VCF-only names, spreadsheet-only names. */
  datatype Comparison = Comparison(hasDifference: bool, onlyInVcf: set<Cell>, onlyInSheet: set<Cell>)

  /** Every sample named in the files, each file's samples as read from its stripped path. */
  function VcfNames(files: seq<string>, read: string -> seq<string>): set<Cell>
  {
    set i, j | 0 <= i < |files| && 0 <= j < |read(Strip(files[i]))| :: Str(read(Strip(files[i]))[j])
  }

  /**
   * `compare_names_in_files_and_samples`: the two set differences, and a
   * difference flagged when either is non-empty.  The lists of the source are
   * built from sets, so their order is left open.
   */
  method CompareNames(files: seq<string>, rows: seq<Row>, read: string -> seq<string>) returns (c: Comparison)
    ensures var inSheet := set n | n in MapFilter(rows, Named, NameOf);
      var inVcf := VcfNames(files, read);
      c.onlyInVcf == inVcf - inSheet && c.onlyInSheet == inSheet - inVcf &&
      c.hasDifference == (c.onlyInVcf != {} || c.onlyInSheet != {})
  {
    var inVcf: set<Cell> := {};
    for i := 0 to |files|
      invariant inVcf == VcfNames(files[..i], read)
    {
      var samples := read(Strip(files[i]));
      assert forall k :: 0 <= k < i ==> files[..i + 1][k] == files[..i][k];
      assert files[..i + 1][i] == files[i];
      inVcf := inVcf + set j | 0 <= j < |samples| :: Str(samples[j]);
    }
    assert files[..|files|] == files;
    var names := GetSampleNames(rows);
    var inSheet := set n | n in names;
    var onlyInSheet := inSheet - inVcf;
    var onlyInVcf := inVcf - inSheet;
    var hasDifference := false;
    if onlyInVcf != {} {
      hasDifference := true;
    }
    if onlyInSheet != {} {
      hasDifference := true;
    }
    c := Comparison(hasDifference, onlyInVcf, onlyInSheet);
  }

  /** No difference is flagged exactly when both sides name the same samples. */
  lemma NoDifferenceIffSameNames(inVcf: set<Cell>, inSheet: set<Cell>)
    ensures (inVcf - inSheet == {} && inSheet - inVcf == {}) <==> inVcf == inSheet
  {
    if inVcf - inSheet == {} && inSheet - inVcf == {} {
      assert forall n :: n in inVcf ==> n in inSheet;
      assert forall n :: n in inSheet ==> n in inVcf;
    }
  }

  // ---------------------------------------------------------------------
  // The VCF files of the spreadsheet

  /** A file row is a VCF when its type is 'vcf' or its name ends with .vcf or .vcf.gz. */
  predicate IsVcfRow(row: Row)
  {
    (CellTruthy(Get(row, "File Type")) && Get(row, "File Type") == Str("vcf")) ||
    (CellTruthy(Get(row, "File Name")) && Get(row, "File Name").Str? && EndsWith(Get(row, "File Name").s, ".vcf")) ||
    (CellTruthy(Get(row, "File Name")) && Get(row, "File Name").Str? && EndsWith(Get(row, "File Name").s, ".vcf.gz"))
  }

  /** The row test agrees with `is_vcf_file` on the file name, apart from the 'vcf' file type. */
  lemma IsVcfRowMatchesVcfName(row: Row, name: string)
    requires Get(row, "File Name") == Str(name)
    ensures IsVcfRow(row) <==> Get(row, "File Type") == Str("vcf") || EloadUtils.IsVcfFile(name)
  {
  }

  /**
   * `get_vcf_file_paths`: each VCF row's name joined to the directory, in row
   * order.  A VCF row by type whose name is not a string makes the join raise
   * TypeError.
   */
  function VcfFilePaths(rows: seq<Row>, dir: string): (r: Result<seq<string>>)
    ensures r.Ok? ==> |r.value| == |MapFilter(rows, IsVcfRow, Itself)|
    ensures r.Ok? ==> forall k :: 0 <= k < |r.value| ==>
      var row := MapFilter(rows, IsVcfRow, Itself)[k];
      Get(row, "File Name").Str? && r.value[k] == PathJoin(dir, Get(row, "File Name").s)
    ensures r.Err? <==> exists i :: 0 <= i < |rows| && IsVcfRow(rows[i]) && !Get(rows[i], "File Name").Str?
    decreases |rows|
  {
    if rows == [] then Ok([])
    else
      var init := rows[..|rows| - 1];
      var row := rows[|rows| - 1];
      assert forall i :: 0 <= i < |init| ==> init[i] == rows[i];
      assert rows == init + [row];
      MapFilterStep(init, row, IsVcfRow, Itself);
      match VcfFilePaths(init, dir)
      case Err(e) => Err(e)
      case Ok(paths) =>
        if !IsVcfRow(row) then Ok(paths)
        else if !Get(row, "File Name").Str? then Err("TypeError")
        else Ok(paths + [PathJoin(dir, Get(row, "File Name").s)])
  }

  // ---------------------------------------------------------------------
  // Per-analysis comparison

  /**
   * When either grouping holds only the rows without an analysis alias, every
   * sample and every file is put under that missing alias so that they are
   * compared together.
   */
  function Regrouped(samples: map<Cell, seq<Row>>, files: map<Cell, seq<Row>>,
                     allSamples: seq<Row>, allFiles: seq<Row>): (map<Cell, seq<Row>>, map<Cell, seq<Row>>)
  {
    if (|samples| == 1 && NoValue in samples) || (|files| == 1 && NoValue in files) then
      (samples[NoValue := allSamples], files[NoValue := allFiles])
    else (samples, files)
  }

  /** With only alias-less rows on one side, the missing alias holds all samples and all files. */
  lemma RegroupedUnderNone(samples: map<Cell, seq<Row>>, files: map<Cell, seq<Row>>,
                           allSamples: seq<Row>, allFiles: seq<Row>)
    requires samples.Keys == {NoValue}
    ensures var (s, f) := Regrouped(samples, files, allSamples, allFiles);
      s == map[NoValue := allSamples] && NoValue in f && f[NoValue] == allFiles
  {
    assert |samples| == |samples.Keys| == 1;
  }

  /** The comparison for one analysis alias; an alias with samples but no files raises KeyError. */
  function AnalysisComparison(alias: Cell, samples: map<Cell, seq<Row>>, files: map<Cell, seq<Row>>,
                              dir: string, read: string -> seq<string>): Result<Comparison>
    requires alias in samples
  {
    if alias !in files then Err("KeyError")
    else match VcfFilePaths(files[alias], dir)
      case Err(e) => Err(e)
      case Ok(paths) =>
        var inSheet := set n | n in MapFilter(samples[alias], Named, NameOf);
        var inVcf := VcfNames(paths, read);
        Ok(Comparison(inVcf - inSheet != {} || inSheet - inVcf != {}, inVcf - inSheet, inSheet - inVcf))
  }

  /**
   * `compare_spreadsheet_and_vcf`: one comparison per analysis alias of the
   * samples, after the regrouping.  Aliases are visited in the dictionary's
   * order; which error is raised first is left open.
   */
  method CompareSpreadsheetAndVcf(samples0: map<Cell, seq<Row>>, files0: map<Cell, seq<Row>>,
                                  allSamples: seq<Row>, allFiles: seq<Row>, dir: string, read: string -> seq<string>)
    returns (r: Result<map<Cell, Comparison>>)
    ensures var (samples, files) := Regrouped(samples0, files0, allSamples, allFiles);
      (r.Ok? <==> forall a :: a in samples ==> AnalysisComparison(a, samples, files, dir, read).Ok?) &&
      (r.Ok? ==> (r.value.Keys == samples.Keys &&
        forall a :: a in samples ==> r.value[a] == AnalysisComparison(a, samples, files, dir, read).value))
  {
    var (samples, files) := Regrouped(samples0, files0, allSamples, allFiles);
    var results: map<Cell, Comparison> := map[];
    var todo := samples.Keys;
    while todo != {}
      invariant todo <= samples.Keys
      invariant results.Keys == samples.Keys - todo
      invariant forall a :: a in results ==> AnalysisComparison(a, samples, files, dir, read) == Ok(results[a])
      decreases todo
    {
      var alias :| alias in todo;
      if alias !in files {
        return Err("KeyError");
      }
      var paths := VcfFilePaths(files[alias], dir);
      if paths.Err? {
        return Err(paths.error);
      }
      var c := CompareNames(paths.value, samples[alias], read);
      results := results[alias := c];
      todo := todo - {alias};
    }
    r := Ok(results);
  }
}
