/**
 * Small helpers of the ELOAD tooling: recognising VCF file names and project
 * accessions, deciding a VCF's genotype aggregation from the first data
 * lines, and building an assembly report from a FASTA file.  Files are their
 * sequences of lines; pysam's reading of a VCF is an input.
 */
module EloadUtils {
  import opened Wrappers
  import opened Text
  import Collections

  /** `is_vcf_file`: a non-empty path ending in .vcf or .vcf.gz. */
  predicate IsVcfFile(path: string)
  {
    path != [] && (EndsWith(path, ".vcf") || EndsWith(path, ".vcf.gz"))
  }

  /** `check_project_format`: the accession starts with PRJEB or PRJNA. */
  predicate CheckProjectFormat(accession: string)
  {
    StartsWith(accession, "PRJEB") || StartsWith(accession, "PRJNA")
  }

  /** The empty path is not a VCF even though ".vcf" suffix tests are about the end only. */
  lemma IsVcfFileShape(path: string)
    ensures IsVcfFile(path) <==> |path| >= 4 && (path[|path| - 4..] == ".vcf" || (|path| >= 7 && path[|path| - 7..] == ".vcf.gz"))
  {
    assert |".vcf"| == 4 && |".vcf.gz"| == 7;
  }

  /** An accession matches exactly when its first five characters are one of the two prefixes. */
  lemma CheckProjectFormatShape(accession: string)
    ensures CheckProjectFormat(accession) <==> |accession| >= 5 && accession[..5] in {"PRJEB", "PRJNA"}
  {
  }

  // ---------------------------------------------------------------------
  // detect_vcf_aggregation

  /** What a reading of a VCF reports: its samples, and whether AF and GT were seen on every line checked. */
  datatype Assessment = Assessment(samples: seq<string>, afInInfo: bool, gtInFormat: bool)

  /** The decision of `detect_vcf_aggregation` once the file has been read. */
  function AggregationOf(a: Assessment): (r: Option<string>)
  {
    if |a.samples| > 0 && a.gtInFormat then Some("none")
    else if |a.samples| == 0 && a.afInInfo then Some("basic")
    else None
  }

  /** 'none' needs samples with genotypes, 'basic' needs no samples and frequencies; otherwise undetermined. */
  lemma AggregationOfCases(a: Assessment)
    ensures AggregationOf(a) == Some("none") <==> |a.samples| > 0 && a.gtInFormat
    ensures AggregationOf(a) == Some("basic") <==> |a.samples| == 0 && a.afInInfo
    ensures AggregationOf(a).None? <==> !(|a.samples| > 0 && a.gtInFormat) && !(|a.samples| == 0 && a.afInInfo)
  {
  }

  /** The INFO test as written: `find` results used as truth values, so -1 (absent) counts as true. */
  predicate AfInInfoAsWritten(info: string)
  {
    Find(info, "AF=") != 0 || (Find(info, "AC=") != 0 && Find(info, "AN=") != 0)
  }

  /** The INFO test as intended: AF, or both AC and AN, are present. */
  predicate AfInInfo(info: string)
  {
    Contains(info, "AF=") || (Contains(info, "AC=") && Contains(info, "AN="))
  }

  /** The test as written holds for every INFO field. */
  lemma AfInInfoAsWrittenAlwaysHolds(info: string)
    ensures AfInInfoAsWritten(info)
  {
    if Find(info, "AF=") == 0 {
      assert info[..3] == "AF=";
      assert !OccursAt(info, "AC=", 0) by {
        assert info[1] == 'F';
      }
    }
  }

  /** An INFO field with no frequency at all passes the test as written and fails the intended one. */
  lemma AfInInfoCounterexample()
    ensures AfInInfoAsWritten("DP=3") && !AfInInfo("DP=3")
  {
    AfInInfoAsWrittenAlwaysHolds("DP=3");
    assert !OccursAt("DP=3", "AF=", 0) && !OccursAt("DP=3", "AF=", 1);
    assert !OccursAt("DP=3", "AC=", 0) && !OccursAt("DP=3", "AC=", 1);
  }

  predicate IsDataLine(line: string)
  {
    !StartsWith(line, "#")
  }

  /**
   * One line of `_assess_vcf_aggregation_manual`: a #CHROM line with more
   * than nine columns names the samples; a data line updates the GT and AF
   * flags, and reading its INFO column raises IndexError when the line has
   * fewer than eight columns (only while the AF flag still holds).
   */
  function AssessLine(a: Assessment, line: string, afTest: string -> bool): Result<Assessment>
  {
    var cols := Split(Strip(line), '\t');
    var samples := if StartsWith(line, "#CHROM") && |cols| > 9 then cols[9..] else a.samples;
    if !IsDataLine(line) then Ok(a.(samples := samples))
    else
      var gt := a.gtInFormat && |cols| > 8 && Contains(cols[8], "GT");
      if !a.afInInfo then Ok(Assessment(samples, false, gt))
      else if |cols| <= 7 then Err("IndexError")
      else Ok(Assessment(samples, afTest(cols[7]), gt))
  }

  /** The assessment after reading `lines` in order; the first error stops the reading. */
  function AssessLines(lines: seq<string>, afTest: string -> bool): Result<Assessment>
  {
    if lines == [] then Ok(Assessment([], true, true))
    else
      match AssessLines(lines[..|lines| - 1], afTest)
      case Err(e) => Err(e)
      case Ok(a) => AssessLine(a, lines[|lines| - 1], afTest)
  }

  lemma {:induction false} AssessLinesStops(lines: seq<string>, afTest: string -> bool, k: nat)
    requires k <= |lines|
    requires AssessLines(lines[..k], afTest).Err?
    ensures AssessLines(lines, afTest) == AssessLines(lines[..k], afTest)
    decreases |lines| - k
  {
    if k < |lines| {
      assert lines[..k + 1][..k] == lines[..k];
      AssessLinesStops(lines, afTest, k + 1);
    } else {
      assert lines[..k] == lines;
    }
  }

  /**
   * `_assess_vcf_aggregation_manual` as written: the line counter is never
   * incremented, so the ten-line limit is never reached and every line is read.
   */
  method AssessVcfAggregationManualAsWritten(lines: seq<string>) returns (r: Result<Assessment>)
    ensures r == AssessLines(lines, AfInInfoAsWritten)
  {
    var nbLineChecked := 0;
    var maxLineCheck := 10;
    var a := Assessment([], true, true);
    for i := 0 to |lines|
      invariant AssessLines(lines[..i], AfInInfoAsWritten) == Ok(a)
    {
      assert lines[..i + 1][..i] == lines[..i];
      var next := AssessLine(a, lines[i], AfInInfoAsWritten);
      if next.Err? {
        AssessLinesStops(lines, AfInInfoAsWritten, i + 1);
        return next;
      }
      a := next.value;
      if nbLineChecked >= maxLineCheck {
        assert false;
      }
    }
    assert lines[..|lines|] == lines;
    r := Ok(a);
  }

  /** Once the file has been read, the AF flag as written is always set. */
  lemma {:induction false} AsWrittenAfAlwaysSet(lines: seq<string>)
    requires AssessLines(lines, AfInInfoAsWritten).Ok?
    ensures AssessLines(lines, AfInInfoAsWritten).value.afInInfo
  {
    if lines != [] {
      assert AssessLines(lines[..|lines| - 1], AfInInfoAsWritten).Ok?;
      AsWrittenAfAlwaysSet(lines[..|lines| - 1]);
      var cols := Split(Strip(lines[|lines| - 1]), '\t');
      if IsDataLine(lines[|lines| - 1]) && |cols| > 7 {
        AfInInfoAsWrittenAlwaysHolds(cols[7]);
      }
    }
  }

  /** So a readable VCF without samples is always classified 'basic' by the manual reading as written. */
  lemma AsWrittenSamplelessIsBasic(lines: seq<string>)
    requires AssessLines(lines, AfInInfoAsWritten).Ok?
    requires AssessLines(lines, AfInInfoAsWritten).value.samples == []
    ensures AggregationOf(AssessLines(lines, AfInInfoAsWritten).value) == Some("basic")
  {
    AsWrittenAfAlwaysSet(lines);
  }

  /** The number of data lines in `lines`. */
  function DataLineCount(lines: seq<string>): nat
  {
    if lines == [] then 0
    else DataLineCount(lines[..|lines| - 1]) + (if IsDataLine(lines[|lines| - 1]) then 1 else 0)
  }

  /** The lines read when the reading stops right after the `n`-th data line. */
  function Window(lines: seq<string>, n: nat): seq<string>
  {
    if lines == [] then []
    else if DataLineCount(lines[..|lines| - 1]) >= n then Window(lines[..|lines| - 1], n)
    else lines
  }

  lemma {:induction false} WindowAll(lines: seq<string>, n: nat)
    requires DataLineCount(lines) < n
    ensures Window(lines, n) == lines
  {
    if lines != [] {
      assert DataLineCount(lines[..|lines| - 1]) <= DataLineCount(lines);
    }
  }

  lemma {:induction false} WindowCut(lines: seq<string>, n: nat, k: nat)
    requires 1 <= k <= |lines|
    requires DataLineCount(lines[..k]) >= n && DataLineCount(lines[..k - 1]) < n
    ensures Window(lines, n) == lines[..k]
    decreases |lines|
  {
    if k < |lines| {
      var init := lines[..|lines| - 1];
      assert init[..k] == lines[..k] && init[..k - 1] == lines[..k - 1];
      WindowCut(init, n, k);
      DataLineCountMonotone(lines, k, |lines| - 1);
      assert lines[..|lines| - 1] == init;
    } else {
      assert lines[..k] == lines;
    }
  }

  lemma {:induction false} DataLineCountMonotone(lines: seq<string>, j: nat, k: nat)
    requires j <= k <= |lines|
    ensures DataLineCount(lines[..j]) <= DataLineCount(lines[..k])
    decreases k - j
  {
    if j < k {
      assert lines[..k][..k - 1] == lines[..k - 1];
      DataLineCountMonotone(lines, j, k - 1);
    }
  }

  /** The number of data lines the manual reading checks. */
  const MaxLineCheck: nat := 10

  /**
   * The ten-line limit as written is never reached: after ten data lines that
   * all carry GT, an eleventh without a FORMAT column still clears the GT flag,
   * while the intended reading stops before it.
   */
  lemma LineLimitIgnored(checked: seq<string>, line: string)
    requires |checked| > 0 && IsDataLine(checked[|checked| - 1]) && DataLineCount(checked) == MaxLineCheck
    requires AssessLines(checked, AfInInfoAsWritten).Ok?
    requires AssessLines(checked, AfInInfo).Ok? && AssessLines(checked, AfInInfo).value.gtInFormat
    requires IsDataLine(line) && |Split(Strip(line), '\t')| == 8
    ensures AssessLines(Window(checked + [line], MaxLineCheck), AfInInfo) == AssessLines(checked, AfInInfo)
    ensures AssessLines(Window(checked + [line], MaxLineCheck), AfInInfo).value.gtInFormat
    ensures AssessLines(checked + [line], AfInInfoAsWritten).Ok?
    ensures !AssessLines(checked + [line], AfInInfoAsWritten).value.gtInFormat
  {
    WindowStopsBefore(checked, line);
    AsWrittenReadsOn(checked, line);
  }

  /** The intended reading stops at the line that completes the tenth data line. */
  lemma WindowStopsBefore(checked: seq<string>, line: string)
    requires |checked| > 0 && IsDataLine(checked[|checked| - 1]) && DataLineCount(checked) == MaxLineCheck
    ensures Window(checked + [line], MaxLineCheck) == checked
  {
    var lines := checked + [line];
    assert lines[..|checked|] == checked;
    assert lines[..|checked| - 1] == checked[..|checked| - 1];
    WindowCut(lines, MaxLineCheck, |checked|);
  }

  /** The reading as written goes on to a further data line; one without a FORMAT column clears the GT flag. */
  lemma AsWrittenReadsOn(checked: seq<string>, line: string)
    requires AssessLines(checked, AfInInfoAsWritten).Ok?
    requires IsDataLine(line) && |Split(Strip(line), '\t')| == 8
    ensures AssessLines(checked + [line], AfInInfoAsWritten).Ok?
    ensures !AssessLines(checked + [line], AfInInfoAsWritten).value.gtInFormat
  {
    assert (checked + [line])[..|checked|] == checked;
    AsWrittenAfAlwaysSet(checked);
  }

  /**
   * `_assess_vcf_aggregation_manual` as intended: the INFO column is searched
   * for AF (or AC and AN), and the reading stops after the tenth data line,
   * as the pysam reading does.
   */
  method AssessVcfAggregationManual(lines: seq<string>) returns (r: Result<Assessment>)
    ensures r == AssessLines(Window(lines, MaxLineCheck), AfInInfo)
  {
    var nbLineChecked := 0;
    var a := Assessment([], true, true);
    var i := 0;
    while i < |lines|
      invariant 0 <= i <= |lines|
      invariant nbLineChecked == DataLineCount(lines[..i]) < MaxLineCheck
      invariant AssessLines(lines[..i], AfInInfo) == Ok(a)
    {
      assert lines[..i + 1][..i] == lines[..i];
      var next := AssessLine(a, lines[i], AfInInfo);
      if IsDataLine(lines[i]) {
        nbLineChecked := nbLineChecked + 1;
      }
      if next.Err? {
        if nbLineChecked >= MaxLineCheck {
          WindowCut(lines, MaxLineCheck, i + 1);
        } else {
          WindowFromPrefixFailure(lines, i + 1);
        }
        return next;
      }
      a := next.value;
      if nbLineChecked >= MaxLineCheck {
        WindowCut(lines, MaxLineCheck, i + 1);
        return Ok(a);
      }
      i := i + 1;
    }
    assert lines[..|lines|] == lines;
    WindowAll(lines, MaxLineCheck);
    r := Ok(a);
  }

  lemma WindowFromPrefixFailure(lines: seq<string>, k: nat)
    requires 1 <= k <= |lines|
    requires DataLineCount(lines[..k]) < MaxLineCheck
    requires AssessLines(lines[..k], AfInInfo).Err?
    ensures AssessLines(Window(lines, MaxLineCheck), AfInInfo) == AssessLines(lines[..k], AfInInfo)
  {
    var w := Window(lines, MaxLineCheck);
    if DataLineCount(lines) < MaxLineCheck {
      WindowAll(lines, MaxLineCheck);
      AssessLinesStops(lines, AfInInfo, k);
    } else {
      var c := FirstReaching(lines, MaxLineCheck, k);
      WindowCut(lines, MaxLineCheck, c);
      assert w[..k] == lines[..k];
      AssessLinesStops(w, AfInInfo, k);
    }
  }

  /** The first prefix, beyond `k`, that holds `n` data lines. */
  lemma {:induction false} FirstReaching(lines: seq<string>, n: nat, k: nat) returns (c: nat)
    requires k <= |lines|
    requires DataLineCount(lines[..k]) < n <= DataLineCount(lines)
    ensures k < c <= |lines| && DataLineCount(lines[..c]) >= n && DataLineCount(lines[..c - 1]) < n
    decreases |lines| - k
  {
    assert lines[..|lines|] == lines;
    assert lines[..k + 1][..k] == lines[..k];
    if DataLineCount(lines[..k + 1]) >= n {
      c := k + 1;
    } else {
      c := FirstReaching(lines, n, k + 1);
    }
  }

  /**
   * `detect_vcf_aggregation`: the pysam reading when it succeeds, otherwise
   * the manual reading; when both fail the aggregation is undetermined.
   */
  method DetectVcfAggregation(pysamReading: Option<Assessment>, lines: seq<string>) returns (r: Option<string>)
    ensures pysamReading.Some? ==> r == AggregationOf(pysamReading.value)
    ensures pysamReading.None? ==>
      r == match AssessLines(Window(lines, MaxLineCheck), AfInInfo)
           case Ok(a) => AggregationOf(a)
           case Err(_) => None
  {
    var assessment: Assessment;
    if pysamReading.Some? {
      assessment := pysamReading.value;
    } else {
      var manual := AssessVcfAggregationManual(lines);
      if manual.Err? {
        return None;
      }
      assessment := manual.value;
    }
    r := AggregationOf(assessment);
  }

  /**
   * `detect_vcf_aggregation` with the manual reading as written: every line is
   * read and the frequency test always holds, so a readable VCF without
   * samples falls back to 'basic'.
   */
  method DetectVcfAggregationAsWritten(pysamReading: Option<Assessment>, lines: seq<string>) returns (r: Option<string>)
    ensures pysamReading.Some? ==> r == AggregationOf(pysamReading.value)
    ensures pysamReading.None? ==>
      r == match AssessLines(lines, AfInInfoAsWritten)
           case Ok(a) => AggregationOf(a)
           case Err(_) => None
    ensures (pysamReading.None? && AssessLines(lines, AfInInfoAsWritten).Ok? &&
             AssessLines(lines, AfInInfoAsWritten).value.samples == []) ==> r == Some("basic")
  {
    var assessment: Assessment;
    if pysamReading.Some? {
      assessment := pysamReading.value;
    } else {
      var manual := AssessVcfAggregationManualAsWritten(lines);
      if manual.Err? {
        return None;
      }
      assessment := manual.value;
      if assessment.samples == [] {
        AsWrittenSamplelessIsBasic(lines);
      }
    }
    r := AggregationOf(assessment);
  }

  // ---------------------------------------------------------------------
  // create_assembly_report_from_fasta

  predicate IsHeader(line: string)
  {
    StartsWith(line, ">")
  }

  /** `line.strip().split()[0][1:]`: the first word of a header line without its '>'. */
  function ContigName(line: string): string
    requires IsHeader(line)
  {
    HeaderHasWord(line);
    Words(Strip(line))[0][1..]
  }

  lemma HeaderHasWord(line: string)
    requires IsHeader(line)
    ensures |Words(Strip(line))| >= 1 && |Words(Strip(line))[0]| >= 1
  {
    var e := TrimEnd(line, IsSpace);
    TrimEndFacts(line, IsSpace);
    assert !IsSpace(line[0]);
    assert e != [] && e[0] == '>';
    assert Strip(line) == e;
    var parts := SplitWhere(e, IsSpace);
    assert parts[0] != [];
    assert parts[0] in NonEmpty(parts);
    NonEmptyFirst(parts);
  }

  lemma NonEmptyFirst(parts: seq<string>)
    requires parts != [] && parts[0] != []
    ensures NonEmpty(parts) != [] && NonEmpty(parts)[0] == parts[0]
  {
  }

  /** The summed stripped length of the sequence lines before the next header. */
  function BlockLength(lines: seq<string>): nat
  {
    if lines == [] || IsHeader(lines[0]) then 0
    else |Strip(lines[0])| + BlockLength(lines[1..])
  }

  /** One (name, length) row per header with a non-empty name, in FASTA order. */
  function Contigs(lines: seq<string>): seq<(string, nat)>
  {
    if lines == [] then []
    else if IsHeader(lines[0]) then
      (if ContigName(lines[0]) != [] then [(ContigName(lines[0]), BlockLength(lines[1..]))] else []) + Contigs(lines[1..])
    else Contigs(lines[1..])
  }

  /** The rows still to come when `name` has gathered `length` so far and `rest` remains to be read. */
  function Pending(name: string, length: nat, rest: seq<string>): seq<(string, nat)>
  {
    (if name != [] then [(name, length + BlockLength(rest))] else []) + Contigs(rest)
  }

  lemma PendingAtHeader(name: string, length: nat, rest: seq<string>)
    requires rest != [] && IsHeader(rest[0])
    ensures Pending(name, length, rest) ==
      (if name != [] then [(name, length)] else []) + Pending(ContigName(rest[0]), 0, rest[1..])
  {
  }

  lemma PendingAtSequence(name: string, length: nat, rest: seq<string>)
    requires rest != [] && !IsHeader(rest[0])
    ensures Pending(name, length, rest) == Pending(name, length + |Strip(rest[0])|, rest[1..])
  {
  }

  /** The path of the report: the FASTA path without its extension, then `_assembly_report.txt`. */
  function AssemblyReportPath(fastaPath: string): string
  {
    SplitExt(fastaPath).0 + "_assembly_report.txt"
  }

  const ReportColumns: seq<string> := ["# Sequence-Name", "Sequence-Role", "Assigned-Molecule",
    "Assigned-Molecule-Location/Type", "GenBank-Accn", "Relationship", "RefSeq-Accn", "Assembly-Unit",
    "Sequence-Length", "UCSC-style-name"]

  /** The report row of one contig: its name in the GenBank column, its length in the length column. */
  function ReportRow(contig: (string, nat)): string
  {
    Join(["na", "na", "na", "na", contig.0, "<>", "na", "na", NatToString(contig.1), "na"], "\t")
  }

  /** The lines of the report: a comment naming the FASTA, the column names, one row per contig. */
  function ReportLines(fastaPath: string, contigs: seq<(string, nat)>): (r: seq<string>)
    ensures |r| == |contigs| + 2
  {
    ["# Assembly report file generated by eva-submission from " + Basename(fastaPath), Join(ReportColumns, "\t")]
      + seq(|contigs|, i requires 0 <= i < |contigs| => ReportRow(contigs[i]))
  }

  /**
   * `create_assembly_report_from_fasta`: reads the FASTA line by line,
   * summing the stripped lengths of the sequence lines of each header, and
   * returns the report's path and lines.
   */
  method CreateAssemblyReportFromFasta(fastaPath: string, lines: seq<string>) returns (path: string, report: seq<string>)
    ensures path == AssemblyReportPath(fastaPath)
    ensures report == ReportLines(fastaPath, Contigs(lines))
  {
    path := AssemblyReportPath(fastaPath);
    var contigs := ContigsInFasta(lines);
    report := ReportLines(fastaPath, contigs);
  }

  /** The loop of `create_assembly_report_from_fasta` that gathers the contigs. */
  method ContigsInFasta(lines: seq<string>) returns (contigs: seq<(string, nat)>)
    ensures contigs == Contigs(lines)
  {
    contigs := [];
    var seqLength: nat := 0;
    var name := "";
    for i := 0 to |lines|
      invariant contigs + Pending(name, seqLength, lines[i..]) == Contigs(lines)
    {
      assert lines[i..][1..] == lines[i + 1..];
      contigs, name, seqLength := ReadFastaLine(contigs, name, seqLength, lines[i], lines[i..]);
    }
    assert lines[|lines|..] == [];
    if name != [] {
      contigs := contigs + [(name, seqLength)];
    }
  }

  /** One turn of the loop: a header closes the current contig and opens the next, a sequence line adds its length. */
  method ReadFastaLine(contigs: seq<(string, nat)>, name: string, seqLength: nat, line: string, ghost rest: seq<string>)
    returns (contigs': seq<(string, nat)>, name': string, seqLength': nat)
    requires rest != [] && rest[0] == line
    ensures contigs' + Pending(name', seqLength', rest[1..]) == contigs + Pending(name, seqLength, rest)
  {
    contigs', name', seqLength' := contigs, name, seqLength;
    if IsHeader(line) {
      if name != [] {
        contigs' := contigs + [(name, seqLength)];
      }
      seqLength' := 0;
      name' := ContigName(line);
      HeaderStep(contigs, name, seqLength, rest);
    } else {
      PendingAtSequence(name, seqLength, rest);
      seqLength' := seqLength + |Strip(line)|;
    }
  }

  lemma HeaderStep(contigs: seq<(string, nat)>, name: string, length: nat, rest: seq<string>)
    requires rest != [] && IsHeader(rest[0])
    ensures (if name != [] then contigs + [(name, length)] else contigs) + Pending(ContigName(rest[0]), 0, rest[1..])
      == contigs + Pending(name, length, rest)
  {
    var next := Pending(ContigName(rest[0]), 0, rest[1..]);
    var closed: seq<(string, nat)> := if name != [] then [(name, length)] else [];
    PendingAtHeader(name, length, rest);
    assert Pending(name, length, rest) == closed + next;
    Collections.ConcatAssoc(contigs, closed, next);
    if name == [] {
      assert contigs + closed == contigs;
    }
  }

  /** A contig name holds no whitespace, so no tab. */
  lemma ContigNameHasNoTab(line: string)
    requires IsHeader(line)
    ensures '\t' !in ContigName(line)
  {
    HeaderHasWord(line);
    WordsAreWords(Strip(line));
    var w := Words(Strip(line))[0];
    assert forall k :: 0 <= k < |w| ==> !IsSpace(w[k]);
    assert forall k :: 0 <= k < |w[1..]| ==> w[1..][k] == w[k + 1];
  }

  /** Every contig of the report is named after a header of the FASTA. */
  lemma {:induction false} ContigsComeFromHeaders(lines: seq<string>, k: nat)
    requires k < |Contigs(lines)|
    ensures Contigs(lines)[k].0 != []
    ensures exists i :: 0 <= i < |lines| && IsHeader(lines[i]) && ContigName(lines[i]) == Contigs(lines)[k].0
  {
    var rest := Contigs(lines[1..]);
    var head: seq<(string, nat)> := if IsHeader(lines[0]) && ContigName(lines[0]) != [] then [(ContigName(lines[0]), BlockLength(lines[1..]))] else [];
    assert Contigs(lines) == head + rest;
    if k < |head| {
      assert IsHeader(lines[0]) && ContigName(lines[0]) == Contigs(lines)[k].0;
    } else {
      assert Contigs(lines)[k] == rest[k - |head|];
      ContigsComeFromHeaders(lines[1..], k - |head|);
      var i :| 0 <= i < |lines[1..]| && IsHeader(lines[1..][i]) && ContigName(lines[1..][i]) == rest[k - |head|].0;
      assert lines[i + 1] == lines[1..][i];
    }
  }

  /** A report row splits back into its ten columns, with the contig's name and length where the header says. */
  lemma ReportRowColumns(contig: (string, nat))
    requires '\t' !in contig.0
    ensures var cols := Split(ReportRow(contig), '\t');
      |cols| == 10 && cols[4] == contig.0 && cols[8] == NatToString(contig.1)
  {
    var fields := ["na", "na", "na", "na", contig.0, "<>", "na", "na", NatToString(contig.1), "na"];
    var digits := NatToString(contig.1);
    assert '\t' !in digits by {
      forall k | 0 <= k < |digits| ensures digits[k] != '\t' { assert IsDigit(digits[k]); }
    }
    assert forall i :: 0 <= i < |fields| ==> '\t' !in fields[i];
    SplitJoin(fields, '\t');
  }
}
