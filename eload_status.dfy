/**
 * The status report of an ELOAD: the analyses of the project with their
 * assembly, taxonomy and VCF files as grouped from the metadata rows, the
 * accessioning report chosen for an analysis and the first submitted variant
 * accessions read from it, and the status of each processing stage.  The
 * database, filesystem and MongoDB lookups are inputs.
 */
module EloadStatus {
  import opened Wrappers
  import opened Text
  import opened Collections

  // ---------------------------------------------------------------------
  // Grouping the metadata rows by analysis

  /** A row of the metadata query: analysis, assembly, taxonomy and one VCF file name. */
  datatype Row = Row(analysis: Option<string>, assembly: Option<string>, taxonomy: Option<int>, filename: string)

  /** An analysis with its assembly, taxonomy and files. */
  datatype Group = Group(analysis: Option<string>, assembly: Option<string>, taxonomy: Option<int>, filenames: seq<string>)

  predicate Truthy(s: Option<string>)
  {
    s.Some? && s.value != ""
  }

  /** The groups already yielded and the group being filled. */
  datatype Grouping = Grouping(done: seq<Group>, current: Group)

  const NoGroup: Group := Group(None, None, None, [])

  /**
   * The loop of `project_information`: a row with a new analysis closes the
   * current group (yielded when its analysis is truthy) and opens a group with
   * that row's assembly and taxonomy; the file name joins the current group.
   */
  function GroupRows(rows: seq<Row>): Grouping
  {
    if rows == [] then Grouping([], NoGroup)
    else
      var g := GroupRows(rows[..|rows| - 1]);
      var row := rows[|rows| - 1];
      if row.analysis != g.current.analysis then
        Grouping(g.done + (if Truthy(g.current.analysis) then [g.current] else []),
                 Group(row.analysis, row.assembly, row.taxonomy, [row.filename]))
      else Grouping(g.done, g.current.(filenames := g.current.filenames + [row.filename]))
  }

  /** Everything `project_information` yields: the closed groups, then the last one, even when there were no rows. */
  function ProjectInformation(rows: seq<Row>): seq<Group>
  {
    var g := GroupRows(rows);
    g.done + [g.current]
  }

  method ProjectInformationLoop(rows: seq<Row>) returns (groups: seq<Group>)
    ensures groups == ProjectInformation(rows)
  {
    groups := [];
    var filenames: seq<string> := [];
    var analysis: Option<string> := None;
    var assembly: Option<string> := None;
    var taxonomy: Option<int> := None;
    for i := 0 to |rows|
      invariant GroupRows(rows[..i]) == Grouping(groups, Group(analysis, assembly, taxonomy, filenames))
    {
      assert rows[..i + 1][..i] == rows[..i];
      var row := rows[i];
      if row.analysis != analysis {
        if analysis.Some? && analysis.value != "" {
          groups := groups + [Group(analysis, assembly, taxonomy, filenames)];
        }
        analysis, assembly, taxonomy, filenames := row.analysis, row.assembly, row.taxonomy, [];
      }
      filenames := filenames + [row.filename];
    }
    assert rows[..|rows|] == rows;
    groups := groups + [Group(analysis, assembly, taxonomy, filenames)];
  }

  function AllFilenames(groups: seq<Group>): seq<string>
  {
    if groups == [] then [] else AllFilenames(groups[..|groups| - 1]) + groups[|groups| - 1].filenames
  }

  function RowFilenames(rows: seq<Row>): seq<string>
  {
    if rows == [] then [] else RowFilenames(rows[..|rows| - 1]) + [rows[|rows| - 1].filename]
  }

  lemma AllFilenamesAppend(a: seq<Group>, b: Group)
    ensures AllFilenames(a + [b]) == AllFilenames(a) + b.filenames
  {
    assert (a + [b])[..|a|] == a;
  }

  /** Every group names an analysis, and consecutive groups name different ones. */
  ghost predicate WellGrouped(gs: seq<Group>)
  {
    (forall i :: 0 <= i < |gs| ==> Truthy(gs[i].analysis)) &&
    (forall i :: 0 < i < |gs| ==> gs[i - 1].analysis != gs[i].analysis)
  }

  /** When every row names an analysis, so does every group, and consecutive groups differ in analysis. */
  lemma {:induction false} GroupsWellFormed(rows: seq<Row>)
    requires rows != [] && forall i :: 0 <= i < |rows| ==> Truthy(rows[i].analysis)
    ensures WellGrouped(ProjectInformation(rows))
  {
    var init := rows[..|rows| - 1];
    var row := rows[|rows| - 1];
    var g := GroupRows(init);
    if init != [] {
      assert forall i :: 0 <= i < |init| ==> init[i] == rows[i];
      GroupsWellFormed(init);
      var gs := g.done + [g.current];
      assert gs == ProjectInformation(init);
      assert Truthy(g.current.analysis) by { assert gs[|gs| - 1] == g.current; }
      if row.analysis != g.current.analysis {
        var cur := Group(row.analysis, row.assembly, row.taxonomy, [row.filename]);
        assert ProjectInformation(rows) == gs + [cur];
      } else {
        var cur := g.current.(filenames := g.current.filenames + [row.filename]);
        assert ProjectInformation(rows) == g.done + [cur];
        assert forall i :: 0 <= i < |gs| ==> (g.done + [cur])[i].analysis == gs[i].analysis;
      }
    }
  }

  /** When every row names an analysis, the groups hold the rows' files in row order. */
  lemma {:induction false} GroupsKeepFiles(rows: seq<Row>)
    requires rows != [] && forall i :: 0 <= i < |rows| ==> Truthy(rows[i].analysis)
    ensures AllFilenames(ProjectInformation(rows)) == RowFilenames(rows)
  {
    var init := rows[..|rows| - 1];
    var row := rows[|rows| - 1];
    var g := GroupRows(init);
    if init == [] {
      assert ProjectInformation(rows) == [Group(row.analysis, row.assembly, row.taxonomy, [row.filename])];
      AllFilenamesAppend([], Group(row.analysis, row.assembly, row.taxonomy, [row.filename]));
    } else {
      assert forall i :: 0 <= i < |init| ==> init[i] == rows[i];
      GroupsKeepFiles(init);
      GroupsWellFormed(init);
      var gs := g.done + [g.current];
      assert gs == ProjectInformation(init);
      AllFilenamesAppend(g.done, g.current);
      if row.analysis != g.current.analysis {
        assert Truthy(g.current.analysis) by { assert gs[|gs| - 1] == g.current; }
        var cur := Group(row.analysis, row.assembly, row.taxonomy, [row.filename]);
        assert ProjectInformation(rows) == gs + [cur];
        AllFilenamesAppend(gs, cur);
      } else {
        var cur := g.current.(filenames := g.current.filenames + [row.filename]);
        assert ProjectInformation(rows) == g.done + [cur];
        AllFilenamesAppend(g.done, cur);
      }
    }
  }

  /** Without rows, a single group with no analysis and no files is yielded. */
  lemma NoRowsOneEmptyGroup()
    ensures ProjectInformation([]) == [Group(None, None, None, [])]
  {
  }

  // ---------------------------------------------------------------------
  // Accessioning reports

  /** `get_accession_file`: the VCF name without `.vcf.gz` or `.vcf` (empty otherwise), plus '.accessioned.vcf.gz ' with its trailing space. */
  function AccessionFile(filename: string): (r: string)
    ensures EndsWith(filename, ".vcf.gz") ==> r == filename[..|filename| - 7] + ".accessioned.vcf.gz "
    ensures !EndsWith(filename, ".vcf.gz") && EndsWith(filename, ".vcf") ==> r == filename[..|filename| - 4] + ".accessioned.vcf.gz "
    ensures !EndsWith(filename, ".vcf.gz") && !EndsWith(filename, ".vcf") ==> r == ".accessioned.vcf.gz "
    ensures EndsWith(r, ".accessioned.vcf.gz ")
  {
    var base := if EndsWith(filename, ".vcf.gz") then filename[..|filename| - 7]
      else if EndsWith(filename, ".vcf") then filename[..|filename| - 4] else "";
    var r := base + ".accessioned.vcf.gz ";
    assert r[|r| - 20..] == ".accessioned.vcf.gz ";
    r
  }

  function MapAccessionFile(filenames: seq<string>): (r: seq<string>)
    ensures |r| == |filenames| && forall i :: 0 <= i < |r| ==> r[i] == AccessionFile(filenames[i])
  {
    if filenames == [] then [] else [AccessionFile(filenames[0])] + MapAccessionFile(filenames[1..])
  }

  function Matching(reports: seq<string>, keep: string -> bool): (r: seq<string>)
    ensures forall x :: x in r <==> x in reports && keep(x)
  {
    if reports == [] then []
    else (if keep(reports[0]) then [reports[0]] else []) + Matching(reports[1..], keep)
  }

  /**
   * The report chosen for an analysis as `check_accessioning_was_done` is
   * written: the only report; else the one whose path is among the expected
   * accessioned file names (then taken again by base name, IndexError if none
   * matches that way); else the only one whose path names the analysis; else
   * the first.
   */
  function SelectReportAsWritten(reports: seq<string>, filenames: seq<string>, analysis: string): Result<Option<string>>
  {
    var expected := MapAccessionFile(filenames);
    if reports == [] then Ok(None)
    else if |reports| == 1 then Ok(Some(reports[0]))
    else if |Matching(reports, r => r in expected)| == 1 then
      var byName := Matching(reports, r => Basename(r) in expected);
      if byName == [] then Err("IndexError") else Ok(Some(byName[0]))
    else if |Matching(reports, r => Contains(r, analysis))| == 1 then Ok(Some(Matching(reports, r => Contains(r, analysis))[0]))
    else Ok(Some(reports[0]))
  }

  /** The expected report name without the stray trailing space. */
  function ReportName(filename: string): (r: string)
    ensures AccessionFile(filename) == r + " "
  {
    var a := AccessionFile(filename);
    assert a == a[..|a| - 1] + " ";
    a[..|a| - 1]
  }

  function MapReportName(filenames: seq<string>): (r: seq<string>)
    ensures |r| == |filenames| && forall i :: 0 <= i < |r| ==> r[i] == ReportName(filenames[i])
  {
    if filenames == [] then [] else [ReportName(filenames[0])] + MapReportName(filenames[1..])
  }

  /** The choice as intended: the report whose base name is the expected accessioned file, compared without the trailing space. */
  function SelectReport(reports: seq<string>, filenames: seq<string>, analysis: string): (r: Option<string>)
    ensures r.Some? ==> r.value in reports
    ensures r.None? <==> reports == []
  {
    var expected := MapReportName(filenames);
    var byName := Matching(reports, r => Basename(r) in expected);
    var byAnalysis := Matching(reports, r => Contains(r, analysis));
    if reports == [] then None
    else if |reports| == 1 then Some(reports[0])
    else if |byName| == 1 then
      assert byName[0] in byName;
      Some(byName[0])
    else if |byAnalysis| == 1 then
      assert byAnalysis[0] in byAnalysis;
      Some(byAnalysis[0])
    else Some(reports[0])
  }

  /** When exactly one report is named after one of the analysis' files, that report is chosen. */
  lemma SelectReportByFile(reports: seq<string>, filenames: seq<string>, analysis: string, k: nat)
    requires k < |reports| && Basename(reports[k]) in MapReportName(filenames)
    requires forall j :: 0 <= j < |reports| && j != k ==> Basename(reports[j]) !in MapReportName(filenames)
    ensures SelectReport(reports, filenames, analysis) == Some(reports[k])
  {
    var expected := MapReportName(filenames);
    MatchingOnly(reports, r => Basename(r) in expected, k);
  }

  /** Only the `k`-th report passes the test: it alone is kept. */
  lemma {:induction false} MatchingOnly(reports: seq<string>, keep: string -> bool, k: nat)
    requires k < |reports| && keep(reports[k])
    requires forall j :: 0 <= j < |reports| && j != k ==> !keep(reports[j])
    ensures Matching(reports, keep) == [reports[k]]
  {
    if k == 0 {
      MatchingNone(reports[1..], keep);
    } else {
      assert !keep(reports[0]);
      assert forall j :: 0 <= j < |reports[1..]| && j != k - 1 ==> reports[1..][j] == reports[j + 1];
      MatchingOnly(reports[1..], keep, k - 1);
    }
  }

  /** No report passes the test: none is kept. */
  lemma {:induction false} MatchingNone(reports: seq<string>, keep: string -> bool)
    requires forall j :: 0 <= j < |reports| ==> !keep(reports[j])
    ensures Matching(reports, keep) == []
  {
    if reports != [] {
      assert !keep(reports[0]);
      MatchingNone(reports[1..], keep);
    }
  }

  /**
   * As written, a report found by the glob (its name ending 'accessioned.vcf.gz')
   * is never among the expected names, which all end with a space, so the
   * choice by file name never happens.
   */
  lemma AsWrittenNeverMatchesFiles(reports: seq<string>, filenames: seq<string>)
    requires forall i :: 0 <= i < |reports| ==> EndsWith(reports[i], "accessioned.vcf.gz")
    ensures Matching(reports, r => r in MapAccessionFile(filenames)) == []
  {
    var expected := MapAccessionFile(filenames);
    forall j | 0 <= j < |reports|
      ensures reports[j] !in expected
    {
      var x := reports[j];
      assert x[|x| - 1] == 'z';
      forall i | 0 <= i < |expected|
        ensures expected[i] != x
      {
        var e := expected[i];
        assert EndsWith(e, ".accessioned.vcf.gz ");
        assert e[|e| - 1] == ' ';
      }
    }
    MatchingNone(reports, r => r in expected);
  }

  /**
   * Reports that the glob found and whose paths do not name the analysis: as
   * written, the first report is taken whatever the analysis' files are called.
   */
  lemma ReportChoiceAsWritten(reports: seq<string>, filenames: seq<string>, analysis: string)
    requires |reports| > 1
    requires forall j :: 0 <= j < |reports| ==> EndsWith(reports[j], "accessioned.vcf.gz") && !Contains(reports[j], analysis)
    ensures SelectReportAsWritten(reports, filenames, analysis) == Ok(Some(reports[0]))
  {
    AsWrittenNeverMatchesFiles(reports, filenames);
    MatchingNone(reports, r => Contains(r, analysis));
  }

  /**
   * The discrepancy: when a later report alone is named after one of the
   * analysis' files, the code as written still takes the first one.
   */
  lemma ReportChoiceDiffers(reports: seq<string>, filenames: seq<string>, analysis: string, k: nat)
    requires 0 < k < |reports| && reports[k] != reports[0]
    requires forall j :: 0 <= j < |reports| ==> EndsWith(reports[j], "accessioned.vcf.gz") && !Contains(reports[j], analysis)
    requires Basename(reports[k]) in MapReportName(filenames)
    requires forall j :: 0 <= j < |reports| && j != k ==> Basename(reports[j]) !in MapReportName(filenames)
    ensures SelectReport(reports, filenames, analysis) == Some(reports[k])
    ensures SelectReportAsWritten(reports, filenames, analysis) == Ok(Some(reports[0]))
  {
    ReportChoiceAsWritten(reports, filenames, analysis);
    SelectReportByFile(reports, filenames, analysis, k);
  }

  /** A text without the pattern's first character does not contain the pattern. */
  lemma NotContains(s: string, t: string)
    requires t != [] && t[0] !in s
    ensures !Contains(s, t)
  {
    forall i | 0 <= i <= |s| - |t|
      ensures !OccursAt(s, t, i)
    {
      assert s[i..i + |t|][0] == s[i];
    }
  }

  // ---------------------------------------------------------------------
  // The first submitted variant accessions of a report

  const MaxIds: nat := 1000

  /** The third column of a data line, IndexError when there is none. */
  function IdColumn(line: string): Result<string>
  {
    var cols := Split(line, '\t');
    if |cols| < 3 then Err("IndexError") else Ok(cols[2])
  }

  /** A data line that holds a submitted variant: its third column starts with 'ss'. */
  function SsId(line: string): Result<Option<string>>
  {
    if StartsWith(line, "#") then Ok(None)
    else match IdColumn(line)
      case Err(e) => Err(e)
      case Ok(id) => Ok(if StartsWith(id, "ss") then Some(id[2..]) else None)
  }

  /** `get_accessioning_info_from_file` over the report's lines, reading at most `limit` more accessions. */
  function FirstIds(lines: seq<string>, limit: nat): Result<seq<int>>
  {
    if lines == [] then Ok([])
    else
      match SsId(lines[0])
      case Err(e) => Err(e)
      case Ok(None) => FirstIds(lines[1..], limit)
      case Ok(Some(digits)) =>
        if limit == 0 then Ok([])
        else match ParseInt(digits)
          case None => Err("ValueError")
          case Some(n) =>
            match FirstIds(lines[1..], limit - 1)
            case Err(e) => Err(e)
            case Ok(rest) => Ok([n] + rest)
  }

  /** Every accession of the report, without a limit. */
  function AllIds(lines: seq<string>): Result<seq<int>>
  {
    if lines == [] then Ok([])
    else
      match SsId(lines[0])
      case Err(e) => Err(e)
      case Ok(None) => AllIds(lines[1..])
      case Ok(Some(digits)) =>
        match ParseInt(digits)
        case None => Err("ValueError")
        case Some(n) =>
          match AllIds(lines[1..])
          case Err(e) => Err(e)
          case Ok(rest) => Ok([n] + rest)
  }

  /** On a report that reads without error, the accessions returned are the first `limit` of the report, in file order. */
  lemma {:induction false} FirstIdsTake(lines: seq<string>, limit: nat)
    requires AllIds(lines).Ok?
    ensures FirstIds(lines, limit) == Ok(Take(AllIds(lines).value, limit))
  {
    if lines != [] {
      match SsId(lines[0])
      case Ok(None) => FirstIdsTake(lines[1..], limit);
      case Ok(Some(digits)) =>
        if limit > 0 {
          FirstIdsTake(lines[1..], limit - 1);
          var rest := AllIds(lines[1..]).value;
          var n := ParseInt(digits).value;
          assert Take([n] + rest, limit) == [n] + Take(rest, limit - 1) by {
            if |rest| + 1 > limit {
              assert ([n] + rest)[..limit] == [n] + rest[..limit - 1];
            }
          }
        }
    }
  }

  /** A report read this way gives at most 1000 accessions. */
  lemma {:induction false} FirstIdsBound(lines: seq<string>, limit: nat)
    ensures FirstIds(lines, limit).Ok? ==> |FirstIds(lines, limit).value| <= limit
  {
    if lines != [] {
      match SsId(lines[0])
      case Err(_) =>
      case Ok(None) => FirstIdsBound(lines[1..], limit);
      case Ok(Some(_)) =>
        if limit > 0 {
          FirstIdsBound(lines[1..], limit - 1);
        }
    }
  }

  /** `ids` in front of the accessions a read returns; an error passes through. */
  function Prepend(ids: seq<int>, r: Result<seq<int>>): Result<seq<int>>
  {
    match r
    case Err(e) => Err(e)
    case Ok(rest) => Ok(ids + rest)
  }

  lemma PrependTwice(a: seq<int>, b: seq<int>, r: Result<seq<int>>)
    ensures Prepend(a, Prepend(b, r)) == Prepend(a + b, r)
  {
    if r.Ok? {
      assert a + (b + r.value) == (a + b) + r.value;
    }
  }

  method GetAccessioningInfo(lines: seq<string>) returns (r: Result<seq<int>>)
    ensures r == FirstIds(lines, MaxIds)
    ensures r.Ok? ==> |r.value| <= MaxIds
  {
    FirstIdsBound(lines, MaxIds);
    var ids: seq<int> := [];
    var count: nat := 0;
    var i := 0;
    assert lines[0..] == lines;
    assert FirstIds(lines, MaxIds) == Prepend([], FirstIds(lines, MaxIds)) by {
      if FirstIds(lines, MaxIds).Ok? {
        assert [] + FirstIds(lines, MaxIds).value == FirstIds(lines, MaxIds).value;
      }
    }
    while i < |lines|
      invariant 0 <= i <= |lines| && count == |ids| <= MaxIds
      invariant FirstIds(lines, MaxIds) == Prepend(ids, FirstIds(lines[i..], MaxIds - count))
      decreases |lines| - i
    {
      var line := lines[i];
      assert lines[i..][1..] == lines[i + 1..] && lines[i..][0] == line;
      match SsId(line) {
        case Err(e) =>
          return Err(e);
        case Ok(None) =>
        case Ok(Some(digits)) =>
          if count == MaxIds {
            assert ids + [] == ids;
            return Ok(ids);
          }
          match ParseInt(digits) {
            case None =>
              return Err("ValueError");
            case Some(n) =>
              assert FirstIds(lines[i..], MaxIds - count) == Prepend([n], FirstIds(lines[i + 1..], MaxIds - count - 1));
              PrependTwice(ids, [n], FirstIds(lines[i + 1..], MaxIds - count - 1));
              ids := ids + [n];
              count := count + 1;
          }
      }
      i := i + 1;
    }
    assert ids + [] == ids;
    r := Ok(ids);
  }

  // ---------------------------------------------------------------------
  // Stage statuses

  /** What the lookups found for an analysis. */
  datatype Lookups = Lookups(
    accessioned: seq<int>,
    target: Option<string>,
    remapped: seq<int>,
    clustered: seq<int>,
    studyLoaded: bool,
    statisticsLoaded: bool,
    annotationLoaded: bool)

  datatype Status = Status(
    analysis: Option<string>,
    taxonomy: int,
    sourceAssembly: Option<string>,
    targetAssembly: Option<string>,
    accessioning: string,
    remapping: string,
    clustering: string,
    variantLoad: string,
    statistics: string,
    annotation: string)

  function DoneOr(b: bool): string
  {
    if b then "Done" else "Pending"
  }

  /**
   * The statuses of one analysis.  Human data (taxonomy 9606) are not
   * accessioned by EVA: those stages, and the target assembly, stay
   * 'Not found'.  Otherwise the target is the current one for the taxonomy,
   * remapping is required when the source assembly is not that target, and
   * done once remapped variants are found there.
   */
  function AnalysisStatus(g: Group, taxonomy: int, l: Lookups): (s: Status)
    ensures taxonomy == 9606 ==> s.accessioning == "Not found" && s.remapping == "Not found" && s.clustering == "Not found"
    ensures taxonomy != 9606 ==> (s.accessioning == "Done" <==> l.accessioned != [])
    ensures taxonomy != 9606 ==> (s.remapping == "Not_required" <==> g.assembly == l.target)
    ensures taxonomy != 9606 ==> (s.remapping == "Required" <==> g.assembly != l.target && l.remapped == [])
    ensures taxonomy != 9606 ==> (s.remapping == "Done" <==> g.assembly != l.target && l.remapped != [])
    ensures taxonomy == 9606 ==> s.targetAssembly == Some("Not found")
    ensures taxonomy != 9606 ==> s.targetAssembly == l.target
  {
    var variantLoad, statistics, annotation := DoneOr(l.studyLoaded), DoneOr(l.statisticsLoaded), DoneOr(l.annotationLoaded);
    if taxonomy == 9606 then
      Status(g.analysis, taxonomy, g.assembly, Some("Not found"), "Not found", "Not found", "Not found", variantLoad, statistics, annotation)
    else
      var remapping := if g.assembly == l.target then "Not_required" else if l.remapped != [] then "Done" else "Required";
      Status(g.analysis, taxonomy, g.assembly, l.target, DoneOr(l.accessioned != []), remapping,
             DoneOr(l.clustered != []), variantLoad, statistics, annotation)
  }

  /** The assembly where clustering is looked for: the target when remapping is needed, else the source, which is then the target too. */
  function ClusteringAssembly(source: Option<string>, target: Option<string>): (r: Option<string>)
    ensures r == target
  {
    if source != target then target else source
  }

  /**
   * `status_per_analysis`: each group's taxonomy, falling back to the
   * project's single taxonomy; None as soon as an analysis has neither.
   */
  function StatusPerAnalysis(groups: seq<Group>, projectTaxonomy: Option<int>, lookups: Option<string> -> Lookups): (r: Option<seq<Status>>)
    ensures r.Some? ==> (|r.value| == |groups| &&
      forall i :: 0 <= i < |groups| ==> r.value[i].analysis == groups[i].analysis)
  {
    if groups == [] then Some([])
    else
      var g := groups[0];
      var taxonomy := if g.taxonomy.Some? && g.taxonomy.value != 0 then g.taxonomy else projectTaxonomy;
      if taxonomy.None? || taxonomy.value == 0 then None
      else
        match StatusPerAnalysis(groups[1..], projectTaxonomy, lookups)
        case None => None
        case Some(rest) => Some([AnalysisStatus(g, taxonomy.value, lookups(g.analysis))] + rest)
  }

  /** The report exists exactly when every analysis has a taxonomy of its own or the project has one. */
  lemma {:induction false} StatusNeedsTaxonomy(groups: seq<Group>, projectTaxonomy: Option<int>, lookups: Option<string> -> Lookups)
    ensures StatusPerAnalysis(groups, projectTaxonomy, lookups).Some? <==>
      forall i :: 0 <= i < |groups| ==>
        (groups[i].taxonomy.Some? && groups[i].taxonomy.value != 0) || (projectTaxonomy.Some? && projectTaxonomy.value != 0)
  {
    if groups != [] {
      StatusNeedsTaxonomy(groups[1..], projectTaxonomy, lookups);
      assert forall i :: 0 < i < |groups| ==> groups[i] == groups[1..][i - 1];
    }
  }
}
