/**
 * The validation step of an ELOAD: the scanners of the assembly-check log and
 * report and of the VCF-check report, the genotype-aggregation check, and the
 * rule that marks the files valid.  Report files are their sequences of
 * lines; detecting a VCF's aggregation and the unique analysis alias are
 * parameters.
 */
module EloadValidation {
  import opened Wrappers
  import opened Text
  import opened Collections
  import opened JsonValues
  import opened SubmissionConfig

  /** At most this many messages of each kind are kept. */
  const MaxListed: nat := 10

  /** `s[n:]` in Python: empty when `s` is shorter than `n`. */
  function DropPrefix(s: string, n: nat): string
  {
    if n <= |s| then s[n..] else ""
  }

  /**
   * One more message of a kind: it is always counted, and kept while fewer
   * than MaxListed are kept (`if nb < 11: list.append(...)` after the count).
   */
  method Tally(count: nat, kept: seq<string>, ghost seen: seq<string>, message: string) returns (count': nat, kept': seq<string>)
    requires count == |seen| && kept == Take(seen, MaxListed)
    ensures count' == |seen + [message]| && kept' == Take(seen + [message], MaxListed)
  {
    TakeStep(seen, message, MaxListed);
    count' := count + 1;
    kept' := kept;
    if count' < MaxListed + 1 {
      kept' := kept + [message];
    }
  }

  // ---------------------------------------------------------------------
  // parse_assembly_check_log

  const ErrorTag := "[error]"
  const MatchTag := "[info] Number of matches:"
  const MatchPrefix := "[info] Number of matches: "

  predicate IsErrorLine(line: string)
  {
    StartsWith(line, ErrorTag)
  }

  predicate IsMatchLine(line: string)
  {
    !IsErrorLine(line) && StartsWith(line, MatchTag)
  }

  /** The message of an error line: the stripped line without its tag. */
  function ErrorMessage(line: string): string
  {
    DropPrefix(Strip(line), |ErrorTag|)
  }

  /** `match, total = ....split('/')` then `int` of each; None where Python raises ValueError. */
  function ParseMatchLine(line: string): Option<(int, int)>
  {
    var parts := Split(DropPrefix(Strip(line), |MatchPrefix|), '/');
    if |parts| != 2 then None
    else
      match (ParseInt(parts[0]), ParseInt(parts[1]))
      case (Some(m), Some(t)) => Some((m, t))
      case _ => None
  }

  /** All error messages of the log, in order. */
  function ErrorMessages(lines: seq<string>): seq<string>
  {
    MapFilter(lines, IsErrorLine, ErrorMessage)
  }

  /** The parse of each match line, in order. */
  function MatchParses(lines: seq<string>): seq<Option<(int, int)>>
  {
    MapFilter(lines, IsMatchLine, ParseMatchLine)
  }

  datatype AssemblyLog = AssemblyLog(errors: seq<string>, nbError: nat, matches: Option<int>, total: Option<int>)

  /**
   * `parse_assembly_check_log`: counts the error lines and keeps the first
   * ten messages; the last match line gives the match and total counts.  A
   * match line that is not two integers separated by '/' raises ValueError.
   */
  method ParseAssemblyCheckLog(lines: seq<string>) returns (r: Result<AssemblyLog>)
    ensures r.Ok? <==> None !in MatchParses(lines)
    ensures r.Ok? ==> r.value.nbError == |ErrorMessages(lines)|
    ensures r.Ok? ==> r.value.errors == Take(ErrorMessages(lines), MaxListed)
    ensures r.Ok? ==> var ps := MatchParses(lines);
      if ps == [] then r.value.matches.None? && r.value.total.None?
      else r.value.matches == Some(ps[|ps| - 1].value.0) && r.value.total == Some(ps[|ps| - 1].value.1)
  {
    var log := AssemblyLog([], 0, None, None);
    for i := 0 to |lines|
      invariant ReadSoFar(lines, i, log)
    {
      var next := ReadLogLine(lines, i, log);
      if next.Err? {
        return next;
      }
      log := next.value;
    }
    assert lines[..|lines|] == lines;
    r := Ok(log);
  }

  /** The log's counts and lists after its first `i` lines. */
  predicate ReadSoFar(lines: seq<string>, i: nat, log: AssemblyLog)
    requires i <= |lines|
  {
    None !in MatchParses(lines[..i]) &&
    log.nbError == |ErrorMessages(lines[..i])| &&
    log.errors == Take(ErrorMessages(lines[..i]), MaxListed) &&
    (log.matches, log.total) == LastCounts(MatchParses(lines[..i]))
  }

  /** One turn of the loop of `parse_assembly_check_log`. */
  method ReadLogLine(lines: seq<string>, i: nat, log: AssemblyLog) returns (r: Result<AssemblyLog>)
    requires i < |lines| && ReadSoFar(lines, i, log)
    ensures r.Ok? ==> ReadSoFar(lines, i + 1, r.value)
    ensures r.Err? ==> r == Err("ValueError") && None in MatchParses(lines)
  {
    var line := lines[i];
    AssemblyLogStep(lines, i);
    r := Ok(log);
    if IsErrorLine(line) {
      var nbError, errors := Tally(log.nbError, log.errors, ErrorMessages(lines[..i]), ErrorMessage(line));
      r := Ok(log.(nbError := nbError, errors := errors));
    } else if StartsWith(line, MatchTag) {
      var parsed := ParseMatchLine(line);
      if parsed.None? {
        MatchParseFailureStays(lines, i + 1);
        return Err("ValueError");
      }
      r := Ok(log.(matches := Some(parsed.value.0), total := Some(parsed.value.1)));
    }
  }

  /** The counts of the last parse, None for both when there is none. */
  function LastCounts(ps: seq<Option<(int, int)>>): (Option<int>, Option<int>)
  {
    if ps == [] || ps[|ps| - 1].None? then (None, None)
    else (Some(ps[|ps| - 1].value.0), Some(ps[|ps| - 1].value.1))
  }

  /** Reading one more line of the log adds at most one error message and one match parse. */
  lemma AssemblyLogStep(lines: seq<string>, i: nat)
    requires i < |lines|
    ensures ErrorMessages(lines[..i + 1]) == ErrorMessages(lines[..i]) + (if IsErrorLine(lines[i]) then [ErrorMessage(lines[i])] else [])
    ensures MatchParses(lines[..i + 1]) == MatchParses(lines[..i]) + (if IsMatchLine(lines[i]) then [ParseMatchLine(lines[i])] else [])
  {
    assert lines[..i + 1] == lines[..i] + [lines[i]];
    MapFilterStep(lines[..i], lines[i], IsErrorLine, ErrorMessage);
    MapFilterStep(lines[..i], lines[i], IsMatchLine, ParseMatchLine);
  }

  /** A failed match parse in a prefix of the log is a failed parse of the whole log. */
  lemma MatchParseFailureStays(lines: seq<string>, k: nat)
    requires k <= |lines|
    requires None in MatchParses(lines[..k])
    ensures None in MatchParses(lines)
  {
    MapFilterMembers(lines[..k], IsMatchLine, ParseMatchLine, None);
    var i :| 0 <= i < k && IsMatchLine(lines[..k][i]) && ParseMatchLine(lines[..k][i]) == None;
    assert lines[i] == lines[..k][i];
    MapFilterMembers(lines, IsMatchLine, ParseMatchLine, None);
  }

  /** The error list is capped, and it is the start of the full list of error messages. */
  lemma ErrorListIsCappedPrefix(lines: seq<string>)
    ensures |Take(ErrorMessages(lines), MaxListed)| == if |ErrorMessages(lines)| < MaxListed then |ErrorMessages(lines)| else MaxListed
    ensures Take(ErrorMessages(lines), MaxListed) <= ErrorMessages(lines)
  {
  }

  /** A well-formed match line yields the two integers it states. */
  lemma MatchLineRoundTrip(m: nat, t: nat)
    ensures ParseMatchLine(MatchPrefix + NatToString(m) + "/" + NatToString(t)) == Some((m, t))
  {
    var ms, ts := NatToString(m), NatToString(t);
    MatchLineBody(ms, ts);
    SplitDigitPair(ms, ts);
    ParseNatRoundTrip(m);
    ParseNatRoundTrip(t);
  }

  /** A number written out is read back by `int`. */
  lemma ParseNatRoundTrip(n: nat)
    ensures ParseInt(NatToString(n)) == Some(n as int)
  {
    ParseIntRoundTrip(n);
  }

  /** Past the prefix, a match line is the two numbers and the slash. */
  lemma MatchLineBody(ms: string, ts: string)
    requires |ts| >= 1 && AllDigits(ts)
    ensures DropPrefix(Strip(MatchPrefix + ms + "/" + ts), |MatchPrefix|) == ms + "/" + ts
  {
    StripMatchLine(ms, ts);
    var line := MatchPrefix + ms + "/" + ts;
    assert line == MatchPrefix + (ms + "/" + ts);
    assert line[|MatchPrefix|..] == ms + "/" + ts;
  }

  lemma StripMatchLine(ms: string, ts: string)
    requires |ts| >= 1 && AllDigits(ts)
    ensures Strip(MatchPrefix + ms + "/" + ts) == MatchPrefix + ms + "/" + ts
  {
    var line := MatchPrefix + ms + "/" + ts;
    assert line[0] == '[';
    assert line[|line| - 1] == ts[|ts| - 1];
    StripUnchanged(line);
  }

  lemma SplitDigitPair(ms: string, ts: string)
    requires AllDigits(ms) && AllDigits(ts)
    ensures Split(ms + "/" + ts, '/') == [ms, ts]
  {
    assert '/' !in ms by {
      forall i | 0 <= i < |ms| ensures ms[i] != '/' { assert IsDigit(ms[i]); }
    }
    assert '/' !in ts by {
      forall i | 0 <= i < |ts| ensures ts[i] != '/' { assert IsDigit(ts[i]); }
    }
    SplitNoSeparator(ts, '/');
    SplitPrefix(ms, ts, '/');
    assert ms + "/" + ts == ms + ['/'] + ts;
  }

  // ---------------------------------------------------------------------
  // parse_assembly_check_report

  const MismatchText := "does not match the reference sequence"
  const SynonymText := "Multiple synonyms"

  predicate IsMismatchLine(line: string)
  {
    Contains(line, MismatchText)
  }

  predicate IsSynonymLine(line: string)
  {
    !IsMismatchLine(line) && Contains(line, SynonymText)
  }

  datatype AssemblyReport = AssemblyReport(mismatches: seq<string>, nbMismatch: nat, errors: seq<string>, nbError: nat)

  /**
   * `parse_assembly_check_report`: mismatch lines and 'Multiple synonyms'
   * lines are counted separately, each keeping its first ten stripped lines.
   */
  method ParseAssemblyCheckReport(lines: seq<string>) returns (r: AssemblyReport)
    ensures r.nbMismatch == |MapFilter(lines, IsMismatchLine, Strip)|
    ensures r.mismatches == Take(MapFilter(lines, IsMismatchLine, Strip), MaxListed)
    ensures r.nbError == |MapFilter(lines, IsSynonymLine, Strip)|
    ensures r.errors == Take(MapFilter(lines, IsSynonymLine, Strip), MaxListed)
  {
    var mismatches: seq<string> := [];
    var errors: seq<string> := [];
    var nbMismatch := 0;
    var nbError := 0;
    for i := 0 to |lines|
      invariant nbMismatch == |MapFilter(lines[..i], IsMismatchLine, Strip)|
      invariant mismatches == Take(MapFilter(lines[..i], IsMismatchLine, Strip), MaxListed)
      invariant nbError == |MapFilter(lines[..i], IsSynonymLine, Strip)|
      invariant errors == Take(MapFilter(lines[..i], IsSynonymLine, Strip), MaxListed)
    {
      var line := lines[i];
      assert lines[..i + 1] == lines[..i] + [line];
      MapFilterStep(lines[..i], line, IsMismatchLine, Strip);
      MapFilterStep(lines[..i], line, IsSynonymLine, Strip);
      if Contains(line, MismatchText) {
        nbMismatch, mismatches := Tally(nbMismatch, mismatches, MapFilter(lines[..i], IsMismatchLine, Strip), Strip(line));
      } else if Contains(line, SynonymText) {
        nbError, errors := Tally(nbError, errors, MapFilter(lines[..i], IsSynonymLine, Strip), Strip(line));
      }
    }
    assert lines[..|lines|] == lines;
    r := AssemblyReport(mismatches, nbMismatch, errors, nbError);
  }

  /** No line is counted both as a mismatch and as a synonym error. */
  lemma {:induction false} ReportCountsDisjoint(lines: seq<string>)
    ensures |MapFilter(lines, IsMismatchLine, Strip)| + |MapFilter(lines, IsSynonymLine, Strip)| <= |lines|
  {
    if lines != [] {
      ReportCountsDisjoint(lines[..|lines| - 1]);
    }
  }

  // ---------------------------------------------------------------------
  // parse_vcf_check_report

  const SpecificationTag := "According to the VCF specification"

  predicate IsWarningLine(line: string)
  {
    Contains(line, "warning")
  }

  predicate IsSpecificationLine(line: string)
  {
    !IsWarningLine(line) && StartsWith(line, SpecificationTag)
  }

  predicate IsVcfErrorLine(line: string)
  {
    !IsWarningLine(line) && !StartsWith(line, SpecificationTag)
  }

  datatype VcfCheckReport = VcfCheckReport(valid: bool, errors: seq<string>, errorCount: nat, warningCount: nat)

  /**
   * `parse_vcf_check_report`: a specification line containing 'not' makes
   * the file invalid; any warning line sets the warning count to 1; every
   * other line is an error, of which the first ten are kept.
   */
  method ParseVcfCheckReport(lines: seq<string>) returns (r: VcfCheckReport)
    ensures r.valid <==> forall i :: 0 <= i < |lines| && IsSpecificationLine(lines[i]) ==> !Contains(lines[i], "not")
    ensures r.warningCount == if exists i :: 0 <= i < |lines| && IsWarningLine(lines[i]) then 1 else 0
    ensures r.errorCount == |MapFilter(lines, IsVcfErrorLine, Strip)|
    ensures r.errors == Take(MapFilter(lines, IsVcfErrorLine, Strip), MaxListed)
  {
    var valid := true;
    var errors: seq<string> := [];
    var warningCount := 0;
    var errorCount := 0;
    for i := 0 to |lines|
      invariant valid <==> NoNegatedSpecification(lines[..i])
      invariant warningCount == if AnyWarning(lines[..i]) then 1 else 0
      invariant errorCount == |MapFilter(lines[..i], IsVcfErrorLine, Strip)|
      invariant errors == Take(MapFilter(lines[..i], IsVcfErrorLine, Strip), MaxListed)
    {
      var line := lines[i];
      assert lines[..i + 1] == lines[..i] + [line];
      MapFilterStep(lines[..i], line, IsVcfErrorLine, Strip);
      ReportLinesSnoc(lines[..i], line);
      if Contains(line, "warning") {
        warningCount := 1;
      } else if StartsWith(line, SpecificationTag) {
        if Contains(line, "not") {
          valid := false;
        }
      } else {
        errorCount, errors := Tally(errorCount, errors, MapFilter(lines[..i], IsVcfErrorLine, Strip), Strip(line));
      }
    }
    assert lines[..|lines|] == lines;
    r := VcfCheckReport(valid, errors, errorCount, warningCount);
  }

  /** No specification line says 'not'. */
  predicate NoNegatedSpecification(lines: seq<string>)
  {
    forall j :: 0 <= j < |lines| && IsSpecificationLine(lines[j]) ==> !Contains(lines[j], "not")
  }

  predicate AnyWarning(lines: seq<string>)
  {
    exists j :: 0 <= j < |lines| && IsWarningLine(lines[j])
  }

  lemma ReportLinesSnoc(lines: seq<string>, line: string)
    ensures NoNegatedSpecification(lines + [line]) <==>
      NoNegatedSpecification(lines) && !(IsSpecificationLine(line) && Contains(line, "not"))
    ensures AnyWarning(lines + [line]) <==> AnyWarning(lines) || IsWarningLine(line)
  {
    var longer := lines + [line];
    assert forall j :: 0 <= j < |lines| ==> longer[j] == lines[j];
    assert longer[|lines|] == line;
    if AnyWarning(longer) {
      var j :| 0 <= j < |longer| && IsWarningLine(longer[j]);
      if j < |lines| {
        assert IsWarningLine(lines[j]);
      }
    }
  }

  /** The three kinds of line split the report: every line is exactly one of them. */
  lemma VcfLineKinds(line: string)
    ensures IsWarningLine(line) || IsSpecificationLine(line) || IsVcfErrorLine(line)
    ensures !(IsWarningLine(line) && IsSpecificationLine(line)) && !(IsWarningLine(line) && IsVcfErrorLine(line))
    ensures !(IsSpecificationLine(line) && IsVcfErrorLine(line))
  {
  }

  // ---------------------------------------------------------------------
  // _validate_genotype_aggregation

  /** The aggregation detected for each VCF file of an analysis. */
  function Aggregations(files: seq<string>, detect: string -> Option<string>): (aggs: seq<Option<string>>)
    ensures |aggs| == |files| && forall i :: 0 <= i < |files| ==> aggs[i] == detect(files[i])
  {
    seq(|files|, i requires 0 <= i < |files| => detect(files[i]))
  }

  /** `len(set(aggregations)) == 1 and None not in aggregations`, in the form the proofs use. */
  predicate OneKnownAggregation(aggs: seq<Option<string>>)
  {
    aggs != [] && aggs[0].Some? && forall i :: 0 <= i < |aggs| ==> aggs[i] == aggs[0]
  }

  /** The set test of the source and the form above agree. */
  lemma OneKnownAggregationIsSetTest(aggs: seq<Option<string>>)
    ensures OneKnownAggregation(aggs) <==> |(set i | 0 <= i < |aggs| :: aggs[i])| == 1 && None !in aggs
  {
    var values := set i | 0 <= i < |aggs| :: aggs[i];
    if OneKnownAggregation(aggs) {
      assert values == {aggs[0]};
    }
    if |values| == 1 && None !in aggs {
      assert aggs[0] in values;
      forall i | 0 <= i < |aggs| ensures aggs[i] == aggs[0] {
        assert aggs[i] in values;
        assert values == {aggs[0]} by {
          SingletonSet(values, aggs[0]);
        }
      }
    }
  }

  lemma SingletonSet<T>(s: set<T>, x: T)
    requires |s| == 1 && x in s
    ensures s == {x}
  {
    var rest := s - {x};
    assert |rest| == 0;
  }

  /**
   * The distinct detected aggregations, in sorted order: the source joins a
   * set, whose iteration order Python leaves unspecified.
   */
  function DistinctAggregations(aggs: seq<Option<string>>): seq<string>
  {
    SortStrings(Dedup(MapFilter(aggs, (a: Option<string>) => a.Some?, (a: Option<string>) => a.GetOr(""))))
  }

  /** The positions, in order, of the files whose aggregation could not be detected. */
  function UndetectedIndices(aggs: seq<Option<string>>): (idx: seq<nat>)
    ensures forall k :: 0 <= k < |idx| ==> idx[k] < |aggs| && aggs[idx[k]].None?
    ensures forall i :: 0 <= i < |aggs| && aggs[i].None? ==> i in idx
  {
    if aggs == [] then []
    else
      var rest := UndetectedIndices(aggs[..|aggs| - 1]);
      assert forall i :: 0 <= i < |aggs| - 1 ==> aggs[..|aggs| - 1][i] == aggs[i];
      rest + (if aggs[|aggs| - 1].None? then [|aggs| - 1] else [])
  }

  /** `[files[i] for i in idx]`. */
  function Picked(files: seq<string>, idx: seq<nat>): (names: seq<string>)
    requires forall k :: 0 <= k < |idx| ==> idx[k] < |files|
    ensures |names| == |idx| && forall k :: 0 <= k < |idx| ==> names[k] == files[idx[k]]
  {
    seq(|idx|, k requires 0 <= k < |idx| => files[idx[k]])
  }

  /** The files of the analysis whose aggregation could not be detected, in order. */
  function UndetectedFiles(files: seq<string>, aggs: seq<Option<string>>): seq<string>
    requires |files| == |aggs|
  {
    Picked(files, UndetectedIndices(aggs))
  }

  /** Each file listed as undetected failed detection, and each that failed is listed. */
  lemma UndetectedFilesExact(files: seq<string>, aggs: seq<Option<string>>)
    requires |files| == |aggs|
    ensures |UndetectedFiles(files, aggs)| == |UndetectedIndices(aggs)|
    ensures forall k :: 0 <= k < |UndetectedIndices(aggs)| ==>
      aggs[UndetectedIndices(aggs)[k]].None? && UndetectedFiles(files, aggs)[k] == files[UndetectedIndices(aggs)[k]]
    ensures forall i :: 0 <= i < |files| && aggs[i].None? ==> files[i] in UndetectedFiles(files, aggs)
  {
    var idx := UndetectedIndices(aggs);
    var names := UndetectedFiles(files, aggs);
    forall i | 0 <= i < |files| && aggs[i].None? ensures files[i] in names {
      var k :| 0 <= k < |idx| && idx[k] == i;
      assert names[k] == files[i];
    }
  }

  /**
   * What the check records for one analysis, as intended: its aggregation, or
   * an error message, which for undetected aggregations lists the analysis's
   * own files that failed detection.
   */
  function AnalysisAggregation(alias: string, files: seq<string>, detect: string -> Option<string>): Result<string>
  {
    var aggs := Aggregations(files, detect);
    if OneKnownAggregation(aggs) then Ok(aggs[0].value)
    else if None in aggs then
      Err(alias + ": VCF file aggregation could not be determied: " + Join(UndetectedFiles(files, aggs), ", "))
    else Err(alias + ": Multiple aggregation found: " + Join(DistinctAggregations(aggs), ","))
  }

  /** An analysis gets an aggregation exactly when it has files, all of one detected aggregation. */
  lemma AnalysisAggregationOk(alias: string, files: seq<string>, detect: string -> Option<string>)
    ensures AnalysisAggregation(alias, files, detect).Ok? <==>
      files != [] && detect(files[0]).Some? && forall i :: 0 <= i < |files| ==> detect(files[i]) == detect(files[0])
    ensures AnalysisAggregation(alias, files, detect).Ok? ==> Some(AnalysisAggregation(alias, files, detect).value) == detect(files[0])
  {
  }

  /**
   * The list of undetected files as the source builds it: `vcf_files` is
   * queried again under the unique alias `u` for each position; a missing
   * entry makes `query` return `None`, which cannot be indexed (TypeError),
   * and a shorter list runs out (IndexError).
   */
  function RequeriedFiles(u: string, vcfFiles: map<string, seq<string>>, idx: seq<nat>): (r: Result<seq<string>>)
    ensures r.Ok? <==> idx == [] || (u in vcfFiles && forall k :: 0 <= k < |idx| ==> idx[k] < |vcfFiles[u]|)
    ensures r.Ok? && idx != [] ==> r.value == Picked(vcfFiles[u], idx)
    ensures r.Err? && u !in vcfFiles ==> r.error == "TypeError"
  {
    if idx == [] then Ok([])
    else if u !in vcfFiles then Err("TypeError")
    else if exists k :: 0 <= k < |idx| && idx[k] >= |vcfFiles[u]| then Err("IndexError")
    else Ok(Picked(vcfFiles[u], idx))
  }

  /**
   * One analysis as the source handles it: the files are read under the
   * alias, but the undetected ones are listed from the entry of the unique
   * alias.  `Err` is an exception; `Ok` holds the recorded aggregation or
   * error message.
   */
  function AnalysisAggregationAsWritten(alias: string, vcfFiles: map<string, seq<string>>,
                                        detect: string -> Option<string>, unique: string -> string): (r: Result<Result<string>>)
    requires alias in vcfFiles
    ensures r.Ok? ==> (r.value.Ok? <==> AnalysisAggregation(unique(alias), vcfFiles[alias], detect).Ok?)
    ensures r.Ok? && r.value.Ok? ==> r.value == AnalysisAggregation(unique(alias), vcfFiles[alias], detect)
    ensures unique(alias) in vcfFiles && vcfFiles[unique(alias)] == vcfFiles[alias] ==>
      r == Ok(AnalysisAggregation(unique(alias), vcfFiles[alias], detect))
  {
    var files, u := vcfFiles[alias], unique(alias);
    var aggs := Aggregations(files, detect);
    if !OneKnownAggregation(aggs) && None in aggs then
      var idx := UndetectedIndices(aggs);
      match RequeriedFiles(u, vcfFiles, idx)
      case Err(e) => Err(e)
      case Ok(names) =>
        assert u in vcfFiles && vcfFiles[u] == files ==> names == UndetectedFiles(files, aggs);
        Ok(Err(u + ": VCF file aggregation could not be determied: " + Join(names, ", ")))
    else Ok(AnalysisAggregation(u, files, detect))
  }

  /**
   * The source's re-query under the unique alias: with the analysis `a`
   * whose one file `x.vcf` is undetected and unique alias `E1_a`, the source
   * raises TypeError, where the intended check records an error naming the file.
   */
  lemma RequeryUnderUniqueAliasRaises(detect: string -> Option<string>, unique: string -> string)
    requires detect("x.vcf") == None && unique("a") == "E1_a"
    ensures AggregationOutcome(["a"], map["a" := ["x.vcf"]], detect, unique) == Err("TypeError")
    ensures AnalysisAggregation(unique("a"), ["x.vcf"], detect) == Err("E1_a" + ": VCF file aggregation could not be determied: " + "x.vcf")
  {
    var vcfFiles: map<string, seq<string>> := map["a" := ["x.vcf"]];
    var aggs := Aggregations(["x.vcf"], detect);
    assert aggs == [None];
    assert !OneKnownAggregation(aggs);
    var idx := UndetectedIndices(aggs);
    assert aggs[..0] == [] && UndetectedIndices(aggs[..0]) == [];
    assert idx == [0];
    assert RequeriedFiles("E1_a", vcfFiles, idx) == Err("TypeError");
    assert AnalysisAggregationAsWritten("a", vcfFiles, detect, unique) == Err("TypeError");
    assert ["a"][..0] == [];
    assert AggregationOutcome([], vcfFiles, detect, unique).Ok?;
    assert UndetectedFiles(["x.vcf"], aggs) == Picked(["x.vcf"], idx) == ["x.vcf"];
    assert Join(["x.vcf"], ", ") == "x.vcf";
    assert AnalysisAggregation("E1_a", ["x.vcf"], detect) ==
      Err("E1_a" + ": VCF file aggregation could not be determied: " + "x.vcf");
  }

  datatype AggregationCheck = AggregationCheck(analyses: map<string, string>, errors: seq<string>)
  {
    /** `len(errors) == 0`. */
    predicate Pass()
    {
      errors == []
    }
  }

  /**
   * The check over the analyses in order, as the source runs it: an analysis
   * without `vcf_files`, or whose undetected files cannot be listed again
   * under its unique alias, raises.
   */
  function AggregationOutcome(aliases: seq<string>, vcfFiles: map<string, seq<string>>, detect: string -> Option<string>,
                              unique: string -> string): Result<AggregationCheck>
  {
    if aliases == [] then Ok(AggregationCheck(map[], []))
    else
      match AggregationOutcome(aliases[..|aliases| - 1], vcfFiles, detect, unique)
      case Err(e) => Err(e)
      case Ok(acc) =>
        var alias := aliases[|aliases| - 1];
        if alias !in vcfFiles then Err("TypeError")
        else
          match AnalysisAggregationAsWritten(alias, vcfFiles, detect, unique)
          case Err(e) => Err(e)
          case Ok(Ok(a)) => Ok(acc.(analyses := acc.analyses[unique(alias) := a]))
          case Ok(Err(msg)) => Ok(acc.(errors := acc.errors + [msg]))
  }

  /**
   * `_validate_genotype_aggregation`: iterates over the analyses of the
   * submission (in the order given), recording each one's aggregation or an
   * error.  An analysis without a `vcf_files` list raises TypeError.
   */
  method ValidateGenotypeAggregation(aliases: seq<string>, vcfFiles: map<string, seq<string>>,
                                     detect: string -> Option<string>, unique: string -> string)
    returns (r: Result<AggregationCheck>)
    ensures r == AggregationOutcome(aliases, vcfFiles, detect, unique)
  {
    var check := AggregationCheck(map[], []);
    for i := 0 to |aliases|
      invariant AggregationOutcome(aliases[..i], vcfFiles, detect, unique) == Ok(check)
    {
      var alias := aliases[i];
      if alias !in vcfFiles {
        AggregationStopsAtMissing(aliases, vcfFiles, detect, unique, i);
        return Err("TypeError");
      }
      var next := RecordAnalysis(check, aliases, i, vcfFiles, detect, unique);
      if next.Err? {
        AggregationFailureStays(aliases, vcfFiles, detect, unique, i + 1);
        return next;
      }
      check := next.value;
    }
    assert aliases[..|aliases|] == aliases;
    r := Ok(check);
  }

  /**
   * The loop body: the analysis's aggregation goes into `analyses`, or its
   * error message into `errors`, unless listing its undetected files raises.
   */
  method RecordAnalysis(check: AggregationCheck, aliases: seq<string>, i: nat, vcfFiles: map<string, seq<string>>,
                        detect: string -> Option<string>, unique: string -> string)
    returns (r: Result<AggregationCheck>)
    requires i < |aliases| && aliases[i] in vcfFiles
    requires AggregationOutcome(aliases[..i], vcfFiles, detect, unique) == Ok(check)
    ensures AggregationOutcome(aliases[..i + 1], vcfFiles, detect, unique) == r
  {
    assert aliases[..i + 1][..i] == aliases[..i];
    var alias := aliases[i];
    var outcome := AnalysisAggregationAsWritten(alias, vcfFiles, detect, unique);
    if outcome.Err? {
      r := Err(outcome.error);
    } else if outcome.value.Ok? {
      r := Ok(check.(analyses := check.analyses[unique(alias) := outcome.value.value]));
    } else {
      r := Ok(check.(errors := check.errors + [outcome.value.error]));
    }
  }

  /** An analysis without a `vcf_files` entry, reached after successful ones, makes the whole check raise TypeError. */
  lemma AggregationStopsAtMissing(aliases: seq<string>, vcfFiles: map<string, seq<string>>,
                                  detect: string -> Option<string>, unique: string -> string, i: nat)
    requires i < |aliases| && aliases[i] !in vcfFiles
    requires AggregationOutcome(aliases[..i], vcfFiles, detect, unique).Ok?
    ensures AggregationOutcome(aliases, vcfFiles, detect, unique) == Err("TypeError")
  {
    assert aliases[..i + 1][..i] == aliases[..i];
    AggregationFailureStays(aliases, vcfFiles, detect, unique, i + 1);
  }

  lemma {:induction false} AggregationFailureStays(aliases: seq<string>, vcfFiles: map<string, seq<string>>,
                                                   detect: string -> Option<string>, unique: string -> string, k: nat)
    requires k <= |aliases|
    requires AggregationOutcome(aliases[..k], vcfFiles, detect, unique).Err?
    ensures AggregationOutcome(aliases, vcfFiles, detect, unique) == AggregationOutcome(aliases[..k], vcfFiles, detect, unique)
    decreases |aliases| - k
  {
    if k < |aliases| {
      assert aliases[..k + 1][..k] == aliases[..k];
      AggregationFailureStays(aliases, vcfFiles, detect, unique, k + 1);
    } else {
      assert aliases[..k] == aliases;
    }
  }

  /** Every analysis named has VCF files all of one detected aggregation. */
  predicate AllAggregated(aliases: seq<string>, vcfFiles: map<string, seq<string>>,
                          detect: string -> Option<string>, unique: string -> string)
  {
    forall i :: 0 <= i < |aliases| ==>
      aliases[i] in vcfFiles && AnalysisAggregation(unique(aliases[i]), vcfFiles[aliases[i]], detect).Ok?
  }

  lemma AllAggregatedSnoc(aliases: seq<string>, alias: string, vcfFiles: map<string, seq<string>>,
                          detect: string -> Option<string>, unique: string -> string)
    ensures AllAggregated(aliases + [alias], vcfFiles, detect, unique) <==>
      AllAggregated(aliases, vcfFiles, detect, unique) &&
      alias in vcfFiles && AnalysisAggregation(unique(alias), vcfFiles[alias], detect).Ok?
  {
    var longer := aliases + [alias];
    assert forall i :: 0 <= i < |aliases| ==> longer[i] == aliases[i];
    assert longer[|aliases|] == alias;
  }

  /** The analysis has `vcf_files`, and handling it raises nothing. */
  predicate Handled(alias: string, vcfFiles: map<string, seq<string>>, detect: string -> Option<string>, unique: string -> string)
  {
    alias in vcfFiles && AnalysisAggregationAsWritten(alias, vcfFiles, detect, unique).Ok?
  }

  /** Every analysis named is handled without raising. */
  predicate AllHandled(aliases: seq<string>, vcfFiles: map<string, seq<string>>,
                       detect: string -> Option<string>, unique: string -> string)
  {
    forall i :: 0 <= i < |aliases| ==> Handled(aliases[i], vcfFiles, detect, unique)
  }

  lemma AllHandledSnoc(aliases: seq<string>, alias: string, vcfFiles: map<string, seq<string>>,
                       detect: string -> Option<string>, unique: string -> string)
    ensures AllHandled(aliases + [alias], vcfFiles, detect, unique) <==>
      AllHandled(aliases, vcfFiles, detect, unique) && Handled(alias, vcfFiles, detect, unique)
  {
    var longer := aliases + [alias];
    assert forall i :: 0 <= i < |aliases| ==> longer[i] == aliases[i];
    assert longer[|aliases|] == alias;
  }

  /** The analyses, in order, that do not get an aggregation. */
  function FailingAnalyses(aliases: seq<string>, vcfFiles: map<string, seq<string>>,
                           detect: string -> Option<string>, unique: string -> string): seq<string>
  {
    MapFilter(aliases, (a: string) => a in vcfFiles && AnalysisAggregation(unique(a), vcfFiles[a], detect).Err?, (a: string) => a)
  }

  lemma FailingAnalysesSnoc(aliases: seq<string>, alias: string, vcfFiles: map<string, seq<string>>,
                            detect: string -> Option<string>, unique: string -> string)
    requires alias in vcfFiles
    ensures |FailingAnalyses(aliases + [alias], vcfFiles, detect, unique)| ==
      |FailingAnalyses(aliases, vcfFiles, detect, unique)| + (if AnalysisAggregation(unique(alias), vcfFiles[alias], detect).Ok? then 0 else 1)
  {
    MapFilterStep(aliases, alias, (a: string) => a in vcfFiles && AnalysisAggregation(unique(a), vcfFiles[a], detect).Err?, (a: string) => a);
  }

  /**
   * One more analysis either raises, and the check raises with it, or adds its
   * error, if it has one, and nothing else to the errors.
   */
  lemma AggregationStep(aliases: seq<string>, vcfFiles: map<string, seq<string>>,
                        detect: string -> Option<string>, unique: string -> string)
    requires aliases != [] && aliases[|aliases| - 1] in vcfFiles
    requires AggregationOutcome(aliases[..|aliases| - 1], vcfFiles, detect, unique).Ok?
    ensures AggregationOutcome(aliases, vcfFiles, detect, unique).Ok? <==>
      AnalysisAggregationAsWritten(aliases[|aliases| - 1], vcfFiles, detect, unique).Ok?
    ensures AggregationOutcome(aliases, vcfFiles, detect, unique).Ok? ==>
      AggregationOutcome(aliases, vcfFiles, detect, unique).value.errors ==
      AggregationOutcome(aliases[..|aliases| - 1], vcfFiles, detect, unique).value.errors +
      (match AnalysisAggregation(unique(aliases[|aliases| - 1]), vcfFiles[aliases[|aliases| - 1]], detect)
       case Ok(_) => []
       case Err(_) => [AnalysisAggregationAsWritten(aliases[|aliases| - 1], vcfFiles, detect, unique).value.error])
  {
  }

  /**
   * The check completes exactly when every analysis has `vcf_files` and none
   * raises; then there is one error per analysis without a single detected
   * aggregation, and the check passes iff every analysis has one.
   */
  lemma {:induction false} AggregationPassIff(aliases: seq<string>, vcfFiles: map<string, seq<string>>,
                                              detect: string -> Option<string>, unique: string -> string)
    ensures AggregationOutcome(aliases, vcfFiles, detect, unique).Ok? <==> AllHandled(aliases, vcfFiles, detect, unique)
    ensures AggregationOutcome(aliases, vcfFiles, detect, unique).Ok? ==>
      |AggregationOutcome(aliases, vcfFiles, detect, unique).value.errors| == |FailingAnalyses(aliases, vcfFiles, detect, unique)|
    ensures AggregationOutcome(aliases, vcfFiles, detect, unique).Ok? ==>
      (AggregationOutcome(aliases, vcfFiles, detect, unique).value.Pass() <==> AllAggregated(aliases, vcfFiles, detect, unique))
  {
    if aliases != [] {
      var init := aliases[..|aliases| - 1];
      var last := aliases[|aliases| - 1];
      assert aliases == init + [last];
      AggregationPassIff(init, vcfFiles, detect, unique);
      AllHandledSnoc(init, last, vcfFiles, detect, unique);
      AllAggregatedSnoc(init, last, vcfFiles, detect, unique);
      if last in vcfFiles && AggregationOutcome(init, vcfFiles, detect, unique).Ok? {
        AggregationStep(aliases, vcfFiles, detect, unique);
        FailingAnalysesSnoc(init, last, vcfFiles, detect, unique);
      }
    }
  }

  /**
   * Where every analysis is already stored under its unique alias, the
   * re-query finds the same files, and nothing raises besides a missing
   * `vcf_files`.
   */
  lemma {:induction false} AggregationUniqueKeysHandled(aliases: seq<string>, vcfFiles: map<string, seq<string>>,
                                                        detect: string -> Option<string>, unique: string -> string)
    requires forall i :: 0 <= i < |aliases| ==> aliases[i] in vcfFiles && unique(aliases[i]) == aliases[i]
    ensures AggregationOutcome(aliases, vcfFiles, detect, unique).Ok?
  {
    AggregationPassIff(aliases, vcfFiles, detect, unique);
    forall i | 0 <= i < |aliases|
      ensures Handled(aliases[i], vcfFiles, detect, unique)
    {
    }
  }

  // ---------------------------------------------------------------------
  // mark_valid_files_and_metadata

  /** `query(*path, ret_default=False)` read as a truth value. */
  predicate QueryTruthy(content: map<string, Json>, path: seq<string>)
  {
    Get(content, path).Some? && Truthy(Get(content, path).value)
  }

  /** Every validation task has passed or was forced. */
  predicate AllTasksPassed(content: map<string, Json>, tasks: seq<string>)
  {
    forall i :: 0 <= i < |tasks| ==>
      QueryTruthy(content, ["validation", tasks[i], "pass"]) || QueryTruthy(content, ["validation", tasks[i], "forced"])
  }

  const AllValidationTasks: seq<string> :=
    ["metadata_check", "assembly_check", "aggregation_check", "vcf_check", "sample_check", "structural_variant_check"]

  /** `aliases` are the keys of `submission.analyses`, each once, when that is a dictionary. */
  predicate ListsAnalyses(content: map<string, Json>, aliases: seq<string>)
  {
    match Get(content, ["submission", "analyses"])
    case Some(JObj(analyses)) =>
      (forall i, j :: 0 <= i < j < |aliases| ==> aliases[i] != aliases[j]) &&
      (forall a :: a in aliases ==> a in analyses) && (forall a :: a in analyses ==> a in aliases)
    case _ => true
  }

  /** `submission.analyses` is a dictionary that can be iterated over. */
  predicate AnalysesDictionary(content: map<string, Json>)
  {
    Get(content, ["submission", "analyses"]).Some? && Get(content, ["submission", "analyses"]).value.JObj?
  }

  /** Where the valid copy of the analysis with unique alias `u` is kept. */
  function ValidAnalysisPath(u: string): seq<string>
  {
    ["validation", "valid", "analyses", u]
  }

  /** `query('submission', 'analyses', alias)`, `None` when absent. */
  function SubmittedAnalysis(content: map<string, Json>, alias: string): Json
  {
    Get(content, ["submission", "analyses", alias]).GetOr(JNull)
  }

  /** `query('submission', 'analyses', alias, 'vcf_files')`, `None` when absent. */
  function SubmittedFiles(content: map<string, Json>, alias: string): Json
  {
    Get(content, ["submission", "analyses", alias, "vcf_files"]).GetOr(JNull)
  }

  /** The shape `AnalysesDictionary` promises, one key at a time. */
  lemma AnalysesShape(content: map<string, Json>)
    requires AnalysesDictionary(content)
    ensures "submission" in content && content["submission"].JObj?
    ensures "analyses" in content["submission"].fields && content["submission"].fields["analyses"].JObj?
    ensures Get(content, ["submission", "analyses"]) == Some(content["submission"].fields["analyses"])
  {
    AnalysesAt(content);
  }

  /** `query('submission', 'analyses')`, one key at a time. */
  lemma AnalysesAt(content: map<string, Json>)
    ensures Get(content, ["submission", "analyses"]) ==
      if "submission" in content && content["submission"].JObj? && "analyses" in content["submission"].fields
      then Some(content["submission"].fields["analyses"]) else None
  {
    GetInKey(JObj(content), "submission");
    assert ["submission", "analyses"] == ["submission"] + ["analyses"];
    GetInAppend(JObj(content), ["submission"], ["analyses"]);
    if "submission" in content {
      GetInKey(content["submission"], "analyses");
    }
  }

  /** `query('submission', k)` reads key `k` of the submission dictionary. */
  lemma SubmissionKeyAt(content: map<string, Json>, k: string)
    ensures Get(content, ["submission", k]) ==
      if "submission" in content && content["submission"].JObj? && k in content["submission"].fields
      then Some(content["submission"].fields[k]) else None
  {
    GetInKey(JObj(content), "submission");
    assert ["submission", k] == ["submission"] + [k];
    GetInAppend(JObj(content), ["submission"], [k]);
    if "submission" in content {
      GetInKey(content["submission"], k);
    }
  }

  /** `query('submission', 'analyses', alias)` reads the entry of the analyses dictionary. */
  lemma SubmittedAnalysisAt(content: map<string, Json>, alias: string)
    requires "submission" in content && content["submission"].JObj?
    requires "analyses" in content["submission"].fields && content["submission"].fields["analyses"].JObj?
    ensures var analyses := content["submission"].fields["analyses"].fields;
      SubmittedAnalysis(content, alias) == if alias in analyses then analyses[alias] else JNull
  {
    AnalysesAt(content);
    assert ["submission", "analyses", alias] == ["submission", "analyses"] + [alias];
    GetInAppend(JObj(content), ["submission", "analyses"], [alias]);
    GetInKey(content["submission"].fields["analyses"], alias);
  }

  /** `query('submission', 'analyses', alias, 'vcf_files')` reads the key of that entry. */
  lemma SubmittedFilesAt(content: map<string, Json>, alias: string)
    requires SubmittedAnalysis(content, alias).JObj?
    ensures var fields := SubmittedAnalysis(content, alias).fields;
      SubmittedFiles(content, alias) == if "vcf_files" in fields then fields["vcf_files"] else JNull
  {
    assert ["submission", "analyses", alias, "vcf_files"] == ["submission", "analyses", alias] + ["vcf_files"];
    GetInAppend(JObj(content), ["submission", "analyses", alias], ["vcf_files"]);
    GetInKey(SubmittedAnalysis(content, alias), "vcf_files");
  }

  /**
   * An analysis once `vcf_files` has been written into it.  The valid copy
   * `set` stores is the submitted dictionary itself, so the write at the
   * copy's `vcf_files` key lands in the submission as well: a dictionary
   * gains the key, holding its own value or None.  Anything else is left as
   * it is, since that write raises before changing anything.
   */
  function Filled(entry: Json): (r: Json)
    ensures r.JObj? <==> entry.JObj?
    ensures r == entry <==> !entry.JObj? || "vcf_files" in entry.fields
    ensures r.JObj? ==>
      r.fields.Keys == entry.fields.Keys + {"vcf_files"} && forall k :: k in entry.fields ==> r.fields[k] == entry.fields[k]
    ensures r.JObj? && "vcf_files" !in entry.fields ==> r.fields["vcf_files"] == JNull
  {
    if !entry.JObj? then entry
    else
      var f := entry.fields;
      var r := JObj(f["vcf_files" := if "vcf_files" in f then f["vcf_files"] else JNull]);
      assert "vcf_files" in f ==> r.fields == f;
      r
  }

  /** The valid copy the loop writes is the filled submitted analysis: the two stay one dictionary. */
  lemma FilledIsValidCopy(content: map<string, Json>, alias: string)
    requires SubmittedAnalysis(content, alias).JObj?
    ensures Filled(SubmittedAnalysis(content, alias)) ==
      JObj(SubmittedAnalysis(content, alias).fields["vcf_files" := SubmittedFiles(content, alias)])
  {
    SubmittedFilesAt(content, alias);
  }

  /** The configuration once the write into the shared dictionary has filled analysis `alias` of the submission. */
  function FillAnalysis(content: map<string, Json>, alias: string): (r: map<string, Json>)
    requires AnalysesDictionary(content)
    ensures AnalysesDictionary(r)
  {
    AnalysesShape(content);
    var submission := content["submission"].fields;
    var analyses := submission["analyses"].fields;
    var filled := if alias in analyses then analyses[alias := Filled(analyses[alias])] else analyses;
    var r := content["submission" := JObj(submission["analyses" := JObj(filled)])];
    AnalysesAt(r);
    r
  }

  /**
   * Filling analysis `alias` changes only that entry of `submission.analyses`:
   * it becomes `Filled`, and every other analysis, every other key of the
   * submission and every other top-level key is kept.
   */
  lemma FillAnalysisEffect(content: map<string, Json>, alias: string)
    requires AnalysesDictionary(content)
    ensures var r := FillAnalysis(content, alias);
      SameExcept(content, r, "submission") &&
      SubmittedAnalysis(r, alias) == Filled(SubmittedAnalysis(content, alias)) &&
      (forall a :: a != alias ==> SubmittedAnalysis(r, a) == SubmittedAnalysis(content, a)) &&
      (forall k :: k != "analyses" ==> Get(r, ["submission", k]) == Get(content, ["submission", k]))
  {
    var r := FillAnalysis(content, alias);
    AnalysesShape(content);
    AnalysesShape(r);
    SubmittedAnalysisAt(content, alias);
    SubmittedAnalysisAt(r, alias);
    forall a | a != alias ensures SubmittedAnalysis(r, a) == SubmittedAnalysis(content, a) {
      SubmittedAnalysisAt(content, a);
      SubmittedAnalysisAt(r, a);
    }
    forall k | k != "analyses" ensures Get(r, ["submission", k]) == Get(content, ["submission", k]) {
      SubmissionKeyAt(content, k);
      SubmissionKeyAt(r, k);
    }
  }

  /** The configuration once the analyses named by the first `n` aliases have been filled, in order. */
  function WithFilled(content: map<string, Json>, aliases: seq<string>, n: nat): (r: map<string, Json>)
    requires AnalysesDictionary(content)
    requires n <= |aliases|
    ensures AnalysesDictionary(r)
  {
    if n == 0 then content else FillAnalysis(WithFilled(content, aliases, n - 1), aliases[n - 1])
  }

  /**
   * Filling the first `n` analyses changes only `submission.analyses`: each
   * named analysis is filled (once or several times, to the same effect),
   * every other one and every other key of the submission is kept.
   */
  lemma {:induction false} WithFilledAnalyses(content: map<string, Json>, aliases: seq<string>, n: nat)
    requires AnalysesDictionary(content)
    requires n <= |aliases|
    ensures SameExcept(content, WithFilled(content, aliases, n), "submission")
    ensures forall k :: k != "analyses" ==> Get(WithFilled(content, aliases, n), ["submission", k]) == Get(content, ["submission", k])
    ensures forall k :: 0 <= k < n ==> SubmittedAnalysis(WithFilled(content, aliases, n), aliases[k]) == Filled(SubmittedAnalysis(content, aliases[k]))
    ensures forall a :: a !in aliases[..n] ==> SubmittedAnalysis(WithFilled(content, aliases, n), a) == SubmittedAnalysis(content, a)
  {
    if n > 0 {
      var prev := WithFilled(content, aliases, n - 1);
      WithFilledAnalyses(content, aliases, n - 1);
      var last := aliases[n - 1];
      FillAnalysisEffect(prev, last);
      assert aliases[..n] == aliases[..n - 1] + [last];
      var once := Filled(SubmittedAnalysis(content, last));
      assert Filled(once) == once;
    }
  }

  /** Once every analysis is filled, a key of the submission other than `analyses` reads as before. */
  lemma FilledKeepsSubmissionKey(before: map<string, Json>, c: map<string, Json>, aliases: seq<string>, k: string)
    requires AnalysesDictionary(before)
    requires SameExcept(WithFilled(before, aliases, |aliases|), c, "validation")
    requires k != "analyses"
    ensures Get(c, ["submission", k]) == Get(before, ["submission", k])
  {
    WithFilledAnalyses(before, aliases, |aliases|);
    GetOutside(WithFilled(before, aliases, |aliases|), c, "validation", ["submission", k]);
  }

  /** The analysis the `i`-th step reads is still the submitted one: no earlier step filled it. */
  lemma NextAnalysisUnfilled(before: map<string, Json>, c: map<string, Json>, aliases: seq<string>, i: nat)
    requires i < |aliases|
    requires AnalysesDictionary(before) && ListsAnalyses(before, aliases)
    requires SameExcept(WithFilled(before, aliases, i), c, "validation")
    ensures SubmittedAnalysis(c, aliases[i]) == SubmittedAnalysis(before, aliases[i])
  {
    WithFilledAnalyses(before, aliases, i);
    AnalysesShape(before);
    assert aliases[i] !in aliases[..i];
    GetOutside(WithFilled(before, aliases, i), c, "validation", ["submission", "analyses", aliases[i]]);
  }

  /** Filling an analysis of two configurations that differ only in `validation` keeps them so. */
  lemma FillAnalysisApart(a: map<string, Json>, b: map<string, Json>, alias: string)
    requires AnalysesDictionary(a)
    requires SameExcept(a, b, "validation")
    ensures AnalysesDictionary(b)
    ensures SameExcept(FillAnalysis(a, alias), FillAnalysis(b, alias), "validation")
  {
    GetOutside(a, b, "validation", ["submission", "analyses"]);
    AnalysesShape(a);
    assert a["submission"] == (a - {"validation"})["submission"] == (b - {"validation"})["submission"] == b["submission"];
    var fa, fb := FillAnalysis(a, alias), FillAnalysis(b, alias);
    assert fa == a["submission" := fa["submission"]] && fb == b["submission" := fb["submission"]] by {
      assert a - {"submission"} == fa - {"submission"} && b - {"submission"} == fb - {"submission"};
      assert "submission" in fa && "submission" in fb;
    }
    assert fa["submission"] == fb["submission"];
    var ra, rb := fa - {"validation"}, fb - {"validation"};
    forall k ensures k in ra <==> k in rb {
      assert k != "submission" && k != "validation" ==> (k in a <==> k in a - {"validation"});
      assert k != "submission" && k != "validation" ==> (k in b <==> k in b - {"validation"});
    }
    forall k | k in ra ensures ra[k] == rb[k] {
      if k != "submission" {
        assert a[k] == (a - {"validation"})[k] && b[k] == (b - {"validation"})[k];
      }
    }
    assert ra == rb;
  }

  /** Writes outside `validation` keep the copies made so far. */
  lemma CopiedUpToOutside(c: map<string, Json>, c': map<string, Json>, before: map<string, Json>,
                          aliases: seq<string>, unique: string -> string, n: nat)
    requires n <= |aliases|
    requires CopiedUpTo(c, before, aliases, unique, n)
    requires SameExcept(c, c', "submission")
    ensures CopiedUpTo(c', before, aliases, unique, n)
  {
    forall u: string ensures Get(c', ValidAnalysisPath(u)) == Get(c, ValidAnalysisPath(u)) &&
      Get(c', ValidAnalysisPath(u) + ["vcf_files"]) == Get(c, ValidAnalysisPath(u) + ["vcf_files"])
    {
      GetOutside(c, c', "submission", ValidAnalysisPath(u));
      GetOutside(c, c', "submission", ValidAnalysisPath(u) + ["vcf_files"]);
    }
  }

  /** No analysis after position `i`, among the first `n`, has the same unique alias. */
  predicate LastOfUnique(aliases: seq<string>, unique: string -> string, i: nat, n: nat)
    requires i < n <= |aliases|
  {
    forall j :: i < j < n ==> unique(aliases[j]) != unique(aliases[i])
  }

  /**
   * The copies made of the first `n` analyses: under the unique alias of
   * each one that no later one overwrites is the submitted analysis (a
   * dictionary), with its `vcf_files` written again from the submission.
   */
  predicate CopiedUpTo(content: map<string, Json>, before: map<string, Json>, aliases: seq<string>, unique: string -> string, n: nat)
    requires n <= |aliases|
  {
    forall i :: 0 <= i < n && LastOfUnique(aliases, unique, i, n) ==>
      SubmittedAnalysis(before, aliases[i]).JObj? &&
      Get(content, ValidAnalysisPath(unique(aliases[i]))) ==
        Some(JObj(SubmittedAnalysis(before, aliases[i]).fields["vcf_files" := SubmittedFiles(before, aliases[i])])) &&
      Get(content, ValidAnalysisPath(unique(aliases[i])) + ["vcf_files"]) == Some(SubmittedFiles(before, aliases[i]))
  }

  /**
   * `mark_valid_files_and_metadata` without the merge that follows it: when
   * every task passed or was forced, each analysis of the submission (in the
   * order of `aliases`, its keys) is copied under
   * `validation.valid.analyses.<unique alias>` and its `vcf_files` written
   * there again, then the metadata spreadsheet is recorded.  The copy is the
   * submitted dictionary itself, so besides `validation` each submitted
   * analysis changes too: it is `Filled`.  When some task neither passed nor
   * was forced, nothing changes.
   */
  method MarkValidFilesAndMetadata(cfg: EloadConfig, aliases: seq<string>, unique: string -> string)
    returns (r: Result<()>)
    requires cfg.content != map[]
    requires ListsAnalyses(cfg.content, aliases)
    modifies cfg
    ensures cfg.configFile == old(cfg.configFile)
    ensures r.Ok? && AllTasksPassed(old(cfg.content), AllValidationTasks) ==>
      AnalysesDictionary(old(cfg.content)) &&
      SameExcept(WithFilled(old(cfg.content), aliases, |aliases|), cfg.content, "validation")
    ensures r.Err? && AnalysesDictionary(old(cfg.content)) ==>
      exists k :: 0 <= k <= |aliases| && SameExcept(WithFilled(old(cfg.content), aliases, k), cfg.content, "validation")
    ensures !AllTasksPassed(old(cfg.content), AllValidationTasks) ==> r.Ok? && cfg.content == old(cfg.content)
    ensures AllTasksPassed(old(cfg.content), AllValidationTasks) && !AnalysesDictionary(old(cfg.content)) ==>
      r == Err("TypeError") && cfg.content == old(cfg.content)
    ensures r.Ok? && AllTasksPassed(old(cfg.content), AllValidationTasks) ==>
      CopiedUpTo(cfg.content, old(cfg.content), aliases, unique, |aliases|)
    ensures r.Ok? && AllTasksPassed(old(cfg.content), AllValidationTasks) ==>
      Get(cfg.content, ["validation", "valid", "metadata_spreadsheet"]) ==
        Some(Get(old(cfg.content), ["submission", "metadata_spreadsheet"]).GetOr(JNull))
  {
    if !AllTasksPassed(cfg.content, AllValidationTasks) {
      return Ok(());
    }
    if !AnalysesDictionary(cfg.content) {
      return Err("TypeError");
    }
    ghost var before := cfg.content;
    for i := 0 to |aliases|
      invariant cfg.content != map[]
      invariant cfg.configFile == old(cfg.configFile)
      invariant SameExcept(WithFilled(before, aliases, i), cfg.content, "validation")
      invariant CopiedUpTo(cfg.content, before, aliases, unique, i)
    {
      var step := CopyValidAnalysis(cfg, before, aliases, i, unique);
      if step.Err? {
        assert SameExcept(WithFilled(before, aliases, i), cfg.content, "validation");
        return step;
      }
    }
    FilledKeepsSubmissionKey(before, cfg.content, aliases, "metadata_spreadsheet");
    var sheet := Get(cfg.content, ["submission", "metadata_spreadsheet"]).GetOr(JNull);
    ghost var copied := cfg.content;
    var sheetPath := ["validation", "valid", "metadata_spreadsheet"];
    r := SetValidation(cfg, sheetPath, sheet);
    if r.Err? {
      assert SameExcept(WithFilled(before, aliases, |aliases|), cfg.content, "validation");
    } else {
      forall u: string
        ensures Diverge(sheetPath, ValidAnalysisPath(u)) && Diverge(sheetPath, ValidAnalysisPath(u) + ["vcf_files"])
      {
        var p, q := ValidAnalysisPath(u), ValidAnalysisPath(u) + ["vcf_files"];
        assert sheetPath[2] != p[2] && sheetPath[2] != q[2];
      }
      CopiedUpToKept(copied, cfg.content, before, aliases, unique, |aliases|, sheetPath);
    }
  }

  /** Writes along paths apart from `path` keep the copies made so far. */
  lemma CopiedUpToKept(c: map<string, Json>, c': map<string, Json>, before: map<string, Json>,
                       aliases: seq<string>, unique: string -> string, n: nat, path: seq<string>)
    requires n <= |aliases|
    requires CopiedUpTo(c, before, aliases, unique, n)
    requires forall u :: Diverge(path, ValidAnalysisPath(u)) && Diverge(path, ValidAnalysisPath(u) + ["vcf_files"])
    requires forall q :: Diverge(path, q) ==> Get(c', q) == Get(c, q)
    ensures CopiedUpTo(c', before, aliases, unique, n)
  {
  }

  /**
   * The loop body of `mark_valid_files_and_metadata`: the `i`-th analysis is
   * copied under its unique alias, then its `vcf_files` written there again.
   */
  method CopyValidAnalysis(cfg: EloadConfig, ghost before: map<string, Json>, aliases: seq<string>, i: nat, unique: string -> string)
    returns (r: Result<()>)
    requires i < |aliases| && cfg.content != map[]
    requires AnalysesDictionary(before) && ListsAnalyses(before, aliases)
    requires SameExcept(WithFilled(before, aliases, i), cfg.content, "validation")
    requires CopiedUpTo(cfg.content, before, aliases, unique, i)
    modifies cfg
    ensures cfg.configFile == old(cfg.configFile) && cfg.content != map[]
    ensures r.Ok? ==> SameExcept(WithFilled(before, aliases, i + 1), cfg.content, "validation")
    ensures r.Err? ==> SameExcept(WithFilled(before, aliases, i), cfg.content, "validation")
    ensures r.Ok? ==> CopiedUpTo(cfg.content, before, aliases, unique, i + 1)
  {
    var alias := aliases[i];
    var u := unique(alias);
    NextAnalysisUnfilled(before, cfg.content, aliases, i);
    var entry := Get(cfg.content, ["submission", "analyses", alias]).GetOr(JNull);
    var files := Get(cfg.content, ["submission", "analyses", alias, "vcf_files"]).GetOr(JNull);
    ghost var c0 := cfg.content;
    var path := ValidAnalysisPath(u);
    r := SetValidation(cfg, path, entry);
    if r.Err? {
      return;
    }
    ghost var c1 := cfg.content;
    var filesPath := path + ["vcf_files"];
    assert filesPath[..|filesPath| - 1] == path;
    r := SetValidation(cfg, filesPath, files);
    if r.Err? {
      return;
    }
    assert entry.JObj? && Get(cfg.content, path) == Some(JObj(entry.fields["vcf_files" := files]));
    SubmittedFilesAt(c0, alias);
    SubmittedFilesAt(before, alias);
    WritesApartKeepCopies(c0, c1, cfg.content, u);
    CopiedAfterStep(c0, cfg.content, before, aliases, unique, i);
    FillSharedAnalysis(cfg, before, aliases, i, unique);
  }

  /**
   * The valid copy just written is the submitted dictionary itself, so its
   * new `vcf_files` key is there in `submission.analyses.<alias>` as well.
   */
  method FillSharedAnalysis(cfg: EloadConfig, ghost before: map<string, Json>, aliases: seq<string>, i: nat, unique: string -> string)
    requires i < |aliases|
    requires AnalysesDictionary(before)
    requires SameExcept(WithFilled(before, aliases, i), cfg.content, "validation")
    requires CopiedUpTo(cfg.content, before, aliases, unique, i + 1)
    modifies cfg
    ensures cfg.configFile == old(cfg.configFile) && cfg.content != map[]
    ensures SameExcept(WithFilled(before, aliases, i + 1), cfg.content, "validation")
    ensures CopiedUpTo(cfg.content, before, aliases, unique, i + 1)
  {
    ghost var c := cfg.content;
    FillAnalysisApart(WithFilled(before, aliases, i), c, aliases[i]);
    FillAnalysisEffect(c, aliases[i]);
    cfg.content := FillAnalysis(cfg.content, aliases[i]);
    AnalysesShape(cfg.content);
    CopiedUpToOutside(c, cfg.content, before, aliases, unique, i + 1);
  }

  /** The two writes for unique alias `u` keep the copies under every other unique alias. */
  lemma WritesApartKeepCopies(c0: map<string, Json>, c1: map<string, Json>, c2: map<string, Json>, u: string)
    requires forall q :: Diverge(ValidAnalysisPath(u), q) ==> Get(c1, q) == Get(c0, q)
    requires forall q :: Diverge(ValidAnalysisPath(u) + ["vcf_files"], q) ==> Get(c2, q) == Get(c1, q)
    ensures forall w :: w != u ==>
      Get(c2, ValidAnalysisPath(w)) == Get(c0, ValidAnalysisPath(w)) &&
      Get(c2, ValidAnalysisPath(w) + ["vcf_files"]) == Get(c0, ValidAnalysisPath(w) + ["vcf_files"])
  {
    var path := ValidAnalysisPath(u);
    var filesPath := path + ["vcf_files"];
    forall w | w != u
      ensures Get(c2, ValidAnalysisPath(w)) == Get(c0, ValidAnalysisPath(w))
      ensures Get(c2, ValidAnalysisPath(w) + ["vcf_files"]) == Get(c0, ValidAnalysisPath(w) + ["vcf_files"])
    {
      var p, q := ValidAnalysisPath(w), ValidAnalysisPath(w) + ["vcf_files"];
      assert path[3] != p[3] && path[3] != q[3] && filesPath[3] != p[3] && filesPath[3] != q[3];
      assert Diverge(path, p) && Diverge(filesPath, p);
      assert Diverge(path, q) && Diverge(filesPath, q);
    }
  }

  /** One more analysis copied, and the other copies kept, extends the copies made so far. */
  lemma CopiedAfterStep(c0: map<string, Json>, c: map<string, Json>, before: map<string, Json>,
                        aliases: seq<string>, unique: string -> string, i: nat)
    requires i < |aliases|
    requires CopiedUpTo(c0, before, aliases, unique, i)
    requires SubmittedAnalysis(before, aliases[i]).JObj?
    requires Get(c, ValidAnalysisPath(unique(aliases[i]))) ==
      Some(JObj(SubmittedAnalysis(before, aliases[i]).fields["vcf_files" := SubmittedFiles(before, aliases[i])]))
    requires Get(c, ValidAnalysisPath(unique(aliases[i])) + ["vcf_files"]) == Some(SubmittedFiles(before, aliases[i]))
    requires forall w :: w != unique(aliases[i]) ==>
      Get(c, ValidAnalysisPath(w)) == Get(c0, ValidAnalysisPath(w)) &&
      Get(c, ValidAnalysisPath(w) + ["vcf_files"]) == Get(c0, ValidAnalysisPath(w) + ["vcf_files"])
    ensures CopiedUpTo(c, before, aliases, unique, i + 1)
  {
    forall k | 0 <= k < i && LastOfUnique(aliases, unique, k, i + 1)
      ensures LastOfUnique(aliases, unique, k, i) && unique(aliases[k]) != unique(aliases[i])
    {
    }
  }

  /**
   * `set` of a path under `validation`: only `validation` changes, the value
   * reads back, paths apart are kept, and the dictionary one level up gains
   * the key.
   */
  method SetValidation(cfg: EloadConfig, path: seq<string>, value: Json) returns (r: Result<()>)
    requires cfg.content != map[]
    requires path != [] && path[0] == "validation"
    modifies cfg
    ensures cfg.configFile == old(cfg.configFile)
    ensures cfg.content != map[]
    ensures SameExcept(old(cfg.content), cfg.content, "validation")
    ensures r.Ok? ==> Get(cfg.content, path) == Some(value)
    ensures r.Ok? ==> forall q :: Diverge(path, q) ==> Get(cfg.content, q) == Get(old(cfg.content), q)
    ensures r.Ok? && |path| >= 2 && Get(old(cfg.content), path[..|path| - 1]).Some? ==>
      Get(old(cfg.content), path[..|path| - 1]).value.JObj? &&
      Get(cfg.content, path[..|path| - 1]) ==
        Some(JObj(Get(old(cfg.content), path[..|path| - 1]).value.fields[path[|path| - 1] := value]))
  {
    ghost var before := cfg.content;
    assert WithVersion(before, cfg.version) == before;
    r := cfg.Set(path, value);
    if r.Ok? {
      SetPathOutside(before, path, value);
      forall q | Diverge(path, q) ensures Get(cfg.content, q) == Get(before, q) {
        SetInKeepsOthers(JObj(before), path, value, q);
      }
      if |path| >= 2 && Get(before, path[..|path| - 1]).Some? {
        assert path == path[..|path| - 1] + [path[|path| - 1]];
        SetInUpdates(JObj(before), path[..|path| - 1], path[|path| - 1], value, Get(before, path[..|path| - 1]).value);
      }
    }
  }
}
