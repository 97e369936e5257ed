/**
 * The post-ingestion quality checks of a submission: replacing the last
 * occurrences of a substring, reading job logs for a unit of work, the
 * PASS/FAIL report over the failed units, whether the web service lists the
 * study, and which expected files are missing from the public FTP area.
 * Log files found by a glob are a function from the pattern to the matched
 * files (each its sequence of lines); web and FTP answers are inputs.
 */
module SubmissionQcChecks {
  import opened Wrappers
  import opened Text
  import opened JsonValues
  import opened QcUtils

  // ---------------------------------------------------------------------
  // rreplace

  /** The last occurrence of `t` in `s` at or before `k`. */
  function LastFrom(s: string, t: string, k: nat): (r: Option<nat>)
    ensures r.Some? ==> r.value <= k && OccursAt(s, t, r.value)
    ensures r.Some? ==> forall j :: r.value < j <= k ==> !OccursAt(s, t, j)
    ensures r.None? ==> forall j :: 0 <= j <= k ==> !OccursAt(s, t, j)
  {
    if OccursAt(s, t, k) then Some(k)
    else if k == 0 then None
    else LastFrom(s, t, k - 1)
  }

  /** The last occurrence of `t` in `s`. */
  function LastIndexOf(s: string, t: string): (r: Option<nat>)
    ensures r.Some? ==> OccursAt(s, t, r.value)
  {
    if |t| > |s| then None else LastFrom(s, t, |s| - |t|)
  }

  /** No occurrence follows the last one, and there is none at all exactly when `t` is not in `s`. */
  lemma LastIndexOfFacts(s: string, t: string)
    ensures LastIndexOf(s, t).Some? ==> forall j :: LastIndexOf(s, t).value < j ==> !OccursAt(s, t, j)
    ensures LastIndexOf(s, t).None? <==> !Contains(s, t)
  {
    assert forall j :: |s| - |t| < j ==> !OccursAt(s, t, j);
  }

  /** Python's `s.rsplit(sep, n)` for a non-empty separator: at most `n` splits, from the right. */
  function RSplit(s: string, sep: string, n: nat): (r: seq<string>)
    requires sep != []
    ensures 1 <= |r| <= n + 1
    decreases n
  {
    if n == 0 then [s]
    else match LastIndexOf(s, sep)
      case None => [s]
      case Some(i) => RSplit(s[..i], sep, n - 1) + [s[i + |sep|..]]
  }

  /** `rreplace`: the last `occurrence` occurrences of `target` replaced; an empty target raises ValueError. */
  function RReplace(s: string, target: string, replacement: string, occurrence: nat): (r: Result<string>)
    ensures r.Err? <==> target == []
  {
    if target == [] then Err("ValueError") else Ok(Join(RSplit(s, target, occurrence), replacement))
  }

  lemma {:induction false} JoinSnoc(parts: seq<string>, x: string, sep: string)
    requires parts != []
    ensures Join(parts + [x], sep) == Join(parts, sep) + sep + x
  {
    if |parts| > 1 {
      assert (parts + [x])[1..] == parts[1..] + [x];
      JoinSnoc(parts[1..], x, sep);
    }
  }

  lemma SplitAround(s: string, sep: string, i: nat)
    requires OccursAt(s, sep, i)
    ensures s == s[..i] + sep + s[i + |sep|..]
  {
    assert s == s[..i] + s[i..i + |sep|] + s[i + |sep|..];
  }

  /** One split: the pieces of the part before the last occurrence, then the part after it. */
  lemma RSplitStep(s: string, sep: string, n: nat)
    requires sep != [] && n > 0 && LastIndexOf(s, sep).Some?
    ensures var i := LastIndexOf(s, sep).value;
      RSplit(s, sep, n) == RSplit(s[..i], sep, n - 1) + [s[i + |sep|..]]
  {
  }

  /** Joining the pieces with the separator gives the string back. */
  lemma {:induction false} RSplitJoin(s: string, sep: string, n: nat)
    requires sep != []
    ensures Join(RSplit(s, sep, n), sep) == s
    decreases n
  {
    if n == 0 || LastIndexOf(s, sep).None? {
      assert RSplit(s, sep, n) == [s];
    } else {
      RSplitJoin(s[..LastIndexOf(s, sep).value], sep, n - 1);
      RSplitJoinStep(s, sep, n);
    }
  }

  lemma RSplitJoinStep(s: string, sep: string, n: nat)
    requires sep != [] && n > 0 && LastIndexOf(s, sep).Some?
    requires Join(RSplit(s[..LastIndexOf(s, sep).value], sep, n - 1), sep) == s[..LastIndexOf(s, sep).value]
    ensures Join(RSplit(s, sep, n), sep) == s
  {
    var i := LastIndexOf(s, sep).value;
    var pre, tail := RSplit(s[..i], sep, n - 1), s[i + |sep|..];
    RSplitStep(s, sep, n);
    JoinSnoc(pre, tail, sep);
    SplitAround(s, sep, i);
  }

  /** An occurrence in the part after `i + |sep|` is an occurrence in `s`. */
  lemma OccursLater(s: string, sep: string, i: nat, j: nat)
    requires i + |sep| <= |s| && OccursAt(s[i + |sep|..], sep, j)
    ensures OccursAt(s, sep, i + |sep| + j)
  {
    assert s[i + |sep| + j..i + |sep| + j + |sep|] == s[i + |sep|..][j..j + |sep|];
  }

  /** The part after the last occurrence holds no occurrence. */
  lemma AfterLastClear(s: string, sep: string)
    requires sep != [] && LastIndexOf(s, sep).Some?
    ensures !Contains(s[LastIndexOf(s, sep).value + |sep|..], sep)
  {
    var i := LastIndexOf(s, sep).value;
    var tail := s[i + |sep|..];
    LastIndexOfFacts(s, sep);
    forall j | 0 <= j <= |tail| - |sep|
      ensures !OccursAt(tail, sep, j)
    {
      if OccursAt(tail, sep, j) {
        OccursLater(s, sep, i, j);
      }
    }
  }

  /**
   * Only the last occurrences are split: no piece after the first holds the
   * separator, and the first holds it only when all `n` splits were used.
   */
  lemma {:induction false} RSplitPieces(s: string, sep: string, n: nat)
    requires sep != []
    ensures forall k :: 1 <= k < |RSplit(s, sep, n)| ==> !Contains(RSplit(s, sep, n)[k], sep)
    ensures |RSplit(s, sep, n)| <= n ==> !Contains(RSplit(s, sep, n)[0], sep)
    decreases n
  {
    if n > 0 && LastIndexOf(s, sep).Some? {
      var i := LastIndexOf(s, sep).value;
      var pre := RSplit(s[..i], sep, n - 1);
      RSplitStep(s, sep, n);
      RSplitPieces(s[..i], sep, n - 1);
      AfterLastClear(s, sep);
      assert forall k :: 0 <= k < |pre| ==> RSplit(s, sep, n)[k] == pre[k];
    } else if n > 0 {
      LastIndexOfFacts(s, sep);
    }
  }

  /** A name ending in .vcf.gz keeps its stem and gains .accessioned before the extension. */
  lemma AccessionedName(stem: string)
    ensures RReplace(stem + ".vcf.gz", ".vcf.gz", ".accessioned.vcf.gz", 1) == Ok(stem + ".accessioned.vcf.gz")
  {
    var s := stem + ".vcf.gz";
    var i := |stem|;
    assert OccursAt(s, ".vcf.gz", i) by { assert s[i..i + 7] == ".vcf.gz"; }
    assert LastFrom(s, ".vcf.gz", i) == Some(i);
    assert LastIndexOf(s, ".vcf.gz") == Some(i);
    assert s[..i] == stem && s[i + 7..] == [];
    RSplitStep(s, ".vcf.gz", 1);
    assert RSplit(s, ".vcf.gz", 1) == [stem, []];
    assert Join([stem, []], ".accessioned.vcf.gz") == stem + ".accessioned.vcf.gz" + Join([[]], ".accessioned.vcf.gz");
    assert stem + ".accessioned.vcf.gz" + [] == stem + ".accessioned.vcf.gz";
    assert RReplace(s, ".vcf.gz", ".accessioned.vcf.gz", 1) == Ok(Join(RSplit(s, ".vcf.gz", 1), ".accessioned.vcf.gz"));
  }

  // ---------------------------------------------------------------------
  // Job logs

  /** `did_job_complete_successfully_from_log` on a log's lines. */
  function JobCompleted(lines: seq<string>, jobType: string): Result<bool>
  {
    match JobTexts(jobType)
    case None => Err("KeyError")
    case Some(texts) => Ok(FinalStatus(lines, texts.0, texts.1) == "COMPLETED")
  }

  /**
   * `_find_log_and_check_job`: the first log the pattern finds decides; a
   * failed job reports its failed step, a missing log says so.
   */
  function FindLogAndCheckJob(unit: string, logFiles: seq<seq<string>>, jobType: string): (r: Result<(bool, string)>)
    ensures r.Ok? && r.value.0 ==> r.value.1 == ""
    ensures r.Ok? && !r.value.0 ==> StartsWith(r.value.1, jobType)
    ensures logFiles == [] ==> r.Ok? && !r.value.0
  {
    if logFiles == [] then
      var msg := jobType + " error : No " + jobType + " log file found for " + unit;
      assert msg[..|jobType|] == jobType;
      Ok((false, msg))
    else match JobCompleted(logFiles[0], jobType)
      case Err(e) => Err(e)
      case Ok(true) => Ok((true, ""))
      case Ok(false) =>
        match FailedName(logFiles[0])
        case Err(e) => Err(e)
        case Ok(name) =>
          var msg := jobType + " failed job/step : " + name;
          assert msg[..|jobType|] == jobType;
          Ok((false, msg))
  }

  /** The outcome of each pair of log pattern and job type. */
  function Checks(unit: string, patterns: seq<string>, jobTypes: seq<string>, logs: string -> seq<seq<string>>): (r: seq<Result<(bool, string)>>)
    requires |patterns| == |jobTypes|
    ensures |r| == |patterns| && forall k :: 0 <= k < |r| ==> r[k] == FindLogAndCheckJob(unit, logs(patterns[k]), jobTypes[k])
  {
    seq(|patterns|, k requires 0 <= k < |patterns| => FindLogAndCheckJob(unit, logs(patterns[k]), jobTypes[k]))
  }

  /** The outcomes from index `i` on, up to the first pass, with the error text of the last one checked. */
  function FirstPassing(checks: seq<Result<(bool, string)>>, i: nat, lastError: string): Result<(bool, string)>
    decreases |checks| - i
  {
    if i >= |checks| then Ok((false, lastError))
    else match checks[i]
      case Err(e) => Err(e)
      case Ok((pass, text)) => if pass then Ok((true, text)) else FirstPassing(checks, i + 1, text)
  }

  /** `_check_multiple_logs`: the pairs of log pattern and job type in order, stopping at the first that passes. */
  function MultipleLogs(unit: string, patterns: seq<string>, jobTypes: seq<string>, logs: string -> seq<seq<string>>): Result<(bool, string)>
    requires |patterns| == |jobTypes|
  {
    FirstPassing(Checks(unit, patterns, jobTypes, logs), 0, "No log checked for " + unit)
  }

  function TextOf(c: Result<(bool, string)>): string
  {
    if c.Ok? then c.value.1 else ""
  }

  /**
   * When every outcome is known, the result passes exactly when some check
   * passes, with that check's text; otherwise the text is that of the last
   * check, or the one given when there was none.
   */
  lemma {:induction false} FirstPassingMeaning(checks: seq<Result<(bool, string)>>, i: nat, lastError: string)
    requires i <= |checks|
    requires forall k :: i <= k < |checks| ==> checks[k].Ok?
    ensures var r := FirstPassing(checks, i, lastError);
      r.Ok? &&
      (r.value.0 <==> exists k :: i <= k < |checks| && checks[k].value.0) &&
      (r.value.0 ==> exists k :: i <= k < |checks| && checks[k].value.0 && r.value.1 == checks[k].value.1) &&
      (!r.value.0 && i == |checks| ==> r.value.1 == lastError) &&
      (!r.value.0 && i < |checks| ==> r.value.1 == TextOf(checks[|checks| - 1]))
    decreases |checks| - i
  {
    if i < |checks| && !checks[i].value.0 {
      FirstPassingMeaning(checks, i + 1, checks[i].value.1);
    }
  }

  /** With every log readable, the logs pass exactly when one job passes, and then with no error text. */
  lemma MultipleLogsMeaning(unit: string, patterns: seq<string>, jobTypes: seq<string>, logs: string -> seq<seq<string>>)
    requires |patterns| == |jobTypes|
    requires forall k :: 0 <= k < |patterns| ==> FindLogAndCheckJob(unit, logs(patterns[k]), jobTypes[k]).Ok?
    ensures var r := MultipleLogs(unit, patterns, jobTypes, logs);
      r.Ok? &&
      (r.value.0 <==> exists k :: 0 <= k < |patterns| && FindLogAndCheckJob(unit, logs(patterns[k]), jobTypes[k]).value.0) &&
      (r.value.0 ==> r.value.1 == "") &&
      (patterns == [] ==> r.value.1 == "No log checked for " + unit) &&
      (!r.value.0 && patterns != [] ==> r.value.1 == FindLogAndCheckJob(unit, logs(patterns[|patterns| - 1]), jobTypes[|patterns| - 1]).value.1)
  {
    var checks := Checks(unit, patterns, jobTypes, logs);
    FirstPassingMeaning(checks, 0, "No log checked for " + unit);
  }

  /** `_check_multiple_logs` as a loop that breaks at the first passing job. */
  method CheckMultipleLogs(unit: string, patterns: seq<string>, jobTypes: seq<string>, logs: string -> seq<seq<string>>) returns (r: Result<(bool, string)>)
    requires |patterns| == |jobTypes|
    ensures r == MultipleLogs(unit, patterns, jobTypes, logs)
  {
    ghost var checks := Checks(unit, patterns, jobTypes, logs);
    var anyPass := false;
    var lastError := "No log checked for " + unit;
    var i := 0;
    while i < |patterns| && !anyPass
      invariant i <= |patterns|
      invariant !anyPass ==> MultipleLogs(unit, patterns, jobTypes, logs) == FirstPassing(checks, i, lastError)
      invariant anyPass ==> MultipleLogs(unit, patterns, jobTypes, logs) == Ok((true, lastError))
    {
      var found := FindLogAndCheckJob(unit, logs(patterns[i]), jobTypes[i]);
      assert found == checks[i];
      if found.Err? {
        return Err(found.error);
      }
      var checkPass;
      checkPass, lastError := found.value.0, found.value.1;
      anyPass := anyPass || checkPass;
      i := i + 1;
    }
    return Ok((anyPass, lastError));
  }

  // ---------------------------------------------------------------------
  // Reports

  const Pass := "PASS"
  const Fail := "FAIL"

  /** The lines listing the failed units, each `unit - error` on its own indented line. */
  function FailureLines(failed: seq<(string, string)>): string
  {
    if failed == [] then ""
    else
      var last := failed[|failed| - 1];
      FailureLines(failed[..|failed| - 1]) + "\n                " + last.0 + " - " + last.1
  }

  /** `_report_for_log`: PASS when nothing failed, else FAIL with one line per failed unit. */
  function ReportForLog(failed: seq<(string, string)>): (r: (string, string))
    ensures r.0 == Pass <==> failed == []
    ensures r.0 == Pass || r.0 == Fail
  {
    if failed == [] then (Pass, "Success: " + Pass)
    else (Fail, "Success: " + Fail + "\n            Errors:" + FailureLines(failed))
  }

  lemma ContainsLeft(a: string, b: string, t: string)
    requires Contains(a, t)
    ensures Contains(a + b, t)
  {
    var i :| 0 <= i <= |a| - |t| && OccursAt(a, t, i);
    assert (a + b)[i..i + |t|] == a[i..i + |t|];
    assert OccursAt(a + b, t, i);
  }

  lemma ContainsRight(a: string, b: string, t: string)
    requires Contains(b, t)
    ensures Contains(a + b, t)
  {
    var i :| 0 <= i <= |b| - |t| && OccursAt(b, t, i);
    assert (a + b)[|a| + i..|a| + i + |t|] == b[i..i + |t|];
    assert OccursAt(a + b, t, |a| + i);
  }

  /** Every failed unit is listed in the lines, with its error. */
  lemma {:induction false} FailureLinesList(failed: seq<(string, string)>, k: nat)
    requires k < |failed|
    ensures Contains(FailureLines(failed), failed[k].0 + " - " + failed[k].1)
  {
    var init := failed[..|failed| - 1];
    var last := failed[|failed| - 1];
    var line := last.0 + " - " + last.1;
    if k < |init| {
      FailureLinesList(init, k);
      assert init[k] == failed[k];
      ContainsLeft(FailureLines(init), "\n                " + line, failed[k].0 + " - " + failed[k].1);
      assert FailureLines(failed) == FailureLines(init) + ("\n                " + line);
    } else {
      assert OccursAt(line, line, 0);
      ContainsRight(FailureLines(init) + "\n                ", line, line);
      assert FailureLines(failed) == FailureLines(init) + "\n                " + line;
    }
  }

  /** The report of a failure names every failed unit with its error. */
  lemma ReportListsFailures(failed: seq<(string, string)>, k: nat)
    requires k < |failed|
    ensures Contains(ReportForLog(failed).1, failed[k].0 + " - " + failed[k].1)
  {
    FailureLinesList(failed, k);
    ContainsRight("Success: " + Fail + "\n            Errors:", FailureLines(failed), failed[k].0 + " - " + failed[k].1);
    assert ReportForLog(failed).1 == ("Success: " + Fail + "\n            Errors:") + FailureLines(failed);
  }

  // ---------------------------------------------------------------------
  // The study in the web service's answer

  /** `numTotalResults` as Python compares it with 1. */
  function Count(v: Json): Result<int>
  {
    match v
    case JInt(n) => Ok(n)
    case JBool(b) => Ok(if b then 1 else 0)
    case _ => Err("TypeError")
  }

  /** Some result of the list has `key` equal to the project. */
  function ResultsHave(results: seq<Json>, key: string, project: string): Result<bool>
  {
    if results == [] then Ok(false)
    else if !results[0].JObj? then Err("TypeError")
    else if key !in results[0].fields then Err("KeyError")
    else if results[0].fields[key] == JStr(project) then Ok(true)
    else ResultsHave(results[1..], key, project)
  }

  /** One response: when it counts at least one result, whether one of them is the project. */
  function ResponseHas(response: Json, key: string, project: string): Result<bool>
  {
    if !response.JObj? then Err("TypeError")
    else if "numTotalResults" !in response.fields then Err("KeyError")
    else match Count(response.fields["numTotalResults"])
      case Err(e) => Err(e)
      case Ok(n) =>
        if n < 1 then Ok(false)
        else if "result" !in response.fields then Err("KeyError")
        else match response.fields["result"]
          case JList(results) => ResultsHave(results, key, project)
          case JStr(text) => if text == [] then Ok(false) else Err("TypeError")
          case JObj(fields) => if fields == map[] then Ok(false) else Err("TypeError")
          case _ => Err("TypeError")
  }

  function ResponsesHave(responses: seq<Json>, key: string, project: string): Result<bool>
  {
    if responses == [] then Ok(false)
    else match ResponseHas(responses[0], key, project)
      case Err(e) => Err(e)
      case Ok(true) => Ok(true)
      case Ok(false) => ResponsesHave(responses[1..], key, project)
  }

  /** `_check_if_study_present_in_response`: the responses in order until one lists the project. */
  function StudyPresent(res: map<string, Json>, key: string, project: string): Result<bool>
  {
    if "response" !in res then Ok(false)
    else match res["response"]
      case JList(responses) => ResponsesHave(responses, key, project)
      case JStr(text) => if text == [] then Ok(false) else Err("TypeError")
      case JObj(fields) => if fields == map[] then Ok(false) else Err("TypeError")
      case _ => Err("TypeError")
  }

  /** A result whose `key` is the project. */
  predicate HasProject(r: Json, key: string, project: string)
  {
    r.JObj? && key in r.fields && r.fields[key] == JStr(project)
  }

  /** A result object that carries the key. */
  predicate GoodResult(r: Json, key: string)
  {
    r.JObj? && key in r.fields
  }

  /** A response with an integer count, and (when it counts any) a list of good results. */
  predicate GoodResponse(response: Json, key: string)
  {
    response.JObj? && "numTotalResults" in response.fields && response.fields["numTotalResults"].JInt? &&
    (response.fields["numTotalResults"].i >= 1 ==>
      "result" in response.fields && response.fields["result"].JList? &&
      forall j :: 0 <= j < |response.fields["result"].items| ==> GoodResult(response.fields["result"].items[j], key))
  }

  /** A response counting at least one result, one of which has `key` equal to the project. */
  predicate Lists(response: Json, key: string, project: string)
    requires GoodResponse(response, key)
  {
    response.fields["numTotalResults"].i >= 1 &&
    exists j :: 0 <= j < |response.fields["result"].items| && HasProject(response.fields["result"].items[j], key, project)
  }

  lemma {:induction false} ResultsHaveMeaning(results: seq<Json>, key: string, project: string)
    requires forall j :: 0 <= j < |results| ==> GoodResult(results[j], key)
    ensures ResultsHave(results, key, project) == Ok(exists j :: 0 <= j < |results| && HasProject(results[j], key, project))
  {
    if results != [] {
      ResultsHaveMeaning(results[1..], key, project);
      assert forall j :: 1 <= j < |results| ==> results[j] == results[1..][j - 1];
    }
  }

  lemma {:induction false} ResponsesHaveMeaning(responses: seq<Json>, key: string, project: string)
    requires forall i :: 0 <= i < |responses| ==> GoodResponse(responses[i], key)
    ensures ResponsesHave(responses, key, project) == Ok(exists i :: 0 <= i < |responses| && Lists(responses[i], key, project))
  {
    if responses != [] {
      var r := responses[0];
      if r.fields["numTotalResults"].i >= 1 {
        ResultsHaveMeaning(r.fields["result"].items, key, project);
      }
      ResponsesHaveMeaning(responses[1..], key, project);
      assert forall i :: 1 <= i < |responses| ==> responses[i] == responses[1..][i - 1];
    }
  }

  /** For a well-formed answer, the study is present iff some response counting results lists the project under `key`. */
  lemma StudyPresentMeaning(res: map<string, Json>, key: string, project: string)
    requires "response" in res && res["response"].JList?
    requires forall i :: 0 <= i < |res["response"].items| ==> GoodResponse(res["response"].items[i], key)
    ensures StudyPresent(res, key, project) ==
      Ok(exists i :: 0 <= i < |res["response"].items| && Lists(res["response"].items[i], key, project))
  {
    ResponsesHaveMeaning(res["response"].items, key, project);
  }

  /** An answer without responses (the empty answer after an HTTP error included) does not list the study. */
  lemma NoResponseNoStudy(res: map<string, Json>, key: string, project: string)
    requires "response" !in res || res["response"] == JList([])
    ensures StudyPresent(res, key, project) == Ok(false)
  {
  }

  // ---------------------------------------------------------------------
  // Files missing from the FTP area

  /** A file is there with its index: `f.csi`, or the index named after the file without its last extension. */
  predicate PresentWithIndex(f: string, ftp: seq<string>)
  {
    f in ftp && (f + ".csi" in ftp || SplitExt(f).0 + ".csi" in ftp)
  }

  /** The accessioned counterpart of a VCF file name. */
  function Accessioned(f: string): string
  {
    RReplace(f, ".vcf.gz", ".accessioned.vcf.gz", 1).value
  }

  /** The missing entries for a file and for its index. */
  function MissingPair(f: string, ftp: seq<string>): (r: seq<string>)
    ensures r == [] <==> PresentWithIndex(f, ftp)
  {
    var noExt := SplitExt(f).0;
    (if f !in ftp then [f] else []) +
    (if f + ".csi" !in ftp && noExt + ".csi" !in ftp then [f + ".csi or " + noExt + ".csi"] else [])
  }

  /** The missing entries of one expected file; accessioned files are expected only for non-human data. */
  function MissingFor(f: string, ftp: seq<string>, taxonomy: Option<int>): seq<string>
  {
    MissingPair(f, ftp) + (if taxonomy != Some(9606) then MissingPair(Accessioned(f), ftp) else [])
  }

  /** A file is complete when it and its index are there and, for non-human data, its accessioned file and that one's index. */
  predicate Complete(f: string, ftp: seq<string>, taxonomy: Option<int>)
  {
    PresentWithIndex(f, ftp) && (taxonomy != Some(9606) ==> PresentWithIndex(Accessioned(f), ftp))
  }

  function AllMissing(files: seq<string>, ftp: seq<string>, taxonomy: Option<int>): seq<string>
  {
    if files == [] then []
    else AllMissing(files[..|files| - 1], ftp, taxonomy) + MissingFor(files[|files| - 1], ftp, taxonomy)
  }

  /** Nothing is missing exactly when every file is complete. */
  lemma {:induction false} AllMissingEmpty(files: seq<string>, ftp: seq<string>, taxonomy: Option<int>)
    ensures AllMissing(files, ftp, taxonomy) == [] <==> forall i :: 0 <= i < |files| ==> Complete(files[i], ftp, taxonomy)
  {
    if files != [] {
      var init, f := files[..|files| - 1], files[|files| - 1];
      var before, added := AllMissing(init, ftp, taxonomy), MissingFor(f, ftp, taxonomy);
      assert |before + added| == |before| + |added|;
      AllMissingEmpty(init, ftp, taxonomy);
      MissingForEmpty(f, ftp, taxonomy);
      AllCompleteLast(files, init, ftp, taxonomy);
    }
  }

  lemma MissingForEmpty(f: string, ftp: seq<string>, taxonomy: Option<int>)
    ensures MissingFor(f, ftp, taxonomy) == [] <==> Complete(f, ftp, taxonomy)
  {
    var a := MissingPair(f, ftp);
    var b := if taxonomy != Some(9606) then MissingPair(Accessioned(f), ftp) else [];
    assert |a + b| == |a| + |b|;
  }

  lemma AllCompleteLast(files: seq<string>, init: seq<string>, ftp: seq<string>, taxonomy: Option<int>)
    requires files != [] && init == files[..|files| - 1]
    ensures (forall i :: 0 <= i < |files| ==> Complete(files[i], ftp, taxonomy)) <==>
      (forall i :: 0 <= i < |init| ==> Complete(init[i], ftp, taxonomy)) && Complete(files[|files| - 1], ftp, taxonomy)
  {
    assert forall i :: 0 <= i < |init| ==> init[i] == files[i];
  }

  /** Python's repr of a list of plain strings. */
  function ListRepr(xs: seq<string>): string
  {
    "[" + Join(seq(|xs|, i requires 0 <= i < |xs| => "'" + xs[i] + "'"), ", ") + "]"
  }

  /** The two tests the loop makes of a file: the file itself, then its index under either name. */
  method MissingPairOf(file: string, ftp: seq<string>) returns (missing: seq<string>)
    ensures missing == MissingPair(file, ftp)
  {
    missing := [];
    var noExt := SplitExt(file).0;
    if file !in ftp {
      missing := missing + [file];
    }
    if file + ".csi" !in ftp && noExt + ".csi" !in ftp {
      missing := missing + [file + ".csi or " + noExt + ".csi"];
    }
  }

  /** The body of the loop over the expected files: the entries one file adds. */
  method MissingOfFile(file: string, ftp: seq<string>, taxonomy: Option<int>) returns (missing: seq<string>)
    ensures missing == MissingFor(file, ftp, taxonomy)
  {
    missing := MissingPairOf(file, ftp);
    if taxonomy != Some(9606) {
      var accessioned := Accessioned(file);
      var more := MissingPairOf(accessioned, ftp);
      missing := missing + more;
    }
  }

  /**
   * `check_all_browsable_files_are_available_in_ftp`: FAIL when the listing
   * fails or is empty; otherwise PASS exactly when nothing is missing, with
   * the missing entries in the report.
   */
  method CheckFilesInFtp(vcfFiles: seq<string>, filesInFtp: Option<seq<string>>, taxonomy: Option<int>, project: string) returns (result: string, report: string)
    ensures filesInFtp.None? ==> result == Fail && report == "Error: Error fetching files from ftp for study " + project
    ensures filesInFtp == Some([]) ==> result == Fail && report == "Error: No files found in FTP for study " + project
    ensures filesInFtp.Some? && filesInFtp.value != [] ==>
      (result == Pass <==> forall i :: 0 <= i < |vcfFiles| ==> Complete(vcfFiles[i], filesInFtp.value, taxonomy))
    ensures filesInFtp.Some? && filesInFtp.value != [] ==>
      var missing := AllMissing(vcfFiles, filesInFtp.value, taxonomy);
      report == "Success: " + result + " \n                Missing files: " + (if missing == [] then "None" else ListRepr(missing))
  {
    if filesInFtp.None? {
      return Fail, "Error: Error fetching files from ftp for study " + project;
    }
    var ftp := filesInFtp.value;
    if ftp == [] {
      return Fail, "Error: No files found in FTP for study " + project;
    }
    var missing: seq<string> := [];
    for i := 0 to |vcfFiles|
      invariant missing == AllMissing(vcfFiles[..i], ftp, taxonomy)
    {
      assert vcfFiles[..i + 1][..i] == vcfFiles[..i];
      var m := MissingOfFile(vcfFiles[i], ftp, taxonomy);
      missing := missing + m;
    }
    assert vcfFiles[..|vcfFiles|] == vcfFiles;
    AllMissingEmpty(vcfFiles, ftp, taxonomy);
    result := if missing == [] then Pass else Fail;
    report := "Success: " + result + " \n                Missing files: " + (if missing == [] then "None" else ListRepr(missing));
  }
}
