/**
 * Reading a Spring Batch job log: whether the job of a given type completed,
 * and the name of the step that failed.  The log file is its sequence of
 * lines; the result is not cached.
 */
module QcUtils {
  import opened Wrappers
  import opened Text

  /** The launch and completion texts of each job type. */
  function JobTexts(jobType: string): Option<(seq<string>, seq<string>)>
  {
    var simple := (name: string) =>
      (["Job: [SimpleJob: [name=" + name + "]] launched"], ["Job: [SimpleJob: [name=" + name + "]] completed"]);
    var flow := (name: string) =>
      (["Job: [FlowJob: [name=" + name + "]] launched"], ["Job: [FlowJob: [name=" + name + "]] completed"]);
    match jobType
    case "accession" => Some(simple("CREATE_SUBSNP_ACCESSION_JOB"))
    case "variant_load" =>
      Some((["Job: [FlowJob: [name=genotyped-vcf-job]] launched", "Job: [FlowJob: [name=aggregated-vcf-job]] launched"],
            ["Job: [FlowJob: [name=genotyped-vcf-job]] completed", "Job: [FlowJob: [name=aggregated-vcf-job]] completed"]))
    case "load_vcf" => Some(flow("load-vcf-job"))
    case "annotate_variants" => Some(flow("annotate-variants-job"))
    case "calculate_statistics" => Some(flow("calculate-statistics-job"))
    case "variant-stats" => Some(simple("variant-stats-job"))
    case "file-stats" => Some(simple("file-stats-job"))
    case "acc_import" => Some(simple("accession-import-job"))
    case "clustering" => Some(simple("STUDY_CLUSTERING_JOB"))
    case "clustering_qc" => Some(simple("NEW_CLUSTERED_VARIANTS_QC_JOB"))
    case "vcf_extractor" => Some(simple("EXPORT_SUBMITTED_VARIANTS_JOB"))
    case "remapping_ingestion" => Some(simple("INGEST_REMAPPED_VARIANTS_FROM_VCF_JOB"))
    case "backpropagation" => Some(simple("BACK_PROPAGATE_NEW_RS_JOB"))
    case _ => None
  }

  /** `any(text in line for text in texts)`. */
  predicate MentionsAny(line: string, texts: seq<string>)
  {
    exists i | 0 <= i < |texts| :: Contains(line, texts[i])
  }

  /** `s.replace(c, "")` for one character. */
  function RemoveChar(s: string, c: char): (r: string)
    ensures c !in r
    ensures forall x :: x != c ==> (x in r <==> x in s)
  {
    if s == [] then []
    else (if s[0] == c then [] else [s[0]]) + RemoveChar(s[1..], c)
  }

  /** The status a completion line reports: its last space-separated token without brackets, stripped. */
  function CompletionStatus(line: string): string
  {
    var tokens := Split(line, ' ');
    Strip(RemoveChar(RemoveChar(tokens[|tokens| - 1], '['), ']'))
  }

  /** One line of the scan: a launch line resets the status, a completion line then sets it. */
  function StatusAfterLine(status: string, line: string, launched: seq<string>, completed: seq<string>): string
  {
    var reset := if MentionsAny(line, launched) then "" else status;
    if MentionsAny(line, completed) then CompletionStatus(line) else reset
  }

  /** The status after scanning `lines`, starting from FAILED. */
  function FinalStatus(lines: seq<string>, launched: seq<string>, completed: seq<string>): string
  {
    if lines == [] then "FAILED"
    else StatusAfterLine(FinalStatus(lines[..|lines| - 1], launched, completed), lines[|lines| - 1], launched, completed)
  }

  predicate Relevant(line: string, launched: seq<string>, completed: seq<string>)
  {
    MentionsAny(line, launched) || MentionsAny(line, completed)
  }

  /** The status of the line that decides it. */
  function LineStatus(line: string, completed: seq<string>): string
  {
    if MentionsAny(line, completed) then CompletionStatus(line) else ""
  }

  /** Without any launch or completion line the status stays FAILED. */
  lemma {:induction false} FinalStatusWithoutRelevant(lines: seq<string>, launched: seq<string>, completed: seq<string>)
    requires forall i :: 0 <= i < |lines| ==> !Relevant(lines[i], launched, completed)
    ensures FinalStatus(lines, launched, completed) == "FAILED"
  {
    if lines != [] {
      var init := lines[..|lines| - 1];
      assert forall i :: 0 <= i < |init| ==> init[i] == lines[i];
      FinalStatusWithoutRelevant(init, launched, completed);
    }
  }

  /**
   * Only the last launch or completion line decides the status: "" for a
   * launch line, the reported status for a completion line.
   */
  lemma {:induction false} FinalStatusIsLastRelevant(lines: seq<string>, launched: seq<string>, completed: seq<string>, j: nat)
    requires j < |lines| && Relevant(lines[j], launched, completed)
    requires forall i :: j < i < |lines| ==> !Relevant(lines[i], launched, completed)
    ensures FinalStatus(lines, launched, completed) == LineStatus(lines[j], completed)
  {
    if j < |lines| - 1 {
      var init := lines[..|lines| - 1];
      assert forall i :: 0 <= i < |init| ==> init[i] == lines[i];
      FinalStatusIsLastRelevant(init, launched, completed, j);
    }
  }

  /**
   * `did_job_complete_successfully_from_log`: scans the log and reports
   * whether the final status is COMPLETED; an unknown job type raises KeyError.
   */
  method DidJobCompleteSuccessfully(lines: seq<string>, jobType: string) returns (r: Result<bool>)
    ensures JobTexts(jobType).None? ==> r == Err("KeyError")
    ensures JobTexts(jobType).Some? ==>
      r == Ok(FinalStatus(lines, JobTexts(jobType).value.0, JobTexts(jobType).value.1) == "COMPLETED")
  {
    var texts := JobTexts(jobType);
    if texts.None? {
      return Err("KeyError");
    }
    var (launched, completed) := texts.value;
    var status := "FAILED";
    for i := 0 to |lines|
      invariant status == FinalStatus(lines[..i], launched, completed)
    {
      assert lines[..i + 1][..i] == lines[..i];
      if MentionsAny(lines[i], launched) {
        status := "";
      }
      if MentionsAny(lines[i], completed) {
        status := CompletionStatus(lines[i]);
      }
    }
    assert lines[..|lines|] == lines;
    r := Ok(status == "COMPLETED");
  }

  const StepErrorMarker := "Encountered an error executing step"
  const DefaultJobName := "job name could not be retrieved"

  /**
   * The name on a step-error line: the last space-separated word between the
   * marker and the last "in job" (empty when "in job" comes before the
   * marker); a line without "in job" raises ValueError, as `rindex` does.
   */
  function StepName(line: string): Result<string>
    requires Contains(line, StepErrorMarker)
  {
    var start := IndexOf(line, StepErrorMarker).value;
    match RIndexOf(line, "in job")
    case None => Err("ValueError")
    case Some(stop) =>
      var segment := if start <= stop then line[start..stop] else "";
      var words := Split(Strip(segment), ' ');
      Ok(words[|words| - 1])
  }

  /** The job name after scanning `lines`: the first error stops the scan. */
  function FailedName(lines: seq<string>): Result<string>
  {
    if lines == [] then Ok(DefaultJobName)
    else
      match FailedName(lines[..|lines| - 1])
      case Err(e) => Err(e)
      case Ok(name) =>
        var line := lines[|lines| - 1];
        if Contains(line, StepErrorMarker) then StepName(line) else Ok(name)
  }

  /** Without any step-error line the name is the default one. */
  lemma {:induction false} FailedNameWithoutMarker(lines: seq<string>)
    requires forall i :: 0 <= i < |lines| ==> !Contains(lines[i], StepErrorMarker)
    ensures FailedName(lines) == Ok(DefaultJobName)
  {
    if lines != [] {
      var init := lines[..|lines| - 1];
      assert forall i :: 0 <= i < |init| ==> init[i] == lines[i];
      FailedNameWithoutMarker(init);
    }
  }

  /** The scan fails exactly when some step-error line lacks "in job". */
  lemma {:induction false} FailedNameErr(lines: seq<string>)
    ensures FailedName(lines).Err? <==>
      exists i :: 0 <= i < |lines| && Contains(lines[i], StepErrorMarker) && StepName(lines[i]).Err?
  {
    if lines != [] {
      var init := lines[..|lines| - 1];
      assert forall i :: 0 <= i < |init| ==> init[i] == lines[i];
      FailedNameErr(init);
      if FailedName(init).Err? {
        var i :| 0 <= i < |init| && Contains(init[i], StepErrorMarker) && StepName(init[i]).Err?;
        assert lines[i] == init[i];
      }
    }
  }

  /** When the scan succeeds, the name is that of the last step-error line. */
  lemma {:induction false} FailedNameIsLastMarker(lines: seq<string>, j: nat)
    requires j < |lines| && Contains(lines[j], StepErrorMarker)
    requires forall i :: j < i < |lines| ==> !Contains(lines[i], StepErrorMarker)
    requires FailedName(lines).Ok?
    ensures FailedName(lines) == StepName(lines[j])
  {
    var init := lines[..|lines| - 1];
    assert forall i :: 0 <= i < |init| ==> init[i] == lines[i];
    if j < |lines| - 1 {
      FailedNameIsLastMarker(init, j);
    }
  }

  /** `get_failed_job_or_step_name`: the scan of the log as a loop. */
  method FailedJobOrStepName(lines: seq<string>) returns (r: Result<string>)
    ensures r == FailedName(lines)
  {
    var jobName := DefaultJobName;
    for i := 0 to |lines|
      invariant FailedName(lines[..i]) == Ok(jobName)
    {
      assert lines[..i + 1][..i] == lines[..i];
      if Contains(lines[i], StepErrorMarker) {
        var name := StepName(lines[i]);
        if name.Err? {
          FailedNameStops(lines, i + 1);
          return name;
        }
        jobName := name.value;
      }
    }
    assert lines[..|lines|] == lines;
    r := Ok(jobName);
  }

  /** Once the scan has failed, the rest of the log does not matter. */
  lemma {:induction false} FailedNameStops(lines: seq<string>, k: nat)
    requires k <= |lines|
    requires FailedName(lines[..k]).Err?
    ensures FailedName(lines) == FailedName(lines[..k])
    decreases |lines| - k
  {
    if k < |lines| {
      assert lines[..k + 1][..k] == lines[..k];
      FailedNameStops(lines, k + 1);
    } else {
      assert lines[..k] == lines;
    }
  }
}
