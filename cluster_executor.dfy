/**
 * The Slurm cluster executor: it writes the job script, submits it with
 * retries, decides from the job's states whether it has finished, and adds up
 * the exit codes of its steps.  The output of each external command (`sbatch`,
 * `squeue`, `sacct`) is a parameter: the exit status and standard output of
 * each attempt.
 */
module ClusterExecutor {
  import opened Wrappers
  import opened Text
  import opened ScriptWriters
  import Collections

  /** Slurm states of a job that is still going. */
  const SlurmUnfinished: seq<string> := ["CONFIGURING", "COMPLETING", "PENDING", "RUNNING", "RESIZING", "SUSPENDED"]

  /** Slurm states of a job that has ended, well or badly. */
  const SlurmFinished: seq<string> :=
    ["BOOT_FAIL", "CANCELLED", "COMPLETED", "DEADLINE", "FAILED", "NODE_FAIL", "PREEMPTED", "TIMEOUT"]

  // ---------------------------------------------------------------------
  // Whether the job has finished

  /**
   * The verdict of `_job_finished` on the states in the order they are
   * visited: a finished state is passed over, an unfinished one answers
   * false, any other state raises.
   */
  function Finished(states: seq<string>, finished: seq<string>, unfinished: seq<string>): Result<bool>
  {
    if states == [] then Ok(true)
    else if states[0] in finished then Finished(states[1..], finished, unfinished)
    else if states[0] in unfinished then Ok(false)
    else Err("Bad job status: " + states[0])
  }

  /** True exactly when every state is a finished one. */
  lemma {:induction false} FinishedWhenAllFinished(states: seq<string>, finished: seq<string>, unfinished: seq<string>)
    ensures Finished(states, finished, unfinished) == Ok(true) <==> forall i :: 0 <= i < |states| ==> states[i] in finished
  {
    if states != [] {
      FinishedWhenAllFinished(states[1..], finished, unfinished);
      if states[0] in finished {
        assert forall i :: 1 <= i < |states| ==> states[i] == states[1..][i - 1];
      }
    }
  }

  /** Otherwise the first state that is not finished decides: false if it is unfinished, an error naming it if it is unknown. */
  lemma {:induction false} FinishedDecidedAt(states: seq<string>, finished: seq<string>, unfinished: seq<string>, i: nat)
    requires i < |states| && states[i] !in finished
    requires forall j :: 0 <= j < i ==> states[j] in finished
    ensures Finished(states, finished, unfinished) ==
      if states[i] in unfinished then Ok(false) else Err("Bad job status: " + states[i])
  {
    if i > 0 {
      assert forall j :: 0 <= j < i - 1 ==> states[1..][j] == states[j + 1];
      FinishedDecidedAt(states[1..], finished, unfinished, i - 1);
    }
  }

  /**
   * The states come from a set, so their order is arbitrary; when every state
   * is a known one the verdict does not depend on it.
   */
  lemma FinishedOrderFree(states: seq<string>, finished: seq<string>, unfinished: seq<string>)
    requires forall i :: 0 <= i < |states| ==> states[i] in finished || states[i] in unfinished
    ensures Finished(states, finished, unfinished) == Ok(forall i :: 0 <= i < |states| ==> states[i] in finished)
  {
    FinishedWhenAllFinished(states, finished, unfinished);
    if exists i :: 0 <= i < |states| && states[i] !in finished {
      var i := FirstNotIn(states, finished);
      FinishedDecidedAt(states, finished, unfinished, i);
    }
  }

  /** The position of the first element outside `xs`. */
  lemma FirstNotIn(states: seq<string>, xs: seq<string>) returns (i: nat)
    requires exists i :: 0 <= i < |states| && states[i] !in xs
    ensures i < |states| && states[i] !in xs && forall j :: 0 <= j < i ==> states[j] in xs
  {
    i := 0;
    while states[i] in xs
      invariant i < |states| && forall j :: 0 <= j < i ==> states[j] in xs
      decreases |states| - i
    {
      i := i + 1;
    }
  }

  // ---------------------------------------------------------------------
  // Running external commands

  /** `_get_stdout`: the stripped output when the command exited with status 0, else None. */
  function Stdout(exitStatus: int, out: string): Option<string>
  {
    if exitStatus != 0 then None else Some(Strip(out))
  }

  /** What `_run_and_retry` returns when the attempts answer `runs` in turn: the first output of a successful run. */
  function Retried(runs: seq<(int, string)>, retry: int): Option<string>
    requires retry <= |runs|
  {
    if retry <= 0 then None
    else
      var out := Stdout(runs[0].0, runs[0].1);
      if out.Some? then out else Retried(runs[1..], retry - 1)
  }

  /** The number of attempts `_run_and_retry` makes. */
  function Attempts(runs: seq<(int, string)>, retry: int): nat
    requires retry <= |runs|
  {
    if retry <= 0 then 0
    else if runs[0].0 == 0 then 1
    else 1 + Attempts(runs[1..], retry - 1)
  }

  /**
   * At most `retry` attempts are made; the answer is the output of the first
   * one that succeeded, after only failed ones, or None when all failed.
   */
  lemma {:induction false} RetriedMeaning(runs: seq<(int, string)>, retry: int)
    requires retry <= |runs|
    ensures Attempts(runs, retry) <= if retry < 0 then 0 else retry
    ensures forall j :: 0 <= j < Attempts(runs, retry) - 1 ==> runs[j].0 != 0
    ensures Retried(runs, retry).None? <==> forall j :: 0 <= j < retry ==> runs[j].0 != 0
    ensures Retried(runs, retry).Some? ==>
      var k := Attempts(runs, retry) - 1;
      0 <= k && runs[k].0 == 0 && Retried(runs, retry) == Some(Strip(runs[k].1))
  {
    if retry > 0 {
      RetriedMeaning(runs[1..], retry - 1);
      assert forall j :: 1 <= j < retry ==> runs[j] == runs[1..][j - 1];
    }
  }

  // ---------------------------------------------------------------------
  // Slurm's answers

  /** The job id in `Submitted batch job <id>`: the last word; IndexError when there is none. */
  function SlurmJobId(out: string): (r: Result<string>)
    ensures r.Ok? <==> Words(out) != []
    ensures r.Ok? ==> r.value == Words(out)[|Words(out)| - 1]
  {
    var w := Words(out);
    if w == [] then Err("IndexError") else Ok(w[|w| - 1])
  }

  /** `_squeue`: the states listed one per line, or None when `squeue` gave nothing. */
  function Squeue(out: Option<string>): Option<set<string>>
  {
    if out.Some? && out.value != "" then
      var lines := Split(out.value, '\n');
      Some(set i | 0 <= i < |lines| :: lines[i])
    else None
  }

  /** `_sacct`: the stripped lines of its output; AttributeError when `sacct` never succeeded. */
  function Sacct(out: Option<string>): Result<set<string>>
  {
    if out.None? then Err("AttributeError")
    else
      var lines := Split(out.value, '\n');
      Ok(set i | 0 <= i < |lines| :: Strip(lines[i]))
  }

  /** `_job_statuses`: the queue's states while the job is queued, else the accounting states without a trailing '+'. */
  function JobStates(squeueOut: Option<string>, sacctOut: Option<string>): (r: Result<set<string>>)
    ensures r.Ok? ==> forall s :: s in r.value && squeueOut.None? ==> !EndsWith(s, "+")
  {
    var queued := Squeue(squeueOut);
    if queued.Some? && queued.value != {} then Ok(queued.value)
    else
      match Sacct(sacctOut)
      case Err(e) => Err(e)
      case Ok(lines) =>
        var r := set l | l in lines :: RStripChar(l, '+');
        assert forall s :: s in r ==> !EndsWith(s, "+") by {
          forall s | s in r ensures !EndsWith(s, "+") {
            var l :| l in lines && s == RStripChar(l, '+');
            TrimEndFacts(l, x => x == '+');
          }
        }
        Ok(r)
  }

  // ---------------------------------------------------------------------
  // The exit status

  /**
   * The exit code of one `State ExitCode` line of `sacct`: the code before
   * ':', except that a cancelled step reporting 0 counts as 9.  ValueError
   * when the line is not two words or the code is not a number.
   */
  function StepExitCode(report: string): Result<int>
  {
    var w := Words(report);
    if |w| != 2 then Err("ValueError")
    else
      var state := RStripChar(w[0], '+');
      match ParseInt(Split(w[1], ':')[0])
      case None => Err("ValueError")
      case Some(code) => Ok(if state == "CANCELLED" && code == 0 then 9 else code)
  }

  /** Adding up two codes: the first error raised wins. */
  function AddCodes(a: Result<int>, b: Result<int>): Result<int>
  {
    if a.Err? then a else if b.Err? then b else Ok(a.value + b.value)
  }

  /** The sum of the codes, or the first error among them. */
  function SumCodes(codes: seq<Result<int>>): Result<int>
  {
    if codes == [] then Ok(0) else AddCodes(codes[0], SumCodes(codes[1..]))
  }

  /** The code of each line, by `code`. */
  function MapCodes(code: string -> Result<int>, reports: seq<string>): seq<Result<int>>
  {
    seq(|reports|, i requires 0 <= i < |reports| => code(reports[i]))
  }

  /** Adding the codes from position `i` on to a running total: an error stops the sum, a code is added in. */
  lemma SumCodesStep(codes: seq<Result<int>>, i: nat, total: int)
    requires i < |codes|
    ensures codes[i].Err? ==> AddCodes(Ok(total), SumCodes(codes[i..])) == codes[i]
    ensures codes[i].Ok? ==> AddCodes(Ok(total), SumCodes(codes[i..])) == AddCodes(Ok(total + codes[i].value), SumCodes(codes[i + 1..]))
  {
    assert codes[i..][1..] == codes[i + 1..];
  }

  /** `_job_exit_code`: the sum of the steps' exit codes. */
  function ExitStatus(reports: seq<string>): Result<int>
  {
    SumCodes(MapCodes(StepExitCode, reports))
  }

  /** A cancelled step never counts as a success. */
  lemma CancelledStepFails(report: string)
    requires |Words(report)| == 2 && RStripChar(Words(report)[0], '+') == "CANCELLED"
    ensures StepExitCode(report).Ok? ==> StepExitCode(report).value != 0
  {
  }

  /** The only error a line raises is ValueError. */
  lemma StepErrors()
    ensures forall report :: StepExitCode(report).Err? ==> StepExitCode(report).error == "ValueError"
  {
  }

  /** The sum succeeds exactly when every code does, and is 0 on non-negative codes exactly when each of them is. */
  lemma {:induction false} SumCodesAll(codes: seq<Result<int>>)
    ensures SumCodes(codes).Ok? <==> forall i :: 0 <= i < |codes| ==> codes[i].Ok?
    ensures SumCodes(codes).Ok? && (forall i :: 0 <= i < |codes| ==> codes[i].value >= 0) ==>
      SumCodes(codes).value >= 0 &&
      (SumCodes(codes).value == 0 <==> forall i :: 0 <= i < |codes| ==> codes[i].value == 0)
  {
    if codes != [] {
      SumCodesAll(codes[1..]);
      assert forall i :: 1 <= i < |codes| ==> codes[i] == codes[1..][i - 1];
    }
  }

  /** An error of the sum is an error of one of the codes. */
  lemma {:induction false} SumCodesErrors(codes: seq<Result<int>>)
    requires forall i :: 0 <= i < |codes| ==> codes[i].Err? ==> codes[i].error == "ValueError"
    ensures SumCodes(codes).Err? ==> SumCodes(codes).error == "ValueError"
  {
    if codes != [] {
      assert forall i :: 0 <= i < |codes[1..]| ==> codes[1..][i] == codes[i + 1];
      SumCodesErrors(codes[1..]);
    }
  }

  lemma AddCodesSwap(a: Result<int>, b: Result<int>, c: Result<int>)
    requires a.Err? ==> a.error == "ValueError"
    requires b.Err? ==> b.error == "ValueError"
    requires c.Err? ==> c.error == "ValueError"
    ensures AddCodes(a, AddCodes(b, c)) == AddCodes(b, AddCodes(a, c))
  {
  }

  /** Taking out the code at `k` first gives the same sum. */
  lemma {:induction false} SumCodesPick(codes: seq<Result<int>>, k: nat)
    requires k < |codes|
    requires forall i :: 0 <= i < |codes| ==> codes[i].Err? ==> codes[i].error == "ValueError"
    ensures SumCodes(codes) == AddCodes(codes[k], SumCodes(codes[..k] + codes[k + 1..]))
  {
    if k == 0 {
      assert codes[..0] + codes[1..] == codes[1..];
    } else {
      var tail := codes[1..];
      assert forall i :: 0 <= i < |tail| ==> tail[i] == codes[i + 1];
      SumCodesPick(tail, k - 1);
      assert SumCodes(codes) == AddCodes(codes[0], SumCodes(tail));
      var rest := codes[..k] + codes[k + 1..];
      assert rest[0] == codes[0] && rest[1..] == tail[..k - 1] + tail[k..];
      assert SumCodes(rest) == AddCodes(codes[0], SumCodes(rest[1..]));
      forall i | 0 <= i < |rest[1..]| ensures rest[1..][i].Err? ==> rest[1..][i].error == "ValueError" {
        if i < k - 1 {
          assert rest[1..][i] == codes[i + 1];
        } else {
          assert rest[1..][i] == codes[i + 2];
        }
      }
      SumCodesErrors(rest[1..]);
      AddCodesSwap(codes[0], codes[k], SumCodes(rest[1..]));
    }
  }

  /** Summing codes of the same lines in another order gives the same result. */
  lemma {:induction false} SumMapOrderFree(code: string -> Result<int>, a: seq<string>, b: seq<string>)
    requires multiset(a) == multiset(b)
    requires forall report :: code(report).Err? ==> code(report).error == "ValueError"
    ensures SumCodes(MapCodes(code, a)) == SumCodes(MapCodes(code, b))
  {
    if a != [] {
      var k := RemoveMatching(a, b);
      var rest := b[..k] + b[k + 1..];
      SumMapOrderFree(code, a[1..], rest);
      var ca := MapCodes(code, a);
      assert ca == [ca[0]] + MapCodes(code, a[1..]);
      var cb := MapCodes(code, b);
      assert cb[..k] + cb[k + 1..] == MapCodes(code, rest);
      assert forall i :: 0 <= i < |cb| ==> cb[i] == code(b[i]);
      SumCodesPick(cb, k);
    } else {
      assert |b| == |multiset(b)| == 0;
    }
  }

  /** A position of `b` holding the first element of `a`, and the rests are still permutations of each other. */
  lemma RemoveMatching<T>(a: seq<T>, b: seq<T>) returns (k: nat)
    requires a != [] && multiset(a) == multiset(b)
    ensures k < |b| && b[k] == a[0] && multiset(a[1..]) == multiset(b[..k] + b[k + 1..])
  {
    assert a[0] in multiset(b);
    k :| 0 <= k < |b| && b[k] == a[0];
    var rest := b[..k] + b[k + 1..];
    assert b == b[..k] + [b[k]] + b[k + 1..];
    assert a == [a[0]] + a[1..];
    assert multiset(b) == multiset(b[..k]) + multiset{b[k]} + multiset(b[k + 1..]);
    assert multiset(rest) == multiset(b[..k]) + multiset(b[k + 1..]);
    assert multiset(a[1..]) == multiset(a) - multiset{a[0]};
    assert multiset(rest) == multiset(b) - multiset{b[k]};
  }

  /** The lines come from a set, so their order is arbitrary; the status does not depend on it. */
  lemma ExitStatusOrderFree(a: seq<string>, b: seq<string>)
    requires multiset(a) == multiset(b)
    ensures ExitStatus(a) == ExitStatus(b)
  {
    StepErrors();
    SumMapOrderFree(StepExitCode, a, b);
  }

  // ---------------------------------------------------------------------
  // The executor

  class SlurmExecutor {
    const jobName: string
    const cmds: seq<string>
    const prelimCmds: seq<string>
    const writer: ScriptWriter
    var jobId: Option<string>

    /** The writer gets the whole cluster configuration; nothing is submitted yet. */
    constructor (cmds: seq<string>, prelimCmds: seq<string>, jobName: string, workingDir: string, jobQueue: Option<string>,
                 configuredQueue: Param, logCommands: bool, kwargs: map<string, Param>)
      requires "job_name" !in kwargs && "working_dir" !in kwargs && "job_queue" !in kwargs && "log_commands" !in kwargs
      ensures this.jobName == jobName && this.cmds == cmds && this.prelimCmds == prelimCmds && jobId.None?
      ensures fresh(writer) && writer.flavour == Slurm && writer.lines == [] && writer.logCommands == logCommands
      ensures writer.scriptName == PathJoin(workingDir, jobName + ".slurm")
    {
      this.jobName := jobName;
      this.cmds := cmds;
      this.prelimCmds := prelimCmds;
      writer := new ScriptWriter(Slurm, jobName, workingDir, jobQueue, configuredQueue, logCommands, kwargs);
      jobId := None;
    }

    /** The lines `write_script` puts before the job array. */
    function BodyLines(preJobSource: Option<string>): seq<string>
    {
      prelimCmds + (if preJobSource.Some? && preJobSource.value != "" then ["source " + preJobSource.value] else []) + [""]
    }

    /** The preliminary commands, `source` of the environment file when there is one, and a blank line. */
    method WriteBody(preJobSource: Option<string>)
      modifies writer
      ensures writer.lines == old(writer.lines) + BodyLines(preJobSource) && writer.parameters == old(writer.parameters)
    {
      if prelimCmds != [] {
        var _ := writer.RegisterCmds(prelimCmds, false);
      }
      if preJobSource.Some? && preJobSource.value != "" {
        writer.RegisterCmd("source " + preJobSource.value, None);
      }
      writer.LineBreak();
    }

    /** The commands as one job array, then the header. */
    method ArrayAndHeader() returns (r: Result<()>)
      requires writer.flavour == Slurm
      modifies writer
      ensures var array0 := ParamTruthy(GetParam(old(writer.parameters), "jobs"));
        var arrayLines := if |cmds| == 1 then [cmds[0]] else ArrayBlock(Slurm, cmds, writer.logCommands, writer.logFile);
        var params := if |cmds| == 1 then old(writer.parameters) else old(writer.parameters)["jobs" := PInt(|cmds|)];
        var h := Header(Slurm, params, writer.workingDir);
        (array0 ==> r == Err("ExecutorError")) &&
        (!array0 ==> (
          (r.Ok? <==> h.Ok?) && (r.Ok? ==> writer.lines == h.value + old(writer.lines) + arrayLines)))
    {
      var added := writer.RegisterCmds(cmds, true);
      if added.Err? {
        return Err(added.error);
      }
      r := writer.AddHeader();
    }

    /**
     * `write_script`: the body, the commands as one job array, then the
     * header; the saved text is returned.
     */
    method WriteScript(preJobSource: Option<string>) returns (r: Result<string>)
      requires writer.flavour == Slurm
      modifies writer
      ensures var array0 := ParamTruthy(GetParam(old(writer.parameters), "jobs"));
        var arrayLines := if |cmds| == 1 then [cmds[0]] else ArrayBlock(Slurm, cmds, writer.logCommands, writer.logFile);
        var params := if |cmds| == 1 then old(writer.parameters) else old(writer.parameters)["jobs" := PInt(|cmds|)];
        var h := Header(Slurm, params, writer.workingDir);
        (array0 ==> r == Err("ExecutorError")) &&
        (!array0 ==> (
          (r.Ok? <==> h.Ok?) &&
          (r.Ok? ==> writer.lines == h.value + old(writer.lines) + BodyLines(preJobSource) + arrayLines && r.value == ScriptText(writer.lines))))
    {
      ghost var lines0 := writer.lines;
      ghost var params := if |cmds| == 1 then writer.parameters else writer.parameters["jobs" := PInt(|cmds|)];
      WriteBody(preJobSource);
      var done := ArrayAndHeader();
      if done.Err? {
        return Err(done.error);
      }
      ghost var h := Header(Slurm, params, writer.workingDir);
      if h.Ok? {
        Collections.ConcatAssoc(h.value, lines0, BodyLines(preJobSource));
      }
      var text := writer.Save();
      r := Ok(text);
    }

    /** `_run_and_retry`: up to `retry` runs of a command, the n-th run answering `runs[n]`. */
    method RunAndRetry(runs: seq<(int, string)>, retry: int) returns (msg: Option<string>)
      requires retry <= |runs|
      ensures msg == Retried(runs, retry)
    {
      var attempt := 0;
      while attempt < retry
        invariant 0 <= attempt <= if retry < 0 then 0 else retry
        invariant Retried(runs, retry) == Retried(runs[attempt..], retry - attempt)
      {
        var out := if runs[attempt].0 != 0 then None else Some(Strip(runs[attempt].1));
        if out.Some? {
          return out;
        }
        assert runs[attempt..][1..] == runs[attempt + 1..];
        attempt := attempt + 1;
      }
      return None;
    }

    /** `_submit_job`: `sbatch` with retries; ExecutorError when it never succeeds, else the job id is the last word it printed. */
    method SubmitJob(runs: seq<(int, string)>) returns (r: Result<()>)
      requires 3 <= |runs|
      modifies this
      ensures Retried(runs, 3).None? ==> r == Err("ExecutorError") && jobId.None?
      ensures Retried(runs, 3).Some? ==> var id := SlurmJobId(Retried(runs, 3).value);
        (r.Ok? <==> id.Ok?) && (r.Err? ==> r.error == id.error) && (r.Ok? ==> jobId == Some(id.value))
    {
      var out := RunAndRetry(runs, 3);
      jobId := out;
      if out.None? {
        return Err("ExecutorError");
      }
      var w := Words(out.value);
      if w == [] {
        return Err("IndexError");
      }
      jobId := Some(w[|w| - 1]);
      r := Ok(());
    }

    /** `_job_finished` on the job's states, in the order the set yields them. */
    method JobFinished(states: seq<string>) returns (r: Result<bool>)
      ensures r == Finished(states, SlurmFinished, SlurmUnfinished)
    {
      for i := 0 to |states|
        invariant Finished(states, SlurmFinished, SlurmUnfinished) == Finished(states[i..], SlurmFinished, SlurmUnfinished)
      {
        assert states[i..][1..] == states[i + 1..];
        var s := states[i];
        if s in SlurmFinished {
        } else if s in SlurmUnfinished {
          return Ok(false);
        } else {
          return Err("Bad job status: " + s);
        }
      }
      r := Ok(true);
    }

    /** `_job_exit_code` on the `sacct` lines, in the order the set yields them. */
    method JobExitCode(reports: seq<string>) returns (r: Result<int>)
      ensures r == ExitStatus(reports)
    {
      var exitStatus := 0;
      ghost var codes := MapCodes(StepExitCode, reports);
      for i := 0 to |reports|
        invariant SumCodes(codes) == AddCodes(Ok(exitStatus), SumCodes(codes[i..]))
      {
        var code := StepExitCode(reports[i]);
        assert code == codes[i];
        SumCodesStep(codes, i, exitStatus);
        if code.Err? {
          return Err(code.error);
        }
        exitStatus := exitStatus + code.value;
      }
      assert codes[|reports|..] == [];
      r := Ok(exitStatus);
    }
  }
}
