/**
 * The job-script builder: a writer collects the lines of a shell script (plain
 * commands, at most one job array written as a `case` block), then prepends a
 * header naming its parameters in the resource manager's syntax.
 */
module ScriptWriters {
  import opened Wrappers
  import opened Text

  /** The plain writer, or the Slurm writer with its own suffix, array variable and header syntax. */
  datatype Flavour = Plain | Slurm

  function Suffix(f: Flavour): string
  {
    match f
    case Plain => ".sh"
    case Slurm => ".slurm"
  }

  function ArrayIndex(f: Flavour): string
  {
    match f
    case Plain => "JOB_INDEX"
    case Slurm => "SLURM_ARRAY_TASK_ID"
  }

  /** A parameter value, as the header prints it with `str()`. */
  datatype Param = PStr(s: string) | PInt(i: int) | PBool(b: bool) | PNone

  predicate ParamTruthy(v: Param)
  {
    match v
    case PStr(s) => s != ""
    case PInt(i) => i != 0
    case PBool(b) => b
    case PNone => false
  }

  function ParamText(v: Param): string
  {
    match v
    case PStr(s) => s
    case PInt(i) => IntToString(i)
    case PBool(b) => if b then "True" else "False"
    case PNone => "None"
  }

  /** A header template: a fixed line, or a line with one slot for the value. */
  datatype Template = Fixed(line: string) | Slot(before: string, after: string)

  function Render(t: Template, v: Param): string
  {
    match t
    case Fixed(line) => line
    case Slot(before, after) => before + ParamText(v) + after
  }

  /** The header template of each known parameter. */
  function TemplateFor(f: Flavour, key: string): Option<Template>
  {
    match f
    case Plain =>
      if key == "cpus" then Some(Slot("# cpus: ", ""))
      else if key == "exclusive" then Some(Fixed("# exclusive"))
      else if key == "job_name" then Some(Slot("# job name: ", ""))
      else if key == "job_queue" then Some(Slot("# queue: ", ""))
      else if key == "jobs" then Some(Slot("# job array: 1-", ""))
      else if key == "log_file" then Some(Slot("# log file: ", ""))
      else if key == "mem" then Some(Slot("# mem: ", "gb"))
      else if key == "walltime" then Some(Slot("# walltime: ", ""))
      else None
    case Slurm =>
      if key == "cpus" then Some(Slot("#SBATCH --cpus-per-task=", ""))
      else if key == "exclusive" then Some(Fixed("#SBATCH --exclusive"))
      else if key == "job_name" then Some(Slot("#SBATCH --job-name=\"", "\""))
      else if key == "job_queue" then Some(Slot("#SBATCH --partition=", ""))
      else if key == "jobs" then Some(Slot("#SBATCH --array=1-", ""))
      else if key == "log_file" then Some(Slot("#SBATCH --output=", ""))
      else if key == "mem" then Some(Slot("#SBATCH --mem=", "g"))
      else if key == "walltime" then Some(Slot("#SBATCH --time=", ":00:00"))
      else None
  }

  /** `dict.get(key)`. */
  function GetParam(params: map<string, Param>, key: string): Param
  {
    if key in params then params[key] else PNone
  }

  // ---------------------------------------------------------------------
  // Command lines

  /** A command whose output goes to a log file when one is given. */
  function WithLog(cmd: string, log: Option<string>): string
  {
    if log.Some? && log.value != "" then cmd + " > " + log.value + " 2>&1" else cmd
  }

  /** One arm of the job array's `case` block. */
  function ArmLine(idx: nat, cmd: string, log: Option<string>): string
  {
    WithLog(NatToString(idx) + ") " + cmd, log) + "\n;;"
  }

  /** The log of array job `idx`: the writer's log file numbered, when commands are logged. */
  function ArmLog(logCommands: bool, logFile: string, idx: nat): Option<string>
  {
    if logCommands then Some(logFile + NatToString(idx)) else None
  }

  /** The arms for `cmds`, numbered from 1. */
  function Arms(cmds: seq<string>, logCommands: bool, logFile: string): seq<string>
  {
    if cmds == [] then []
    else
      var n := |cmds|;
      Arms(cmds[..n - 1], logCommands, logFile) + [ArmLine(n, cmds[n - 1], ArmLog(logCommands, logFile, n))]
  }

  lemma {:induction false} ArmsPointwise(cmds: seq<string>, logCommands: bool, logFile: string)
    ensures var r := Arms(cmds, logCommands, logFile);
      |r| == |cmds| && forall i :: 0 <= i < |cmds| ==> r[i] == ArmLine(i + 1, cmds[i], ArmLog(logCommands, logFile, i + 1))
  {
    if cmds != [] {
      var n := |cmds|;
      ArmsPointwise(cmds[..n - 1], logCommands, logFile);
      var r := Arms(cmds, logCommands, logFile);
      forall i | 0 <= i < n
        ensures r[i] == ArmLine(i + 1, cmds[i], ArmLog(logCommands, logFile, i + 1))
      {
        if i < n - 1 {
          assert cmds[..n - 1][i] == cmds[i];
        }
      }
    }
  }

  function CaseStart(f: Flavour): string
  {
    "case $" + ArrayIndex(f) + " in"
  }

  function CaseFallback(f: Flavour): string
  {
    "*) echo \"Unexpected " + ArrayIndex(f) + ": $" + ArrayIndex(f) + "\""
  }

  /** The lines of a job array: the `case` opening, one arm per command numbered from 1, the fallback arm and `esac`. */
  function ArrayBlock(f: Flavour, cmds: seq<string>, logCommands: bool, logFile: string): seq<string>
  {
    [CaseStart(f)] + Arms(cmds, logCommands, logFile) + [CaseFallback(f), "esac"]
  }

  /** Appending three pieces one after the other appends their concatenation. */
  lemma AppendThree<T>(a: seq<T>, b: seq<T>, c: seq<T>, d: seq<T>)
    ensures ((a + b) + c) + d == a + ((b + c) + d)
  {
  }

  /** Arm `i` starts with its number, 1-based, and runs the `i`-th command. */
  lemma ArrayBlockArms(f: Flavour, cmds: seq<string>, logCommands: bool, logFile: string, i: nat)
    requires i < |cmds|
    ensures var block := ArrayBlock(f, cmds, logCommands, logFile);
      |block| == |cmds| + 3 && block[0] == CaseStart(f) && block[|block| - 1] == "esac" &&
      StartsWith(block[i + 1], NatToString(i + 1) + ") " + cmds[i])
  {
    var arms := Arms(cmds, logCommands, logFile);
    ArmsPointwise(cmds, logCommands, logFile);
    var block := [CaseStart(f)] + arms + [CaseFallback(f), "esac"];
    assert block[i + 1] == arms[i];
    ArmLineStarts(i + 1, cmds[i], ArmLog(logCommands, logFile, i + 1));
  }

  lemma ArmLineStarts(idx: nat, cmd: string, log: Option<string>)
    ensures StartsWith(ArmLine(idx, cmd, log), NatToString(idx) + ") " + cmd)
  {
    var head := NatToString(idx) + ") " + cmd;
    assert WithLog(head, log)[..|head|] == head;
    assert ArmLine(idx, cmd, log)[..|head|] == WithLog(head, log)[..|head|];
  }

  // ---------------------------------------------------------------------
  // The header

  /** `sorted(d)` of a dict's keys. */
  ghost function SortedKeys(params: map<string, Param>): (r: seq<string>)
    ensures Sorted(r) && multiset(r) == multiset(params.Keys)
    ensures |r| == |params| && forall k :: k in r <==> k in params
  {
    assert |params.Keys| == |params|;
    SortedSet(params.Keys)
  }

  /** The parameter lines for `keys`, in order; KeyError for a parameter without a template. */
  function ParamLines(f: Flavour, params: map<string, Param>, keys: seq<string>): Result<seq<string>>
    requires forall k :: k in keys ==> k in params
  {
    if keys == [] then Ok([])
    else
      var k := keys[|keys| - 1];
      match ParamLines(f, params, keys[..|keys| - 1])
      case Err(e) => Err(e)
      case Ok(ls) =>
        match TemplateFor(f, k)
        case None => Err("KeyError")
        case Some(t) => Ok(ls + [Render(t, params[k])])
  }

  /** The header: the shebang, the parameters in sorted key order, a blank line, `cd` and a blank line. */
  ghost function Header(f: Flavour, params: map<string, Param>, workingDir: string): Result<seq<string>>
  {
    var keys := SortedKeys(params);
    match ParamLines(f, params, keys)
    case Err(e) => Err(e)
    case Ok(ls) => Ok(HeaderAround(ls, workingDir))
  }

  /** The shebang before the parameter lines; a blank line, `cd` into the working directory and a blank line after. */
  function HeaderAround(paramLines: seq<string>, workingDir: string): seq<string>
  {
    ["#!/bin/bash\n"] + paramLines + ["", "cd " + workingDir, ""]
  }

  /** The parameter lines fail exactly when a key has no template. */
  lemma {:induction false} ParamLinesOk(f: Flavour, params: map<string, Param>, keys: seq<string>)
    requires forall k :: k in keys ==> k in params
    ensures ParamLines(f, params, keys).Ok? <==> forall k :: k in keys ==> TemplateFor(f, k).Some?
  {
    if keys != [] {
      var init, last := keys[..|keys| - 1], keys[|keys| - 1];
      assert forall k :: k in init ==> k in keys;
      ParamLinesOk(f, params, init);
      assert keys == init + [last];
    }
  }

  /** The lines follow the keys one for one; the header fails exactly when a key has no template. */
  lemma ParamLinesFacts(f: Flavour, params: map<string, Param>, keys: seq<string>)
    requires forall k :: k in keys ==> k in params
    ensures ParamLines(f, params, keys).Ok? <==> forall k :: k in keys ==> TemplateFor(f, k).Some?
    ensures ParamLines(f, params, keys).Ok? ==>
      var ls := ParamLines(f, params, keys).value;
      |ls| == |keys| && forall i :: 0 <= i < |keys| ==> ls[i] == Render(TemplateFor(f, keys[i]).value, params[keys[i]])
  {
    ParamLinesOk(f, params, keys);
    if ParamLines(f, params, keys).Ok? && keys != [] {
      ParamLineAt(f, params, keys, 0);
      forall i | 0 <= i < |keys|
        ensures TemplateFor(f, keys[i]).Some? && ParamLines(f, params, keys).value[i] == Render(TemplateFor(f, keys[i]).value, params[keys[i]])
      {
        ParamLineAt(f, params, keys, i);
      }
    }
  }

  /** The header exists exactly when every parameter has a template. */
  lemma HeaderExists(f: Flavour, params: map<string, Param>, workingDir: string)
    ensures Header(f, params, workingDir).Ok? <==> forall k :: k in params ==> TemplateFor(f, k).Some?
  {
    var keys := SortedKeys(params);
    ParamLinesFacts(f, params, keys);
    assert (forall k :: k in params ==> TemplateFor(f, k).Some?) <==> (forall k :: k in keys ==> TemplateFor(f, k).Some?);
  }

  /** A header names each parameter once, in sorted key order, between the shebang and the `cd` lines. */
  lemma HeaderLines(f: Flavour, params: map<string, Param>, workingDir: string, i: nat)
    requires Header(f, params, workingDir).Ok? && i < |params|
    ensures var h := Header(f, params, workingDir).value; var k := SortedKeys(params)[i];
      |h| == |params| + 4 && h[0] == "#!/bin/bash\n" && h[|h| - 2] == "cd " + workingDir &&
      k in params && TemplateFor(f, k).Some? && h[i + 1] == Render(TemplateFor(f, k).value, params[k])
  {
    var keys := SortedKeys(params);
    var ls := ParamLines(f, params, keys).value;
    ParamLineAt(f, params, keys, i);
    assert Header(f, params, workingDir).value == HeaderAround(ls, workingDir);
  }

  /** Line `i` of the parameter lines renders key `i`. */
  lemma {:induction false} ParamLineAt(f: Flavour, params: map<string, Param>, keys: seq<string>, i: nat)
    requires forall k :: k in keys ==> k in params
    requires ParamLines(f, params, keys).Ok? && i < |keys|
    ensures |ParamLines(f, params, keys).value| == |keys|
    ensures TemplateFor(f, keys[i]).Some? && ParamLines(f, params, keys).value[i] == Render(TemplateFor(f, keys[i]).value, params[keys[i]])
  {
    var init, last := keys[..|keys| - 1], keys[|keys| - 1];
    assert forall k :: k in init ==> k in keys;
    assert ParamLines(f, params, init).Ok? && TemplateFor(f, last).Some?;
    var ls := ParamLines(f, params, init).value;
    assert ParamLines(f, params, keys).value == ls + [Render(TemplateFor(f, last).value, params[last])];
    if i < |keys| - 1 {
      ParamLineAt(f, params, init, i);
      assert keys[i] == init[i];
    } else if init != [] {
      ParamLineAt(f, params, init, 0);
    }
  }

  /** The parameter lines stop at the first key without a template. */
  lemma {:induction false} ParamLinesStopsAtError(f: Flavour, params: map<string, Param>, keys: seq<string>, n: nat)
    requires n <= |keys| && forall k :: k in keys ==> k in params
    requires ParamLines(f, params, keys[..n]) == Err("KeyError")
    ensures ParamLines(f, params, keys) == Err("KeyError")
    decreases |keys| - n
  {
    if n < |keys| {
      assert keys[..n + 1][..n] == keys[..n];
      ParamLinesStopsAtError(f, params, keys, n + 1);
    } else {
      assert keys[..n] == keys;
    }
  }

  /** The text `save` writes: the lines joined by newlines, with a final newline. */
  function ScriptText(lines: seq<string>): string
  {
    Join(lines, "\n") + "\n"
  }

  lemma {:induction false} JoinAppendEmpty(lines: seq<string>, sep: string)
    requires |lines| >= 1
    ensures Join(lines + [""], sep) == Join(lines, sep) + sep
  {
    if |lines| == 1 {
      assert Join(lines + [""], sep) == lines[0] + sep + Join([""], sep);
    } else {
      assert (lines + [""])[1..] == lines[1..] + [""];
      JoinAppendEmpty(lines[1..], sep);
    }
  }

  /** When no line holds a newline, the saved text reads back as the lines, then the empty rest after the last newline. */
  lemma SavedTextSplitsBack(lines: seq<string>)
    requires |lines| >= 1 && forall i :: 0 <= i < |lines| ==> '\n' !in lines[i]
    ensures Split(ScriptText(lines), '\n') == lines + [""]
  {
    JoinAppendEmpty(lines, "\n");
    var parts := lines + [""];
    assert forall i :: 0 <= i < |parts| ==> '\n' !in parts[i];
    SplitJoin(parts, '\n');
  }

  // ---------------------------------------------------------------------
  // The writer

  class ScriptWriter {
    const flavour: Flavour
    const logCommands: bool
    const workingDir: string
    const logFile: string
    const scriptName: string
    var parameters: map<string, Param>
    var lines: seq<string>

    /** The parameters always name the job, its queue and its log file. */
    ghost predicate Valid()
      reads this
    {
      "job_name" in parameters && "job_queue" in parameters &&
      "log_file" in parameters && parameters["log_file"] == PStr(logFile)
    }

    /**
     * The keyword arguments become parameters, next to the job name, the queue
     * (the configured queue when none is given) and the log file
     * `<working_dir>/<job_name>.log`.
     */
    constructor (flavour: Flavour, jobName: string, workingDir: string, jobQueue: Option<string>, configuredQueue: Param,
                 logCommands: bool, kwargs: map<string, Param>)
      requires "job_name" !in kwargs && "working_dir" !in kwargs && "job_queue" !in kwargs && "log_commands" !in kwargs
      ensures this.flavour == flavour && this.logCommands == logCommands && this.workingDir == workingDir
      ensures logFile == PathJoin(workingDir, jobName + ".log")
      ensures scriptName == PathJoin(workingDir, jobName + Suffix(flavour))
      ensures parameters == kwargs["job_name" := PStr(jobName)]
        ["job_queue" := if jobQueue.Some? && jobQueue.value != "" then PStr(jobQueue.value) else configuredQueue]
        ["log_file" := PStr(logFile)]
      ensures lines == [] && Valid()
    {
      this.flavour := flavour;
      this.logCommands := logCommands;
      this.workingDir := workingDir;
      var log := PathJoin(workingDir, jobName + ".log");
      logFile := log;
      var queue := if jobQueue.Some? && jobQueue.value != "" then PStr(jobQueue.value) else configuredQueue;
      parameters := kwargs["job_name" := PStr(jobName)]["job_queue" := queue]["log_file" := PStr(log)];
      scriptName := PathJoin(workingDir, jobName + Suffix(flavour));
      lines := [];
    }

    method AddLine(line: string)
      modifies this
      ensures lines == old(lines) + [line] && parameters == old(parameters)
    {
      lines := lines + [line];
    }

    method LineBreak()
      modifies this
      ensures lines == old(lines) + [""] && parameters == old(parameters)
    {
      lines := lines + [""];
    }

    /** `register_cmd`: the command, redirected to its log file when one is given. */
    method RegisterCmd(cmd: string, log: Option<string>)
      modifies this
      ensures lines == old(lines) + [WithLog(cmd, log)] && parameters == old(parameters)
    {
      var line := cmd;
      if log.Some? && log.value != "" {
        line := line + " > " + log.value + " 2>&1";
      }
      AddLine(line);
    }

    /** `register_cmds`: one job array when parallel, otherwise the commands appended as they are. */
    method RegisterCmds(cmds: seq<string>, parallel: bool) returns (r: Result<()>)
      modifies this
      ensures !parallel ==> r.Ok? && lines == old(lines) + cmds && parameters == old(parameters)
      ensures parallel ==> ArrayAdded(old(lines), old(parameters), cmds, r)
    {
      if parallel {
        r := AddJobArray(cmds);
      } else {
        lines := lines + cmds;
        r := Ok(());
      }
    }

    /**
     * What `add_job_array` does: ExecutorError and nothing changed when the
     * script already has a job array; one command as a plain line; otherwise
     * a `case` block and the `jobs` parameter set to the number of commands.
     */
    ghost predicate ArrayAdded(lines0: seq<string>, params0: map<string, Param>, cmds: seq<string>, r: Result<()>)
      reads this
    {
      if ParamTruthy(GetParam(params0, "jobs")) then
        r == Err("ExecutorError") && lines == lines0 && parameters == params0
      else if |cmds| == 1 then
        r.Ok? && lines == lines0 + [cmds[0]] && parameters == params0
      else
        r.Ok? && lines == lines0 + ArrayBlock(flavour, cmds, logCommands, logFile) &&
        parameters == params0["jobs" := PInt(|cmds|)]
    }

    /** The case block of a job array: its opening line, one arm per command, the fallback arm and `esac`. */
    method AddArrayBlock(cmds: seq<string>)
      modifies this
      ensures lines == old(lines) + ArrayBlock(flavour, cmds, logCommands, logFile) && parameters == old(parameters)
    {
      ghost var before := lines;
      StartArray();
      RegisterArrayCmds(cmds);
      FinishArray();
      AppendThree(before, [CaseStart(flavour)], Arms(cmds, logCommands, logFile), [CaseFallback(flavour), "esac"]);
    }

    method StartArray()
      modifies this
      ensures lines == old(lines) + [CaseStart(flavour)] && parameters == old(parameters)
    {
      AddLine("case $" + ArrayIndex(flavour) + " in");
    }

    method FinishArray()
      modifies this
      ensures lines == old(lines) + [CaseFallback(flavour), "esac"] && parameters == old(parameters)
    {
      AddLine("*) echo \"Unexpected " + ArrayIndex(flavour) + ": $" + ArrayIndex(flavour) + "\"");
      AddLine("esac");
    }

    /** `_register_array_cmd`: the numbered arm running `cmd`, logged when a log file is given. */
    method RegisterArrayCmd(idx: nat, cmd: string, log: Option<string>)
      modifies this
      ensures lines == old(lines) + [ArmLine(idx, cmd, log)] && parameters == old(parameters)
    {
      ghost var head := NatToString(idx) + ") " + cmd;
      var line := NatToString(idx) + ") " + cmd;
      if log.Some? && log.value != "" {
        line := line + " > " + log.value + " 2>&1";
      }
      assert line == WithLog(head, log);
      line := line + "\n" + ";;";
      assert line == WithLog(head, log) + "\n;;";
      AddLine(line);
    }

    /** The numbered arms of all commands, in order. */
    method RegisterArrayCmds(cmds: seq<string>)
      modifies this
      ensures lines == old(lines) + Arms(cmds, logCommands, logFile) && parameters == old(parameters)
    {
      for idx := 0 to |cmds|
        invariant lines == old(lines) + Arms(cmds[..idx], logCommands, logFile)
        invariant parameters == old(parameters)
      {
        RegisterArrayCmd(idx + 1, cmds[idx], if logCommands then Some(logFile + NatToString(idx + 1)) else None);
        assert cmds[..idx + 1][..idx] == cmds[..idx];
      }
      assert cmds[..|cmds|] == cmds;
    }

    method AddJobArray(cmds: seq<string>) returns (r: Result<()>)
      modifies this
      ensures ArrayAdded(old(lines), old(parameters), cmds, r)
    {
      if ParamTruthy(GetParam(parameters, "jobs")) {
        return Err("ExecutorError");
      }
      if |cmds| == 1 {
        RegisterCmd(cmds[0], None);
        return Ok(());
      }
      AddArrayBlock(cmds);
      parameters := parameters["jobs" := PInt(|cmds|)];
      r := Ok(());
    }

    /** `save`: the text written to the script file. */
    method Save() returns (text: string)
      ensures text == ScriptText(lines)
    {
      text := Join(lines, "\n") + "\n";
    }

    /** The header line of each key in turn; KeyError at the first one without a template. */
    method FormatParams(keys: seq<string>) returns (r: Result<seq<string>>)
      requires forall k :: k in keys ==> k in parameters
      ensures r == ParamLines(flavour, parameters, keys)
    {
      var body := [];
      assert keys[..0] == [];
      for i := 0 to |keys|
        invariant ParamLines(flavour, parameters, keys[..i]) == Ok(body)
      {
        assert keys[..i + 1][..i] == keys[..i];
        var t := TemplateFor(flavour, keys[i]);
        if t.None? {
          ParamLinesStopsAtError(flavour, parameters, keys, i + 1);
          return Err("KeyError");
        }
        body := body + [Render(t.value, parameters[keys[i]])];
      }
      assert keys[..|keys|] == keys;
      r := Ok(body);
    }

    /** `add_header`: the header prepended to the lines; KeyError, with nothing changed, for a parameter the syntax lacks. */
    method AddHeader() returns (r: Result<()>)
      modifies this
      ensures var h := Header(flavour, old(parameters), workingDir);
        (r.Ok? <==> h.Ok?) && (r.Err? ==> r == Err("KeyError") && lines == old(lines)) &&
        (r.Ok? ==> lines == h.value + old(lines)) && parameters == old(parameters)
    {
      var keys := SortKeys(parameters);
      SortedUnique(keys, SortedKeys(parameters));
      var body := FormatParams(keys);
      if body.Err? {
        return Err("KeyError");
      }
      lines := ["#!/bin/bash\n"] + body.value + ["", "cd " + workingDir, ""] + lines;
      r := Ok(());
    }
  }

  /** The keys of a dict in sorted order, found by inserting them one at a time. */
  method SortKeys(params: map<string, Param>) returns (keys: seq<string>)
    ensures Sorted(keys) && multiset(keys) == multiset(params.Keys)
    ensures forall k :: k in keys ==> k in params
  {
    var rest := params.Keys;
    keys := [];
    while rest != {}
      invariant rest <= params.Keys
      invariant Sorted(keys) && multiset(keys) + multiset(rest) == multiset(params.Keys)
      decreases |rest|
    {
      var k :| k in rest;
      keys := Insert(k, keys);
      rest := rest - {k};
    }
    forall k | k in keys ensures k in params {
      assert k in multiset(keys);
      assert k in multiset(params.Keys);
    }
  }
}
