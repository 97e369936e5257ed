/**
 * The multi-stage vertical concatenation plan: the VCF files are concatenated
 * in batches of `chunk` files, the outputs of one stage becoming the inputs of
 * the next, until one file is left.  Each batch is a pipeline process that
 * waits for the processes of the previous stage whose outputs it reads.
 */
module VerticalConcat {
  import opened Wrappers
  import opened Text
  import Collections

  /**
   * One pipeline process: its name and the Python program it runs, with its
   * arguments and log file; `Command` gives the shell command line.
   */
  datatype Process = Process(name: string, program: string, args: seq<(string, string)>, log: string)

  /** A dependency recorded in the pipeline: a process and the processes it waits for. */
  type Edge = (Process, seq<Process>)

  /** The workflow being built; it only ever gains dependencies. */
  class Pipeline {
    var edges: seq<Edge>

    constructor ()
      ensures edges == []
    {
      edges := [];
    }

    method AddDependencies(p: Process, deps: seq<Process>)
      modifies this
      ensures edges == old(edges) + [(p, deps)]
    {
      edges := edges + [(p, deps)];
    }
  }

  // ---------------------------------------------------------------------
  // Batching

  /** `math.ceil(n / chunk)` for a positive chunk: the number of chunks needed to cover `n`. */
  function CeilDiv(n: nat, chunk: int): nat
    requires chunk > 0
    decreases n
  {
    if n == 0 then 0 else 1 + CeilDiv(if n <= chunk then 0 else n - chunk, chunk)
  }

  /** `CeilDiv` is the ceiling of the quotient: the least count whose chunks cover `n`. */
  lemma {:induction false} CeilDivIsCeiling(n: nat, chunk: int)
    requires chunk > 0
    ensures CeilDiv(n, chunk) * chunk >= n
    ensures CeilDiv(n, chunk) == 0 || (CeilDiv(n, chunk) - 1) * chunk < n
    decreases n
  {
    if n > chunk {
      var r := CeilDiv(n - chunk, chunk);
      CeilDivIsCeiling(n - chunk, chunk);
      assert (1 + r) * chunk == chunk + r * chunk;
      assert (1 + r - 1) * chunk == r * chunk;
      if r > 0 {
        assert (r - 1) * chunk == r * chunk - chunk;
      }
    }
  }

  lemma {:induction false} CeilDivAtMost(n: nat, chunk: int)
    requires chunk > 0
    ensures CeilDiv(n, chunk) <= n
    decreases n
  {
    if n > chunk {
      CeilDivAtMost(n - chunk, chunk);
    }
  }

  /** Python's `xs[lo:hi]` for `0 <= lo <= hi`: the bounds are clamped to the length. */
  function Slice<T>(xs: seq<T>, lo: nat, hi: nat): (r: seq<T>)
    requires lo <= hi
  {
    var a := if lo <= |xs| then lo else |xs|;
    var b := if hi <= |xs| then hi else |xs|;
    xs[a..b]
  }

  /** `xs[chunk*b : chunk*(b+1)]`: the `b`-th run of `chunk` elements, clamped to the length. */
  function Batch<T>(xs: seq<T>, chunk: int, b: nat): seq<T>
    requires chunk > 0
  {
    Slice(xs, chunk * b, chunk * b + chunk)
  }

  /** The batches of one stage, contiguous runs of `chunk` files, the last one possibly shorter. */
  function Batches<T>(files: seq<T>, chunk: int): seq<seq<T>>
    requires chunk > 0
    decreases |files|
  {
    if files == [] then []
    else
      var k := if chunk <= |files| then chunk else |files|;
      [files[..k]] + Batches(files[k..], chunk)
  }

  function Flatten<T>(parts: seq<seq<T>>): seq<T>
  {
    if parts == [] then [] else parts[0] + Flatten(parts[1..])
  }

  /** The batches put back together give the files, each batch holds 1 to `chunk` files. */
  lemma {:induction false} BatchesPartition<T>(files: seq<T>, chunk: int)
    requires chunk > 0
    ensures Flatten(Batches(files, chunk)) == files
    ensures forall b :: 0 <= b < |Batches(files, chunk)| ==> 1 <= |Batches(files, chunk)[b]| <= chunk
    decreases |files|
  {
    if files != [] {
      var k := if chunk <= |files| then chunk else |files|;
      BatchesPartition(files[k..], chunk);
      assert Batches(files, chunk)[1..] == Batches(files[k..], chunk);
      assert files[..k] + files[k..] == files;
    }
  }

  lemma SliceShift<T>(files: seq<T>, k: nat, lo: nat, hi: nat)
    requires k <= |files| && lo <= hi
    ensures Slice(files[k..], lo, hi) == Slice(files, lo + k, hi + k)
  {
  }

  /** Batch `b` is the slice `[chunk*b, chunk*(b+1))`, and there are `ceil(n/chunk)` of them. */
  lemma {:induction false} BatchesAreSlices<T>(files: seq<T>, chunk: int)
    requires chunk > 0
    ensures |Batches(files, chunk)| == CeilDiv(|files|, chunk)
    ensures forall b :: 0 <= b < |Batches(files, chunk)| ==> Batches(files, chunk)[b] == Batch(files, chunk, b)
    decreases |files|
  {
    if files != [] {
      var k := if chunk <= |files| then chunk else |files|;
      var rest := files[k..];
      BatchesAreSlices(rest, chunk);
      if |files| <= chunk {
        assert rest == [];
      }
      forall b | 0 <= b < |Batches(files, chunk)|
        ensures Batches(files, chunk)[b] == Batch(files, chunk, b)
      {
        if b > 0 {
          assert Batches(files, chunk)[b] == Batches(rest, chunk)[b - 1];
          NextBatchSlice(files, chunk, b);
        }
      }
    }
  }

  /** Batch `b` of the files after the first batch is batch `b + 1` of all of them. */
  lemma NextBatchSlice<T>(files: seq<T>, chunk: int, b: nat)
    requires 0 < chunk <= |files| && b > 0
    ensures Batch(files[chunk..], chunk, b - 1) == Batch(files, chunk, b)
  {
    assert chunk * (b - 1) + chunk == chunk * b;
    SliceShift(files, chunk, chunk * (b - 1), chunk * (b - 1) + chunk);
  }

  /** With at least two files and batches of at least two, a stage has fewer outputs than inputs. */
  lemma StageShrinks(n: nat, chunk: int)
    requires n >= 2 && chunk >= 2
    ensures 1 <= CeilDiv(n, chunk) < n
  {
    if n > chunk {
      CeilDivAtMost(n - chunk, chunk);
    }
  }

  // ---------------------------------------------------------------------
  // Names and commands

  /** The interpreter running the pipeline generator, and the directory of the concatenation program. */
  datatype Env = Env(python: string, moduleDir: string)

  /** The processing directory, the bcftools binary and the environment the commands are built in. */
  datatype Settings = Settings(dir: string, bcftools: string, env: Env)

  function StageDir(cfg: Settings, stage: nat): string
  {
    PathJoin(PathJoin(cfg.dir, "vertical_concat"), "stage_" + NatToString(stage))
  }

  /** `<dir>/vertical_concat/stage_<s>/concat_output_stage<s>_batch<b>.vcf.gz`. */
  function OutputName(cfg: Settings, stage: nat, batch: nat): string
  {
    PathJoin(StageDir(cfg, stage), OutputBase(stage, batch))
  }

  function OutputBase(stage: nat, batch: nat): string
  {
    "concat_output_stage" + NatToString(stage) + "_batch" + NatToString(batch) + ".vcf.gz"
  }

  /** An output lies in its stage's directory and ends with its own file name. */
  lemma OutputNameShape(cfg: Settings, stage: nat, batch: nat)
    ensures StartsWith(OutputName(cfg, stage, batch), StageDir(cfg, stage))
    ensures EndsWith(OutputName(cfg, stage, batch), OutputBase(stage, batch))
  {
    assert OutputBase(stage, batch)[0] == 'c';
    PathJoinFacts(StageDir(cfg, stage), OutputBase(stage, batch));
  }

  /** The file listing the inputs of one batch. */
  function FilesListName(cfg: Settings, stage: nat, batch: nat): string
  {
    PathJoin(StageDir(cfg, stage), "batch" + NatToString(batch) + "_files_to_be_concatenated.txt")
  }

  /** `--name value` for each argument, separated by spaces, in the order given. */
  function ArgsRepr(args: seq<(string, string)>): string
  {
    Join(ArgList(args), " ")
  }

  function ArgList(args: seq<(string, string)>): seq<string>
  {
    if args == [] then [] else ["--" + args[0].0 + " " + args[0].1] + ArgList(args[1..])
  }

  /** The shell command running a Python program as a module, its output appended to the log. */
  function CommandString(env: Env, program: string, args: seq<(string, string)>, log: string): string
  {
    "bash -c \"export PYTHONPATH='" + env.moduleDir + "' && " + env.python + " -m " + program + " " + ArgsRepr(args)
    + "\" 1>> " + log + " 2>&1"
  }

  /** Every command sends both its output streams to the end of its log. */
  lemma CommandAppendsToLog(env: Env, program: string, args: seq<(string, string)>, log: string)
    ensures EndsWith(CommandString(env, program, args, log), " 1>> " + log + " 2>&1")
    ensures StartsWith(CommandString(env, program, args, log), "bash -c ")
  {
    var c := CommandString(env, program, args, log);
    var pre := "bash -c \"export PYTHONPATH='" + env.moduleDir + "' && " + env.python + " -m " + program + " " + ArgsRepr(args) + "\"";
    var tail := " 1>> " + log + " 2>&1";
    assert c == pre + tail;
    assert c[|c| - |tail|..] == tail;
    assert c[..8] == pre[..8] == "bash -c ";
  }

  function BatchName(stage: nat, batch: nat): string
  {
    "concat_stage" + NatToString(stage) + "_batch" + NatToString(batch)
  }

  /** The arguments of a batch's concatenation: its list of files, the directory, its output and bcftools. */
  function BatchArgs(cfg: Settings, stage: nat, batch: nat): seq<(string, string)>
  {
    [("files-to-concat-list", FilesListName(cfg, stage, batch)), ("concat-processing-dir", cfg.dir),
     ("output-vcf-file", OutputName(cfg, stage, batch)), ("bcftools-binary", cfg.bcftools)]
  }

  function BatchProcess(cfg: Settings, stage: nat, batch: nat): Process
  {
    var name := BatchName(stage, batch);
    Process(name, "vcf_vertical_concat", BatchArgs(cfg, stage, batch), PathJoin(cfg.dir, name + ".log"))
  }

  /** The command line a process runs. */
  function Command(env: Env, p: Process): string
  {
    CommandString(env, p.program, p.args, p.log)
  }

  // ---------------------------------------------------------------------
  // One stage

  /** The processes of one stage, one per batch. */
  function StageProcesses(cfg: Settings, stage: nat, count: nat): (r: seq<Process>)
    ensures |r| == count && forall b :: 0 <= b < count ==> r[b] == BatchProcess(cfg, stage, b)
  {
    seq(count, b requires 0 <= b < count => BatchProcess(cfg, stage, b))
  }

  function StageOutputs(cfg: Settings, stage: nat, count: nat): (r: seq<string>)
    ensures |r| == count && forall b :: 0 <= b < count ==> r[b] == OutputName(cfg, stage, b)
  {
    seq(count, b requires 0 <= b < count => OutputName(cfg, stage, b))
  }

  /** Batch `b` waits for the previous-stage processes `[chunk*b, chunk*(b+1))`. */
  function StageEdges(procs: seq<Process>, prev: seq<Process>, chunk: int): (r: seq<Edge>)
    requires chunk > 0
    ensures |r| == |procs| && forall b :: 0 <= b < |procs| ==> r[b] == (procs[b], Batch(prev, chunk, b))
  {
    seq(|procs|, b requires 0 <= b < |procs| => (procs[b], Batch(prev, chunk, b)))
  }

  /**
   * The loop over the batches of one stage: for each batch, the list of its
   * files is written, a process is made and its dependencies are recorded.
   * The written lists are returned as (path, lines).
   */
  method RunStage(files: seq<string>, cfg: Settings, chunk: int, stage: nat, prev: seq<Process>, pipeline: Pipeline)
    returns (procs: seq<Process>, outputs: seq<string>, lists: seq<(string, seq<string>)>)
    requires chunk > 0
    modifies pipeline
    ensures var k := CeilDiv(|files|, chunk);
      procs == StageProcesses(cfg, stage, k) && outputs == StageOutputs(cfg, stage, k) &&
      pipeline.edges == old(pipeline.edges) + StageEdges(procs, prev, chunk)
    ensures |lists| == CeilDiv(|files|, chunk)
    ensures forall b :: 0 <= b < |lists| ==>
      lists[b] == (FilesListName(cfg, stage, b), Batch(files, chunk, b))
  {
    var k := CeilDiv(|files|, chunk);
    procs, outputs, lists := [], [], [];
    ghost var edges0 := pipeline.edges;
    for b := 0 to k
      invariant |procs| == b && StageSoFar(files, cfg, chunk, stage, procs, outputs, lists)
      invariant pipeline.edges == edges0 + StageEdges(procs, prev, chunk)
    {
      procs, outputs, lists := AddBatch(files, cfg, chunk, stage, prev, pipeline, procs, outputs, lists, edges0);
    }
  }

  /** The processes, outputs and file lists of the first `|procs|` batches of a stage. */
  ghost predicate StageSoFar(files: seq<string>, cfg: Settings, chunk: int, stage: nat, procs: seq<Process>,
                             outputs: seq<string>, lists: seq<(string, seq<string>)>)
  {
    chunk > 0 && |outputs| == |procs| && |lists| == |procs| &&
    forall j :: 0 <= j < |procs| ==>
      procs[j] == BatchProcess(cfg, stage, j) && outputs[j] == OutputName(cfg, stage, j) &&
      lists[j] == (FilesListName(cfg, stage, j), Batch(files, chunk, j))
  }

  /** One turn of the stage loop: the next batch's list, process, output and dependencies. */
  method AddBatch(files: seq<string>, cfg: Settings, chunk: int, stage: nat, prev: seq<Process>, pipeline: Pipeline,
                  procs: seq<Process>, outputs: seq<string>, lists: seq<(string, seq<string>)>, ghost edges0: seq<Edge>)
    returns (procs': seq<Process>, outputs': seq<string>, lists': seq<(string, seq<string>)>)
    requires StageSoFar(files, cfg, chunk, stage, procs, outputs, lists)
    requires pipeline.edges == edges0 + StageEdges(procs, prev, chunk)
    modifies pipeline
    ensures |procs'| == |procs| + 1 && StageSoFar(files, cfg, chunk, stage, procs', outputs', lists')
    ensures pipeline.edges == edges0 + StageEdges(procs', prev, chunk)
  {
    var b := |procs|;
    var inBatch := Batch(files, chunk, b);
    lists' := lists + [(FilesListName(cfg, stage, b), inBatch)];
    var p := BatchProcess(cfg, stage, b);
    procs' := procs + [p];
    outputs' := outputs + [OutputName(cfg, stage, b)];
    pipeline.AddDependencies(p, Batch(prev, chunk, b));
    StageSoFarSnoc(files, cfg, chunk, stage, procs, outputs, lists);
    StageEdgesSnoc(procs, p, prev, chunk);
    Collections.ConcatAssoc(edges0, StageEdges(procs, prev, chunk), [(p, Batch(prev, chunk, b))]);
  }

  lemma StageSoFarSnoc(files: seq<string>, cfg: Settings, chunk: int, stage: nat, procs: seq<Process>,
                        outputs: seq<string>, lists: seq<(string, seq<string>)>)
    requires StageSoFar(files, cfg, chunk, stage, procs, outputs, lists)
    ensures var b := |procs|;
      StageSoFar(files, cfg, chunk, stage, procs + [BatchProcess(cfg, stage, b)], outputs + [OutputName(cfg, stage, b)],
                 lists + [(FilesListName(cfg, stage, b), Batch(files, chunk, b))])
  {
    var b := |procs|;
    var procs', outputs', lists' := procs + [BatchProcess(cfg, stage, b)], outputs + [OutputName(cfg, stage, b)],
      lists + [(FilesListName(cfg, stage, b), Batch(files, chunk, b))];
    forall j | 0 <= j < |procs'|
      ensures procs'[j] == BatchProcess(cfg, stage, j) && outputs'[j] == OutputName(cfg, stage, j) &&
        lists'[j] == (FilesListName(cfg, stage, j), Batch(files, chunk, j))
    {
      if j < b {
        assert procs'[j] == procs[j] && outputs'[j] == outputs[j] && lists'[j] == lists[j];
      }
    }
  }

  lemma StageEdgesSnoc(procs: seq<Process>, p: Process, prev: seq<Process>, chunk: int)
    requires chunk > 0
    ensures StageEdges(procs + [p], prev, chunk) == StageEdges(procs, prev, chunk) + [(p, Batch(prev, chunk, |procs|))]
  {
    var a, b := StageEdges(procs + [p], prev, chunk), StageEdges(procs, prev, chunk) + [(p, Batch(prev, chunk, |procs|))];
    assert |a| == |b|;
    forall j | 0 <= j < |a| ensures a[j] == b[j] {
      if j < |procs| {
        assert (procs + [p])[j] == procs[j];
      }
    }
  }

  // ---------------------------------------------------------------------
  // All stages

  /** The number of stages needed to bring `n` files down to one. */
  function StageCount(n: nat, chunk: int): nat
    requires chunk >= 2
    decreases n
  {
    if n <= 1 then 0
    else
      StageShrinks(n, chunk);
      1 + StageCount(CeilDiv(n, chunk), chunk)
  }

  /**
   * The whole plan: the dependencies added, and the final file.  With no file
   * the recursion never reaches a single file, nor with batches of one file
   * or a negative batch size; a zero batch size divides by zero.
   */
  function Plan(files: seq<string>, cfg: Settings, chunk: int, stage: nat, prev: seq<Process>): Result<(seq<Edge>, string)>
    decreases |files|
  {
    if |files| == 1 then Ok(([], files[0]))
    else if chunk == 0 then Err("ZeroDivisionError")
    else if chunk == 1 || chunk < 0 || |files| == 0 then Err("RecursionError")
    else
      var k := CeilDiv(|files|, chunk);
      StageShrinks(|files|, chunk);
      var procs := StageProcesses(cfg, stage, k);
      match Plan(StageOutputs(cfg, stage, k), cfg, chunk, stage + 1, procs)
      case Err(e) => Err(e)
      case Ok(rest) => Ok((StageEdges(procs, prev, chunk) + rest.0, rest.1))
  }

  /** `get_multistage_vertical_concat_pipeline`. */
  method MultistagePipeline(files: seq<string>, cfg: Settings, chunk: int, stage: nat, prev: seq<Process>, pipeline: Pipeline)
    returns (r: Result<string>)
    modifies pipeline
    ensures var p := Plan(files, cfg, chunk, stage, prev);
      (r.Ok? <==> p.Ok?) && (r.Err? ==> r.error == p.error) &&
      (r.Ok? ==> r.value == p.value.1 && pipeline.edges == old(pipeline.edges) + p.value.0)
    decreases |files|
  {
    if |files| == 1 {
      return Ok(files[0]);
    }
    if chunk == 0 {
      return Err("ZeroDivisionError");
    }
    if chunk == 1 || chunk < 0 || |files| == 0 {
      return Err("RecursionError");
    }
    ghost var edges0 := pipeline.edges;
    var procs, outputs, lists := RunStage(files, cfg, chunk, stage, prev, pipeline);
    PlanAfterStage(files, cfg, chunk, stage, prev, procs, outputs);
    r := MultistagePipeline(outputs, cfg, chunk, stage + 1, procs, pipeline);
    ghost var rest := Plan(outputs, cfg, chunk, stage + 1, procs);
    if rest.Ok? {
      Collections.ConcatAssoc(edges0, StageEdges(procs, prev, chunk), rest.value.0);
    }
  }

  /** A plan for several files in batches of at least two is the first stage followed by the plan for its outputs. */
  lemma PlanAfterStage(files: seq<string>, cfg: Settings, chunk: int, stage: nat, prev: seq<Process>,
                       procs: seq<Process>, outputs: seq<string>)
    requires |files| >= 2 && chunk >= 2
    requires procs == StageProcesses(cfg, stage, CeilDiv(|files|, chunk))
    requires outputs == StageOutputs(cfg, stage, CeilDiv(|files|, chunk))
    ensures |outputs| < |files|
    ensures Plan(files, cfg, chunk, stage, prev) ==
      match Plan(outputs, cfg, chunk, stage + 1, procs)
      case Err(e) => Err(e)
      case Ok(rest) => Ok((StageEdges(procs, prev, chunk) + rest.0, rest.1))
  {
    StageShrinks(|files|, chunk);
  }

  /**
   * The plan exists exactly for one file, or for several files in batches of
   * at least two; one file is itself the result, with no stage added.
   */
  lemma {:induction false} PlanSucceedsIff(files: seq<string>, cfg: Settings, chunk: int, stage: nat, prev: seq<Process>)
    ensures Plan(files, cfg, chunk, stage, prev).Ok? <==> |files| == 1 || (|files| >= 2 && chunk >= 2)
    ensures |files| == 1 ==> Plan(files, cfg, chunk, stage, prev) == Ok(([], files[0]))
    decreases |files|
  {
    if |files| >= 2 && chunk >= 2 {
      var k := CeilDiv(|files|, chunk);
      StageShrinks(|files|, chunk);
      PlanSucceedsIff(StageOutputs(cfg, stage, k), cfg, chunk, stage + 1, StageProcesses(cfg, stage, k));
    }
  }

  /** With several files, the plan is the first stage's dependencies followed by the plan of its outputs. */
  lemma PlanUnfold(files: seq<string>, cfg: Settings, chunk: int, stage: nat, prev: seq<Process>)
    requires |files| >= 2 && chunk >= 2
    ensures var k := CeilDiv(|files|, chunk);
      var procs := StageProcesses(cfg, stage, k);
      var rest := Plan(StageOutputs(cfg, stage, k), cfg, chunk, stage + 1, procs);
      1 <= k < |files| && StageCount(|files|, chunk) == 1 + StageCount(k, chunk) &&
      BatchTotal(|files|, chunk) == k + BatchTotal(k, chunk) &&
      (rest.Ok? ==> Plan(files, cfg, chunk, stage, prev) == Ok((StageEdges(procs, prev, chunk) + rest.value.0, rest.value.1)))
  {
    StageShrinks(|files|, chunk);
  }

  /** With several files, the result is the single output of the last stage. */
  lemma {:induction false} PlanFinalName(files: seq<string>, cfg: Settings, chunk: int, stage: nat, prev: seq<Process>)
    requires |files| >= 2 && chunk >= 2
    ensures PlanOk(files, cfg, chunk, stage, prev)
    ensures Plan(files, cfg, chunk, stage, prev).value.1 == OutputName(cfg, stage + StageCount(|files|, chunk) - 1, 0)
    decreases |files|
  {
    PlanUnfold(files, cfg, chunk, stage, prev);
    var k := CeilDiv(|files|, chunk);
    var outs := StageOutputs(cfg, stage, k);
    var procs := StageProcesses(cfg, stage, k);
    PlanSucceedsIff(outs, cfg, chunk, stage + 1, procs);
    if k >= 2 {
      PlanFinalName(outs, cfg, chunk, stage + 1, procs);
    }
  }

  /** With several files, one dependency is recorded per batch of every stage. */
  lemma {:induction false} PlanEdgeCount(files: seq<string>, cfg: Settings, chunk: int, stage: nat, prev: seq<Process>)
    requires |files| >= 2 && chunk >= 2
    ensures PlanOk(files, cfg, chunk, stage, prev)
    ensures |Plan(files, cfg, chunk, stage, prev).value.0| == BatchTotal(|files|, chunk)
    decreases |files|
  {
    PlanUnfold(files, cfg, chunk, stage, prev);
    var k := CeilDiv(|files|, chunk);
    var outs := StageOutputs(cfg, stage, k);
    var procs := StageProcesses(cfg, stage, k);
    PlanSucceedsIff(outs, cfg, chunk, stage + 1, procs);
    if k >= 2 {
      PlanEdgeCount(outs, cfg, chunk, stage + 1, procs);
    }
  }

  /**
   * With several files, the result is the single output of the last stage,
   * and one dependency is recorded per batch of every stage.
   */
  lemma PlanFinalOutput(files: seq<string>, cfg: Settings, chunk: int, stage: nat, prev: seq<Process>)
    requires |files| >= 2 && chunk >= 2
    ensures PlanOk(files, cfg, chunk, stage, prev)
    ensures Plan(files, cfg, chunk, stage, prev).value.1 == OutputName(cfg, stage + StageCount(|files|, chunk) - 1, 0)
    ensures |Plan(files, cfg, chunk, stage, prev).value.0| == BatchTotal(|files|, chunk)
  {
    PlanFinalName(files, cfg, chunk, stage, prev);
    PlanEdgeCount(files, cfg, chunk, stage, prev);
  }

  predicate PlanOk(files: seq<string>, cfg: Settings, chunk: int, stage: nat, prev: seq<Process>)
  {
    Plan(files, cfg, chunk, stage, prev).Ok?
  }

  /** The number of batches over all stages. */
  function BatchTotal(n: nat, chunk: int): nat
    requires chunk >= 2
    decreases n
  {
    if n <= 1 then 0
    else
      StageShrinks(n, chunk);
      CeilDiv(n, chunk) + BatchTotal(CeilDiv(n, chunk), chunk)
  }

  /** The five-file example: three batches, then two, then one. */
  lemma FiveFilesInPairs()
    ensures CeilDiv(5, 2) == 3 && CeilDiv(3, 2) == 2 && CeilDiv(2, 2) == 1
    ensures StageCount(5, 2) == 3 && BatchTotal(5, 2) == 6
  {
    assert CeilDiv(5, 2) == 3 && CeilDiv(3, 2) == 2 && CeilDiv(2, 2) == 1;
    assert StageCount(1, 2) == 0 && BatchTotal(1, 2) == 0;
    assert StageCount(2, 2) == 1 && BatchTotal(2, 2) == 1;
    assert StageCount(3, 2) == 2 && BatchTotal(3, 2) == 3;
  }
}
