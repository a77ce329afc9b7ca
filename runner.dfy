/**
 * `main.py` and `sharpen_main.py`: run the pipeline's scripts one after the
 * other as child processes, stopping the whole run with exit status 1 at
 * the first stage that fails. Each stage's return code is an input.
 */
module Runner {

  import opened Wrappers

  type Command = seq<string>

  /** The index of the first non-zero return code, if any. */
  function FirstFailure(codes: seq<int>): (r: Option<nat>)
    ensures r.None? <==> forall i :: 0 <= i < |codes| ==> codes[i] == 0
    ensures r.Some? ==> r.value < |codes| && codes[r.value] != 0 && forall i :: 0 <= i < r.value ==> codes[i] == 0
  {
    if codes == [] then None
    else if codes[0] != 0 then Some(0)
    else match FirstFailure(codes[1..])
      case None => None
      case Some(i) => Some(i + 1)
  }

  /** How many stages are launched: up to and including the first failure. */
  function LaunchedCount(codes: seq<int>): (n: nat)
    ensures n <= |codes|
  {
    match FirstFailure(codes)
    case None => |codes|
    case Some(i) => i + 1
  }

  /** A stage is launched exactly when every earlier stage returned 0. */
  lemma LaunchedIffEarlierSucceeded(codes: seq<int>, k: int)
    requires 0 <= k < |codes|
    ensures k < LaunchedCount(codes) <==> forall i :: 0 <= i < k ==> codes[i] == 0
  {
    match FirstFailure(codes)
    case None =>
    case Some(f) =>
      if k > f {
        assert codes[f] != 0;
      }
  }

  /** The interpreter process running one of the two pipelines. */
  class Process {
    /** The commands launched so far, in order. */
    var launched: seq<Command>
    /** The status passed to `sys.exit`, once it has been called. */
    var exitStatus: Option<int>
    /** Whether the completion message has been printed. */
    var completed: bool

    constructor ()
      ensures launched == [] && exitStatus == None && !completed
    {
      launched := [];
      exitStatus := None;
      completed := false;
    }

    /** `run(cmd)`: launch `cmd`; on a non-zero return code, exit with status 1. */
    method Run(cmd: Command, returnCode: int)
      requires exitStatus.None?
      modifies this
      ensures launched == old(launched) + [cmd]
      ensures exitStatus == if returnCode != 0 then Some(1) else None
      ensures completed == old(completed)
    {
      launched := launched + [cmd];
      if returnCode != 0 {
        exitStatus := Some(1);
      }
    }

    /**
     * `main()` of either runner: the stages in order, then the completion
     * message; `codes[i]` is what stage `i` returns if it is launched.
     */
    method RunStages(stages: seq<Command>, codes: seq<int>)
      requires |codes| == |stages|
      requires launched == [] && exitStatus.None? && !completed
      modifies this
      ensures launched == stages[..LaunchedCount(codes)]
      ensures exitStatus == if FirstFailure(codes).Some? then Some(1) else None
      ensures completed <==> forall i :: 0 <= i < |codes| ==> codes[i] == 0
    {
      var i := 0;
      while i < |stages| && exitStatus.None?
        invariant 0 <= i <= |stages|
        invariant launched == stages[..i]
        invariant !completed
        invariant exitStatus.None? ==> forall j :: 0 <= j < i ==> codes[j] == 0
        invariant exitStatus.Some? ==> exitStatus == Some(1) && 0 < i && FirstFailure(codes) == Some(i - 1)
        decreases |stages| - i
      {
        if codes[i] != 0 {
          FirstFailureAt(codes, i);
        }
        Run(stages[i], codes[i]);
        i := i + 1;
      }
      if exitStatus.None? {
        completed := true;
      }
    }
  }

  /** A failure after only successes is the first failure. */
  lemma FirstFailureAt(codes: seq<int>, i: nat)
    requires i < |codes| && codes[i] != 0
    requires forall j :: 0 <= j < i ==> codes[j] == 0
    ensures FirstFailure(codes) == Some(i)
  {
  }

  /** `main.py`'s stages; `root` is the folder holding it. */
  function MainStages(python: string, root: string): (r: seq<Command>)
    ensures |r| == 3
  {
    [ [python, root + "/scripts/split_dataset.py", "--datapath", root + "/dataset", "--train_pct", "0.8"],
      [python, root + "/scripts/create_data_yaml.py"],
      [python, root + "/scripts/train.py"] ]
  }

  /** `sharpen_main.py`'s stages; `root` is the folder holding it. */
  function SharpenStages(python: string, root: string): (r: seq<Command>)
    ensures |r| == 4
  {
    [ [python, root + "/scripts/sharpen_all_images_unsharp.py"],
      [python, root + "/scripts/split_dataset.py", "--datapath", root + "/dataset/sharpen", "--train_pct", "0.8"],
      [python, root + "/scripts/create_data_yaml.py", "--datapath", root + "/dataset/sharpen"],
      [python, root + "/scripts/train.py", "--datapath", root + "/dataset/sharpen", "--modelType", root + "/models/sharpen"] ]
  }

  /** The script a command runs. */
  function Script(cmd: Command): string {
    if |cmd| >= 2 then cmd[1] else ""
  }

  /** `main.py` runs split, descriptors, training, in that order, all with the same interpreter. */
  lemma MainOrder(python: string, root: string)
    ensures var s := MainStages(python, root);
      && Script(s[0]) == root + "/scripts/split_dataset.py"
      && Script(s[1]) == root + "/scripts/create_data_yaml.py"
      && Script(s[2]) == root + "/scripts/train.py"
      && forall i :: 0 <= i < |s| ==> s[i][0] == python
  {
  }

  /**
   * `sharpen_main.py` runs sharpening, split, descriptors, training, in that
   * order, and the last three carry `--datapath <root>/dataset/sharpen`.
   */
  lemma SharpenOrder(python: string, root: string)
    ensures var s := SharpenStages(python, root);
      && Script(s[0]) == root + "/scripts/sharpen_all_images_unsharp.py"
      && Script(s[1]) == root + "/scripts/split_dataset.py"
      && Script(s[2]) == root + "/scripts/create_data_yaml.py"
      && Script(s[3]) == root + "/scripts/train.py"
      && forall i :: 1 <= i < |s| ==> |s[i]| >= 4 && s[i][2] == "--datapath" && s[i][3] == root + "/dataset/sharpen"
  {
  }

  /** `main.py` end to end. */
  method Pipeline(p: Process, python: string, root: string, codes: seq<int>)
    requires |codes| == 3
    requires p.launched == [] && p.exitStatus.None? && !p.completed
    modifies p
    ensures p.launched == MainStages(python, root)[..LaunchedCount(codes)]
    ensures p.exitStatus == if FirstFailure(codes).Some? then Some(1) else None
    ensures p.completed <==> codes == [0, 0, 0]
  {
    p.RunStages(MainStages(python, root), codes);
  }

  /** `sharpen_main.py` end to end. */
  method SharpenPipeline(p: Process, python: string, root: string, codes: seq<int>)
    requires |codes| == 4
    requires p.launched == [] && p.exitStatus.None? && !p.completed
    modifies p
    ensures p.launched == SharpenStages(python, root)[..LaunchedCount(codes)]
    ensures p.exitStatus == if FirstFailure(codes).Some? then Some(1) else None
    ensures p.completed <==> codes == [0, 0, 0, 0]
  {
    p.RunStages(SharpenStages(python, root), codes);
  }
}
