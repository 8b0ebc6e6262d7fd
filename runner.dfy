/** `PipelineRunner`: checks the configuration and the repository, reads the
    pipeline, settles which steps to run, and then runs them in a fresh run
    directory under the results directory, linking the steps it does not
    run to the previous run's outputs. */
module Runner {
  import opened Wrappers
  import opened Files
  import opened Errors
  import opened History
  import opened Inputs
  import opened Range
  import opened Steps
  import Text

  /** The constructor's keyword arguments (lines 87-91). */
  datatype Config = Config(force: bool, final: bool, outputDir: Option<string>, resultsDir: Path,
                           reproducibleListFile: Path, pipelineFile: Path,
                           rangeStart: Option<RangeArg>, rangeEnd: Option<RangeArg>, future: bool,
                           previousRun: Option<string>, ignoreMissingOutput: bool, inference: Mode)

  /** What initialization observes: which paths exist, the lines of the
      files it reads (a path that exists but cannot be read is absent from
      `contents`), the results directory's listing and whether it can be
      listed at all (it cannot when the results path is not a directory),
      what `git status` and `git rev-parse HEAD` returned, and the current
      time as text. */
  datatype Env = Env(existing: set<Path>, contents: map<Path, seq<string>>, runs: seq<RunDir>, resultsListable: bool,
                     gitStatus: ProcessResult, gitRev: ProcessResult, now: string)

  /** The steps, the range to run and the commit hash. */
  datatype Plan = Plan(steps: seq<StepSpec>, range: Resolved, rev: string)

  /** What a successful initialization leaves in the runner. */
  datatype Setup = Setup(outputDir: string, reproducibleFiles: seq<Path>, steps: seq<StepSpec>,
                         range: Resolved, rev: string)

  function Min(a: int, b: int): int {
    if a < b then a else b
  }

  function SpecNames(specs: seq<StepSpec>): (names: seq<string>)
    ensures |names| == |specs| && forall k :: 0 <= k < |specs| ==> names[k] == specs[k].name
  {
    seq(|specs|, k requires 0 <= k < |specs| => specs[k].name)
  }

  /** Lines 128-134: the listed files, provided they all exist and git
      reports none of them changed. */
  function ReproducibleFiles(listFile: Path, env: Env): Result<seq<Path>, Error> {
    if listFile !in env.contents then Err(IoError)
    else
      var files :- ParseReproducibleLines(listFile, env.contents[listFile], env.existing);
      var clean :- RepoClean(files, env.gitStatus);
      if clean then Ok(files) else Err(NotClean)
  }

  /** Line 136: the steps the pipeline file declares. */
  function PipelineSpecs(pipelineFile: Path, env: Env): Result<seq<StepSpec>, Error> {
    if pipelineFile !in env.contents then Err(IoError)
    else ParsePipelineLines(pipelineFile, env.contents[pipelineFile], env.existing)
  }

  /** The run's name: the one given, else the current time. */
  function RunName(config: Config, env: Env): string {
    if config.outputDir.Some? then config.outputDir.value else env.now
  }

  /** Lines 105-126: the checks on the configuration, in the source's
      order, yielding the run's name. A results path that is not a
      directory holds no previous run. The collision check looks for the
      run's name relative to the working directory, not under the results
      directory where the run is made. */
  function Checks(config: Config, env: Env): Result<string, Error> {
    if config.resultsDir !in env.existing then Err(ResultsDirMissing)
    else if !config.force && config.reproducibleListFile !in env.existing then Err(ReproducibleListMissing)
    else if config.pipelineFile !in env.existing then Err(PipelineFileMissing)
    else if Truthy(config.previousRun) && (!env.resultsListable || Lookup(env.runs, config.previousRun.value).None?)
    then Err(PreviousRunMissing)
    else if [RunName(config, env)] in env.existing then Err(OutputDirExists)
    else Ok(RunName(config, env))
  }

  /** Lines 128-144: unless forced, the clean-tree policy; then the
      pipeline, the range and the commit hash. */
  function Prepared(config: Config, env: Env, runName: string): Result<Setup, Error> {
    var files: seq<Path> :- if config.force then Ok([]) else ReproducibleFiles(config.reproducibleListFile, env);
    var plan :- Loading(config, env);
    Ok(Setup(runName, files, plan.steps, plan.range, plan.rev))
  }

  /** Lines 136-144: the pipeline, the range and the commit hash. */
  function Loading(config: Config, env: Env): Result<Plan, Error> {
    var specs :- PipelineSpecs(config.pipelineFile, env);
    var range :- ResolveRange(SpecNames(specs), config.rangeStart, config.rangeEnd, config.previousRun,
                              env.runs, env.resultsListable, config.inference, config.ignoreMissingOutput);
    if env.gitRev.exitCode != 0 then Err(RevParseFailed)
    else Ok(Plan(specs, range, env.gitRev.stdout))
  }

  /** `__init__` (lines 105-144). */
  function Initialization(config: Config, env: Env): Result<Setup, Error> {
    var runName :- Checks(config, env);
    Prepared(config, env, runName)
  }

  /** What a runner that initialized successfully has established: the
      directories and files it needs exist, the run's name is not taken in
      the working directory, unless forced the listed files exist and are
      unchanged, every step's script exists, and the range lies within the
      pipeline. */
  lemma InitializationChecks(config: Config, env: Env)
    ensures var r := Initialization(config, env);
            r.Ok? ==>
              config.resultsDir in env.existing && config.pipelineFile in env.existing &&
              [r.value.outputDir] !in env.existing &&
              (Truthy(config.previousRun) ==> env.resultsListable && Lookup(env.runs, config.previousRun.value).Some?) &&
              (!config.force ==> config.reproducibleListFile in env.existing && r.value.reproducibleFiles != [] &&
                                 env.gitStatus.exitCode == 0 && env.gitStatus.stdout == [] &&
                                 forall k :: 0 <= k < |r.value.reproducibleFiles| ==> r.value.reproducibleFiles[k] in env.existing) &&
              (forall k :: 0 <= k < |r.value.steps| ==> r.value.steps[k].script in env.existing) &&
              r.value.range.rangeEnd < |r.value.steps| &&
              env.gitRev.exitCode == 0
  {
    var r := Initialization(config, env);
    if r.Ok? {
      var runName := Checks(config, env).value;
      var plan := Loading(config, env).value;
      assert r.value == Prepared(config, env, runName).value;
      assert r.value.steps == plan.steps && r.value.range == plan.range;
      if !config.force {
        var listFile := config.reproducibleListFile;
        ParseReproducibleLinesSound(listFile, env.contents[listFile], env.existing);
      }
      var lines := env.contents[config.pipelineFile];
      ParsePipelineLinesSound(config.pipelineFile, lines, env.existing);
      forall k | 0 <= k < |r.value.steps|
        ensures r.value.steps[k].script in env.existing
      {
        assert SpecLine(config.pipelineFile, lines[k], k + 1, env.existing) == Ok(r.value.steps[k]);
      }
    }
  }

  /** When forced, git is not consulted about the working tree. */
  lemma ForceIgnoresGitStatus(config: Config, env: Env, status: ProcessResult)
    requires config.force
    ensures Initialization(config, env) == Initialization(config, env.(gitStatus := status))
  {
  }

  /** Unless forced, a tree git reports as changed stops the run before the
      pipeline file is read, whatever the pipeline holds. */
  lemma DirtyTreeRefused(config: Config, env: Env)
    requires !config.force
    requires config.resultsDir in env.existing && config.reproducibleListFile in env.existing && config.pipelineFile in env.existing
    requires !Truthy(config.previousRun) && [RunName(config, env)] !in env.existing
    requires config.reproducibleListFile in env.contents
    requires ParseReproducibleLines(config.reproducibleListFile, env.contents[config.reproducibleListFile], env.existing).Ok?
    requires ParseReproducibleLines(config.reproducibleListFile, env.contents[config.reproducibleListFile], env.existing).value != []
    requires env.gitStatus.exitCode == 0 && env.gitStatus.stdout != []
    ensures Initialization(config, env) == Err(NotClean)
  {
  }

  /** The links `link_range(0, start)` made are links for steps before
      the range. */
  lemma PriorLinksNamed(before: map<Path, Node>, now: map<Path, Node>, runDir: Path, previous: string,
                        names: seq<string>, start: int, end: int, future: bool)
    requires 0 < start
    requires forall q :: q in now && q !in before ==>
               |q| == |runDir| + 1 && q[|runDir|] in names[0..Min(start, |names|)] &&
               now[q] == Link(["..", previous, q[|runDir|]])
    ensures forall q :: q in now && q !in before ==>
              |q| == |runDir| + 1 && LinkedName(names, start, end, future, q[|runDir|]) &&
              now[q] == Link(["..", previous, q[|runDir|]])
  {
    assert names[0..Min(start, |names|)] == names[..Min(start, |names|)];
  }

  /** After the links of the steps before the range, those after it: the
      links before stay, and every new entry links a step outside the
      range. */
  lemma FutureLinksNamed(before: map<Path, Node>, mid: map<Path, Node>, now: map<Path, Node>, runDir: Path,
                         previous: string, names: seq<string>, start: int, end: int, future: bool)
    requires 0 < start && future && 0 <= end + 1 <= |names|
    requires Extends(before, mid, runDir) && Extends(mid, now, runDir)
    requires forall q :: q in mid && q !in before ==>
               |q| == |runDir| + 1 && LinkedName(names, start, end, future, q[|runDir|]) &&
               mid[q] == Link(["..", previous, q[|runDir|]])
    requires forall q :: q in now && q !in mid ==>
               |q| == |runDir| + 1 && q[|runDir|] in names[end + 1..|names|] &&
               now[q] == Link(["..", previous, q[|runDir|]])
    requires forall k :: 0 <= k < Min(start, |names|) ==> LinkedTo(mid, runDir, previous, names[k])
    ensures Extends(before, now, runDir)
    ensures forall q :: q in now && q !in before ==>
              |q| == |runDir| + 1 && LinkedName(names, start, end, future, q[|runDir|]) &&
              now[q] == Link(["..", previous, q[|runDir|]])
    ensures forall k :: 0 <= k < Min(start, |names|) ==> LinkedTo(now, runDir, previous, names[k])
  {
    ExtendsTransitive(before, mid, now, runDir);
    assert names[end + 1..|names|] == names[end + 1..];
    forall k | 0 <= k < Min(start, |names|)
      ensures LinkedTo(now, runDir, previous, names[k])
    {
      assert runDir + [names[k]] in mid;
    }
  }

  /** Every entry that was present still is, unchanged, and every new entry
      lies strictly under `dir`. */
  ghost predicate Extends(before: map<Path, Node>, after: map<Path, Node>, dir: Path) {
    (forall q :: q in before ==> q in after && after[q] == before[q]) &&
    (forall q :: q in after && q !in before ==> IsPrefix(dir, q) && |q| > |dir|)
  }

  lemma ExtendsTransitive(a: map<Path, Node>, b: map<Path, Node>, c: map<Path, Node>, dir: Path)
    requires Extends(a, b, dir) && Extends(b, c, dir)
    ensures Extends(a, c, dir)
  {
  }

  /** No new entry is a symbolic link. */
  ghost predicate NoNewLinks(before: map<Path, Node>, after: map<Path, Node>) {
    forall q :: q in after && q !in before ==> !after[q].Link?
  }

  /** `p` is a file. */
  predicate HasFile(nodes: map<Path, Node>, p: Path) {
    p in nodes && nodes[p].File?
  }

  /** `dir` holds no `.final` marker file. */
  predicate Unmarked(nodes: map<Path, Node>, dir: Path) {
    !HasFile(nodes, dir + [".final"])
  }

  /** Some name occurs twice in `s`. */
  predicate Repeats(s: seq<string>) {
    exists i, j :: 0 <= i < j < |s| && s[i] == s[j]
  }

  /** `s[lo..hi]`, or nothing where that is not a slice of `s`. */
  function Slice(s: seq<string>, lo: int, hi: int): seq<string> {
    if 0 <= lo <= hi <= |s| then s[lo..hi] else []
  }

  /** Every entry directly in `dir` is a directory or a link named after
      one of `taken`. */
  ghost predicate HoldsOnly(nodes: map<Path, Node>, dir: Path, taken: seq<string>) {
    forall q :: q in nodes && IsPrefix(dir, q) && |q| == |dir| + 1 ==> q[|dir|] in taken && !nodes[q].File?
  }

  /** Every entry directly in `dir` that is new since `before` is a
      directory named after one of `taken`. */
  ghost predicate NewDirsIn(before: map<Path, Node>, after: map<Path, Node>, dir: Path, taken: seq<string>) {
    forall q :: q in after && q !in before && IsPrefix(dir, q) && |q| == |dir| + 1 ==> q[|dir|] in taken && after[q] == Dir
  }

  /** New directories in two stages are new directories named in either. */
  lemma NewDirsGrow(a: map<Path, Node>, b: map<Path, Node>, c: map<Path, Node>, dir: Path, t1: seq<string>, t2: seq<string>)
    requires NewDirsIn(a, b, dir, t1) && NewDirsIn(b, c, dir, t2)
    requires forall q :: q in b ==> q in c && c[q] == b[q]
    ensures NewDirsIn(a, c, dir, t1 + t2)
  {
  }

  /** A directory that holds nothing has no entry `name`. */
  lemma NotHeld(nodes: map<Path, Node>, dir: Path, name: string)
    requires HoldsOnly(nodes, dir, [])
    ensures dir + [name] !in nodes
  {
    assert IsPrefix(dir, dir + [name]);
  }

  /** New directories added to entries held only under `t1`. */
  lemma HeldGrows(b: map<Path, Node>, c: map<Path, Node>, dir: Path, t1: seq<string>, t2: seq<string>)
    requires HoldsOnly(b, dir, t1) && NewDirsIn(b, c, dir, t2)
    requires forall q :: q in b ==> q in c && c[q] == b[q]
    ensures HoldsOnly(c, dir, t1 + t2)
  {
  }

  /** `dir/name` links to the previous run's output of step `name`. */
  predicate LinkedTo(nodes: map<Path, Node>, dir: Path, previous: string, name: string) {
    dir + [name] in nodes && nodes[dir + [name]] == Link(["..", previous, name])
  }

  /** `d` is a directory holding the files `wrote`. */
  predicate HoldsOutput(nodes: map<Path, Node>, d: Path, wrote: map<string, string>) {
    d in nodes && nodes[d] == Dir &&
    forall w :: w in wrote ==> d + [w] in nodes && nodes[d + [w]] == File(wrote[w])
  }

  /** Whether `open(p, 'w')` can succeed on a path whose parent is a directory. */
  predicate Writable(nodes: map<Path, Node>, p: Path) {
    p !in nodes || nodes[p].File?
  }

  predicate Succeeded(script: ScriptRun) {
    script.exitCode == Some(0)
  }

  /** Lines 156-157 for one step: make its output directory in the run
      directory, then run it. `made` is false where `os.makedirs` raises,
      which is exactly when the directory is already there. */
  method RunStep(fs: FileSystem, step: PipelineStep, runName: string, script: ScriptRun) returns (made: bool, err: Option<Error>)
    requires fs.Valid()
    requires step.resultsDir + [runName] in fs.nodes && fs.nodes[step.resultsDir + [runName]] == Dir
    modifies fs, step
    ensures fs.Valid()
    ensures made == (step.resultsDir + [runName, step.name] !in old(fs.nodes))
    ensures !made ==> err == Some(OsError) && fs.nodes == old(fs.nodes)
    ensures made && Succeeded(script) ==> err.None? && HoldsOutput(fs.nodes, step.resultsDir + [runName, step.name], script.wrote)
    ensures made && !Succeeded(script) ==>
              err == Some(if script.exitCode.Some? then ScriptFailed else OsError) && fs.nodes == old(fs.nodes)
    ensures Extends(old(fs.nodes), fs.nodes, step.resultsDir + [runName])
    ensures NoNewLinks(old(fs.nodes), fs.nodes)
    ensures Unmarked(old(fs.nodes), step.resultsDir + [runName]) ==> Unmarked(fs.nodes, step.resultsDir + [runName])
    ensures NewDirsIn(old(fs.nodes), fs.nodes, step.resultsDir + [runName], [step.name])
  {
    var runDir := step.resultsDir + [runName];
    var d := step.resultsDir + [runName, step.name];
    assert d == runDir + [step.name] && Dirname(d) == runDir;
    MakeChildDir(fs.nodes, d);
    made := step.MakeOutputDirectory(runName, fs);
    if !made {
      return false, Some(OsError);
    }
    ghost var mid := fs.nodes;
    assert mid == old(fs.nodes)[d := Dir];
    err := step.Run(fs, script);
    if Succeeded(script) {
      OutputAdded(old(fs.nodes), runDir, step.name, script.wrote);
    }
  }

  /** A step that succeeded adds its output directory and the files in it,
      all new and under the run directory, none of them a link, and only
      the output directory directly in the run directory. */
  lemma OutputAdded(before: map<Path, Node>, runDir: Path, name: string, wrote: map<string, string>)
    requires TreeShaped(before) && runDir + [name] !in before
    ensures var after := before[runDir + [name] := Dir] + Written(runDir + [name], wrote);
            Extends(before, after, runDir) && NoNewLinks(before, after) &&
            HoldsOutput(after, runDir + [name], wrote) &&
            (Unmarked(before, runDir) ==> Unmarked(after, runDir)) &&
            NewDirsIn(before, after, runDir, [name])
  {
    var d := runDir + [name];
    OutputIsNew(before, runDir, name, wrote);
    OutputDirNamed(before, runDir, name, wrote);
    OutputKeepsOld(before, runDir, name, wrote);
    assert d !in Written(d, wrote);
  }

  /** Every entry a step's output adds is under the run directory and is
      not a link. */
  lemma OutputIsNew(before: map<Path, Node>, runDir: Path, name: string, wrote: map<string, string>)
    ensures var d := runDir + [name];
            var after := before[d := Dir] + Written(d, wrote);
            forall q :: q in after && q !in before ==> IsPrefix(runDir, q) && |q| > |runDir| && !after[q].Link?
  {
    var d := runDir + [name];
    var after := before[d := Dir] + Written(d, wrote);
    forall q | q in after && q !in before
      ensures IsPrefix(runDir, q) && |q| > |runDir| && !after[q].Link?
    {
      if q != d {
        assert q in Written(d, wrote);
        assert q[..|runDir|] == d[..|runDir|];
      }
    }
  }

  /** The only entry a step's output adds directly in the run directory is
      its output directory. */
  lemma OutputDirNamed(before: map<Path, Node>, runDir: Path, name: string, wrote: map<string, string>)
    requires runDir + [name] !in before
    ensures var d := runDir + [name];
            NewDirsIn(before, before[d := Dir] + Written(d, wrote), runDir, [name])
  {
    var d := runDir + [name];
    var after := before[d := Dir] + Written(d, wrote);
    forall q | q in after && q !in before && IsPrefix(runDir, q) && |q| == |runDir| + 1
      ensures q[|runDir|] in [name] && after[q] == Dir
    {
      assert q !in Written(d, wrote);
      assert q[|runDir|] == name;
    }
  }

  /** A step's output, made where nothing was, keeps every earlier entry. */
  lemma OutputKeepsOld(before: map<Path, Node>, runDir: Path, name: string, wrote: map<string, string>)
    requires TreeShaped(before) && runDir + [name] !in before
    ensures var d := runDir + [name];
            var after := before[d := Dir] + Written(d, wrote);
            forall q :: q in before ==> q in after && after[q] == before[q]
  {
    var d := runDir + [name];
    var after := before[d := Dir] + Written(d, wrote);
    forall q | q in before
      ensures q in after && after[q] == before[q]
    {
      if IsPrefix(d, q) {
        NothingUnderAbsent(before, d, q);
      }
      assert q !in Written(d, wrote);
    }
  }

  /** The links made by `link_range(lo, k)` so far: every new entry is a
      link in `runDir` to the previous run's output of one of those steps,
      and each of those steps has its link. */
  ghost predicate LinksSoFar(before: map<Path, Node>, now: map<Path, Node>, runDir: Path, previous: string,
                             names: seq<string>, lo: int, k: int)
    requires 0 <= lo <= k <= |names|
  {
    Extends(before, now, runDir) &&
    (forall q :: q in now && q !in before ==>
       |q| == |runDir| + 1 && q[|runDir|] in names[lo..k] && now[q] == Link(["..", previous, q[|runDir|]])) &&
    (forall j :: lo <= j < k ==> LinkedTo(now, runDir, previous, names[j]))
  }

  /** `link_range(lo, hi)` stopped at step `k`: the steps from `lo` up to
      `k` are linked and nothing else was added, and `k`'s name was already
      taken, before the loop or by an earlier step of the same name. */
  ghost predicate LinksStoppedAt(before: map<Path, Node>, now: map<Path, Node>, runDir: Path, previous: string,
                                 names: seq<string>, lo: int, k: int)
    requires 0 <= lo <= k < |names|
  {
    LinksSoFar(before, now, runDir, previous, names, lo, k) &&
    runDir + [names[k]] in now &&
    (runDir + [names[k]] in before || names[k] in names[lo..k])
  }

  /** One more link keeps `LinksSoFar`. */
  lemma LinkAdded(before: map<Path, Node>, now: map<Path, Node>, runDir: Path, previous: string,
                  names: seq<string>, lo: int, k: int)
    requires 0 <= lo <= k < |names|
    requires LinksSoFar(before, now, runDir, previous, names, lo, k)
    requires runDir + [names[k]] !in now
    ensures LinksSoFar(before, now[runDir + [names[k]] := Link(["..", previous, names[k]])], runDir, previous, names, lo, k + 1)
  {
    var at := runDir + [names[k]];
    var after := now[at := Link(["..", previous, names[k]])];
    assert at[..|runDir|] == runDir && at[|runDir|] == names[k];
    assert Extends(now, after, runDir);
    ExtendsTransitive(before, now, after, runDir);
    NewLinksAdded(before, now, runDir, previous, names, lo, k);
    EarlierLinksStay(now, runDir, previous, names, lo, k);
  }

  /** The links made so far stay, and step `k` gets its own. */
  lemma EarlierLinksStay(now: map<Path, Node>, runDir: Path, previous: string, names: seq<string>, lo: int, k: int)
    requires 0 <= lo <= k < |names| && runDir + [names[k]] !in now
    requires forall j :: lo <= j < k ==> LinkedTo(now, runDir, previous, names[j])
    ensures var after := now[runDir + [names[k]] := Link(["..", previous, names[k]])];
            forall j :: lo <= j < k + 1 ==> LinkedTo(after, runDir, previous, names[j])
  {
    var after := now[runDir + [names[k]] := Link(["..", previous, names[k]])];
    forall j | lo <= j < k + 1
      ensures LinkedTo(after, runDir, previous, names[j])
    {
      if j < k {
        assert runDir + [names[j]] in now;
      }
    }
  }

  /** The entries new since `before` after one more link are links to the
      previous run's outputs of the steps `lo` to `k`. */
  lemma NewLinksAdded(before: map<Path, Node>, now: map<Path, Node>, runDir: Path, previous: string,
                      names: seq<string>, lo: int, k: int)
    requires 0 <= lo <= k < |names|
    requires LinksSoFar(before, now, runDir, previous, names, lo, k)
    ensures var after := now[runDir + [names[k]] := Link(["..", previous, names[k]])];
            forall q :: q in after && q !in before ==>
              |q| == |runDir| + 1 && q[|runDir|] in names[lo..k + 1] && after[q] == Link(["..", previous, q[|runDir|]])
  {
    var at := runDir + [names[k]];
    var after := now[at := Link(["..", previous, names[k]])];
    forall q | q in after && q !in before
      ensures |q| == |runDir| + 1 && q[|runDir|] in names[lo..k + 1] && after[q] == Link(["..", previous, q[|runDir|]])
    {
      if q == at {
        assert names[lo..k + 1][k - lo] == names[k];
      } else {
        SliceGrows(names, lo, k, q[|runDir|]);
      }
    }
  }

  /** What a slice holds, one more element of it holds. */
  lemma SliceGrows(names: seq<string>, lo: int, k: int, x: string)
    requires 0 <= lo <= k < |names| && x in names[lo..k]
    ensures x in names[lo..k + 1]
  {
    assert names[lo..k + 1] == names[lo..k] + [names[k]];
  }

  /** The links made for the steps `lo` to `k` are links for steps
      among `lo` to `hi`. */
  lemma LinksWithin(before: map<Path, Node>, now: map<Path, Node>, runDir: Path, previous: string,
                    names: seq<string>, lo: int, k: int, hi: int)
    requires 0 <= lo <= k <= hi <= |names|
    requires LinksSoFar(before, now, runDir, previous, names, lo, k)
    ensures forall q :: q in now && q !in before ==>
              |q| == |runDir| + 1 && q[|runDir|] in names[lo..hi] && now[q] == Link(["..", previous, q[|runDir|]])
  {
    forall q | q in now && q !in before
      ensures q[|runDir|] in names[lo..hi]
    {
      var i :| 0 <= i < k - lo && names[lo..k][i] == q[|runDir|];
      assert names[lo..hi][i] == q[|runDir|];
    }
  }

  /** What the steps from offset `start` up to `upto` do to the tree: every
      new entry lies under `runDir` and none is a link or a `.final` marker
      file, and the new entries directly in `runDir` are directories named
      after those steps. */
  ghost predicate StepsGrew(before: map<Path, Node>, now: map<Path, Node>, runDir: Path, names: seq<string>,
                            start: int, upto: int)
  {
    Extends(before, now, runDir) && NoNewLinks(before, now) &&
    (Unmarked(before, runDir) ==> Unmarked(now, runDir)) &&
    NewDirsIn(before, now, runDir, Slice(names, start, upto))
  }

  /** Step `k`'s own changes follow those of the steps before it. */
  lemma StepsGrewMore(before: map<Path, Node>, now: map<Path, Node>, after: map<Path, Node>, runDir: Path,
                      names: seq<string>, start: int, k: int)
    requires 0 <= start <= k < |names| && StepsGrew(before, now, runDir, names, start, k)
    requires Extends(now, after, runDir) && NoNewLinks(now, after)
    requires Unmarked(now, runDir) ==> Unmarked(after, runDir)
    requires NewDirsIn(now, after, runDir, [names[k]])
    ensures StepsGrew(before, after, runDir, names, start, k + 1)
  {
    ExtendsTransitive(before, now, after, runDir);
    NewDirsGrow(before, now, after, runDir, Slice(names, start, k), [names[k]]);
    assert Slice(names, start, k + 1) == Slice(names, start, k) + [names[k]];
  }

  /** The steps run so far, from offset `start`: they changed the tree as
      `StepsGrew` says, and every one of them succeeded and holds its
      output. */
  ghost predicate StepsSoFar(before: map<Path, Node>, now: map<Path, Node>, runDir: Path, names: seq<string>,
                             outcome: int -> ScriptRun, start: int, invoked: seq<int>)
  {
    StepsGrew(before, now, runDir, names, start, start + |invoked|) &&
    OutputsHeld(now, runDir, names, outcome, invoked)
  }

  /** Every step invoked so far succeeded and holds its output. */
  ghost predicate OutputsHeld(now: map<Path, Node>, runDir: Path, names: seq<string>,
                              outcome: int -> ScriptRun, invoked: seq<int>)
  {
    forall i :: 0 <= i < |invoked| ==>
      0 <= invoked[i] < |names| && Succeeded(outcome(invoked[i])) &&
      HoldsOutput(now, runDir + [names[invoked[i]]], outcome(invoked[i]).wrote)
  }

  /** One more step that succeeded keeps `StepsSoFar`. */
  lemma StepAdded(before: map<Path, Node>, now: map<Path, Node>, after: map<Path, Node>, runDir: Path,
                  names: seq<string>, outcome: int -> ScriptRun, start: int, invoked: seq<int>, k: int)
    requires StepsSoFar(before, now, runDir, names, outcome, start, invoked)
    requires Extends(now, after, runDir) && NoNewLinks(now, after)
    requires Unmarked(now, runDir) ==> Unmarked(after, runDir)
    requires 0 <= start && k == start + |invoked| < |names|
    requires NewDirsIn(now, after, runDir, [names[k]])
    requires Succeeded(outcome(k)) && HoldsOutput(after, runDir + [names[k]], outcome(k).wrote)
    ensures StepsSoFar(before, after, runDir, names, outcome, start, invoked + [k])
  {
    StepsGrewMore(before, now, after, runDir, names, start, k);
    assert start + |invoked + [k]| == k + 1;
    OutputsKept(now, after, runDir, names, outcome, invoked, k);
  }

  /** The outputs of the steps so far stay where step `k` adds its own. */
  lemma OutputsKept(now: map<Path, Node>, after: map<Path, Node>, runDir: Path, names: seq<string>,
                    outcome: int -> ScriptRun, invoked: seq<int>, k: int)
    requires OutputsHeld(now, runDir, names, outcome, invoked)
    requires forall q :: q in now ==> q in after && after[q] == now[q]
    requires 0 <= k < |names| && Succeeded(outcome(k)) && HoldsOutput(after, runDir + [names[k]], outcome(k).wrote)
    ensures OutputsHeld(after, runDir, names, outcome, invoked + [k])
  {
    var all := invoked + [k];
    forall i | 0 <= i < |all|
      ensures HoldsOutput(after, runDir + [names[all[i]]], outcome(all[i]).wrote)
    {
      if i < |invoked| {
        var d := runDir + [names[invoked[i]]];
        assert all[i] == invoked[i] && HoldsOutput(now, d, outcome(invoked[i]).wrote);
        forall w | w in outcome(invoked[i]).wrote
          ensures d + [w] in after && after[d + [w]] == File(outcome(invoked[i]).wrote[w])
        {
          assert d + [w] in now;
        }
      }
    }
  }

  /** The steps of `run` as they end with `err`, having invoked the
      scripts of the steps `invoked`, out of the `planned` steps from offset
      `start` on: the steps run in order from `start`; every step before
      the last invoked succeeded and every step that succeeded holds its
      output; a failing script leaves no output directory and raises
      according to its exit status; with no error every planned step ran
      and succeeded. */
  ghost predicate StepsRan(after: map<Path, Node>, runDir: Path, names: seq<string>, outcome: int -> ScriptRun,
                           start: int, planned: nat, invoked: seq<int>, err: Option<Error>)
  {
    |invoked| <= planned &&
    (|invoked| > 0 ==> 0 <= start && start + |invoked| <= |names|) &&
    (forall i :: 0 <= i < |invoked| ==> invoked[i] == start + i) &&
    (forall i :: 0 <= i < |invoked| - 1 ==> Succeeded(outcome(invoked[i]))) &&
    (forall i :: 0 <= i < |invoked| && Succeeded(outcome(invoked[i])) ==>
       HoldsOutput(after, runDir + [names[invoked[i]]], outcome(invoked[i]).wrote)) &&
    (|invoked| > 0 && !Succeeded(outcome(start + |invoked| - 1)) ==>
       err == Some(if outcome(start + |invoked| - 1).exitCode.Some? then ScriptFailed else OsError) &&
       runDir + [names[start + |invoked| - 1]] !in after) &&
    (err.None? ==> |invoked| == planned && forall i :: 0 <= i < |invoked| ==> Succeeded(outcome(invoked[i])))
  }

  /** What the loop of `run` leaves behind: the steps ran as `StepsRan`
      says; where the loop stopped without a failing script, the next
      step's output directory was already there, from before the loop or
      made by an earlier step of the same name; and nothing else changes
      but new entries under `runDir`, none of them a link or a marker
      file, those directly in `runDir` being directories named after the
      steps invoked. */
  ghost predicate Executed(before: map<Path, Node>, after: map<Path, Node>, runDir: Path, names: seq<string>,
                           outcome: int -> ScriptRun, start: nat, planned: nat, invoked: seq<int>, err: Option<Error>)
  {
    StepsGrew(before, after, runDir, names, start, start + |invoked|) &&
    (planned > 0 ==> start + planned <= |names|) &&
    StepsRan(after, runDir, names, outcome, start, planned, invoked, err) &&
    Collided(before, after, runDir, names, outcome, start, planned, invoked, err)
  }

  /** Where the loop stopped without a failing script, the next step's
      output directory was already there, from before the loop or made by
      an earlier step of the same name. */
  ghost predicate Collided(before: map<Path, Node>, after: map<Path, Node>, runDir: Path, names: seq<string>,
                           outcome: int -> ScriptRun, start: nat, planned: nat, invoked: seq<int>, err: Option<Error>)
  {
    err.Some? && (|invoked| == 0 || Succeeded(outcome(start + |invoked| - 1))) ==>
      err == Some(OsError) && |invoked| < planned && start + |invoked| < |names| &&
      runDir + [names[start + |invoked|]] in after &&
      (runDir + [names[start + |invoked|]] in before || names[start + |invoked|] in Slice(names, start, start + |invoked|))
  }

  /** The loop ends because the next step's directory is already there,
      from before the loop or made by an earlier step of the same name. */
  lemma ExitOnCollision(before: map<Path, Node>, now: map<Path, Node>, runDir: Path, names: seq<string>,
                          outcome: int -> ScriptRun, start: nat, planned: nat, invoked: seq<int>)
    requires StepsSoFar(before, now, runDir, names, outcome, start, invoked)
    requires |invoked| < planned && start + planned <= |names|
    requires forall i :: 0 <= i < |invoked| ==> invoked[i] == start + i
    requires runDir + [names[start + |invoked|]] in now
    ensures Executed(before, now, runDir, names, outcome, start, planned, invoked, Some(OsError))
  {
    var at := runDir + [names[start + |invoked|]];
    assert IsPrefix(runDir, at) && |at| == |runDir| + 1 && at[|runDir|] == names[start + |invoked|];
    RanSoFar(now, runDir, names, outcome, start, planned, invoked, Some(OsError));
  }

  /** The loop ends because the script of step `k` failed. */
  lemma ExitOnFailure(before: map<Path, Node>, now: map<Path, Node>, runDir: Path, names: seq<string>,
                      outcome: int -> ScriptRun, start: nat, planned: nat, invoked: seq<int>, k: int)
    requires StepsGrew(before, now, runDir, names, start, start + |invoked|)
    requires OutputsHeld(now, runDir, names, outcome, invoked)
    requires |invoked| < planned && start + planned <= |names|
    requires forall i :: 0 <= i < |invoked| ==> invoked[i] == start + i
    requires k == start + |invoked| && !Succeeded(outcome(k)) && runDir + [names[k]] !in now
    ensures Executed(before, now, runDir, names, outcome, start, planned, invoked + [k],
                     Some(if outcome(k).exitCode.Some? then ScriptFailed else OsError))
  {
    StepsGrewOneMore(before, now, runDir, names, start, invoked, k);
    RanToFailure(now, runDir, names, outcome, start, planned, invoked, k);
    FailureExecuted(before, now, runDir, names, outcome, start, planned, invoked, k);
  }

  /** The steps ran up to step `k`, which failed: the loop is done. */
  lemma FailureExecuted(before: map<Path, Node>, now: map<Path, Node>, runDir: Path, names: seq<string>,
                        outcome: int -> ScriptRun, start: nat, planned: nat, invoked: seq<int>, k: int)
    requires |invoked| < planned && start + planned <= |names| && !Succeeded(outcome(start + |invoked + [k]| - 1))
    requires StepsGrew(before, now, runDir, names, start, start + |invoked + [k]|)
    requires StepsRan(now, runDir, names, outcome, start, planned, invoked + [k],
                      Some(if outcome(k).exitCode.Some? then ScriptFailed else OsError))
    ensures Executed(before, now, runDir, names, outcome, start, planned, invoked + [k],
                     Some(if outcome(k).exitCode.Some? then ScriptFailed else OsError))
  {
  }

  /** What `StepsSoFar` is made of. */
  lemma SoFarParts(before: map<Path, Node>, now: map<Path, Node>, runDir: Path, names: seq<string>,
                   outcome: int -> ScriptRun, start: int, invoked: seq<int>)
    requires StepsSoFar(before, now, runDir, names, outcome, start, invoked)
    ensures StepsGrew(before, now, runDir, names, start, start + |invoked|)
    ensures OutputsHeld(now, runDir, names, outcome, invoked)
  {
  }

  /** The steps up to `k` allow for a directory of step `k`'s name. */
  lemma StepsGrewOneMore(before: map<Path, Node>, now: map<Path, Node>, runDir: Path, names: seq<string>,
                         start: int, invoked: seq<int>, k: int)
    requires 0 <= start && k == start + |invoked| < |names|
    requires StepsGrew(before, now, runDir, names, start, start + |invoked|)
    ensures StepsGrew(before, now, runDir, names, start, start + |invoked + [k]|)
  {
    StepsGrewMono(before, now, runDir, names, start, start + |invoked|, start + |invoked + [k]|);
  }

  /** Steps up to `lo` allow for the directories of the steps up to any
      later `hi`. */
  lemma StepsGrewMono(before: map<Path, Node>, now: map<Path, Node>, runDir: Path, names: seq<string>,
                      start: int, lo: int, hi: int)
    requires 0 <= start <= lo <= hi <= |names|
    requires StepsGrew(before, now, runDir, names, start, lo)
    ensures StepsGrew(before, now, runDir, names, start, hi)
  {
    forall q | q in now && q !in before && IsPrefix(runDir, q) && |q| == |runDir| + 1
      ensures q[|runDir|] in Slice(names, start, hi)
    {
      var x := q[|runDir|];
      var i :| 0 <= i < lo - start && names[start..lo][i] == x;
      assert names[start..hi][i] == x;
    }
  }

  /** How one turn of the loop leaves the steps run so far, from `now` to
      `after`, given what making step `k`'s directory (`made`) and running
      its script (`err`) did. */
  lemma StepEnded(before: map<Path, Node>, now: map<Path, Node>, after: map<Path, Node>, runDir: Path,
                  names: seq<string>, outcome: int -> ScriptRun, start: nat, planned: nat, invoked: seq<int>, k: int,
                  made: bool, err: Option<Error>)
    requires StepsSoFar(before, now, runDir, names, outcome, start, invoked)
    requires k == start + |invoked| && |invoked| < planned && start + planned <= |names|
    requires forall i :: 0 <= i < |invoked| ==> invoked[i] == start + i
    requires made == (runDir + [names[k]] !in now)
    requires !made ==> err == Some(OsError) && after == now
    requires made && Succeeded(outcome(k)) ==> err.None? && HoldsOutput(after, runDir + [names[k]], outcome(k).wrote)
    requires made && !Succeeded(outcome(k)) ==>
               err == Some(if outcome(k).exitCode.Some? then ScriptFailed else OsError) && after == now
    requires Extends(now, after, runDir) && NoNewLinks(now, after)
    requires Unmarked(now, runDir) ==> Unmarked(after, runDir)
    requires NewDirsIn(now, after, runDir, [names[k]])
    ensures !made ==> Executed(before, after, runDir, names, outcome, start, planned, invoked, err)
    ensures made && err.Some? ==> Executed(before, after, runDir, names, outcome, start, planned, invoked + [k], err)
    ensures made && err.None? ==> StepsSoFar(before, after, runDir, names, outcome, start, invoked + [k])
  {
    if !made {
      ExitOnCollision(before, now, runDir, names, outcome, start, planned, invoked);
    } else if !Succeeded(outcome(k)) {
      SoFarParts(before, now, runDir, names, outcome, start, invoked);
      ExitOnFailure(before, now, runDir, names, outcome, start, planned, invoked, k);
    } else {
      StepAdded(before, now, after, runDir, names, outcome, start, invoked, k);
    }
  }

  /** The loop ends having run every planned step. */
  lemma ExitDone(before: map<Path, Node>, now: map<Path, Node>, runDir: Path, names: seq<string>,
                 outcome: int -> ScriptRun, start: nat, planned: nat, invoked: seq<int>)
    requires StepsSoFar(before, now, runDir, names, outcome, start, invoked)
    requires |invoked| == planned && (planned > 0 ==> start + planned <= |names|)
    requires forall i :: 0 <= i < |invoked| ==> invoked[i] == start + i
    ensures Executed(before, now, runDir, names, outcome, start, planned, invoked, None)
  {
    RanSoFar(now, runDir, names, outcome, start, planned, invoked, None);
  }

  /** The steps invoked so far, all of which succeeded, ran as `StepsRan`
      says, whether the loop stops here with `err` or, having run every
      planned step, without an error. */
  lemma RanSoFar(now: map<Path, Node>, runDir: Path, names: seq<string>, outcome: int -> ScriptRun,
                 start: nat, planned: nat, invoked: seq<int>, err: Option<Error>)
    requires OutputsHeld(now, runDir, names, outcome, invoked)
    requires |invoked| <= planned && (planned > 0 ==> start + planned <= |names|)
    requires forall i :: 0 <= i < |invoked| ==> invoked[i] == start + i
    requires err.None? ==> |invoked| == planned
    ensures StepsRan(now, runDir, names, outcome, start, planned, invoked, err)
  {
    if |invoked| > 0 {
      assert invoked[|invoked| - 1] == start + |invoked| - 1;
    }
  }

  /** The steps invoked so far succeeded and step `k`, the next, failed
      without leaving its output directory: the steps ran as `StepsRan`
      says. */
  lemma RanToFailure(now: map<Path, Node>, runDir: Path, names: seq<string>, outcome: int -> ScriptRun,
                     start: nat, planned: nat, invoked: seq<int>, k: int)
    requires OutputsHeld(now, runDir, names, outcome, invoked)
    requires |invoked| < planned && start + planned <= |names|
    requires forall i :: 0 <= i < |invoked| ==> invoked[i] == start + i
    requires k == start + |invoked| && !Succeeded(outcome(k)) && runDir + [names[k]] !in now
    ensures StepsRan(now, runDir, names, outcome, start, planned, invoked + [k],
                     Some(if outcome(k).exitCode.Some? then ScriptFailed else OsError))
    ensures !Succeeded(outcome(start + |invoked + [k]| - 1))
  {
    var all := invoked + [k];
    assert all[|all| - 1] == k;
    forall i | 0 <= i < |all|
      ensures all[i] == start + i
    {
      if i < |invoked| {
        assert all[i] == invoked[i];
      }
    }
    forall i | 0 <= i < |all| && Succeeded(outcome(all[i]))
      ensures i < |invoked| && HoldsOutput(now, runDir + [names[all[i]]], outcome(all[i]).wrote)
    {
      if i < |invoked| {
        assert all[i] == invoked[i];
      }
    }
    forall i | 0 <= i < |all| - 1
      ensures Succeeded(outcome(all[i]))
    {
      assert all[i] == invoked[i];
    }
  }

  /** The names of the steps whose previous output a run of the steps
      `names` from offset `start` to `end` links to: when the run does not
      start at the first step, those before the range and, with `future`,
      those after it. */
  function LinkedNames(names: seq<string>, start: int, end: int, future: bool): seq<string> {
    if start <= 0 then []
    else names[..Min(start, |names|)] + (if future && 0 <= end + 1 <= |names| then names[end + 1..] else [])
  }

  /** Whether `name` is one of the steps a run links. */
  predicate LinkedName(names: seq<string>, start: int, end: int, future: bool, name: string) {
    name in LinkedNames(names, start, end, future)
  }

  /** The names a run's directory may hold before its stamps: the steps it
      links and the steps from `start` up to `upto`, whose output
      directories it made. */
  function Taken(names: seq<string>, start: int, end: int, future: bool, upto: int): seq<string> {
    LinkedNames(names, start, end, future) + Slice(names, start, upto)
  }

  /** Why linking refuses a run that does not start at the first step: no
      previous run is known; with `future`, the range reaches the last step
      or its end cannot slice the steps; or two of the links to make have
      the same name, so the second `os.symlink` finds the first. */
  predicate LinkFailure(names: seq<string>, start: int, end: int, future: bool, previous: Option<string>, err: Option<Error>) {
    (!Truthy(previous) && err == Some(NoPreviousRunToLink)) ||
    (Truthy(previous) && future && end + 1 >= |names| && err == Some(NoFutureStepsToLink)) ||
    (Truthy(previous) && future && end + 1 < 0 && err == Some(BadSlice)) ||
    (Truthy(previous) && Repeats(LinkedNames(names, start, end, future)) && err == Some(OsError))
  }

  /** A step before the range whose name an earlier step already has:
      two links of that name. */
  lemma PriorRepeats(names: seq<string>, start: int, end: int, future: bool, k: int)
    requires 0 < start && 0 <= k < Min(start, |names|) && names[k] in names[0..k]
    ensures Repeats(LinkedNames(names, start, end, future))
  {
    var i :| 0 <= i < k && names[0..k][i] == names[k];
    var l := LinkedNames(names, start, end, future);
    assert l[i] == names[i] && l[k] == names[k];
  }

  /** A step after the range whose name a step before the range, or an
      earlier step after it, already has: two links of that name. */
  lemma FutureRepeats(names: seq<string>, start: int, end: int, future: bool, k: int)
    requires 0 < start && future && 0 <= end + 1 <= k < |names|
    requires names[k] in names[0..Min(start, |names|)] || names[k] in names[end + 1..k]
    ensures Repeats(LinkedNames(names, start, end, future))
  {
    var p := Min(start, |names|);
    var l := LinkedNames(names, start, end, future);
    assert l[p + (k - end - 1)] == names[k];
    if names[k] in names[0..p] {
      var i :| 0 <= i < p && names[0..p][i] == names[k];
      assert l[i] == names[i];
    } else {
      var j :| 0 <= j < k - end - 1 && names[end + 1..k][j] == names[k];
      assert l[p + j] == names[end + 1 + j];
    }
  }

  /** `link_range(0, start)` stopped in a run directory that held
      nothing: two links of the same name. */
  lemma PriorStopRepeats(before: map<Path, Node>, now: map<Path, Node>, runDir: Path, previous: string,
                         names: seq<string>, start: int, end: int, future: bool, k: int)
    requires 0 < start && HoldsOnly(before, runDir, [])
    requires 0 <= k < Min(start, |names|) && LinksStoppedAt(before, now, runDir, previous, names, 0, k)
    ensures Repeats(LinkedNames(names, start, end, future))
  {
    NotHeld(before, runDir, names[k]);
    PriorRepeats(names, start, end, future, k);
  }

  /** `link_range(end + 1)` stopped after the links of the steps before
      the range, in a run directory that held nothing before those: two
      links of the same name. */
  lemma FutureStopRepeats(before: map<Path, Node>, mid: map<Path, Node>, now: map<Path, Node>, runDir: Path,
                          previous: string, names: seq<string>, start: int, end: int, future: bool, k: int)
    requires 0 < start && future && 0 <= end + 1 <= |names| && HoldsOnly(before, runDir, [])
    requires forall q :: q in mid && q !in before ==> |q| == |runDir| + 1 && q[|runDir|] in names[0..Min(start, |names|)]
    requires end + 1 <= k < |names| && LinksStoppedAt(mid, now, runDir, previous, names, end + 1, k)
    ensures Repeats(LinkedNames(names, start, end, future))
  {
    var at := runDir + [names[k]];
    NotHeld(before, runDir, names[k]);
    assert at[|runDir|] == names[k];
    FutureRepeats(names, start, end, future, k);
  }

  /** The links made in a run directory that held nothing: the run
      directory holds only links named after the steps the run links. */
  lemma LinksHeld(made: map<Path, Node>, b: map<Path, Node>, runDir: Path, names: seq<string>, start: int, end: int, future: bool)
    requires HoldsOnly(made, runDir, []) && Extends(made, b, runDir)
    requires forall q :: q in b && q !in made ==>
               |q| == |runDir| + 1 && LinkedName(names, start, end, future, q[|runDir|]) && b[q].Link?
    ensures HoldsOnly(b, runDir, LinkedNames(names, start, end, future))
  {
  }

  /** Every entry that was present still is, unchanged, and every new
      entry is `runDir`, one of its ancestors, or lies under it. */
  ghost predicate Grows(before: map<Path, Node>, after: map<Path, Node>, runDir: Path) {
    (forall q :: q in before ==> q in after && after[q] == before[q]) &&
    (forall q :: q in after && q !in before ==> IsPrefix(q, runDir) || IsPrefix(runDir, q))
  }

  /** Every new link lies in `runDir`, is named after a step the run links,
      and points to the previous run's output of that step. */
  ghost predicate LinksLinked(before: map<Path, Node>, after: map<Path, Node>, runDir: Path, previous: Option<string>,
                              names: seq<string>, start: int, end: int, future: bool)
  {
    forall q :: q in after && q !in before && after[q].Link? ==>
      previous.Some? && |q| == |runDir| + 1 && LinkedName(names, start, end, future, q[|runDir|]) &&
      after[q] == Link(["..", previous.value, q[|runDir|]])
  }

  /** `os.makedirs` of the run directory: the directory and its missing
      ancestors are the only new entries, and the directory is empty. */
  lemma MadeRunDir(before: map<Path, Node>, runDir: Path)
    requires TreeShaped(before) && CanMakeDirs(before, runDir)
    ensures var after := before + map q | q in Prefixes(runDir) && q !in before :: Dir;
            Grows(before, after, runDir) && NoNewLinks(before, after) &&
            Unmarked(after, runDir) && runDir in after && after[runDir] == Dir &&
            HoldsOnly(after, runDir, [])
  {
    var after := before + map q | q in Prefixes(runDir) && q !in before :: Dir;
    MadeDirIsEmpty(before, runDir);
    forall q | q in after && q !in before
      ensures IsPrefix(q, runDir)
    {
      var k :| 1 <= k <= |runDir| && q == runDir[..k];
    }
    assert IsPrefix(runDir, runDir + [".final"]);
  }

  /** Growing without links adds no link the run does not make. */
  lemma NoLinksLinked(a: map<Path, Node>, b: map<Path, Node>, runDir: Path, previous: Option<string>,
                      names: seq<string>, start: int, end: int, future: bool)
    requires NoNewLinks(a, b)
    ensures LinksLinked(a, b, runDir, previous, names, start, end, future)
  {
  }

  /** Entries kept unchanged keep the links among them. */
  lemma LinksKept(b: map<Path, Node>, c: map<Path, Node>, runDir: Path)
    requires forall q :: q in b ==> q in c && c[q] == b[q]
    ensures forall previous, name :: LinkedTo(b, runDir, previous, name) ==> LinkedTo(c, runDir, previous, name)
  {
  }

  /** Growing in two stages, only the second of which may add links. */
  lemma GrowsThenLinks(a: map<Path, Node>, b: map<Path, Node>, c: map<Path, Node>, runDir: Path,
                       previous: Option<string>, names: seq<string>, start: int, end: int, future: bool)
    requires Grows(a, b, runDir) && NoNewLinks(a, b) && Extends(b, c, runDir)
    requires LinksLinked(b, c, runDir, previous, names, start, end, future)
    ensures Grows(a, c, runDir) && LinksLinked(a, c, runDir, previous, names, start, end, future)
  {
    forall q | q in c && q !in a
      ensures IsPrefix(q, runDir) || IsPrefix(runDir, q)
    {
      if q !in b {
        assert IsPrefix(runDir, q);
      }
    }
  }

  /** Growing further by entries under `runDir` that are not links. */
  lemma GrowsWithoutLinks(a: map<Path, Node>, b: map<Path, Node>, c: map<Path, Node>, runDir: Path,
                          previous: Option<string>, names: seq<string>, start: int, end: int, future: bool)
    requires Grows(a, b, runDir) && LinksLinked(a, b, runDir, previous, names, start, end, future)
    requires Extends(b, c, runDir) && NoNewLinks(b, c)
    ensures Grows(a, c, runDir) && LinksLinked(a, c, runDir, previous, names, start, end, future)
  {
    forall q | q in c && q !in a
      ensures IsPrefix(q, runDir) || IsPrefix(runDir, q)
    {
      if q !in b {
        assert IsPrefix(runDir, q);
      }
    }
  }

  /** Stamping the freshly made run directory: the stamps are the only
      change, both are files, and the marker is there exactly when it was
      asked for; the outputs and links of the steps are kept. */
  lemma StampKeeps(a: map<Path, Node>, b: map<Path, Node>, runDir: Path, revText: string, marked: bool,
                   previous: Option<string>, names: seq<string>, start: int, end: int, future: bool,
                   outcome: int -> ScriptRun, planned: nat, invoked: seq<int>)
    requires TreeShaped(a) && runDir != [] && runDir !in a
    requires Grows(a, b, runDir) && LinksLinked(a, b, runDir, previous, names, start, end, future) && Unmarked(b, runDir)
    requires Writable(b, runDir + ["rev.txt"]) && (marked ==> Writable(b, runDir + [".final"]))
    requires StepsRan(b, runDir, names, outcome, start, planned, invoked, None)
    ensures var c := Stamped(b, runDir, revText, marked);
            Grows(a, c, runDir) && LinksLinked(a, c, runDir, previous, names, start, end, future) &&
            StepsRan(c, runDir, names, outcome, start, planned, invoked, None) &&
            StepsRan(c, runDir, names, outcome, start, planned, invoked, Some(OsError)) &&
            (forall p, name :: LinkedTo(b, runDir, p, name) ==> LinkedTo(c, runDir, p, name)) &&
            runDir + ["rev.txt"] in c && c[runDir + ["rev.txt"]] == File(revText) &&
            (marked <==> !Unmarked(c, runDir))
  {
    var c := Stamped(b, runDir, revText, marked);
    StampGrows(a, b, runDir, revText, marked);
    StampKeepsSteps(b, runDir, revText, marked, names, outcome, start, planned, invoked);
    StampKeepsLinks(a, b, runDir, revText, marked, previous, names, start, end, future);
    StampWritten(b, runDir, revText, marked);
  }

  /** The stamps are files, so every link stays and no new one appears. */
  lemma StampKeepsLinks(a: map<Path, Node>, b: map<Path, Node>, runDir: Path, revText: string, marked: bool,
                        previous: Option<string>, names: seq<string>, start: int, end: int, future: bool)
    requires LinksLinked(a, b, runDir, previous, names, start, end, future)
    requires Writable(b, runDir + ["rev.txt"]) && (marked ==> Writable(b, runDir + [".final"]))
    ensures LinksLinked(a, Stamped(b, runDir, revText, marked), runDir, previous, names, start, end, future)
    ensures forall p, name :: LinkedTo(b, runDir, p, name) ==> LinkedTo(Stamped(b, runDir, revText, marked), runDir, p, name)
  {
  }

  /** `rev.txt` holds the text written, and the marker is there exactly
      when asked for. */
  lemma StampWritten(b: map<Path, Node>, runDir: Path, revText: string, marked: bool)
    requires Unmarked(b, runDir)
    ensures var c := Stamped(b, runDir, revText, marked);
            runDir + ["rev.txt"] in c && c[runDir + ["rev.txt"]] == File(revText) &&
            (marked <==> !Unmarked(c, runDir))
  {
    assert (runDir + ["rev.txt"])[|runDir|] != (runDir + [".final"])[|runDir|];
  }

  /** After the stamps the steps still ran as they did, and a failure to
      write a stamp changes nothing about them. */
  lemma StampKeepsSteps(b: map<Path, Node>, runDir: Path, revText: string, marked: bool, names: seq<string>,
                        outcome: int -> ScriptRun, start: int, planned: nat, invoked: seq<int>)
    requires Writable(b, runDir + ["rev.txt"]) && (marked ==> Writable(b, runDir + [".final"]))
    requires StepsRan(b, runDir, names, outcome, start, planned, invoked, None)
    ensures StepsRan(Stamped(b, runDir, revText, marked), runDir, names, outcome, start, planned, invoked, None)
    ensures StepsRan(Stamped(b, runDir, revText, marked), runDir, names, outcome, start, planned, invoked, Some(OsError))
  {
    StampKeepsOutputs(b, runDir, revText, marked, names, outcome, invoked);
  }

  /** The stamps are new entries in the run directory, which did not exist
      before the run. */
  lemma StampGrows(a: map<Path, Node>, b: map<Path, Node>, runDir: Path, revText: string, marked: bool)
    requires TreeShaped(a) && runDir != [] && runDir !in a && Grows(a, b, runDir)
    ensures Grows(a, Stamped(b, runDir, revText, marked), runDir)
  {
    var c := Stamped(b, runDir, revText, marked);
    var rev := runDir + ["rev.txt"];
    var fin := runDir + [".final"];
    forall q | q in a
      ensures q in c && c[q] == a[q]
    {
      NothingUnderAbsent(a, runDir, q);
      assert q != rev && q != fin by {
        assert IsPrefix(runDir, rev) && IsPrefix(runDir, fin);
      }
    }
    forall q | q in c && q !in a
      ensures IsPrefix(q, runDir) || IsPrefix(runDir, q)
    {
      if q !in b {
        assert q == rev || q == fin;
        assert IsPrefix(runDir, q);
      }
    }
  }

  /** The stamps leave the steps' output directories as they were. */
  lemma StampKeepsOutputs(b: map<Path, Node>, runDir: Path, revText: string, marked: bool,
                          names: seq<string>, outcome: int -> ScriptRun, invoked: seq<int>)
    requires Writable(b, runDir + ["rev.txt"]) && (marked ==> Writable(b, runDir + [".final"]))
    requires forall i :: 0 <= i < |invoked| ==>
               0 <= invoked[i] < |names| && HoldsOutput(b, runDir + [names[invoked[i]]], outcome(invoked[i]).wrote)
    ensures forall i :: 0 <= i < |invoked| ==>
              HoldsOutput(Stamped(b, runDir, revText, marked), runDir + [names[invoked[i]]], outcome(invoked[i]).wrote)
  {
    var c := Stamped(b, runDir, revText, marked);
    var rev := runDir + ["rev.txt"];
    var fin := runDir + [".final"];
    forall i | 0 <= i < |invoked|
      ensures HoldsOutput(c, runDir + [names[invoked[i]]], outcome(invoked[i]).wrote)
    {
      var d := runDir + [names[invoked[i]]];
      assert HoldsOutput(b, d, outcome(invoked[i]).wrote);
      forall w | w in outcome(invoked[i]).wrote
        ensures d + [w] in c && c[d + [w]] == File(outcome(invoked[i]).wrote[w])
      {
        assert d + [w] != rev && d + [w] != fin;
      }
    }
  }

  /** How many of `n` steps a run from offset `start` to `end` executes:
      those from `start` up to, not including, the smaller of `end + 1`
      and `n`. */
  function PlanSize(n: int, start: int, end: int): nat {
    var stop := Min(end + 1, n);
    if stop > start then stop - start else 0
  }

  /** How `run` ends, from the tree `a` to the tree `c`, for the run
      directory `runDir` and the steps `names` run from offset `start` to
      `end`, having invoked the scripts of the steps `invoked`:
      - where `os.makedirs` refuses the run directory, nothing happens;
      - entries present before are kept, every new one is the run
        directory, an ancestor of it or under it, and every new link is one
        the run makes;
      - a run that fails leaves its directory without the `.final` marker;
      - the linking errors and the bad slice are raised before any step
        runs;
      - the steps ran as `StepsRan` says;
      - a run that succeeds has made its links, written `revText` to
        `rev.txt`, and is marked final exactly when `marked`;
      - where the run directory could be made, it ends as `RunDirEnded`
        says: what it holds, and why a run fails. */
  ghost predicate RunEnded(a: map<Path, Node>, c: map<Path, Node>, runDir: Path, names: seq<string>,
                           start: int, end: int, future: bool, previous: Option<string>,
                           revText: string, marked: bool, outcome: int -> ScriptRun,
                           invoked: seq<int>, err: Option<Error>)
  {
    (!CanMakeDirs(a, runDir) ==> err == Some(OsError) && c == a && invoked == []) &&
    Grows(a, c, runDir) && LinksLinked(a, c, runDir, previous, names, start, end, future) &&
    (CanMakeDirs(a, runDir) && err.Some? ==> Unmarked(c, runDir)) &&
    (CanMakeDirs(a, runDir) && start > 0 && !Truthy(previous) ==> err == Some(NoPreviousRunToLink) && invoked == []) &&
    (CanMakeDirs(a, runDir) && start > 0 && Truthy(previous) && future && end + 1 >= |names| ==>
       err.Some? && invoked == []) &&
    (CanMakeDirs(a, runDir) && start < 0 ==> err == Some(BadSlice) && invoked == []) &&
    StepsRan(c, runDir, names, outcome, start, PlanSize(|names|, start, end), invoked, err) &&
    (err.None? ==>
       CanMakeDirs(a, runDir) &&
       (start > 0 ==>
          Truthy(previous) &&
          forall k :: 0 <= k < Min(start, |names|) ==> LinkedTo(c, runDir, previous.value, names[k])) &&
       (start > 0 && future ==>
          0 <= end + 1 < |names| &&
          forall k :: end < k < |names| ==> LinkedTo(c, runDir, previous.value, names[k])) &&
       runDir + ["rev.txt"] in c && c[runDir + ["rev.txt"]] == File(revText) &&
       (marked <==> !Unmarked(c, runDir))) &&
    (CanMakeDirs(a, runDir) ==>
       RunDirEnded(c, runDir, names, start, end, future, previous, revText, marked, outcome, invoked, err))
  }

  /** Every entry directly in `runDir` is named after one of `taken`, or
      is a stamp file. */
  ghost predicate EntriesEnded(c: map<Path, Node>, runDir: Path, taken: seq<string>) {
    forall q :: q in c && IsPrefix(runDir, q) && |q| == |runDir| + 1 ==>
      q[|runDir|] in taken || (c[q].File? && (q[|runDir|] == "rev.txt" || q[|runDir|] == ".final"))
  }

  /** A `rev.txt` file is in `runDir` only once the `planned` steps all ran
      and succeeded, and it then holds `revText`. */
  ghost predicate RevOnlyAfterSteps(c: map<Path, Node>, runDir: Path, revText: string, planned: nat,
                                    outcome: int -> ScriptRun, invoked: seq<int>)
  {
    HasFile(c, runDir + ["rev.txt"]) ==>
      c[runDir + ["rev.txt"]] == File(revText) && |invoked| == planned &&
      forall i :: 0 <= i < |invoked| ==> Succeeded(outcome(invoked[i]))
  }

  /** Why a run whose directory could be made fails, having invoked the
      steps `invoked`:
      - before any step, linking refuses as `LinkFailure` says, or the
        range cannot slice the steps;
      - the last step invoked failed (`StepsRan` says with which error);
      - the next step's output directory was already there, because a link
        or an earlier step of the run has its name;
      - a stamp cannot be written, because a link or a step of the run is
        named `rev.txt` or, for a marked run, `.final`. */
  ghost predicate FailureCause(names: seq<string>, start: int, end: int, future: bool, previous: Option<string>,
                               marked: bool, outcome: int -> ScriptRun, invoked: seq<int>, err: Option<Error>)
  {
    var upto := start + |invoked|;
    var taken := Taken(names, start, end, future, upto);
    (invoked == [] && start > 0 && LinkFailure(names, start, end, future, previous, err)) ||
    (invoked == [] && (start < 0 || end + 1 < 0) && err == Some(BadSlice)) ||
    (|invoked| > 0 && !Succeeded(outcome(upto - 1))) ||
    (|invoked| < PlanSize(|names|, start, end) && 0 <= upto < |names| && names[upto] in taken && err == Some(OsError)) ||
    (|invoked| == PlanSize(|names|, start, end) && ("rev.txt" in taken || (marked && ".final" in taken)) &&
     err == Some(OsError))
  }

  /** How the run directory of a run that made it ends: every entry
      directly in it is a link or output directory named after a step the
      run linked or invoked, or a stamp file; `rev.txt` is a file only once
      every planned step ran and succeeded; and a failure has a cause
      `FailureCause` names. */
  ghost predicate RunDirEnded(c: map<Path, Node>, runDir: Path, names: seq<string>, start: int, end: int, future: bool,
                              previous: Option<string>, revText: string, marked: bool, outcome: int -> ScriptRun,
                              invoked: seq<int>, err: Option<Error>)
  {
    EntriesEnded(c, runDir, Taken(names, start, end, future, start + |invoked|)) &&
    RevOnlyAfterSteps(c, runDir, revText, PlanSize(|names|, start, end), outcome, invoked) &&
    (err.Some? ==> FailureCause(names, start, end, future, previous, marked, outcome, invoked, err))
  }

  /** Before the stamps, the run directory holds no file, so no `rev.txt`
      either. */
  lemma HeldBeforeStamps(c: map<Path, Node>, runDir: Path, taken: seq<string>, revText: string, planned: nat,
                         outcome: int -> ScriptRun, invoked: seq<int>)
    requires HoldsOnly(c, runDir, taken)
    ensures EntriesEnded(c, runDir, taken) && RevOnlyAfterSteps(c, runDir, revText, planned, outcome, invoked)
  {
    assert IsPrefix(runDir, runDir + ["rev.txt"]);
  }

  /** A run whose directory could be made carries the `.final` marker only
      if it succeeded, every planned step having run and succeeded, and it
      was asked to be final. */
  lemma MarkedOnlyAfterSuccess(a: map<Path, Node>, c: map<Path, Node>, runDir: Path, names: seq<string>,
                               start: int, end: int, future: bool, previous: Option<string>,
                               revText: string, marked: bool, outcome: int -> ScriptRun,
                               invoked: seq<int>, err: Option<Error>)
    requires RunEnded(a, c, runDir, names, start, end, future, previous, revText, marked, outcome, invoked, err)
    requires CanMakeDirs(a, runDir) && !Unmarked(c, runDir)
    ensures err.None? && marked
    ensures |invoked| == PlanSize(|names|, start, end)
    ensures forall i :: 0 <= i < |invoked| ==> Succeeded(outcome(invoked[i]))
  {
  }

  /** An entry named `.final` in the run directory, which is what
      `_is_final` looks for in a listing, is there only if the run
      succeeded and was asked to be final, unless a step has that name;
      and an entry named `rev.txt`, which `_is_reproducible` looks for,
      only once every planned step ran and succeeded, unless a step has
      that name. */
  lemma StampEntriesOnlyAfterSuccess(a: map<Path, Node>, c: map<Path, Node>, runDir: Path, names: seq<string>,
                                     start: int, end: int, future: bool, previous: Option<string>,
                                     revText: string, marked: bool, outcome: int -> ScriptRun,
                                     invoked: seq<int>, err: Option<Error>)
    requires RunEnded(a, c, runDir, names, start, end, future, previous, revText, marked, outcome, invoked, err)
    requires CanMakeDirs(a, runDir)
    ensures ".final" !in names && runDir + [".final"] in c ==> err.None? && marked
    ensures "rev.txt" !in names && runDir + ["rev.txt"] in c ==>
              |invoked| == PlanSize(|names|, start, end) && forall i :: 0 <= i < |invoked| ==> Succeeded(outcome(invoked[i]))
  {
    EndedParts(a, c, runDir, names, start, end, future, previous, revText, marked, outcome, invoked, err);
    StampEntriesAreStamps(c, runDir, names, start, end, future, previous, revText, marked, outcome, invoked, err);
  }

  /** What `RunEnded` says of a run whose directory could be made that the
      lemmas about how it ends use. */
  lemma EndedParts(a: map<Path, Node>, c: map<Path, Node>, runDir: Path, names: seq<string>,
                   start: int, end: int, future: bool, previous: Option<string>,
                   revText: string, marked: bool, outcome: int -> ScriptRun,
                   invoked: seq<int>, err: Option<Error>)
    requires RunEnded(a, c, runDir, names, start, end, future, previous, revText, marked, outcome, invoked, err)
    requires CanMakeDirs(a, runDir)
    ensures RunDirEnded(c, runDir, names, start, end, future, previous, revText, marked, outcome, invoked, err)
    ensures StepsRan(c, runDir, names, outcome, start, PlanSize(|names|, start, end), invoked, err)
    ensures err.Some? ==> Unmarked(c, runDir)
    ensures err.None? ==> (marked <==> !Unmarked(c, runDir))
  {
  }

  /** The entries `.final` and `rev.txt` of a run directory whose steps have
      other names are the stamps. */
  lemma StampEntriesAreStamps(c: map<Path, Node>, runDir: Path, names: seq<string>,
                              start: int, end: int, future: bool, previous: Option<string>,
                              revText: string, marked: bool, outcome: int -> ScriptRun,
                              invoked: seq<int>, err: Option<Error>)
    requires RunDirEnded(c, runDir, names, start, end, future, previous, revText, marked, outcome, invoked, err)
    requires err.Some? ==> Unmarked(c, runDir)
    requires err.None? ==> (marked <==> !Unmarked(c, runDir))
    ensures ".final" !in names && runDir + [".final"] in c ==> err.None? && marked
    ensures "rev.txt" !in names && runDir + ["rev.txt"] in c ==>
              |invoked| == PlanSize(|names|, start, end) && forall i :: 0 <= i < |invoked| ==> Succeeded(outcome(invoked[i]))
  {
    var taken := Taken(names, start, end, future, start + |invoked|);
    var rev, fin := runDir + ["rev.txt"], runDir + [".final"];
    assert IsPrefix(runDir, rev) && IsPrefix(runDir, fin) && rev[|runDir|] == "rev.txt" && fin[|runDir|] == ".final";
    if ".final" !in names && fin in c {
      if ".final" in taken {
        TakenFromNames(names, start, end, future, start + |invoked|, ".final");
      }
      assert HasFile(c, fin);
    }
    if "rev.txt" !in names && rev in c {
      if "rev.txt" in taken {
        TakenFromNames(names, start, end, future, start + |invoked|, "rev.txt");
      }
      assert HasFile(c, rev);
    }
  }

  /** Every name a run's directory may hold before its stamps is the name
      of a step. */
  lemma TakenFromNames(names: seq<string>, start: int, end: int, future: bool, upto: int, x: string)
    requires x in Taken(names, start, end, future, upto)
    ensures x in names
  {
    if x in LinkedNames(names, start, end, future) {
      var p := Min(start, |names|);
      if x in names[..p] {
        var i :| 0 <= i < p && names[..p][i] == x;
        assert names[i] == x;
      } else {
        var i :| 0 <= i < |names| - (end + 1) && names[end + 1..][i] == x;
        assert names[end + 1 + i] == x;
      }
    } else {
      var i :| 0 <= i < upto - start && names[start..upto][i] == x;
      assert names[start + i] == x;
    }
  }

  /** With no two steps of the same name, and the steps after the range
      all after those before it, no two links have the same name. */
  lemma LinksDistinct(names: seq<string>, start: int, end: int, future: bool)
    requires !Repeats(names)
    requires 0 < start && future && 0 <= end + 1 <= |names| ==> Min(start, |names|) <= end + 1
    ensures !Repeats(LinkedNames(names, start, end, future))
  {
  }

  /** With no two steps of the same name, a step of the range finds its
      name neither among the links nor among the steps before it. */
  lemma NameNotTaken(names: seq<string>, start: int, end: int, future: bool, i: int)
    requires !Repeats(names) && 0 <= start <= i <= end && i < |names|
    ensures names[i] !in Taken(names, start, end, future, i)
  {
  }

  /** A run succeeds when nothing stands in its way: its directory can be
      made; no two steps share a name and none is named like a stamp; the
      range slices the steps; a run that does not start at the first step
      knows its previous run and, with `future`, ends before the last step
      and starts no later than just after its end; and every step of the
      range succeeds. */
  lemma RunSucceeds(a: map<Path, Node>, c: map<Path, Node>, runDir: Path, names: seq<string>,
                    start: int, end: int, future: bool, previous: Option<string>,
                    revText: string, marked: bool, outcome: int -> ScriptRun,
                    invoked: seq<int>, err: Option<Error>)
    requires RunEnded(a, c, runDir, names, start, end, future, previous, revText, marked, outcome, invoked, err)
    requires CanMakeDirs(a, runDir)
    requires !Repeats(names) && "rev.txt" !in names && ".final" !in names
    requires 0 <= start && 0 <= end + 1
    requires start > 0 ==> Truthy(previous) && (future ==> start <= end + 1 < |names|)
    requires forall k :: start <= k < start + PlanSize(|names|, start, end) ==> Succeeded(outcome(k))
    ensures err.None?
  {
    EndedParts(a, c, runDir, names, start, end, future, previous, revText, marked, outcome, invoked, err);
    NoCause(c, runDir, names, start, end, future, previous, revText, marked, outcome, invoked, err);
  }

  /** Under the conditions of `RunSucceeds`, no cause of failure applies. */
  lemma NoCause(c: map<Path, Node>, runDir: Path, names: seq<string>,
                start: int, end: int, future: bool, previous: Option<string>,
                revText: string, marked: bool, outcome: int -> ScriptRun,
                invoked: seq<int>, err: Option<Error>)
    requires RunDirEnded(c, runDir, names, start, end, future, previous, revText, marked, outcome, invoked, err)
    requires StepsRan(c, runDir, names, outcome, start, PlanSize(|names|, start, end), invoked, err)
    requires !Repeats(names) && "rev.txt" !in names && ".final" !in names
    requires 0 <= start && 0 <= end + 1
    requires start > 0 ==> Truthy(previous) && (future ==> start <= end + 1 < |names|)
    requires forall k :: start <= k < start + PlanSize(|names|, start, end) ==> Succeeded(outcome(k))
    ensures err.None?
  {
    NoCauseApplies(names, start, end, future, previous, marked, outcome, invoked);
  }

  /** Under the conditions of `RunSucceeds`, none of the causes
      `FailureCause` lists holds, whatever the error. */
  lemma NoCauseApplies(names: seq<string>, start: int, end: int, future: bool, previous: Option<string>,
                       marked: bool, outcome: int -> ScriptRun, invoked: seq<int>)
    requires !Repeats(names) && "rev.txt" !in names && ".final" !in names
    requires 0 <= start && 0 <= end + 1
    requires start > 0 ==> Truthy(previous) && (future ==> start <= end + 1 < |names|)
    requires forall k :: start <= k < start + PlanSize(|names|, start, end) ==> Succeeded(outcome(k))
    requires |invoked| <= PlanSize(|names|, start, end)
    requires forall i :: 0 <= i < |invoked| ==> invoked[i] == start + i
    ensures forall err :: !FailureCause(names, start, end, future, previous, marked, outcome, invoked, err)
  {
    var upto := start + |invoked|;
    LinksAllowed(names, start, end, future, previous);
    LastSucceeded(outcome, start, PlanSize(|names|, start, end), invoked);
    NextNotTaken(names, start, end, future, upto);
    StampsNotTaken(names, start, end, future, upto);
  }

  /** When every planned step succeeds, so did the last one invoked. */
  lemma LastSucceeded(outcome: int -> ScriptRun, start: int, planned: nat, invoked: seq<int>)
    requires forall k :: start <= k < start + planned ==> Succeeded(outcome(k))
    requires |invoked| <= planned
    ensures |invoked| > 0 ==> Succeeded(outcome(start + |invoked| - 1))
  {
  }

  /** With no two steps of the same name, the next step of the range has
      a name no link and no earlier step has. */
  lemma NextNotTaken(names: seq<string>, start: int, end: int, future: bool, upto: int)
    requires !Repeats(names) && 0 <= start <= upto
    ensures upto < start + PlanSize(|names|, start, end) && upto < |names| ==>
              names[upto] !in Taken(names, start, end, future, upto)
  {
    if upto < start + PlanSize(|names|, start, end) && upto < |names| {
      NameNotTaken(names, start, end, future, upto);
    }
  }

  /** With no two steps of the same name and a range that leaves steps
      after it to link, linking does not refuse. */
  lemma LinksAllowed(names: seq<string>, start: int, end: int, future: bool, previous: Option<string>)
    requires !Repeats(names) && 0 <= end + 1
    requires start > 0 ==> Truthy(previous) && (future ==> start <= end + 1 < |names|)
    ensures forall err :: !(start > 0 && LinkFailure(names, start, end, future, previous, err))
  {
    LinksDistinct(names, start, end, future);
  }

  /** No step named `rev.txt` or `.final`: no link and no run step has
      a stamp's name. */
  lemma StampsNotTaken(names: seq<string>, start: int, end: int, future: bool, upto: int)
    requires "rev.txt" !in names && ".final" !in names
    ensures "rev.txt" !in Taken(names, start, end, future, upto)
    ensures ".final" !in Taken(names, start, end, future, upto)
  {
    if "rev.txt" in Taken(names, start, end, future, upto) {
      TakenFromNames(names, start, end, future, upto, "rev.txt");
    }
    if ".final" in Taken(names, start, end, future, upto) {
      TakenFromNames(names, start, end, future, upto, ".final");
    }
  }

  /** A run that succeeds invoked exactly the steps of its range, in
      order, and each of them holds its output in the run directory. */
  lemma SuccessRanTheRange(a: map<Path, Node>, c: map<Path, Node>, runDir: Path, names: seq<string>,
                           start: int, end: int, future: bool, previous: Option<string>,
                           revText: string, marked: bool, outcome: int -> ScriptRun,
                           invoked: seq<int>)
    requires RunEnded(a, c, runDir, names, start, end, future, previous, revText, marked, outcome, invoked, None)
    ensures invoked == seq(PlanSize(|names|, start, end), i => start + i)
    ensures forall k :: start <= k < start + PlanSize(|names|, start, end) ==>
              0 <= k < |names| && HoldsOutput(c, runDir + [names[k]], outcome(k).wrote)
  {
    var planned := PlanSize(|names|, start, end);
    assert StepsRan(c, runDir, names, outcome, start, planned, invoked, None);
    RanEveryStep(c, runDir, names, outcome, start, planned, invoked);
  }

  /** Steps that ran without an error are exactly the planned ones, each
      holding its output. */
  lemma RanEveryStep(c: map<Path, Node>, runDir: Path, names: seq<string>, outcome: int -> ScriptRun,
                     start: int, planned: nat, invoked: seq<int>)
    requires StepsRan(c, runDir, names, outcome, start, planned, invoked, None)
    ensures invoked == seq(planned, i => start + i)
    ensures forall k :: start <= k < start + planned ==>
              0 <= k < |names| && HoldsOutput(c, runDir + [names[k]], outcome(k).wrote)
  {
    assert |invoked| == planned;
    forall k | start <= k < start + planned
      ensures 0 <= k < |names| && HoldsOutput(c, runDir + [names[k]], outcome(k).wrote)
    {
      assert invoked[k - start] == k;
    }
  }

  /** How lines 150-153 of `run` end, from the tree `a` to the tree `b`:
      where `os.makedirs` refuses the run directory nothing happens;
      otherwise the directory is made, entries present before are kept,
      every new entry is the run directory, an ancestor of it, or a link
      the run makes, the run directory holds only links named after the
      steps the run links, and no `.final` marker is there; linking
      refuses a missing previous run and, with `future`, a range that
      reaches the last step, and fails only as `LinkFailure` says; and
      without an error the steps outside the range are linked. */
  ghost predicate Opened(a: map<Path, Node>, b: map<Path, Node>, runDir: Path, names: seq<string>,
                         start: int, end: int, future: bool, previous: Option<string>, err: Option<Error>)
  {
    (!CanMakeDirs(a, runDir) ==> err == Some(OsError) && b == a) &&
    (CanMakeDirs(a, runDir) ==>
       runDir in b && b[runDir] == Dir &&
       Grows(a, b, runDir) && LinksLinked(a, b, runDir, previous, names, start, end, future) &&
       Unmarked(b, runDir) && HoldsOnly(b, runDir, LinkedNames(names, start, end, future))) &&
    (CanMakeDirs(a, runDir) && start <= 0 ==> err.None?) &&
    (CanMakeDirs(a, runDir) && err.Some? ==> start > 0 && LinkFailure(names, start, end, future, previous, err)) &&
    (CanMakeDirs(a, runDir) && start > 0 && !Truthy(previous) ==> err == Some(NoPreviousRunToLink)) &&
    (start > 0 && Truthy(previous) && future && end + 1 >= |names| ==> err.Some?) &&
    (err.None? ==>
       CanMakeDirs(a, runDir) &&
       (start > 0 ==>
          Truthy(previous) &&
          forall k :: 0 <= k < Min(start, |names|) ==> LinkedTo(b, runDir, previous.value, names[k])) &&
       (start > 0 && future ==>
          0 <= end + 1 < |names| &&
          forall k :: end < k < |names| ==> LinkedTo(b, runDir, previous.value, names[k])))
  }

  /** The run stops before any step: the run directory cannot be made,
      linking fails, or the range cannot be sliced. */
  lemma RunNotStarted(a: map<Path, Node>, b: map<Path, Node>, runDir: Path, names: seq<string>,
                      start: int, end: int, future: bool, previous: Option<string>,
                      revText: string, marked: bool, outcome: int -> ScriptRun,
                      openErr: Option<Error>, err: Option<Error>)
    requires Opened(a, b, runDir, names, start, end, future, previous, openErr)
    requires openErr.Some? ==> err == openErr
    requires openErr.None? ==> err == Some(BadSlice) && (start < 0 || end + 1 < 0)
    ensures RunEnded(a, b, runDir, names, start, end, future, previous, revText, marked, outcome, [], err)
  {
    if CanMakeDirs(a, runDir) {
      assert Taken(names, start, end, future, start) == LinkedNames(names, start, end, future);
      HeldBeforeStamps(b, runDir, LinkedNames(names, start, end, future), revText, PlanSize(|names|, start, end), outcome, []);
    }
  }

  /** The run stops at a step. */
  lemma RunStoppedInSteps(a: map<Path, Node>, linked: map<Path, Node>, c: map<Path, Node>, runDir: Path,
                          names: seq<string>, start: int, end: int, future: bool, previous: Option<string>,
                          revText: string, marked: bool, outcome: int -> ScriptRun,
                          invoked: seq<int>, err: Option<Error>)
    requires Opened(a, linked, runDir, names, start, end, future, previous, None)
    requires err.Some? && 0 <= start && 0 <= end + 1
    requires Executed(linked, c, runDir, names, outcome, start, PlanSize(|names|, start, end), invoked, err)
    ensures RunEnded(a, c, runDir, names, start, end, future, previous, revText, marked, outcome, invoked, err)
  {
    GrowsWithoutLinks(a, linked, c, runDir, previous, names, start, end, future);
    if CanMakeDirs(a, runDir) {
      StoppedDir(linked, c, runDir, names, start, end, future, previous, revText, marked, outcome, invoked, err);
    }
  }

  /** The run directory of a run that stops at a step. */
  lemma StoppedDir(linked: map<Path, Node>, c: map<Path, Node>, runDir: Path,
                   names: seq<string>, start: int, end: int, future: bool, previous: Option<string>,
                   revText: string, marked: bool, outcome: int -> ScriptRun,
                   invoked: seq<int>, err: Option<Error>)
    requires HoldsOnly(linked, runDir, LinkedNames(names, start, end, future))
    requires err.Some? && 0 <= start
    requires Executed(linked, c, runDir, names, outcome, start, PlanSize(|names|, start, end), invoked, err)
    ensures RunDirEnded(c, runDir, names, start, end, future, previous, revText, marked, outcome, invoked, err)
  {
    StepsHeld(linked, c, runDir, names, start, end, future, revText, outcome, invoked);
    StoppedCause(linked, c, runDir, names, start, end, future, previous, marked, outcome, invoked, err);
  }

  /** Why the run stopped at a step: its script failed, or its output
      directory was already there under the name of a link or of an
      earlier step. */
  lemma StoppedCause(linked: map<Path, Node>, c: map<Path, Node>, runDir: Path,
                     names: seq<string>, start: int, end: int, future: bool, previous: Option<string>,
                     marked: bool, outcome: int -> ScriptRun, invoked: seq<int>, err: Option<Error>)
    requires HoldsOnly(linked, runDir, LinkedNames(names, start, end, future))
    requires err.Some? && 0 <= start
    requires StepsRan(c, runDir, names, outcome, start, PlanSize(|names|, start, end), invoked, err)
    requires Collided(linked, c, runDir, names, outcome, start, PlanSize(|names|, start, end), invoked, err)
    ensures FailureCause(names, start, end, future, previous, marked, outcome, invoked, err)
  {
    var upto := start + |invoked|;
    if |invoked| == 0 || Succeeded(outcome(upto - 1)) {
      var at := runDir + [names[upto]];
      assert IsPrefix(runDir, at) && at[|runDir|] == names[upto];
    }
  }

  /** Before the stamps, the run directory holds only the links and the
      output directories of the steps invoked. */
  lemma StepsHeld(linked: map<Path, Node>, c: map<Path, Node>, runDir: Path, names: seq<string>,
                  start: int, end: int, future: bool, revText: string, outcome: int -> ScriptRun, invoked: seq<int>)
    requires HoldsOnly(linked, runDir, LinkedNames(names, start, end, future))
    requires StepsGrew(linked, c, runDir, names, start, start + |invoked|)
    ensures HoldsOnly(c, runDir, Taken(names, start, end, future, start + |invoked|))
    ensures EntriesEnded(c, runDir, Taken(names, start, end, future, start + |invoked|))
    ensures RevOnlyAfterSteps(c, runDir, revText, PlanSize(|names|, start, end), outcome, invoked)
  {
    var taken := Taken(names, start, end, future, start + |invoked|);
    HeldGrows(linked, c, runDir, LinkedNames(names, start, end, future), Slice(names, start, start + |invoked|));
    HeldBeforeStamps(c, runDir, taken, revText, PlanSize(|names|, start, end), outcome, invoked);
  }

  /** The run ends once its steps ran: stopped at a step with `stepErr`,
      or, all steps done, with the stamps written or writing one failed. */
  lemma RunClosed(a: map<Path, Node>, linked: map<Path, Node>, b: map<Path, Node>, c: map<Path, Node>,
                  runDir: Path, names: seq<string>, start: int, end: int, future: bool, previous: Option<string>,
                  revText: string, marked: bool, outcome: int -> ScriptRun, invoked: seq<int>,
                  stepErr: Option<Error>, err: Option<Error>)
    requires TreeShaped(a) && Opened(a, linked, runDir, names, start, end, future, previous, None)
    requires 0 <= start && 0 <= end + 1
    requires Executed(linked, b, runDir, names, outcome, start, PlanSize(|names|, start, end), invoked, stepErr)
    requires stepErr.Some? ==> err == stepErr && c == b
    requires stepErr.None? ==>
               (err.None? <==> Writable(b, runDir + ["rev.txt"]) && (marked ==> Writable(b, runDir + [".final"]))) &&
               (err.None? ==> c == Stamped(b, runDir, revText, marked)) &&
               (err.Some? ==> err == Some(OsError) &&
                              (c == b || (Writable(b, runDir + ["rev.txt"]) && c == b[runDir + ["rev.txt"] := File(revText)])))
    ensures RunEnded(a, c, runDir, names, start, end, future, previous, revText, marked, outcome, invoked, err)
  {
    if stepErr.Some? {
      RunStoppedInSteps(a, linked, c, runDir, names, start, end, future, previous, revText, marked, outcome, invoked, err);
    } else {
      RunStamped(a, linked, b, c, runDir, names, start, end, future, previous, revText, marked, outcome, invoked, err);
    }
  }

  /** The steps all ran; the stamps are written, or writing one fails. */
  lemma RunStamped(a: map<Path, Node>, linked: map<Path, Node>, b: map<Path, Node>, c: map<Path, Node>,
                   runDir: Path, names: seq<string>, start: int, end: int, future: bool, previous: Option<string>,
                   revText: string, marked: bool, outcome: int -> ScriptRun, invoked: seq<int>, err: Option<Error>)
    requires TreeShaped(a) && Opened(a, linked, runDir, names, start, end, future, previous, None)
    requires 0 <= start && 0 <= end + 1
    requires Executed(linked, b, runDir, names, outcome, start, PlanSize(|names|, start, end), invoked, None)
    requires err.None? ==>
               Writable(b, runDir + ["rev.txt"]) && (marked ==> Writable(b, runDir + [".final"])) &&
               c == Stamped(b, runDir, revText, marked)
    requires err.Some? ==>
               err == Some(OsError) &&
               (!Writable(b, runDir + ["rev.txt"]) || (marked && !Writable(b, runDir + [".final"]))) &&
               (c == b || (Writable(b, runDir + ["rev.txt"]) && c == b[runDir + ["rev.txt"] := File(revText)]))
    ensures RunEnded(a, c, runDir, names, start, end, future, previous, revText, marked, outcome, invoked, err)
  {
    var planned := PlanSize(|names|, start, end);
    GrowsWithoutLinks(a, linked, b, runDir, previous, names, start, end, future);
    LinksKept(linked, b, runDir);
    if err.None? {
      StampKeeps(a, b, runDir, revText, marked, previous, names, start, end, future, outcome, planned, invoked);
    } else if c != b {
      StampKeeps(a, b, runDir, revText, false, previous, names, start, end, future, outcome, planned, invoked);
    }
    StampedDir(a, linked, b, c, runDir, names, start, end, future, previous, revText, marked, outcome, invoked, err);
  }

  /** The run directory after the stamps, or after a stamp that failed. */
  lemma StampedDir(a: map<Path, Node>, linked: map<Path, Node>, b: map<Path, Node>, c: map<Path, Node>,
                   runDir: Path, names: seq<string>, start: int, end: int, future: bool, previous: Option<string>,
                   revText: string, marked: bool, outcome: int -> ScriptRun, invoked: seq<int>, err: Option<Error>)
    requires Opened(a, linked, runDir, names, start, end, future, previous, None)
    requires 0 <= start && 0 <= end + 1
    requires Executed(linked, b, runDir, names, outcome, start, PlanSize(|names|, start, end), invoked, None)
    requires err.None? ==> c == Stamped(b, runDir, revText, marked)
    requires err.Some? ==>
               err == Some(OsError) &&
               (!Writable(b, runDir + ["rev.txt"]) || (marked && !Writable(b, runDir + [".final"]))) &&
               (c == b || (Writable(b, runDir + ["rev.txt"]) && c == b[runDir + ["rev.txt"] := File(revText)]))
    ensures RunDirEnded(c, runDir, names, start, end, future, previous, revText, marked, outcome, invoked, err)
  {
    var taken := Taken(names, start, end, future, start + |invoked|);
    var rev, fin := runDir + ["rev.txt"], runDir + [".final"];
    HeldGrows(linked, b, runDir, LinkedNames(names, start, end, future), Slice(names, start, start + |invoked|));
    assert IsPrefix(runDir, rev) && IsPrefix(runDir, fin) && rev[|runDir|] == "rev.txt" && fin[|runDir|] == ".final";
    if c == b {
      HeldBeforeStamps(c, runDir, taken, revText, PlanSize(|names|, start, end), outcome, invoked);
    } else {
      assert rev != fin;
      forall q | q in c && IsPrefix(runDir, q) && |q| == |runDir| + 1
        ensures q[|runDir|] in taken || (c[q].File? && (q[|runDir|] == "rev.txt" || q[|runDir|] == ".final"))
      {
        if q != rev && q != fin {
          assert q in b;
        }
      }
    }
  }

  /** A step made for the next line's declaration extends the steps the
      earlier lines declare. */
  lemma DeclaresOneMore(steps: seq<PipelineStep>, specs: seq<StepSpec>, resultsDir: Path, step: PipelineStep, spec: StepSpec)
    requires Declares(steps, specs, resultsDir)
    requires step.name == spec.name && step.scriptPath == spec.script && step.resultsDir == resultsDir
    ensures Declares(steps + [step], specs + [spec], resultsDir)
  {
    var s, d := steps + [step], specs + [spec];
    forall k | 0 <= k < |d|
      ensures s[k].name == d[k].name && s[k].scriptPath == d[k].script && s[k].resultsDir == resultsDir
    {
      if k < |specs| {
        assert s[k] == steps[k] && d[k] == specs[k];
      }
    }
  }

  /** The steps are those the specification declares, in order, each
      under `resultsDir`. */
  ghost predicate Declares(steps: seq<PipelineStep>, specs: seq<StepSpec>, resultsDir: Path) {
    |steps| == |specs| &&
    forall k :: 0 <= k < |specs| ==>
      steps[k].name == specs[k].name && steps[k].scriptPath == specs[k].script && steps[k].resultsDir == resultsDir
  }

  /** The run directory after `rev.txt`, and with `marked` the `.final`
      marker, are written. */
  function Stamped(nodes: map<Path, Node>, runDir: Path, revText: string, marked: bool): (after: map<Path, Node>)
    ensures forall q :: q in nodes ==> q in after
    ensures forall q :: q in nodes && q != runDir + ["rev.txt"] && q != runDir + [".final"] ==> after[q] == nodes[q]
  {
    var n := nodes[runDir + ["rev.txt"] := File(revText)];
    if marked then n[runDir + [".final"] := File("final\n")] else n
  }

  class PipelineRunner {
    const force: bool
    const final: bool
    var outputDir: Option<string>
    const resultsDir: Path
    const reproducibleListFile: Path
    const pipelineFile: Path
    const userStart: Option<RangeArg>
    const userEnd: Option<RangeArg>
    const future: bool
    var previousRun: Option<string>
    const ignoreMissingOutput: bool
    const inference: Mode

    var reproducibleFiles: seq<Path>
    var pipelineSteps: seq<PipelineStep>
    var stepsNum: int
    var rangeStart: int
    var rangeEnd: int
    var hadPreviousRun: bool
    var rev: string

    /** Every step keeps its outputs under the runner's results directory. */
    ghost predicate Valid()
      reads this`pipelineSteps
    {
      forall k :: 0 <= k < |pipelineSteps| ==> pipelineSteps[k].resultsDir == resultsDir
    }

    /** The configuration as the runner's fields hold it. */
    function Settings(): Config
      reads this
    {
      Config(force, final, outputDir, resultsDir, reproducibleListFile, pipelineFile,
             userStart, userEnd, future, previousRun, ignoreMissingOutput, inference)
    }

    function Names(): (names: seq<string>)
      reads this`pipelineSteps
      ensures |names| == |pipelineSteps| && forall k :: 0 <= k < |pipelineSteps| ==> names[k] == pipelineSteps[k].name
    {
      var steps := pipelineSteps;
      seq(|steps|, k requires 0 <= k < |steps| => steps[k].name)
    }

    /** `path.join(results_dir, output_dir)`: the run's directory. */
    function RunPath(): Path
      reads this
      requires outputDir.Some?
    {
      resultsDir + [outputDir.value]
    }

    /** The steps `run` executes: offsets `range_start` up to, not
        including, the smaller of `range_end + 1` and the step count. */
    function Planned(): nat
      reads this
    {
      PlanSize(|pipelineSteps|, rangeStart, rangeEnd)
    }

    /** The steps are those the specification declares, in order. */
    ghost predicate Describes(specs: seq<StepSpec>)
      reads this`pipelineSteps
    {
      Declares(pipelineSteps, specs, resultsDir)
    }

    /** The runner's state after a successful initialization. */
    ghost predicate Established(setup: Setup)
      reads this
    {
      outputDir == Some(setup.outputDir) &&
      (!force ==> reproducibleFiles == setup.reproducibleFiles) &&
      Loaded(Plan(setup.steps, setup.range, setup.rev))
    }

    /** The runner's state once the pipeline, the range and the commit hash
        are loaded. */
    ghost predicate Loaded(plan: Plan)
      reads this`pipelineSteps, this`stepsNum, this`rangeStart, this`rangeEnd, this`previousRun,
            this`hadPreviousRun, this`rev
    {
      Describes(plan.steps) &&
      stepsNum == plan.range.stepsNum && rangeStart == plan.range.rangeStart && rangeEnd == plan.range.rangeEnd &&
      previousRun == plan.range.previousRun && hadPreviousRun == plan.range.hadPreviousRun &&
      rev == plan.rev
    }

    /** Lines 92-103: the configuration is stored as given. */
    constructor (config: Config)
      ensures Settings() == config
      ensures pipelineSteps == [] && reproducibleFiles == []
      ensures Valid()
    {
      force := config.force;
      final := config.final;
      outputDir := config.outputDir;
      resultsDir := config.resultsDir;
      reproducibleListFile := config.reproducibleListFile;
      pipelineFile := config.pipelineFile;
      userStart := config.rangeStart;
      userEnd := config.rangeEnd;
      future := config.future;
      previousRun := config.previousRun;
      ignoreMissingOutput := config.ignoreMissingOutput;
      inference := config.inference;
      reproducibleFiles := [];
      pipelineSteps := [];
      stepsNum := 0;
      rangeStart := 0;
      rangeEnd := 0;
      hadPreviousRun := false;
      rev := "";
    }

    /** Lines 105-144: the checks, in order, that either raise or leave the
        runner ready to run. */
    method Initialize(env: Env) returns (err: Option<Error>)
      requires Valid()
      modifies this
      ensures Valid()
      ensures var init := Initialization(old(Settings()), env);
              (init.Err? ==> err == Some(init.error)) && (init.Ok? ==> err.None? && Established(init.value))
      ensures err.None? ==> fresh(pipelineSteps)
    {
      err := CheckConfiguration(env);
      if err.Some? {
        return;
      }
      err := Prepare(env);
    }

    /** Lines 105-126: the configuration checks; a missing run name becomes
        the current time. */
    method CheckConfiguration(env: Env) returns (err: Option<Error>)
      modifies this`outputDir
      ensures var r := Checks(old(Settings()), env);
              (r.Err? ==> err == Some(r.error)) && (r.Ok? ==> err.None? && outputDir == Some(r.value))
    {
      if resultsDir !in env.existing {
        return Some(ResultsDirMissing);
      }
      if !force && reproducibleListFile !in env.existing {
        return Some(ReproducibleListMissing);
      }
      if pipelineFile !in env.existing {
        return Some(PipelineFileMissing);
      }
      if Truthy(previousRun) && (!env.resultsListable || Lookup(env.runs, previousRun.value).None?) {
        return Some(PreviousRunMissing);
      }
      if outputDir.None? {
        outputDir := Some(env.now);
      }
      if [outputDir.value] in env.existing {
        return Some(OutputDirExists);
      }
      err := None;
    }

    /** Lines 128-144: the clean-tree policy unless forced, the pipeline,
        the range and the commit hash. */
    method Prepare(env: Env) returns (err: Option<Error>)
      requires Valid() && outputDir.Some?
      modifies this`reproducibleFiles, this`pipelineSteps, this`stepsNum, this`rangeStart, this`rangeEnd,
               this`previousRun, this`hadPreviousRun, this`rev
      ensures Valid()
      ensures var r := Prepared(old(Settings()), env, outputDir.value);
              (r.Err? ==> err == Some(r.error)) && (r.Ok? ==> err.None? && Established(r.value))
      ensures err.None? ==> fresh(pipelineSteps)
    {
      ghost var config := Settings();
      if !force {
        err := ParseReproducibleFile(env);
        if err.Some? {
          return;
        }
        var clean := RepoClean(reproducibleFiles, env.gitStatus);
        if clean.Err? {
          return Some(clean.error);
        }
        if !clean.value {
          return Some(NotClean);
        }
      }
      ghost var files: seq<Path> := if force then [] else reproducibleFiles;
      assert (if config.force then Ok([]) else ReproducibleFiles(config.reproducibleListFile, env)) == Ok(files);
      err := LoadPipeline(env);
    }

    /** Lines 136-144: the pipeline, the range and the commit hash. */
    method LoadPipeline(env: Env) returns (err: Option<Error>)
      requires Valid()
      modifies this`pipelineSteps, this`stepsNum, this`rangeStart, this`rangeEnd, this`previousRun,
               this`hadPreviousRun, this`rev
      ensures Valid()
      ensures var r := Loading(old(Settings()), env);
              (r.Err? ==> err == Some(r.error)) && (r.Ok? ==> err.None? && Loaded(r.value))
      ensures err.None? ==> fresh(pipelineSteps)
    {
      err := ParsePipelineFile(env);
      if err.Some? {
        return;
      }
      ghost var specs := PipelineSpecs(pipelineFile, env).value;
      assert Names() == SpecNames(specs);
      err := DetermineRange(env.runs, env.resultsListable);
      if err.Some? {
        return;
      }
      if env.gitRev.exitCode != 0 {
        return Some(RevParseFailed);
      }
      rev := env.gitRev.stdout;
    }

    /** `_parse_reproducible_file`: the listed files, line by line, stopping
        at the first that does not exist. */
    method ParseReproducibleFile(env: Env) returns (err: Option<Error>)
      modifies this`reproducibleFiles
      ensures var r := if reproducibleListFile in env.contents
                       then ParseReproducibleLines(reproducibleListFile, env.contents[reproducibleListFile], env.existing)
                       else Err(IoError);
              (r.Err? ==> err == Some(r.error)) && (r.Ok? ==> err.None? && reproducibleFiles == r.value)
    {
      if reproducibleListFile !in env.contents {
        return Some(IoError);
      }
      var lines := env.contents[reproducibleListFile];
      ghost var parse := ListedFileParser(reproducibleListFile, env.existing);
      err := None;
      reproducibleFiles := [];
      var lineno := 1;
      for i := 0 to |lines|
        invariant lineno == i + 1
        invariant ParseLines(lines[..i], parse) == Ok(reproducibleFiles)
      {
        var p := Rebase(reproducibleListFile, Text.DropLast(lines[i]));
        ParseLinesStep(lines, parse, i);
        if p !in env.existing {
          ParseLinesStops(lines, parse, i + 1);
          return Some(ReproducibleFileMissing(lineno));
        }
        reproducibleFiles := reproducibleFiles + [p];
        lineno := lineno + 1;
      }
      assert lines[..|lines|] == lines;
    }

    /** `_parse_pipeline_file`: one new step per line, stopping at the first
        malformed line or missing script. */
    method ParsePipelineFile(env: Env) returns (err: Option<Error>)
      modifies this`pipelineSteps
      ensures Valid()
      ensures var r := PipelineSpecs(pipelineFile, env);
              (r.Err? ==> err == Some(r.error)) && (r.Ok? ==> err.None? && Describes(r.value))
      ensures fresh(pipelineSteps)
    {
      pipelineSteps := [];
      if pipelineFile !in env.contents {
        return Some(IoError);
      }
      var lines := env.contents[pipelineFile];
      var steps;
      steps, err := MakeSteps(lines, env.existing);
      pipelineSteps := steps;
    }

    /** The loop of `_parse_pipeline_file`: one new step per line of
        `lines`, stopping at the first line that declares none, with the
        steps made until then. */
    method MakeSteps(lines: seq<string>, existing: set<Path>) returns (steps: seq<PipelineStep>, err: Option<Error>)
      ensures fresh(steps)
      ensures forall k :: 0 <= k < |steps| ==> steps[k].resultsDir == resultsDir
      ensures var r := ParsePipelineLines(pipelineFile, lines, existing);
              (r.Err? ==> err == Some(r.error)) && (r.Ok? ==> err.None? && Declares(steps, r.value, resultsDir))
    {
      ghost var parse := SpecLineParser(pipelineFile, existing);
      steps := [];
      for i := 0 to |lines|
        invariant ParseLines(lines[..i], parse).Ok? && Declares(steps, ParseLines(lines[..i], parse).value, resultsDir)
        invariant fresh(steps)
      {
        ghost var before := ParseLines(lines[..i], parse).value;
        var line := ReadSpecLine(pipelineFile, lines, existing, i);
        match line {
          case Err(e) =>
            return steps, Some(e);
          case Ok(spec) =>
            var step := new PipelineStep(spec.name, spec.script, resultsDir);
            DeclaresOneMore(steps, before, resultsDir, step, spec);
            steps := steps + [step];
        }
      }
      assert lines[..|lines|] == lines;
      err := None;
    }

    /** `_determine_range`: the outcome of the range resolution, stored in
        the runner (offsets, step count, previous run). */
    method DetermineRange(runs: seq<RunDir>, listable: bool) returns (err: Option<Error>)
      modifies this`stepsNum, this`rangeStart, this`rangeEnd, this`previousRun, this`hadPreviousRun
      ensures var r := ResolveRange(Names(), userStart, userEnd, old(previousRun), runs, listable, inference, ignoreMissingOutput);
              (r.Err? ==> err == Some(r.error)) &&
              (r.Ok? ==> err.None? && stepsNum == r.value.stepsNum && rangeStart == r.value.rangeStart &&
                         rangeEnd == r.value.rangeEnd && previousRun == r.value.previousRun &&
                         hadPreviousRun == r.value.hadPreviousRun)
    {
      var names := Names();
      var r := ResolveRange(names, userStart, userEnd, previousRun, runs, listable, inference, ignoreMissingOutput);
      if r.Err? {
        return Some(r.error);
      }
      stepsNum := r.value.stepsNum;
      rangeStart := r.value.rangeStart;
      rangeEnd := r.value.rangeEnd;
      previousRun := r.value.previousRun;
      hadPreviousRun := r.value.hadPreviousRun;
      err := None;
    }

    /** `link_range(lo, hi)`: `_make_previous_link` for the steps at offsets
        `lo` up to `hi`, in order, stopping at the first `os.symlink` that
        raises, which is when an entry of that name is already there. */
    method LinkRange(fs: FileSystem, lo: int, hi: int) returns (ok: bool, ghost stop: int)
      requires fs.Valid() && outputDir.Some? && previousRun.Some?
      requires 0 <= lo <= hi <= |pipelineSteps|
      requires RunPath() in fs.nodes && fs.nodes[RunPath()] == Dir
      modifies fs
      ensures fs.Valid()
      ensures Extends(old(fs.nodes), fs.nodes, RunPath())
      ensures forall q :: q in fs.nodes && q !in old(fs.nodes) ==>
                |q| == |RunPath()| + 1 && q[|RunPath()|] in Names()[lo..hi] &&
                fs.nodes[q] == Link(["..", previousRun.value, q[|RunPath()|]])
      ensures ok ==> forall k :: lo <= k < hi ==> LinkedTo(fs.nodes, RunPath(), previousRun.value, Names()[k])
      ensures !ok ==> lo <= stop < hi && LinksStoppedAt(old(fs.nodes), fs.nodes, RunPath(), previousRun.value, Names(), lo, stop)
    {
      var runDir := RunPath();
      var prev := previousRun.value;
      var names := Names();
      ok, stop := true, hi;
      for k := lo to hi
        invariant fs.Valid() && runDir in fs.nodes && fs.nodes[runDir] == Dir
        invariant LinksSoFar(old(fs.nodes), fs.nodes, runDir, prev, names, lo, k)
      {
        var at := runDir + [names[k]];
        assert Dirname(at) == runDir;
        ghost var now := fs.nodes;
        ok := fs.Symlink(["..", prev, names[k]], at);
        if !ok {
          stop := k;
          LinksWithin(old(fs.nodes), fs.nodes, runDir, prev, names, lo, k, hi);
          assert RunPath() + [Names()[k]] == at && at in fs.nodes;
          assert at[|runDir|] == names[k];
          assert LinksStoppedAt(old(fs.nodes), fs.nodes, runDir, prev, names, lo, k);
          return;
        }
        LinkAdded(old(fs.nodes), now, runDir, prev, names, lo, k);
      }
      LinksWithin(old(fs.nodes), fs.nodes, runDir, prev, names, lo, hi, hi);
    }

    /** `_generate_previous_step_links`: refuses when the run starts at the
        beginning or no previous run is known, links the steps before the
        range, and with `future` also those after it, refusing when the
        range reaches the last step. */
    method GeneratePreviousStepLinks(fs: FileSystem) returns (err: Option<Error>)
      requires fs.Valid() && outputDir.Some?
      requires RunPath() in fs.nodes && fs.nodes[RunPath()] == Dir && HoldsOnly(fs.nodes, RunPath(), [])
      modifies fs
      ensures fs.Valid()
      ensures Extends(old(fs.nodes), fs.nodes, RunPath())
      ensures forall q :: q in fs.nodes && q !in old(fs.nodes) ==>
                previousRun.Some? && |q| == |RunPath()| + 1 && LinkedName(Names(), rangeStart, rangeEnd, future, q[|RunPath()|]) &&
                fs.nodes[q] == Link(["..", previousRun.value, q[|RunPath()|]])
      ensures rangeStart == 0 ==> err == Some(NoPriorStepsToLink) && fs.nodes == old(fs.nodes)
      ensures rangeStart != 0 && !Truthy(previousRun) ==> err == Some(NoPreviousRunToLink) && fs.nodes == old(fs.nodes)
      ensures rangeStart < 0 && Truthy(previousRun) ==> err == Some(BadSlice) && fs.nodes == old(fs.nodes)
      ensures err.None? ==>
                rangeStart > 0 && Truthy(previousRun) &&
                forall k :: 0 <= k < Min(rangeStart, |pipelineSteps|) ==> LinkedTo(fs.nodes, RunPath(), previousRun.value, Names()[k])
      ensures err.None? && future ==>
                0 <= rangeEnd + 1 < |pipelineSteps| &&
                forall k :: rangeEnd < k < |pipelineSteps| ==> LinkedTo(fs.nodes, RunPath(), previousRun.value, Names()[k])
      ensures future && rangeStart > 0 && Truthy(previousRun) && rangeEnd + 1 >= |pipelineSteps| ==> err.Some?
      ensures err.Some? && rangeStart > 0 ==> LinkFailure(Names(), rangeStart, rangeEnd, future, previousRun, err)
      ensures err == Some(NoFutureStepsToLink) ==>
                forall k :: 0 <= k < Min(rangeStart, |pipelineSteps|) ==> LinkedTo(fs.nodes, RunPath(), previousRun.value, Names()[k])
    {
      ghost var runDir, names := RunPath(), Names();
      if rangeStart == 0 {
        err := Some(NoPriorStepsToLink);
      } else if !Truthy(previousRun) {
        err := Some(NoPreviousRunToLink);
      } else if rangeStart < 0 {
        err := Some(BadSlice);
      } else {
        var ok, stop := LinkRange(fs, 0, Min(rangeStart, |pipelineSteps|));
        PriorLinksNamed(old(fs.nodes), fs.nodes, runDir, previousRun.value, names, rangeStart, rangeEnd, future);
        if !ok {
          PriorStopRepeats(old(fs.nodes), fs.nodes, runDir, previousRun.value, names, rangeStart, rangeEnd, future, stop);
          err := Some(OsError);
        } else if !future {
          err := None;
        } else {
          err := LinkFutureSteps(fs, old(fs.nodes));
        }
      }
    }

    /** Lines 183-188 of `_generate_previous_step_links`, once the steps
        before the range are linked since `before`: refuses when the range
        reaches the last step, and links the steps after the range. */
    method LinkFutureSteps(fs: FileSystem, ghost before: map<Path, Node>) returns (err: Option<Error>)
      requires fs.Valid() && outputDir.Some? && rangeStart > 0 && Truthy(previousRun) && future
      requires RunPath() in fs.nodes && fs.nodes[RunPath()] == Dir && HoldsOnly(before, RunPath(), [])
      requires Extends(before, fs.nodes, RunPath())
      requires forall q :: q in fs.nodes && q !in before ==>
                 |q| == |RunPath()| + 1 && q[|RunPath()|] in Names()[0..Min(rangeStart, |pipelineSteps|)] &&
                 fs.nodes[q] == Link(["..", previousRun.value, q[|RunPath()|]])
      requires forall k :: 0 <= k < Min(rangeStart, |pipelineSteps|) ==> LinkedTo(fs.nodes, RunPath(), previousRun.value, Names()[k])
      modifies fs
      ensures fs.Valid()
      ensures Extends(before, fs.nodes, RunPath())
      ensures forall q :: q in fs.nodes && q !in before ==>
                |q| == |RunPath()| + 1 && LinkedName(Names(), rangeStart, rangeEnd, future, q[|RunPath()|]) &&
                fs.nodes[q] == Link(["..", previousRun.value, q[|RunPath()|]])
      ensures forall k :: 0 <= k < Min(rangeStart, |pipelineSteps|) ==> LinkedTo(fs.nodes, RunPath(), previousRun.value, Names()[k])
      ensures err.None? ==>
                0 <= rangeEnd + 1 < |pipelineSteps| &&
                forall k :: rangeEnd < k < |pipelineSteps| ==> LinkedTo(fs.nodes, RunPath(), previousRun.value, Names()[k])
      ensures rangeEnd + 1 >= |pipelineSteps| ==> err == Some(NoFutureStepsToLink)
      ensures err.Some? ==> LinkFailure(Names(), rangeStart, rangeEnd, future, previousRun, err)
    {
      ghost var runDir, names := RunPath(), Names();
      if rangeEnd + 1 >= |pipelineSteps| {
        err := Some(NoFutureStepsToLink);
        PriorLinksNamed(before, fs.nodes, runDir, previousRun.value, names, rangeStart, rangeEnd, future);
      } else if rangeEnd + 1 < 0 {
        err := Some(BadSlice);
        PriorLinksNamed(before, fs.nodes, runDir, previousRun.value, names, rangeStart, rangeEnd, future);
      } else {
        PriorLinksNamed(before, fs.nodes, runDir, previousRun.value, names, rangeStart, rangeEnd, future);
        ghost var mid := fs.nodes;
        var ok, stop := LinkRange(fs, rangeEnd + 1, |pipelineSteps|);
        if !ok {
          FutureStopRepeats(before, mid, fs.nodes, runDir, previousRun.value, names, rangeStart, rangeEnd, future, stop);
        }
        FutureLinksNamed(before, mid, fs.nodes, runDir, previousRun.value, names, rangeStart, rangeEnd, future);
        err := if ok then None else Some(OsError);
      }
    }

    /** `run`: makes the run's directory, links the previous run's
        outputs when the run does not start at the first step, runs the
        steps of the range in order up to the first failure, and stamps the
        directory with the commit hash and, for a forced or final run, the
        `.final` marker. Every error leaves the directory unmarked. */
    method Run(fs: FileSystem, outcome: int -> ScriptRun) returns (err: Option<Error>, invoked: seq<int>)
      requires Valid() && fs.Valid() && outputDir.Some?
      modifies fs, pipelineSteps
      ensures fs.Valid()
      ensures RunEnded(old(fs.nodes), fs.nodes, RunPath(), Names(), rangeStart, rangeEnd, future, previousRun,
                       rev + "\n", force || final, outcome, invoked, err)
    {
      err := OpenRun(fs);
      if err.Some? || rangeStart < 0 || rangeEnd + 1 < 0 {
        var openErr := err;
        if err.None? {
          err := Some(BadSlice);
        }
        invoked := [];
        RunNotStarted(old(fs.nodes), fs.nodes, RunPath(), Names(), rangeStart, rangeEnd, future, previousRun,
                      rev + "\n", force || final, outcome, openErr, err);
      } else {
        err, invoked := RunOpened(fs, outcome, old(fs.nodes));
      }
    }

    /** Lines 154-164 of `run`, once the run's directory is open and its
        links made: the steps run, and when they all succeed the directory
        is stamped. `a` is the file system before `run` began. */
    method RunOpened(fs: FileSystem, outcome: int -> ScriptRun, ghost a: map<Path, Node>) returns (err: Option<Error>, invoked: seq<int>)
      requires Valid() && fs.Valid() && outputDir.Some? && 0 <= rangeStart && 0 <= rangeEnd + 1
      requires TreeShaped(a) && Opened(a, fs.nodes, RunPath(), Names(), rangeStart, rangeEnd, future, previousRun, None)
      modifies fs, pipelineSteps
      ensures fs.Valid()
      ensures RunEnded(a, fs.nodes, RunPath(), Names(), rangeStart, rangeEnd, future, previousRun,
                       rev + "\n", force || final, outcome, invoked, err)
    {
      ghost var runDir, names := RunPath(), Names();
      ghost var linked := fs.nodes;
      err, invoked := ExecuteSteps(fs, outcome);
      assert runDir == RunPath() && names == Names() && Planned() == PlanSize(|names|, rangeStart, rangeEnd);
      ghost var stepErr, executed := err, fs.nodes;
      if err.None? {
        err := WriteStamps(fs);
      }
      RunClosed(a, linked, executed, fs.nodes, runDir, names, rangeStart, rangeEnd, future, previousRun,
                rev + "\n", force || final, outcome, invoked, stepErr, err);
    }

    /** Lines 150-153 of `run`: the run's directory is made, and the
        previous run's outputs are linked when the run does not start at
        the first step. */
    method OpenRun(fs: FileSystem) returns (err: Option<Error>)
      requires fs.Valid() && outputDir.Some?
      modifies fs
      ensures fs.Valid()
      ensures Opened(old(fs.nodes), fs.nodes, RunPath(), Names(), rangeStart, rangeEnd, future, previousRun, err)
    {
      var runDir := RunPath();
      var ok := fs.MakeDirs(runDir);
      if !ok {
        return Some(OsError);
      }
      MadeRunDir(old(fs.nodes), runDir);
      ghost var made := fs.nodes;
      NoLinksLinked(old(fs.nodes), made, runDir, previousRun, Names(), rangeStart, rangeEnd, future);
      err := None;
      if rangeStart > 0 {
        err := GeneratePreviousStepLinks(fs);
        GrowsThenLinks(old(fs.nodes), made, fs.nodes, runDir, previousRun, Names(), rangeStart, rangeEnd, future);
        LinksHeld(made, fs.nodes, runDir, Names(), rangeStart, rangeEnd, future);
      } else {
        assert LinkedNames(Names(), rangeStart, rangeEnd, future) == [];
      }
    }

    /** One turn of the loop of `run` (lines 156-157): step `k`, the next
        one after the steps `invoked`, makes its output directory and runs.
        Where that fails the loop ends as `Executed` says; otherwise the
        step joins the steps run so far. */
    method RunNext(fs: FileSystem, outcome: int -> ScriptRun, k: int, ghost before: map<Path, Node>, ghost invoked: seq<int>)
      returns (made: bool, err: Option<Error>)
      requires Valid() && fs.Valid() && outputDir.Some? && 0 <= rangeStart
      requires RunPath() in fs.nodes && fs.nodes[RunPath()] == Dir
      requires k == rangeStart + |invoked| && k < Min(rangeEnd + 1, |pipelineSteps|)
      requires forall i :: 0 <= i < |invoked| ==> invoked[i] == rangeStart + i
      requires StepsSoFar(before, fs.nodes, RunPath(), Names(), outcome, rangeStart, invoked)
      modifies fs, pipelineSteps[k]
      ensures fs.Valid() && RunPath() in fs.nodes && fs.nodes[RunPath()] == Dir
      ensures !made ==> err == Some(OsError) &&
                        Executed(before, fs.nodes, RunPath(), Names(), outcome, rangeStart, Planned(), invoked, err)
      ensures made && err.Some? ==>
                Executed(before, fs.nodes, RunPath(), Names(), outcome, rangeStart, Planned(), invoked + [k], err)
      ensures made && err.None? ==> StepsSoFar(before, fs.nodes, RunPath(), Names(), outcome, rangeStart, invoked + [k])
    {
      var step := pipelineSteps[k];
      var runDir := RunPath();
      var names := Names();
      assert step.resultsDir + [outputDir.value] == runDir;
      assert step.resultsDir + [outputDir.value, step.name] == runDir + [names[k]];
      ghost var now := fs.nodes;
      made, err := RunStep(fs, step, outputDir.value, outcome(k));
      StepEnded(before, now, fs.nodes, runDir, names, outcome, rangeStart, Planned(), invoked, k, made, err);
    }

    /** The loop of `run` (lines 155-157): each step in the range, in
        order, makes its output directory and runs, and the first failure
        ends the loop. `invoked` lists the steps whose scripts were
        invoked. */
    method ExecuteSteps(fs: FileSystem, outcome: int -> ScriptRun) returns (err: Option<Error>, invoked: seq<int>)
      requires Valid() && fs.Valid() && outputDir.Some? && 0 <= rangeStart
      requires RunPath() in fs.nodes && fs.nodes[RunPath()] == Dir
      modifies fs, pipelineSteps
      ensures fs.Valid()
      ensures Executed(old(fs.nodes), fs.nodes, RunPath(), Names(), outcome, rangeStart, Planned(), invoked, err)
    {
      var stop := Min(rangeEnd + 1, |pipelineSteps|);
      invoked := [];
      var k := rangeStart;
      while k < stop
        invariant rangeStart <= k && k == rangeStart + |invoked| && |invoked| <= Planned()
        invariant forall i :: 0 <= i < |invoked| ==> invoked[i] == rangeStart + i
        invariant fs.Valid() && RunPath() in fs.nodes && fs.nodes[RunPath()] == Dir
        invariant StepsSoFar(old(fs.nodes), fs.nodes, RunPath(), Names(), outcome, rangeStart, invoked)
      {
        var made;
        made, err := RunNext(fs, outcome, k, old(fs.nodes), invoked);
        if !made {
          return;
        }
        invoked := invoked + [k];
        if err.Some? {
          return;
        }
        k := k + 1;
      }
      ExitDone(old(fs.nodes), fs.nodes, RunPath(), Names(), outcome, rangeStart, Planned(), invoked);
      err := None;
    }

    /** Lines 159-164: `rev.txt` holds the commit hash, and a forced or
        final run is marked with `.final`; `open` raises where a directory
        or a link is in the way. */
    method WriteStamps(fs: FileSystem) returns (err: Option<Error>)
      requires fs.Valid() && outputDir.Some?
      requires RunPath() in fs.nodes && fs.nodes[RunPath()] == Dir
      modifies fs
      ensures fs.Valid()
      ensures err.None? <==> Writable(old(fs.nodes), RunPath() + ["rev.txt"]) &&
                             ((force || final) ==> Writable(old(fs.nodes), RunPath() + [".final"]))
      ensures err.None? ==> fs.nodes == Stamped(old(fs.nodes), RunPath(), rev + "\n", force || final)
      ensures err.Some? ==> err == Some(OsError) &&
                            (fs.nodes == old(fs.nodes) ||
                             (Writable(old(fs.nodes), RunPath() + ["rev.txt"]) &&
                              fs.nodes == old(fs.nodes)[RunPath() + ["rev.txt"] := File(rev + "\n")]))
    {
      var runDir := RunPath();
      assert Dirname(runDir + ["rev.txt"]) == runDir && Dirname(runDir + [".final"]) == runDir;
      assert runDir + ["rev.txt"] != runDir + [".final"];
      var ok := fs.WriteFile(runDir + ["rev.txt"], rev + "\n");
      if !ok {
        return Some(OsError);
      }
      if force || final {
        ok := fs.WriteFile(runDir + [".final"], "final\n");
        if !ok {
          return Some(OsError);
        }
      }
      err := None;
    }
  }

  /** `run_reproducible_pipeline` (lines 467-473): a runner is built from
      the configuration, which raises whatever initialization raises and
      then leaves the tree alone, and is then run in the run directory it
      settled on, with the steps, range, previous run and commit hash it
      settled on. */
  method RunReproduciblePipeline(config: Config, env: Env, fs: FileSystem, outcome: int -> ScriptRun)
    returns (err: Option<Error>, invoked: seq<int>)
    requires fs.Valid()
    modifies fs
    ensures fs.Valid()
    ensures Initialization(config, env).Err? ==>
              err == Some(Initialization(config, env).error) && fs.nodes == old(fs.nodes) && invoked == []
    ensures Initialization(config, env).Ok? ==>
              var s := Initialization(config, env).value;
              RunEnded(old(fs.nodes), fs.nodes, config.resultsDir + [s.outputDir], SpecNames(s.steps),
                       s.range.rangeStart, s.range.rangeEnd, config.future, s.range.previousRun,
                       s.rev + "\n", config.force || config.final, outcome, invoked, err)
  {
    var runner := new PipelineRunner(config);
    err := runner.Initialize(env);
    if err.Some? {
      return err, [];
    }
    ghost var s := Initialization(config, env).value;
    assert runner.Names() == SpecNames(s.steps);
    assert runner.RunPath() == config.resultsDir + [s.outputDir];
    err, invoked := runner.Run(fs, outcome);
  }
}
