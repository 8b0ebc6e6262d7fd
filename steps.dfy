/** `PipelineStep`: one step of the pipeline, which makes its output
    directory inside the run's directory and runs its script there,
    removing the directory again when the script fails. */
module Steps {
  import opened Wrappers
  import opened Files
  import opened Errors

  /** What invoking a step's script did: its exit status, or `None` when
      the invocation itself raised, and the files it left in its output
      directory (name to content). */
  datatype ScriptRun = ScriptRun(exitCode: Option<int>, wrote: map<string, string>)

  /** A directory made by `os.makedirs` holds nothing yet. */
  lemma MadeDirIsEmpty(before: map<Path, Node>, p: Path)
    requires TreeShaped(before) && CanMakeDirs(before, p)
    ensures var after := before + map q | q in Prefixes(p) && q !in before :: Dir;
            p in after && after[p] == Dir && forall q :: q in after && IsPrefix(p, q) ==> q == p
  {
    var after := before + map q | q in Prefixes(p) && q !in before :: Dir;
    assert p == p[..|p|];
    forall q | q in after && IsPrefix(p, q)
      ensures q == p
    {
      if q in before {
        NothingUnderAbsent(before, p, q);
      } else {
        var k :| 1 <= k <= |p| && q == p[..k];
      }
    }
  }

  class PipelineStep {
    const name: string
    const scriptPath: Path
    const resultsDir: Path
    var outputDir: Option<Path>

    /** The step as the pipeline parser builds it; the parser has already
        checked that the script exists. */
    constructor (name: string, scriptPath: Path, resultsDir: Path)
      ensures this.name == name && this.scriptPath == scriptPath && this.resultsDir == resultsDir
      ensures outputDir == None
    {
      this.name := name;
      this.scriptPath := scriptPath;
      this.resultsDir := resultsDir;
      outputDir := None;
    }

    /** `make_output_directory`: records `results/run/name` as the output
        directory, then makes it; `ok` is false where `os.makedirs` raises,
        the directory being recorded either way. */
    method MakeOutputDirectory(runName: string, fs: FileSystem) returns (ok: bool)
      requires fs.Valid()
      modifies this`outputDir, fs
      ensures fs.Valid()
      ensures outputDir == Some(resultsDir + [runName, name])
      ensures ok == CanMakeDirs(old(fs.nodes), resultsDir + [runName, name])
      ensures ok ==> fs.nodes == old(fs.nodes) + map q | q in Prefixes(resultsDir + [runName, name]) && q !in old(fs.nodes) :: Dir
      ensures ok ==> forall q :: q in fs.nodes && IsPrefix(resultsDir + [runName, name], q) ==> q == resultsDir + [runName, name]
      ensures !ok ==> fs.nodes == old(fs.nodes)
    {
      var dir := resultsDir + [runName, name];
      outputDir := Some(dir);
      ok := fs.MakeDirs(dir);
      if ok {
        MadeDirIsEmpty(old(fs.nodes), dir);
      }
    }

    /** `run`: without an output directory the step refuses to run; a
        script that exits with 0 leaves its files in the directory, and a
        script that fails or cannot be invoked has its directory removed
        before the error is raised again. As the source's documentation
        demands, the output directory has been made, and is still empty,
        whenever one is recorded. */
    method Run(fs: FileSystem, script: ScriptRun) returns (err: Option<Error>)
      requires fs.Valid()
      requires outputDir.Some? ==> outputDir.value in fs.nodes && fs.nodes[outputDir.value] == Dir
      requires outputDir.Some? ==> forall q :: q in fs.nodes && IsPrefix(outputDir.value, q) ==> q == outputDir.value
      modifies fs
      ensures fs.Valid()
      ensures outputDir.None? ==> err == Some(OutputDirNotCreated) && fs.nodes == old(fs.nodes)
      ensures outputDir.Some? && script.exitCode == Some(0) ==>
                err == None && fs.nodes == old(fs.nodes) + Written(outputDir.value, script.wrote)
      ensures outputDir.Some? && script.exitCode.Some? && script.exitCode.value != 0 ==>
                err == Some(ScriptFailed) && fs.nodes == old(fs.nodes) - {outputDir.value}
      ensures outputDir.Some? && script.exitCode.None? ==>
                err == Some(OsError) && fs.nodes == old(fs.nodes) - {outputDir.value}
    {
      if outputDir.None? {
        return Some(OutputDirNotCreated);
      }
      var dir := outputDir.value;
      fs.ScriptWrites(dir, script.wrote);
      if script.exitCode == Some(0) {
        return None;
      }
      ghost var written := fs.nodes;
      var removed := fs.RemoveTree(dir);
      assert removed;
      forall q | q in old(fs.nodes) && q != dir
        ensures q in fs.nodes
      {
        assert q in written;
      }
      assert fs.nodes == old(fs.nodes) - {dir};
      err := Some(if script.exitCode.Some? then ScriptFailed else OsError);
    }
  }
}
