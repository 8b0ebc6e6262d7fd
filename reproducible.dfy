/** The parts of `run_reproducible.py` that decide something before the
    inner script runs: `english_list`, the split of the command line into
    the wrapper's own flags, the script's name and the script's arguments,
    and the checks that may end the program before the script is called. */
module RunReproducible {
  import opened Wrappers
  import Inputs
  import Range
  import Files

  /** `sep.join(words)`. */
  function Join(sep: string, words: seq<string>): string {
    if words == [] then ""
    else if |words| == 1 then words[0]
    else Join(sep, words[..|words| - 1]) + sep + words[|words| - 1]
  }

  /** The total length of the words. */
  function TotalLength(words: seq<string>): nat {
    if words == [] then 0 else TotalLength(words[..|words| - 1]) + |words[|words| - 1]|
  }

  /** One more separator adds its length. */
  lemma OneMoreGap(width: nat, gaps: nat)
    requires gaps >= 1
    ensures width * gaps == width * (gaps - 1) + width
  {
  }

  /** A join holds the words and one separator between each two. */
  lemma {:induction false} JoinLength(sep: string, words: seq<string>)
    ensures words != [] ==> |Join(sep, words)| == TotalLength(words) + |sep| * (|words| - 1)
    ensures words == [] ==> Join(sep, words) == ""
    decreases |words|
  {
    if |words| > 1 {
      var n := |words|;
      var init := words[..n - 1];
      JoinLength(sep, init);
      assert |Join(sep, words)| == |Join(sep, init)| + |sep| + |words[n - 1]|;
      assert TotalLength(words) == TotalLength(init) + |words[n - 1]|;
      OneMoreGap(|sep|, n - 1);
    } else if |words| == 1 {
      assert words[..0] == [];
    }
  }

  /** `english_list` (lines 37-38): every word but the last joined with
      commas, then a comma, the connective and the last word. An empty list
      raises `IndexError` in the source, here `None`. */
  function EnglishList(words: seq<string>, connective: string): (r: Option<string>)
    ensures r.None? <==> words == []
    ensures r.Some? ==> |r.value| >= |connective| + 3
  {
    if words == [] then None
    else
      var n := |words|;
      Some(Join(", ", words[..n - 1]) + ", " + connective + " " + words[n - 1])
  }

  /** With two words or more, the result is the serial-comma list whose
      last item is the connective and the last word. */
  lemma EnglishListSerial(words: seq<string>, connective: string)
    requires |words| >= 2
    ensures EnglishList(words, connective) ==
            Some(Join(", ", words[..|words| - 1] + [connective + " " + words[|words| - 1]]))
  {
    var n := |words|;
    var items := words[..n - 1] + [connective + " " + words[n - 1]];
    assert items[..n - 1] == words[..n - 1];
    var init := Join(", ", words[..n - 1]);
    assert Join(", ", items) == init + ", " + (connective + " " + words[n - 1]);
    assert init + ", " + (connective + " " + words[n - 1]) == init + ", " + connective + " " + words[n - 1];
  }

  /** A single word still gets the comma and the connective. */
  lemma EnglishListSingle(w: string, connective: string)
    ensures EnglishList([w], connective) == Some(", " + connective + " " + w)
  {
    assert [w][..0] == [];
    assert Join(", ", []) + ", " == ", ";
  }

  /** The result holds every word, the connective, a space, and two
      characters of punctuation for every word but the last (and for the
      only word of a one-word list). */
  lemma EnglishListLength(words: seq<string>, connective: string)
    requires words != []
    ensures |EnglishList(words, connective).value| ==
            TotalLength(words) + 2 * (if |words| == 1 then 1 else |words| - 1) + |connective| + 1
  {
    JoinLength(", ", words[..|words| - 1]);
    assert words[..|words| - 1] == words[..|words| - 1][..|words| - 1];
  }

  /** The switches that ask to skip the clean-tree check. */
  predicate IsForceFlag(arg: string) {
    arg == "-f" || arg == "--force"
  }

  /** An argument after which the script's name is still unset: a force
      flag, or an empty argument, which Python's `not script_name` reads as
      no name. */
  predicate LeavesNameUnset(arg: string) {
    IsForceFlag(arg) || arg == ""
  }

  /** `j` is where the script's name appears: the first argument after the
      program's own name that leaves the name set. */
  predicate ScriptAt(args: seq<string>, j: int) {
    1 <= j < |args| && !LeavesNameUnset(args[j]) &&
    forall k :: 1 <= k < j ==> LeavesNameUnset(args[k])
  }

  /** Lines 44-54: the arguments before the script's name are the
      wrapper's (only force flags are understood), the first other one is
      the script's name, and every later one, force flags included, is
      passed to the script in order. */
  method SplitArgs(args: seq<string>) returns (force: bool, scriptName: Option<string>, scriptArgs: seq<string>)
    ensures Range.Truthy(scriptName) <==> exists j :: ScriptAt(args, j)
    ensures forall j :: ScriptAt(args, j) ==>
              scriptName == Some(args[j]) && scriptArgs == args[j + 1..] &&
              (force <==> exists k :: 1 <= k < j && IsForceFlag(args[k]))
    ensures !Range.Truthy(scriptName) ==>
              scriptArgs == [] && (force <==> exists k :: 1 <= k < |args| && IsForceFlag(args[k]))
  {
    force := false;
    scriptName := None;
    scriptArgs := [];
    ghost var at := 0;
    var i := 1;
    while i < |args|
      invariant 1 <= i && (args == [] ==> i == 1) && (args != [] ==> i <= |args|)
      invariant !Range.Truthy(scriptName) ==>
                  (forall k :: 1 <= k < i ==> LeavesNameUnset(args[k])) && scriptArgs == [] &&
                  (force <==> exists k :: 1 <= k < i && IsForceFlag(args[k]))
      invariant Range.Truthy(scriptName) ==>
                  ScriptAt(args, at) && at < i && scriptName == Some(args[at]) && scriptArgs == args[at + 1..i] &&
                  (force <==> exists k :: 1 <= k < at && IsForceFlag(args[k]))
    {
      var arg := args[i];
      if !Range.Truthy(scriptName) {
        if IsForceFlag(arg) {
          force := true;
        } else {
          scriptName := Some(arg);
          at := i;
        }
      } else {
        assert args[at + 1..i + 1] == args[at + 1..i] + [arg];
        scriptArgs := scriptArgs + [arg];
      }
      i := i + 1;
    }
    if !Range.Truthy(scriptName) {
      forall j | 1 <= j < |args|
        ensures !ScriptAt(args, j)
      {
        assert LeavesNameUnset(args[j]);
      }
    } else {
      assert i == |args|;
    }
  }

  /** Why the program ends before calling the inner script. */
  datatype Refusal =
    | FilesMissing        // a file listed in `reproducible.py` does not exist
    | NoScript            // no script's name on the command line
    | ScriptNotImported   // `__import__` failed
    | NoRunnable          // the script defines no function named in `runnable_names`
    | GitStatusFailed     // `git status` exited with a nonzero status
    | NotClean            // watched files changed, and no force flag

  /** Lines 85-93: a failing `git status` ends the program; otherwise the
      tree is clean exactly when `git status` printed nothing, and the
      program goes on exactly when the tree is clean or a force flag was
      given. The result is `clean`, which is later written beside the
      commit hash. */
  function CleanGate(force: bool, status: Inputs.ProcessResult): (r: Result<bool, Refusal>)
    ensures status.exitCode != 0 ==> r == Err(GitStatusFailed)
    ensures status.exitCode == 0 ==> (r.Err? <==> (status.stdout != "" && !force))
    ensures r.Err? ==> r.error == GitStatusFailed || r.error == NotClean
    ensures r.Ok? ==> r.value == (status.stdout == "")
  {
    if status.exitCode != 0 then Err(GitStatusFailed)
    else
      var clean := |status.stdout| == 0;
      if !clean && !force then Err(NotClean) else Ok(clean)
  }

  /** The wrapper and the pipeline runner agree on when the watched files
      are clean. */
  lemma GateAgreesWithRunner(force: bool, files: seq<Files.Path>, status: Inputs.ProcessResult)
    requires files != []
    ensures CleanGate(force, status).Ok? ==> Inputs.RepoClean(files, status) == Ok(CleanGate(force, status).value)
    ensures status.exitCode != 0 <==> Inputs.RepoClean(files, status).Err?
  {
  }

  /** The checks of lines 59-93 in the order the source makes them: the
      watched files exist, a script's name was given, the script imports,
      it defines a runnable function, and the clean-tree gate. */
  function Preflight(filesExist: bool, scriptName: Option<string>, imported: bool, hasRunnable: bool,
                     force: bool, status: Inputs.ProcessResult): (r: Result<bool, Refusal>)
    ensures r.Ok? <==> filesExist && Range.Truthy(scriptName) && imported && hasRunnable && CleanGate(force, status).Ok?
    ensures r.Ok? ==> r.value == (status.stdout == "")
  {
    if !filesExist then Err(FilesMissing)
    else if !Range.Truthy(scriptName) then Err(NoScript)
    else if !imported then Err(ScriptNotImported)
    else if !hasRunnable then Err(NoRunnable)
    else CleanGate(force, status)
  }

  /** Without a script's name the program stops before importing anything
      or consulting git: the outcome does not depend on either. */
  lemma MissingScriptStopsEarly(filesExist: bool, scriptName: Option<string>, imported: bool, hasRunnable: bool,
                                force: bool, status: Inputs.ProcessResult,
                                imported': bool, hasRunnable': bool, force': bool, status': Inputs.ProcessResult)
    requires !Range.Truthy(scriptName)
    ensures Preflight(filesExist, scriptName, imported, hasRunnable, force, status) ==
            Preflight(filesExist, scriptName, imported', hasRunnable', force', status')
    ensures Preflight(filesExist, scriptName, imported, hasRunnable, force, status).Err?
  {
  }
}
