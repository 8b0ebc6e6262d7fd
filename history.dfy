/** The run-history scanner: how the results directory's listing is read to
    find the previous run and how many of its steps are present. The listing
    is given in `os.listdir` order, each entry with its kind, its own
    listing and its modification time. */
module History {
  import opened Wrappers

  /** One name in a directory listing, and whether `path.isdir` holds of it. */
  datatype Entry = Entry(name: string, isDir: bool)

  /** One entry of the results directory. For an entry that is not a
      directory, `children` is empty (nothing of it is ever listed). */
  datatype RunDir = RunDir(name: string, isDir: bool, children: seq<Entry>, mtime: int)

  function ChildNames(children: seq<Entry>): (names: seq<string>)
    ensures |names| == |children|
    ensures forall i :: 0 <= i < |children| ==> names[i] == children[i].name
  {
    if children == [] then [] else ChildNames(children[..|children| - 1]) + [children[|children| - 1].name]
  }

  /** Names in a directory listing are distinct. */
  predicate UniqueNames(children: seq<Entry>) {
    forall i, j :: 0 <= i < j < |children| ==> children[i].name != children[j].name
  }

  /** `_is_final`: the run's listing contains `.final`. */
  predicate IsFinal(run: RunDir)
    ensures IsFinal(run) <==> exists i :: 0 <= i < |run.children| && run.children[i].name == ".final"
  {
    ".final" in ChildNames(run.children)
  }

  /** `_is_reproducible`: the run's listing contains `rev.txt`. */
  predicate IsReproducible(run: RunDir)
    ensures IsReproducible(run) <==> exists i :: 0 <= i < |run.children| && run.children[i].name == "rev.txt"
  {
    "rev.txt" in ChildNames(run.children)
  }

  /** The filter shared by `_determine_previous_run` and
      `_find_previous_run_with`: a directory, not final, reproducible. */
  predicate IsUsable(run: RunDir)
    ensures IsUsable(run) <==> run.isDir &&
                               (forall i :: 0 <= i < |run.children| ==> run.children[i].name != ".final") &&
                               (exists i :: 0 <= i < |run.children| && run.children[i].name == "rev.txt")
  {
    run.isDir && !IsFinal(run) && IsReproducible(run)
  }

  /** A usable run whose listing holds `step`. The source tests
      `path.exists(run/step)`, which is false for a dangling link that the
      listing still shows. */
  predicate IsUsableWith(run: RunDir, step: string) {
    IsUsable(run) && step in ChildNames(run.children)
  }

  /** `_count_steps_in_run` on one listing: the number of children that are
      directories named after a step of the pipeline. */
  function CountSteps(children: seq<Entry>, stepNames: seq<string>): (count: nat)
    ensures count <= |children|
  {
    if children == [] then 0
    else
      var last := children[|children| - 1];
      CountSteps(children[..|children| - 1], stepNames) + (if last.isDir && last.name in stepNames then 1 else 0)
  }

  /** The names of the step directories present in a listing. */
  function StepDirs(children: seq<Entry>, stepNames: seq<string>): set<string> {
    set i | 0 <= i < |children| && children[i].isDir && children[i].name in stepNames :: children[i].name
  }

  /** The count is the number of distinct step directories present. */
  lemma {:induction false} CountStepsIsStepDirs(children: seq<Entry>, stepNames: seq<string>)
    requires UniqueNames(children)
    ensures CountSteps(children, stepNames) == |StepDirs(children, stepNames)|
  {
    if children != [] {
      var init := children[..|children| - 1];
      var last := children[|children| - 1];
      CountStepsIsStepDirs(init, stepNames);
      StepDirsOfOneMore(children, stepNames);
      if last.isDir && last.name in stepNames {
        assert last.name !in StepDirs(init, stepNames);
      }
    }
  }

  /** The step directories of a listing are those of all but its last
      entry, and the last entry's name when it is a step directory. */
  lemma StepDirsOfOneMore(children: seq<Entry>, stepNames: seq<string>)
    requires children != []
    ensures var last := children[|children| - 1];
            StepDirs(children, stepNames) ==
            StepDirs(children[..|children| - 1], stepNames) + (if last.isDir && last.name in stepNames then {last.name} else {})
  {
    var init := children[..|children| - 1];
    forall i | 0 <= i < |init|
      ensures init[i] == children[i]
    {
    }
  }

  lemma {:induction false} DistinctAtMostLength(xs: seq<string>)
    ensures |set x | x in xs| <= |xs|
  {
    if xs != [] {
      var init := xs[..|xs| - 1];
      DistinctAtMostLength(init);
      assert (set x | x in xs) == (set x | x in init) + {xs[|xs| - 1]};
    }
  }

  /** No listing holds more step directories than the pipeline has steps: a
      run that had more steps than today's pipeline is not counted as such,
      since only directories named after today's steps are counted. */
  lemma CountStepsAtMostSteps(children: seq<Entry>, stepNames: seq<string>)
    requires UniqueNames(children)
    ensures CountSteps(children, stepNames) <= |stepNames|
  {
    CountStepsIsStepDirs(children, stepNames);
    var distinct := set x | x in stepNames;
    assert StepDirs(children, stepNames) <= distinct;
    SubsetCard(StepDirs(children, stepNames), distinct);
    DistinctAtMostLength(stepNames);
  }

  lemma SubsetCard(a: set<string>, b: set<string>)
    requires a <= b
    ensures |a| <= |b|
  {
    assert b == a + (b - a);
  }

  /** The position that `sorted(candidates, key=getmtime)[-1]` picks: among
      the entries satisfying `pick`, one of latest modification time, and,
      since the sort is stable, the last such in listing order. */
  function Latest(runs: seq<RunDir>, pick: RunDir -> bool): (r: Option<nat>)
    ensures r.None? <==> forall j :: 0 <= j < |runs| ==> !pick(runs[j])
    ensures r.Some? ==> r.value < |runs| && pick(runs[r.value])
    ensures r.Some? ==> forall j :: 0 <= j < |runs| && pick(runs[j]) ==> runs[j].mtime <= runs[r.value].mtime
    ensures r.Some? ==> forall j :: r.value < j < |runs| && pick(runs[j]) ==> runs[j].mtime < runs[r.value].mtime
  {
    if runs == [] then None
    else
      var last := |runs| - 1;
      var k := Latest(runs[..last], pick);
      if pick(runs[last]) && (k.None? || runs[k.value].mtime <= runs[last].mtime) then Some(last) else k
  }

  /** `_determine_previous_run`: the name of the latest usable run, or `None`
      (the source's `False`) when no run is usable. */
  function DeterminePreviousRun(runs: seq<RunDir>): (r: Option<string>)
    ensures r.None? <==> forall j :: 0 <= j < |runs| ==> !IsUsable(runs[j])
    ensures r.Some? ==> exists i :: (0 <= i < |runs| && runs[i].name == r.value && IsUsable(runs[i]) &&
                                     forall j :: 0 <= j < |runs| && IsUsable(runs[j]) ==> runs[j].mtime <= runs[i].mtime)
  {
    match Latest(runs, IsUsable)
    case None => None
    case Some(i) => Some(runs[i].name)
  }

  /** `_find_previous_run_with`: scanning the mtime-sorted usable runs from
      the newest, the first that holds `step`; that is the latest usable run
      holding `step`. Nothing in the runner calls it. */
  function FindPreviousRunWith(runs: seq<RunDir>, step: string): (r: Option<string>)
    ensures r.None? <==> forall j :: 0 <= j < |runs| ==> !IsUsableWith(runs[j], step)
    ensures r.Some? ==> exists i :: (0 <= i < |runs| && runs[i].name == r.value && IsUsableWith(runs[i], step) &&
                                     forall j :: 0 <= j < |runs| && IsUsableWith(runs[j], step) ==> runs[j].mtime <= runs[i].mtime)
  {
    match Latest(runs, run => IsUsableWith(run, step))
    case None => None
    case Some(i) => Some(runs[i].name)
  }

  /** The first entry of the listing with the given name. */
  function Lookup(runs: seq<RunDir>, name: string): (r: Option<RunDir>)
    ensures r.Some? ==> r.value in runs && r.value.name == name
    ensures r.None? ==> forall j :: 0 <= j < |runs| ==> runs[j].name != name
  {
    if runs == [] then None
    else if runs[0].name == name then Some(runs[0])
    else Lookup(runs[1..], name)
  }

  /** `_count_steps_in_run(name)`; `None` is the `OSError` of listing an entry
      that is missing or not a directory. */
  function CountStepsInRun(runs: seq<RunDir>, name: string, stepNames: seq<string>): Option<nat> {
    match Lookup(runs, name)
    case Some(run) => if run.isDir then Some(CountSteps(run.children, stepNames)) else None
    case None => None
  }

  /** Listings as a filesystem produces them: names are distinct in the
      results directory and in every run. */
  predicate WellFormed(runs: seq<RunDir>) {
    (forall i, j :: 0 <= i < j < |runs| ==> runs[i].name != runs[j].name) &&
    (forall i :: 0 <= i < |runs| ==> UniqueNames(runs[i].children))
  }

  /** Whatever run is counted, it never holds more step directories than
      the pipeline has steps. */
  lemma CountStepsInRunAtMostSteps(runs: seq<RunDir>, name: string, stepNames: seq<string>)
    requires WellFormed(runs)
    ensures CountStepsInRun(runs, name, stepNames).Some? ==> CountStepsInRun(runs, name, stepNames).value <= |stepNames|
  {
    var r := Lookup(runs, name);
    if r.Some? {
      var i :| 0 <= i < |runs| && runs[i] == r.value;
      CountStepsAtMostSteps(runs[i].children, stepNames);
    }
  }
}
