/** The range resolver (`PipelineRunner._determine_range` with `_parse_range`
    and `_resolve_id`): from the pipeline's step names, the caller's start
    and end, the previous run, the inference mode and the
    ignore-missing-output flag, either the 0-based range of steps to run or
    the inconsistency that was found. */
module Range {
  import opened Wrappers
  import Text
  import opened Errors
  import opened History

  /** A range bound as a caller passes it: an `int`, or a string (from the
      command line), read as an ordinal when `int()` accepts it and as a
      step name otherwise. */
  datatype RangeArg = IntArg(n: int) | StrArg(s: string)

  /** `inference_behaviour`: `None` (or any value other than the two
      below) infers, `"continue"` forces continuing, `"rebuild"` forces a
      full rebuild. */
  datatype Mode = Infer | Continue | Rebuild

  /** Python truthiness of an optional string: `None` and `""` are false. */
  predicate Truthy(s: Option<string>) {
    s.Some? && s.value != ""
  }

  /** `_resolve_id`: the 1-based position of the first step with this name;
      `None` is the `ValueError` raised when there is none. */
  function ResolveId(names: seq<string>, name: string): (r: Option<nat>)
    ensures r.Some? ==> 1 <= r.value <= |names| && names[r.value - 1] == name
    ensures r.Some? ==> forall j :: 0 <= j < r.value - 1 ==> names[j] != name
    ensures r.None? <==> name !in names
  {
    if names == [] then None
    else if names[0] == name then Some(1)
    else
      match ResolveId(names[1..], name)
      case None => None
      case Some(i) => Some(i + 1)
  }

  /** `_parse_range`: an `int` is kept, a string is `int(value)` or else the
      position of the step it names. */
  function ParseRange(names: seq<string>, arg: Option<RangeArg>): (r: Result<Option<int>, Error>)
    ensures arg.None? ==> r == Ok(None)
    ensures arg.Some? && arg.value.IntArg? ==> r == Ok(Some(arg.value.n))
    ensures arg.Some? && arg.value.StrArg? ==>
              (r.Err? <==> Text.ParseInt(arg.value.s).None? && arg.value.s !in names)
    ensures r.Err? ==> arg.Some? && r.error == NoSuchStep(arg.value.s)
    ensures r.Ok? && arg.Some? && arg.value.StrArg? && Text.ParseInt(arg.value.s).None? ==>
              r.value.Some? && 1 <= r.value.value <= |names| && names[r.value.value - 1] == arg.value.s
  {
    match arg
    case None => Ok(None)
    case Some(IntArg(n)) => Ok(Some(n))
    case Some(StrArg(s)) =>
      match Text.ParseInt(s)
      case Some(n) => Ok(Some(n))
      case None =>
        match ResolveId(names, s)
        case Some(i) => Ok(Some(i))
        case None => Err(NoSuchStep(s))
  }

  /** A number written on the command line is that ordinal, whatever the
      steps are called. */
  lemma ParseRangeOfNumber(names: seq<string>, n: int)
    ensures ParseRange(names, Some(StrArg(Text.Show(n)))) == Ok(Some(n))
  {
    Text.ParseIntOfShow(n);
  }

  /** A step name that `int()` rejects is the position of its first
      occurrence, or a `ValueError` when no step has that name. */
  lemma ParseRangeOfName(names: seq<string>, s: string)
    requires Text.ParseInt(s).None?
    ensures s in names ==> exists i :: (ParseRange(names, Some(StrArg(s))) == Ok(Some(i)) &&
                                        1 <= i <= |names| && names[i - 1] == s &&
                                        forall j :: 0 <= j < i - 1 ==> names[j] != s)
    ensures s !in names ==> ParseRange(names, Some(StrArg(s))) == Err(NoSuchStep(s))
  {
    if s in names {
      var i := ResolveId(names, s).value;
      assert ParseRange(names, Some(StrArg(s))) == Ok(Some(i));
    }
  }

  /** Lines 211-216: the end ordinal, the step count when omitted; an end
      past the last step is rejected, an end below 1 is not. */
  function EndOrdinal(names: seq<string>, userEnd: Option<RangeArg>): (r: Result<int, Error>)
    ensures r.Ok? ==> r.value <= |names|
    ensures userEnd.None? ==> r == Ok(|names|)
    ensures ParseRange(names, userEnd).Err? ==> r == Err(ParseRange(names, userEnd).error)
    ensures ParseRange(names, userEnd).Ok? && ParseRange(names, userEnd).value.Some? ==>
              var e := ParseRange(names, userEnd).value.value;
              (if e > |names| then r == Err(EndPastLast) else r == Ok(e))
  {
    var end :- ParseRange(names, userEnd);
    if end.None? then Ok(|names|)
    else if end.value > |names| then Err(EndPastLast)
    else Ok(end.value)
  }

  /** The previous run as lines 224-233 determine it: whether the caller
      named one (`had`), whether there is one (`has`), which (`run`: the
      caller's, else the latest usable one, else the caller's value
      unchanged) and its step count. `runs` is the results directory's
      listing and `listable` whether `os.listdir` can list it at all: a
      results path that is not a directory makes `_determine_previous_run`
      raise `OSError` when no run was named. */
  datatype Previous = Previous(had: bool, has: bool, run: Option<string>, count: nat)

  function FindPrevious(names: seq<string>, given: Option<string>, runs: seq<RunDir>, listable: bool): (r: Result<Previous, Error>)
    ensures r.Ok? ==> r.value.had == Truthy(given)
    ensures r.Ok? ==> (r.value.has <==> Truthy(given) || DeterminePreviousRun(runs).Some?)
    ensures r.Ok? ==> r.value.run == (if !Truthy(given) && DeterminePreviousRun(runs).Some?
                                      then DeterminePreviousRun(runs) else given)
    ensures r.Ok? && !r.value.has ==> r.value.count == 0
    ensures r.Ok? && r.value.has ==> CountStepsInRun(runs, r.value.run.value, names) == Some(r.value.count)
    ensures r.Err? ==> r.error == OsError
    ensures !Truthy(given) && !listable ==> r == Err(OsError)
    ensures r.Err? <==> (!Truthy(given) && !listable) ||
                        var run := if Truthy(given) then given else DeterminePreviousRun(runs);
                        run.Some? && CountStepsInRun(runs, run.value, names).None?
  {
    var had := Truthy(given);
    if !had && !listable then Err(OsError)
    else
    var found := if had then None else DeterminePreviousRun(runs);
    var has := had || found.Some?;
    var run := if found.Some? then found else given;
    if !has then Ok(Previous(had, false, run, 0))
    else
      match CountStepsInRun(runs, run.value, names)
      case None => Err(OsError)
      case Some(c) => Ok(Previous(had, true, run, c))
  }

  /** Lines 235-276: the start ordinal when the caller gave none. */
  function InferStart(mode: Mode, stepsNum: int, prev: Previous): (r: Result<int, Error>)
    ensures r.Ok? ==> r.value >= 1
  {
    match mode
    case Continue =>
      if !prev.has then Err(NoPreviousToContinue)
      else if stepsNum > prev.count then Ok(prev.count + 1)
      else if stepsNum < prev.count then Err(StepsDecreased)
      else Err(NothingNewToContinue)
    case Rebuild =>
      if prev.had then Err(RebuildWithPrevious) else Ok(1)
    case Infer =>
      if !prev.has then Ok(1)
      else if stepsNum > prev.count then Ok(stepsNum)
      else if stepsNum < prev.count then Err(StepsDecreased)
      else Ok(1)
  }

  /** When a start the caller gave is acceptable: not past the end; with a
      previous run, not past the step after that run's last unless missing
      output is ignored (a start below 1 passes); without one, exactly 1,
      or greater with missing output ignored. */
  predicate StartAccepted(start: int, rangeEnd: int, prev: Previous, ignoreMissingOutput: bool) {
    start <= rangeEnd &&
    if prev.has then start <= prev.count + 1 || ignoreMissingOutput
    else start == 1 || (start > 1 && ignoreMissingOutput)
  }

  /** Lines 277-313: the checks on a start ordinal the caller gave. */
  function CheckStart(start: int, rangeEnd: int, prev: Previous, ignoreMissingOutput: bool): (r: Result<int, Error>)
    ensures r.Ok? <==> StartAccepted(start, rangeEnd, prev, ignoreMissingOutput)
    ensures r.Ok? ==> r.value == start
    ensures start > rangeEnd ==> r == Err(StartAfterEnd)
    ensures start <= rangeEnd && prev.has && start > prev.count + 1 && !ignoreMissingOutput ==> r == Err(MissingPriorOutput)
    ensures start <= rangeEnd && !prev.has && start > 1 && !ignoreMissingOutput ==> r == Err(NothingToResume)
    ensures start <= rangeEnd && !prev.has && start < 1 ==> r == Err(StartNotPositive)
  {
    if start > rangeEnd then Err(StartAfterEnd)
    else if prev.has then
      if start > prev.count + 1 && !ignoreMissingOutput then Err(MissingPriorOutput) else Ok(start)
    else if start > 1 then
      if !ignoreMissingOutput then Err(NothingToResume) else Ok(start)
    else if start < 1 then Err(StartNotPositive)
    else Ok(start)
  }

  /** What `_determine_range` leaves in the runner's fields. */
  datatype Resolved = Resolved(rangeStart: int, rangeEnd: int, stepsNum: int,
                               previousRun: Option<string>, hadPreviousRun: bool)

  /** `_determine_range`, in the source's order: parse the start, parse and
      check the end (an end below the step count replaces `steps_num`),
      find the previous run, settle the start, and turn both ordinals into
      offsets. */
  function ResolveRange(names: seq<string>, userStart: Option<RangeArg>, userEnd: Option<RangeArg>,
                        given: Option<string>, runs: seq<RunDir>, listable: bool, mode: Mode,
                        ignoreMissingOutput: bool): (r: Result<Resolved, Error>)
    ensures r.Ok? ==> r.value.stepsNum == r.value.rangeEnd + 1
    ensures r.Ok? ==> r.value.rangeEnd < |names|
    ensures r.Ok? && userEnd.None? ==> r.value.rangeEnd == |names| - 1
    ensures r.Ok? && userStart.None? ==> r.value.rangeStart >= 0
    ensures r.Ok? ==> r.value.hadPreviousRun == Truthy(given)
  {
    var start :- ParseRange(names, userStart);
    var rangeEnd :- EndOrdinal(names, userEnd);
    var stepsNum := if rangeEnd < |names| then rangeEnd else |names|;
    var prev :- FindPrevious(names, given, runs, listable);
    Settle(start, rangeEnd, stepsNum, prev, mode, ignoreMissingOutput)
  }

  /** Lines 235-313 of `_determine_range`, the ordinals and the previous
      run being known: the start is inferred or checked, and both ordinals
      become offsets. */
  function Settle(start: Option<int>, rangeEnd: int, stepsNum: int, prev: Previous, mode: Mode,
                  ignoreMissingOutput: bool): (r: Result<Resolved, Error>)
    ensures r.Ok? ==> r.value.rangeEnd == rangeEnd - 1 && r.value.stepsNum == stepsNum
    ensures r.Ok? ==> r.value.previousRun == prev.run && r.value.hadPreviousRun == prev.had
    ensures start.Some? ==> (r.Ok? <==> StartAccepted(start.value, rangeEnd, prev, ignoreMissingOutput))
    ensures start.Some? && r.Ok? ==> r.value.rangeStart == start.value - 1
    ensures start.None? && mode == Continue ==>
              (r.Ok? <==> prev.has && stepsNum > prev.count) && (r.Ok? ==> r.value.rangeStart == prev.count)
    ensures start.None? && mode == Rebuild ==>
              (r.Ok? <==> !prev.had) && (r.Ok? ==> r.value.rangeStart == 0)
    ensures start.None? && mode == Infer ==>
              (r.Ok? <==> !prev.has || stepsNum >= prev.count) &&
              (r.Ok? ==> r.value.rangeStart == if prev.has && stepsNum > prev.count then stepsNum - 1 else 0)
  {
    var rangeStart :- if start.None? then InferStart(mode, stepsNum, prev)
                      else CheckStart(start.value, rangeEnd, prev, ignoreMissingOutput);
    Ok(Resolved(rangeStart - 1, rangeEnd - 1, stepsNum, prev.run, prev.had))
  }

  /** With no run named, a results directory that cannot be listed makes
      `_determine_previous_run` raise `OSError` (line 357), whatever the
      inference mode and before any check on the start. */
  lemma UnlistableResultsRaises(names: seq<string>, userStart: Option<RangeArg>, userEnd: Option<RangeArg>,
                                given: Option<string>, runs: seq<RunDir>, mode: Mode, ignore: bool)
    requires ParseRange(names, userStart).Ok? && EndOrdinal(names, userEnd).Ok?
    requires !Truthy(given)
    ensures ResolveRange(names, userStart, userEnd, given, runs, false, mode, ignore) == Err(OsError)
  {
  }

  /** An end past the last step is an inconsistency. */
  lemma EndPastLastRejected(names: seq<string>, userStart: Option<RangeArg>, e: int,
                            given: Option<string>, runs: seq<RunDir>, listable: bool, mode: Mode, ignore: bool)
    requires ParseRange(names, userStart).Ok?
    requires e > |names|
    ensures ResolveRange(names, userStart, Some(IntArg(e)), given, runs, listable, mode, ignore) == Err(EndPastLast)
  {
  }

  /** Without a start from the caller, the range starts where
      `InferStart` says and ends at the end ordinal. */
  lemma ResolveWithoutStart(names: seq<string>, userEnd: Option<RangeArg>, given: Option<string>,
                            runs: seq<RunDir>, listable: bool, mode: Mode, ignore: bool, end: int, prev: Previous)
    requires EndOrdinal(names, userEnd) == Ok(end) && FindPrevious(names, given, runs, listable) == Ok(prev)
    ensures end <= |names|
    ensures ResolveRange(names, None, userEnd, given, runs, listable, mode, ignore) == Settle(None, end, end, prev, mode, ignore)
  {
    assert ParseRange(names, None) == Ok(None);
  }

  /** An end the caller gave, within the pipeline, is kept: it is the last
      step to run, and `steps_num` becomes it (lines 217-218). */
  lemma ExplicitEndKept(names: seq<string>, userStart: Option<RangeArg>, userEnd: Option<RangeArg>, e: int,
                        given: Option<string>, runs: seq<RunDir>, listable: bool, mode: Mode, ignore: bool)
    requires ParseRange(names, userEnd) == Ok(Some(e)) && e <= |names|
    ensures EndOrdinal(names, userEnd) == Ok(e)
    ensures var r := ResolveRange(names, userStart, userEnd, given, runs, listable, mode, ignore);
            r.Ok? ==> r.value.rangeEnd == e - 1 && r.value.stepsNum == e
  {
  }

  /** Default inference (lines 264-276): no previous run or an unchanged
      step count starts at the first step; more steps than the previous run
      starts at the last step to run, so a single step runs; fewer steps is
      an error. */
  lemma DefaultInference(names: seq<string>, userEnd: Option<RangeArg>, given: Option<string>,
                         runs: seq<RunDir>, listable: bool, ignore: bool)
    requires EndOrdinal(names, userEnd).Ok? && FindPrevious(names, given, runs, listable).Ok?
    ensures var end := EndOrdinal(names, userEnd).value;
            var prev := FindPrevious(names, given, runs, listable).value;
            var r := ResolveRange(names, None, userEnd, given, runs, listable, Infer, ignore);
            && (!prev.has ==> r.Ok? && r.value.rangeStart == 0)
            && (prev.has && end == prev.count ==> r.Ok? && r.value.rangeStart == 0)
            && (prev.has && end > prev.count ==> r.Ok? && r.value.rangeStart == r.value.rangeEnd)
            && (prev.has && end < prev.count ==> r == Err(StepsDecreased))
  {
    ResolveWithoutStart(names, userEnd, given, runs, listable, Infer, ignore,
                        EndOrdinal(names, userEnd).value, FindPrevious(names, given, runs, listable).value);
  }

  /** When the pipeline grew by more than one step, default inference
      starts past the first new step: the steps in between are neither run
      nor present in the previous run. */
  lemma DefaultInferenceSkipsNewSteps(names: seq<string>, given: Option<string>, runs: seq<RunDir>, listable: bool, ignore: bool)
    requires FindPrevious(names, given, runs, listable).Ok?
    requires FindPrevious(names, given, runs, listable).value.has
    requires |names| > FindPrevious(names, given, runs, listable).value.count + 1
    ensures var r := ResolveRange(names, None, None, given, runs, listable, Infer, ignore);
            r.Ok? && r.value.rangeStart == |names| - 1 > FindPrevious(names, given, runs, listable).value.count
  {
    ResolveWithoutStart(names, None, given, runs, listable, Infer, ignore, |names|, FindPrevious(names, given, runs, listable).value);
  }

  /** Forced continuation (lines 236-255) resumes right after the previous
      run's last step, and fails without a previous run, with the same step
      count, or with fewer steps. */
  lemma ContinueMode(names: seq<string>, userEnd: Option<RangeArg>, given: Option<string>,
                     runs: seq<RunDir>, listable: bool, ignore: bool)
    requires EndOrdinal(names, userEnd).Ok? && FindPrevious(names, given, runs, listable).Ok?
    ensures var end := EndOrdinal(names, userEnd).value;
            var prev := FindPrevious(names, given, runs, listable).value;
            var r := ResolveRange(names, None, userEnd, given, runs, listable, Continue, ignore);
            && (!prev.has ==> r == Err(NoPreviousToContinue))
            && (prev.has && end > prev.count ==> r.Ok? && r.value.rangeStart == prev.count)
            && (prev.has && end == prev.count ==> r == Err(NothingNewToContinue))
            && (prev.has && end < prev.count ==> r == Err(StepsDecreased))
  {
    ResolveWithoutStart(names, userEnd, given, runs, listable, Continue, ignore,
                        EndOrdinal(names, userEnd).value, FindPrevious(names, given, runs, listable).value);
  }

  /** A run found by scanning the listing can always be counted. */
  lemma {:induction false} FoundRunIsCountable(names: seq<string>, runs: seq<RunDir>)
    requires WellFormed(runs)
    requires DeterminePreviousRun(runs).Some?
    ensures CountStepsInRun(runs, DeterminePreviousRun(runs).value, names).Some?
  {
    var name := DeterminePreviousRun(runs).value;
    var i :| 0 <= i < |runs| && runs[i].name == name && IsUsable(runs[i]);
    var found := Lookup(runs, name).value;
    var j :| 0 <= j < |runs| && runs[j] == found;
    assert i == j;
  }

  /** Forced rebuild (lines 256-263) fails exactly when the caller named a
      previous run (or, having named none, the results directory cannot be
      listed), and otherwise starts at the first step. */
  lemma RebuildMode(names: seq<string>, userEnd: Option<RangeArg>, given: Option<string>,
                    runs: seq<RunDir>, listable: bool, ignore: bool)
    requires WellFormed(runs)
    requires EndOrdinal(names, userEnd).Ok?
    ensures var r := ResolveRange(names, None, userEnd, given, runs, listable, Rebuild, ignore);
            && (r.Err? <==> Truthy(given) || !listable)
            && (r.Ok? ==> r.value.rangeStart == 0)
  {
    if !Truthy(given) && DeterminePreviousRun(runs).Some? {
      FoundRunIsCountable(names, runs);
    }
  }

  /** A start the caller gave (lines 277-318): it must not pass the end;
      with a previous run it must not pass the step after that run's last
      unless missing output is ignored; without one it must be 1, or
      greater with missing output ignored. A start below 1 is therefore
      accepted when there is a previous run. Both bounds then drop by one,
      whatever the inference mode. */
  lemma ExplicitStart(names: seq<string>, s: int, userEnd: Option<RangeArg>, given: Option<string>,
                      runs: seq<RunDir>, listable: bool, mode: Mode, ignore: bool)
    requires EndOrdinal(names, userEnd).Ok? && FindPrevious(names, given, runs, listable).Ok?
    ensures var end := EndOrdinal(names, userEnd).value;
            var prev := FindPrevious(names, given, runs, listable).value;
            var r := ResolveRange(names, Some(IntArg(s)), userEnd, given, runs, listable, mode, ignore);
            && (s > end ==> r == Err(StartAfterEnd))
            && (s <= end && prev.has && s > prev.count + 1 && !ignore ==> r == Err(MissingPriorOutput))
            && (s <= end && !prev.has && s > 1 && !ignore ==> r == Err(NothingToResume))
            && (s <= end && !prev.has && s < 1 ==> r == Err(StartNotPositive))
            && (r.Ok? <==> StartAccepted(s, end, prev, ignore))
            && (r.Ok? ==> r.value.rangeStart == s - 1 && r.value.rangeEnd == end - 1)
  {
  }

  /** Because only directories named after today's steps are counted, a
      previous run never seems to have more steps than the pipeline: without
      an explicit end, "number of steps decreased" cannot be raised. A
      pipeline that lost steps is therefore rebuilt or continued, not
      rejected. */
  lemma ShrinkNotDetectedWithoutEnd(names: seq<string>, userStart: Option<RangeArg>, given: Option<string>,
                                    runs: seq<RunDir>, listable: bool, mode: Mode, ignore: bool)
    requires WellFormed(runs)
    ensures ResolveRange(names, userStart, None, given, runs, listable, mode, ignore) != Err(StepsDecreased)
  {
    var p := FindPrevious(names, given, runs, listable);
    if ParseRange(names, userStart).Ok? && p.Ok? {
      assert EndOrdinal(names, None) == Ok(|names|);
      if p.value.has {
        CountStepsInRunAtMostSteps(runs, p.value.run.value, names);
      }
      assert InferStart(mode, |names|, p.value) != Err(StepsDecreased);
    }
  }

  /** An explicit end below the step count lowers `steps_num` (lines
      217-218), which then meets the previous run's count: ending early
      before a previous run's last step is taken for a shrunken pipeline. */
  lemma EarlyEndLooksLikeShrink(names: seq<string>, e: int, given: Option<string>, runs: seq<RunDir>, listable: bool, ignore: bool)
    requires FindPrevious(names, given, runs, listable).Ok?
    requires FindPrevious(names, given, runs, listable).value.has
    requires e < FindPrevious(names, given, runs, listable).value.count <= |names|
    ensures ResolveRange(names, None, Some(IntArg(e)), given, runs, listable, Infer, ignore) == Err(StepsDecreased)
  {
  }
}
