/** The command-line loop of `run_reproducible_pipeline.py` (lines
    498-558): each argument is a switch from the table at lines 475-479,
    possibly followed by its value; a switch may appear once, `--only`
    excludes `--from` and `--to`, and the inference behaviour may be given
    once. Two quirks are kept: `--to` does not skip its value, which is
    then read as the next argument, and `--with`, although in the table,
    is never tested for, so it is an unrecognized argument. */
module Cli {
  import opened Wrappers
  import Range
  import Runner

  /** The switches of the table at lines 475-479. */
  datatype Switch =
    | OutputDir | ResultsDir | ReproducibleFile | PipelineFile
    | RangeStart | RangeEnd | SingletonRange | PreviousRun
    | IgnoreMissingOutput | Final | Force | Future

  /** The spellings of each switch. */
  function Spellings(w: Switch): (r: seq<string>)
    ensures r != [] && forall k :: 0 <= k < |r| ==> |r[k]| >= 2 && r[k][0] == '-'
    ensures "--continue" !in r && "--everything" !in r
  {
    match w
    case OutputDir => ["-o", "--output"]
    case ResultsDir => ["-R", "--results"]
    case ReproducibleFile => ["-r"]
    case PipelineFile => ["-p"]
    case RangeStart => ["--from"]
    case RangeEnd => ["--to"]
    case SingletonRange => ["--only"]
    case PreviousRun => ["--with"]
    case IgnoreMissingOutput => ["--ignore-missing-output"]
    case Final => ["--final"]
    case Force => ["--force"]
    case Future => ["--link-future"]
  }

  /** No spelling belongs to two switches, so the order in which the loop
      tests them does not decide which switch an argument is. */
  lemma SpellingsDisjoint(a: Switch, b: Switch, arg: string)
    requires a != b && arg in Spellings(a)
    ensures arg !in Spellings(b)
  {
  }

  /** A spelling names its switch and no other. */
  lemma OnlySwitch(w: Switch, arg: string)
    requires arg in Spellings(w)
    ensures forall v :: v != w ==> arg !in Spellings(v)
  {
    forall v | v != w
      ensures arg !in Spellings(v)
    {
      SpellingsDisjoint(w, v, arg);
    }
  }

  /** The option variables of lines 482-493; the inference behaviour is
      `None`, `"continue"` or `"rebuild"`. */
  datatype Options = Options(outputDir: Option<string>, resultsDir: string, reproducibleFile: string,
                             pipelineFile: string, force: bool, future: bool, ignoreMissingOutput: bool,
                             final: bool, rangeStart: Option<string>, rangeEnd: Option<string>,
                             inference: Option<string>)

  const Defaults := Options(None, "results", ".reproducible", ".pipeline", false, false, false, false,
                            None, None, None)

  /** `CLIError`, and the `IndexError` of `nextarg` at the last argument. */
  datatype CliError = Duplicate(arg: string) | OnlyWithRange | InferenceTwice | Unrecognized(arg: string) | MissingValue

  /** The loop's variables: the index of the next argument, the options so
      far, and `seen_args`. */
  datatype State = State(next: nat, opts: Options, seen: set<Switch>)

  /** The state before the first argument (the program's name). */
  const Start := State(1, Defaults, {})

  /** `check_arg`'s duplicate test: a switch already seen is refused, and
      is recorded otherwise. */
  function Note(st: State, w: Switch, arg: string): (r: Result<State, CliError>)
    ensures w in st.seen ==> r == Err(Duplicate(arg))
    ensures w !in st.seen ==> r == Ok(st.(seen := st.seen + {w}))
  {
    if w in st.seen then Err(Duplicate(arg)) else Ok(st.(seen := st.seen + {w}))
  }

  /** `nextarg`: the argument after the `i`-th. */
  function NextArg(args: seq<string>, i: nat): (r: Result<string, CliError>)
    ensures i + 1 < |args| <==> r.Ok?
    ensures r.Ok? ==> r.value == args[i + 1]
  {
    if i + 1 < |args| then Ok(args[i + 1]) else Err(MissingValue)
  }

  /** One turn of the loop, on the `i`-th argument, in the order the
      source tests the switches. */
  function Step(args: seq<string>, i: nat, st: State): (r: Result<State, CliError>)
    requires i < |args|
    ensures r.Ok? ==> i < r.value.next <= i + 2 && st.seen <= r.value.seen
  {
    var arg := args[i];
    var o := st.opts;
    if arg in Spellings(OutputDir) then
      var s :- Note(st, OutputDir, arg);
      var v :- NextArg(args, i);
      Ok(s.(next := i + 2, opts := o.(outputDir := Some(v))))
    else if arg in Spellings(ResultsDir) then
      var s :- Note(st, ResultsDir, arg);
      var v :- NextArg(args, i);
      Ok(s.(next := i + 2, opts := o.(resultsDir := v)))
    else if arg in Spellings(ReproducibleFile) then
      var s :- Note(st, ReproducibleFile, arg);
      var v :- NextArg(args, i);
      Ok(s.(next := i + 2, opts := o.(reproducibleFile := v)))
    else if arg in Spellings(PipelineFile) then
      var s :- Note(st, PipelineFile, arg);
      var v :- NextArg(args, i);
      Ok(s.(next := i + 2, opts := o.(pipelineFile := v)))
    else if arg in Spellings(RangeStart) then
      var s :- Note(st, RangeStart, arg);
      if SingletonRange in st.seen then Err(OnlyWithRange)
      else
        var v :- NextArg(args, i);
        Ok(s.(next := i + 2, opts := o.(rangeStart := Some(v))))
    else if arg in Spellings(RangeEnd) then
      var s :- Note(st, RangeEnd, arg);
      if SingletonRange in st.seen then Err(OnlyWithRange)
      else
        var v :- NextArg(args, i);
        Ok(s.(next := i + 1, opts := o.(rangeEnd := Some(v))))
    else if arg in Spellings(SingletonRange) then
      var s :- Note(st, SingletonRange, arg);
      if RangeStart in st.seen || RangeEnd in st.seen then Err(OnlyWithRange)
      else
        var v :- NextArg(args, i);
        Ok(s.(next := i + 2, opts := o.(rangeStart := Some(v), rangeEnd := Some(v))))
    else if arg in Spellings(IgnoreMissingOutput) then
      var s :- Note(st, IgnoreMissingOutput, arg);
      Ok(s.(next := i + 1, opts := o.(ignoreMissingOutput := true)))
    else if arg == "--continue" then
      if Range.Truthy(o.inference) then Err(InferenceTwice)
      else Ok(st.(next := i + 1, opts := o.(inference := Some("continue"))))
    else if arg == "--everything" then
      if Range.Truthy(o.inference) then Err(InferenceTwice)
      else Ok(st.(next := i + 1, opts := o.(inference := Some("rebuild"))))
    else if arg in Spellings(Future) then
      var s :- Note(st, Future, arg);
      Ok(s.(next := i + 1, opts := o.(future := true)))
    else if arg in Spellings(Final) then
      var s :- Note(st, Final, arg);
      Ok(s.(next := i + 1, opts := o.(final := true)))
    else if arg in Spellings(Force) then
      var s :- Note(st, Force, arg);
      Ok(s.(next := i + 1, opts := o.(force := true)))
    else Err(Unrecognized(arg))
  }

  /** The loop from the state `st` to the end of the arguments, stopping at
      the first error. */
  function ParseFrom(args: seq<string>, st: State): Result<State, CliError>
    decreases |args| - st.next
  {
    if st.next >= |args| then Ok(st)
    else
      var s :- Step(args, st.next, st);
      ParseFrom(args, s)
  }

  /** Lines 498-558: the loop itself. */
  method ParseCommandLine(args: seq<string>) returns (r: Result<Options, CliError>)
    ensures ParseFrom(args, Start).Ok? ==> r == Ok(ParseFrom(args, Start).value.opts)
    ensures ParseFrom(args, Start).Err? ==> r == Err(ParseFrom(args, Start).error)
  {
    var st := Start;
    while st.next < |args|
      invariant ParseFrom(args, Start) == ParseFrom(args, st)
      decreases |args| - st.next
    {
      var s := Step(args, st.next, st);
      if s.Err? {
        return Err(s.error);
      }
      st := s.value;
    }
    r := Ok(st.opts);
  }

  /** `--only` was not combined with `--from` or `--to`, and it set both
      ends of the range to its value. */
  ghost predicate Consistent(st: State) {
    !(SingletonRange in st.seen && (RangeStart in st.seen || RangeEnd in st.seen)) &&
    (SingletonRange in st.seen ==> st.opts.rangeStart.Some? && st.opts.rangeStart == st.opts.rangeEnd)
  }

  lemma StepConsistent(args: seq<string>, i: nat, st: State)
    requires i < |args| && Consistent(st)
    ensures Step(args, i, st).Ok? ==> Consistent(Step(args, i, st).value)
  {
  }

  /** A command line that parses never combines `--only` with `--from` or
      `--to`, and with `--only` both ends of the range are its value. */
  lemma {:induction false} ParseConsistent(args: seq<string>, st: State)
    requires Consistent(st)
    ensures ParseFrom(args, st).Ok? ==> Consistent(ParseFrom(args, st).value)
    decreases |args| - st.next
  {
    if st.next < |args| {
      StepConsistent(args, st.next, st);
      var s := Step(args, st.next, st);
      if s.Ok? {
        ParseConsistent(args, s.value);
      }
    }
  }

  /** The switches seen only grow, so a switch met a second time is
      refused, whatever lay between. */
  lemma {:induction false} SeenGrows(args: seq<string>, st: State)
    ensures ParseFrom(args, st).Ok? ==> st.seen <= ParseFrom(args, st).value.seen
    decreases |args| - st.next
  {
    if st.next < |args| {
      var s := Step(args, st.next, st);
      if s.Ok? {
        SeenGrows(args, s.value);
      }
    }
  }

  /** A switch other than `--with` that was already seen is refused as a
      duplicate. */
  lemma RepeatedSwitch(args: seq<string>, i: nat, st: State, w: Switch)
    requires i < |args| && w != PreviousRun && args[i] in Spellings(w) && w in st.seen
    ensures Step(args, i, st) == Err(Duplicate(args[i]))
  {
    OnlySwitch(w, args[i]);
    // One switch at a time.
    match w
    case OutputDir =>
    case ResultsDir =>
    case ReproducibleFile =>
    case PipelineFile =>
    case RangeStart =>
    case RangeEnd =>
    case SingletonRange =>
    case IgnoreMissingOutput =>
    case Final =>
    case Force =>
    case Future =>
  }

  /** `--continue` and `--everything` together, or either twice, are
      refused. */
  lemma InferenceGivenTwice(args: seq<string>, i: nat, st: State)
    requires i < |args| && (args[i] == "--continue" || args[i] == "--everything")
    requires st.opts.inference == Some("continue") || st.opts.inference == Some("rebuild")
    ensures Step(args, i, st) == Err(InferenceTwice)
  {
  }

  /** A switch that takes a value, met for the first time with a value
      after it, records that value in its own option and skips it (lines
      512-523, 524-528, 533-539); `--from` and `--only` do so only apart from
      each other and `--to`. */
  lemma ValueSwitch(args: seq<string>, i: nat, st: State)
    requires i + 1 < |args|
    ensures (args[i] == "-o" || args[i] == "--output") && OutputDir !in st.seen ==>
            Step(args, i, st) == Ok(State(i + 2, st.opts.(outputDir := Some(args[i + 1])), st.seen + {OutputDir}))
    ensures (args[i] == "-R" || args[i] == "--results") && ResultsDir !in st.seen ==>
            Step(args, i, st) == Ok(State(i + 2, st.opts.(resultsDir := args[i + 1]), st.seen + {ResultsDir}))
    ensures args[i] == "-r" && ReproducibleFile !in st.seen ==>
            Step(args, i, st) == Ok(State(i + 2, st.opts.(reproducibleFile := args[i + 1]), st.seen + {ReproducibleFile}))
    ensures args[i] == "-p" && PipelineFile !in st.seen ==>
            Step(args, i, st) == Ok(State(i + 2, st.opts.(pipelineFile := args[i + 1]), st.seen + {PipelineFile}))
    ensures args[i] == "--from" && RangeStart !in st.seen && SingletonRange !in st.seen ==>
            Step(args, i, st) == Ok(State(i + 2, st.opts.(rangeStart := Some(args[i + 1])), st.seen + {RangeStart}))
    ensures args[i] == "--only" && SingletonRange !in st.seen && RangeStart !in st.seen && RangeEnd !in st.seen ==>
            Step(args, i, st) == Ok(State(i + 2, st.opts.(rangeStart := Some(args[i + 1]), rangeEnd := Some(args[i + 1])),
                                          st.seen + {SingletonRange}))
  {
    var arg := args[i];
    if arg == "-o" || arg == "--output" {
      OnlySwitch(OutputDir, arg);
    } else if arg == "-R" || arg == "--results" {
      OnlySwitch(ResultsDir, arg);
    } else if arg == "-r" {
      OnlySwitch(ReproducibleFile, arg);
    } else if arg == "-p" {
      OnlySwitch(PipelineFile, arg);
    } else if arg == "--from" {
      OnlySwitch(RangeStart, arg);
    } else if arg == "--only" {
      OnlySwitch(SingletonRange, arg);
    }
  }

  /** A switch that takes a value, met for the first time as the last
      argument and not refused for `--only`, finds no value to read:
      `nextarg` raises. */
  lemma ValueMissing(args: seq<string>, i: nat, st: State)
    requires i + 1 == |args|
    ensures (args[i] == "-o" || args[i] == "--output") && OutputDir !in st.seen ==> Step(args, i, st) == Err(MissingValue)
    ensures (args[i] == "-R" || args[i] == "--results") && ResultsDir !in st.seen ==> Step(args, i, st) == Err(MissingValue)
    ensures args[i] == "-r" && ReproducibleFile !in st.seen ==> Step(args, i, st) == Err(MissingValue)
    ensures args[i] == "-p" && PipelineFile !in st.seen ==> Step(args, i, st) == Err(MissingValue)
    ensures args[i] == "--from" && RangeStart !in st.seen && SingletonRange !in st.seen ==>
            Step(args, i, st) == Err(MissingValue)
    ensures args[i] == "--to" && RangeEnd !in st.seen && SingletonRange !in st.seen ==>
            Step(args, i, st) == Err(MissingValue)
    ensures args[i] == "--only" && SingletonRange !in st.seen && RangeStart !in st.seen && RangeEnd !in st.seen ==>
            Step(args, i, st) == Err(MissingValue)
  {
    var arg := args[i];
    if arg == "-o" || arg == "--output" {
      OnlySwitch(OutputDir, arg);
    } else if arg == "-R" || arg == "--results" {
      OnlySwitch(ResultsDir, arg);
    } else if arg == "-r" {
      OnlySwitch(ReproducibleFile, arg);
    } else if arg == "-p" {
      OnlySwitch(PipelineFile, arg);
    } else if arg == "--from" {
      OnlySwitch(RangeStart, arg);
    } else if arg == "--to" {
      OnlySwitch(RangeEnd, arg);
    } else if arg == "--only" {
      OnlySwitch(SingletonRange, arg);
    }
  }

  /** A flag met for the first time sets its own option and moves on by
      one argument; `--continue` and `--everything` set the inference
      behaviour, without being recorded as seen (lines 540-555). */
  lemma FlagSwitch(args: seq<string>, i: nat, st: State)
    requires i < |args|
    ensures args[i] == "--ignore-missing-output" && IgnoreMissingOutput !in st.seen ==>
            Step(args, i, st) == Ok(State(i + 1, st.opts.(ignoreMissingOutput := true), st.seen + {IgnoreMissingOutput}))
    ensures args[i] == "--link-future" && Future !in st.seen ==>
            Step(args, i, st) == Ok(State(i + 1, st.opts.(future := true), st.seen + {Future}))
    ensures args[i] == "--final" && Final !in st.seen ==>
            Step(args, i, st) == Ok(State(i + 1, st.opts.(final := true), st.seen + {Final}))
    ensures args[i] == "--force" && Force !in st.seen ==>
            Step(args, i, st) == Ok(State(i + 1, st.opts.(force := true), st.seen + {Force}))
    ensures args[i] == "--continue" && !Range.Truthy(st.opts.inference) ==>
            Step(args, i, st) == Ok(State(i + 1, st.opts.(inference := Some("continue")), st.seen))
    ensures args[i] == "--everything" && !Range.Truthy(st.opts.inference) ==>
            Step(args, i, st) == Ok(State(i + 1, st.opts.(inference := Some("rebuild")), st.seen))
  {
    var arg := args[i];
    if arg == "--ignore-missing-output" {
      OnlySwitch(IgnoreMissingOutput, arg);
    } else if arg == "--link-future" {
      OnlySwitch(Future, arg);
    } else if arg == "--final" {
      OnlySwitch(Final, arg);
    } else if arg == "--force" {
      OnlySwitch(Force, arg);
    }
  }

  /** `--to` records its value but does not skip it: the value is read
      again as the next argument. */
  lemma ToKeepsItsValue(args: seq<string>, i: nat, st: State)
    requires i + 1 < |args| && args[i] == "--to" && RangeEnd !in st.seen && SingletonRange !in st.seen
    ensures Step(args, i, st) ==
            Ok(State(i + 1, st.opts.(rangeEnd := Some(args[i + 1])), st.seen + {RangeEnd}))
  {
  }

  /** So `--to 3` on its own fails on the `3`. */
  lemma ToThenNumber()
    ensures ParseFrom(["prog", "--to", "3"], Start) == Err(Unrecognized("3"))
  {
    var args := ["prog", "--to", "3"];
    ToKeepsItsValue(args, 1, Start);
    var s := Step(args, 1, Start).value;
    assert s.next == 2;
    UnknownRefused(args, 2, s);
  }

  /** `--with` is never tested for, so it is unrecognized. */
  lemma WithUnrecognized(args: seq<string>, i: nat, st: State)
    requires i < |args| && args[i] == "--with"
    ensures Step(args, i, st) == Err(Unrecognized("--with"))
  {
  }

  /** An argument that is neither a switch nor an inference behaviour is
      refused. */
  lemma UnknownRefused(args: seq<string>, i: nat, st: State)
    requires i < |args| && args[i] != "--continue" && args[i] != "--everything"
    requires forall w :: w != PreviousRun ==> args[i] !in Spellings(w)
    ensures Step(args, i, st) == Err(Unrecognized(args[i]))
  {
    assert args[i] !in Spellings(OutputDir) && args[i] !in Spellings(ResultsDir);
    assert args[i] !in Spellings(ReproducibleFile) && args[i] !in Spellings(PipelineFile);
    assert args[i] !in Spellings(RangeStart) && args[i] !in Spellings(RangeEnd);
    assert args[i] !in Spellings(SingletonRange) && args[i] !in Spellings(IgnoreMissingOutput);
    assert args[i] !in Spellings(Future) && args[i] !in Spellings(Final) && args[i] !in Spellings(Force);
  }

  /** The constructor arguments of lines 560-564: the previous run is never
      given on the command line, and the range bounds are strings that the
      runner resolves as numbers or step names. */
  function ConfigOf(o: Options): (c: Runner.Config)
    ensures c.previousRun == None
    ensures c.rangeStart.Some? ==> c.rangeStart.value.StrArg?
    ensures c.rangeEnd.Some? ==> c.rangeEnd.value.StrArg?
    ensures c.inference == Range.Infer <==> (o.inference != Some("continue") && o.inference != Some("rebuild"))
  {
    Runner.Config(o.force, o.final, o.outputDir, [o.resultsDir], [o.reproducibleFile], [o.pipelineFile],
                  if o.rangeStart.Some? then Some(Range.StrArg(o.rangeStart.value)) else None,
                  if o.rangeEnd.Some? then Some(Range.StrArg(o.rangeEnd.value)) else None,
                  o.future, None, o.ignoreMissingOutput,
                  if o.inference == Some("continue") then Range.Continue
                  else if o.inference == Some("rebuild") then Range.Rebuild
                  else Range.Infer)
  }
}
