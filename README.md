# A verified model of the reproducible pipeline runner

`run_reproducible_pipeline.py` runs a pipeline of scripts so that its
results can be reproduced. It refuses to start when the files under
reproducibility control have uncommitted changes (unless forced). It reads the
pipeline file (one `script name` pair per line) and works out which steps to
run: from the command line, or by inference from the most recent usable
earlier run. It then makes a fresh run directory under the results directory.
The steps before the range (and, with `--link-future`, after it) are linked
to the previous run's outputs. Each step in the range runs in its own output
directory, which is removed again when the script fails. The run directory is
stamped with the commit hash in `rev.txt` and, for a forced or final run,
with a `.final` marker. Final runs are never chosen as previous runs.

`run_reproducible.py` is the older single-script wrapper. The model covers
its `english_list`, its split of the command line into its own flags, the
script's name and the script's arguments, and the checks it makes before
calling the script.

The project's modules:

- `Wrappers`: `Option` and `Result`.
- `Text`: Python 2's `line[:-1]`, `str.split()`, `int()` and `str()`.
- `Files`: an abstract filesystem, a map from paths (sequences of segments)
  to directories, files and links. The `FileSystem` class performs
  `os.makedirs`, `shutil.rmtree`, `os.symlink` and `open(p, 'w')` in place.
- `Errors`: one constructor per exception the runner raises.
- `History`: the scan of the results directory (`_is_final`,
  `_is_reproducible`, `_count_steps_in_run`, `_determine_previous_run`,
  `_find_previous_run_with`).
- `Range`: `_parse_range`, `_resolve_id` and `_determine_range` as a pure
  decision function.
- `Inputs`: the pipeline and reproducibility-list parsers, and the
  clean-tree decision.
- `Steps`: the `PipelineStep` class.
- `Runner`: the `PipelineRunner` class. Its initialization is proved equal
  to a pure `Initialization` function. `run` is proved to end as `RunEnded`
  describes.
- `Cli`: the `__main__` argument loop of `run_reproducible_pipeline.py`.
- `RunReproducible`: the parts of `run_reproducible.py` listed above.

The outside world enters as parameters:

- `Env`: which paths exist, file contents, the results directory's listing
  with modification times and whether it can be listed at all, the output
  of `git status` and `git rev-parse HEAD`, and the current time.
- `outcome`: a step's exit status, or the exception its invocation raised,
  and the files its script writes.

Where the code and its documented behaviour differ, the model follows the
code:

- Only step directories named after today's steps are counted in a previous
  run. So "number of steps decreased" can fire only when `--to` lowers the
  step count (`Range.ShrinkNotDetectedWithoutEnd`,
  `Range.EarlyEndLooksLikeShrink`).
- An end below 1 is never rejected.
- An explicit start below 1 is accepted when a previous run exists. `run`
  then fails on the negative slice (`BadSlice`).
- Links, including the future links, are made only when the run does not
  start at the first step.
- Default inference with more steps than the previous run starts at the
  last step, not at the first new one
  (`Range.DefaultInferenceSkipsNewSteps`).
- The output-directory collision check looks up the run's name relative to
  the working directory, not under the results directory.
- Every line of the pipeline and reproducibility files loses its last
  character, even an unterminated last line.
- `--to` does not skip its value, and `--with` is never recognised.
- `rev.txt` holds the hash followed by a newline.
- With `--link-future` and a start more than one past the end, the steps
  before the range and those after it overlap. The second link of the same
  name then fails with `OSError` (`Runner.LinkFailure`, `Runner.LinksDistinct`).
- The scan of earlier runs looks for any entry named `.final` or `rev.txt`.
  So a step with one of those names makes its run look final or
  reproducible whether or not the run succeeded. Without such a step, only
  a successful run has those entries (`Runner.StampEntriesOnlyAfterSuccess`).

## Model

| member | source | states |
|---|---|---|
| Files.Dirname | run_reproducible_pipeline.py:325 | `path.dirname`: the path without its last segment, which it restores when appended |
| Files.FileSystem.MakeDirs | run_reproducible_pipeline.py:150 | `os.makedirs` succeeds exactly when the path is absent and every existing ancestor is a directory; it then adds the path and its missing ancestors as directories and nothing else, and keeps the tree shape |
| Files.FileSystem.RemoveTree | run_reproducible_pipeline.py:83 | `rmtree` succeeds exactly on a directory and removes it with everything under it, nothing else |
| Files.FileSystem.Symlink | run_reproducible_pipeline.py:455-456 | `os.symlink` succeeds exactly when the name is free and its parent is a directory, and adds only that link |
| Files.FileSystem.WriteFile | run_reproducible_pipeline.py:160-164 | `open(p, 'w')` succeeds exactly when `p` is absent or a regular file under a directory, and sets only that file's content |
| Files.FileSystem.ScriptWrites | run_reproducible_pipeline.py:75-78 | the files a script leaves in its (empty) output directory are added, and the tree shape is kept |
| Steps.MadeDirIsEmpty | run_reproducible_pipeline.py:66 | a directory `os.makedirs` just made is a directory with nothing under it |
| Steps.PipelineStep.constructor | run_reproducible_pipeline.py:53-57 | the step stores its name, script and results directory and has no output directory yet |
| Steps.PipelineStep.MakeOutputDirectory | run_reproducible_pipeline.py:64-66 | the output directory `results/run/name` is recorded even when `os.makedirs` raises; it is made exactly when it can be, and is then empty |
| Steps.PipelineStep.Run | run_reproducible_pipeline.py:68-84 | without an output directory the step refuses to run; exit status 0 keeps the script's files; a nonzero status raises `ScriptFailed`, a failed invocation re-raises, and both remove exactly the output directory |
| Text.DropLast | run_reproducible_pipeline.py:389 | `line[:-1]` drops exactly the last character, and the empty line stays empty |
| Text.Words | run_reproducible_pipeline.py:389 | `split()` yields only non-empty words without whitespace, and nothing exactly when the line is all whitespace; `WordsOfInterleave` gives its value |
| Text.WordsOfUnwords | run_reproducible_pipeline.py:389 | splitting words joined by spaces gives the words back |
| Text.WordsSkipsSpace | run_reproducible_pipeline.py:389 | leading whitespace does not change the words |
| Text.WordsOfWordThen | run_reproducible_pipeline.py:389 | a word followed by nothing or by whitespace is the next word split off |
| Text.WordsOfInterleave | run_reproducible_pipeline.py:389 | splitting words separated by any whitespace (none needed before the first or after the last word) gives exactly those words, in order |
| Text.ParseIntOfShow | run_reproducible_pipeline.py:462-463 | `int(str(n)) == n` for every integer |
| Text.ParseInt | run_reproducible_pipeline.py:462 | `int(s)` of a string of decimal digits is the number they write |
| Text.SpaceAfterSign | run_reproducible_pipeline.py:462 | whitespace may stand between the sign and the digits: `int("-" + spaces + str(n))` is `-n` |
| Text.MinusSpaceFive | run_reproducible_pipeline.py:462 | `int("- 5")` is -5 |
| History.CountSteps | run_reproducible_pipeline.py:343-346 | the count of step directories in a run is at most the number of entries |
| History.CountStepsIsStepDirs | run_reproducible_pipeline.py:343-346 | `_count_steps_in_run` counts the distinct step names present as directories |
| History.CountStepsAtMostSteps | run_reproducible_pipeline.py:343-346 | no run holds more counted steps than the current pipeline has steps |
| History.CountStepsInRunAtMostSteps | run_reproducible_pipeline.py:339-346 | whatever run is counted, its count is at most the pipeline's step count |
| History.IsFinal | run_reproducible_pipeline.py:328-332 | a run is final exactly when some entry of its listing is named `.final` |
| History.IsReproducible | run_reproducible_pipeline.py:334-337 | a run is reproducible exactly when some entry of its listing is named `rev.txt` |
| History.IsUsable | run_reproducible_pipeline.py:356-357 | a run can be a previous run exactly when it is a directory, no entry is named `.final`, and some entry is named `rev.txt` |
| History.Latest | run_reproducible_pipeline.py:361-362 | the last of a stable sort by modification time: a candidate of maximal mtime, and no later candidate in listing order ties it; `None` exactly when there is no candidate |
| History.DeterminePreviousRun | run_reproducible_pipeline.py:348-363 | the previous run is a usable run (a directory, not final, with `rev.txt`) of latest mtime; none exactly when no run is usable |
| History.FindPreviousRunWith | run_reproducible_pipeline.py:366-376 | the latest usable run that holds the step; none exactly when no usable run holds it (nothing in the runner calls it) |
| History.Lookup | run_reproducible_pipeline.py:116 | the entry of that name in the results directory, or none exactly when no entry has that name |
| Range.ResolveId | run_reproducible_pipeline.py:448-452 | the 1-based position of the first step with that name; `ValueError` exactly when no step has it |
| Range.ParseRangeOfNumber | run_reproducible_pipeline.py:458-463 | a number given as a string is that ordinal, whatever the steps are called |
| Range.ParseRangeOfName | run_reproducible_pipeline.py:458-465 | a non-numeric bound is the position of the first step so named, or `ValueError` when none is |
| Range.ParseRange | run_reproducible_pipeline.py:458-465 | a missing bound stays missing, a non-string is kept, a string is refused exactly when `int()` rejects it and no step has that name (`NoSuchStep`), and a non-numeric name that is accepted is the position of a step of that name |
| Range.ResolveRange | run_reproducible_pipeline.py:193-318 | on success the end offset is below the step count (the last step when no end is given), `steps_num` is the end ordinal, an inferred start is not negative, and `had_previous_run` is whether the caller named a previous run |
| Range.EndOrdinal | run_reproducible_pipeline.py:206-222 | an omitted end is the step count; an end given is kept when it is at most the step count and is otherwise refused with `EndPastLast`; an unparsable end gives the parser's error |
| Range.FindPrevious | run_reproducible_pipeline.py:224-233 | with no run named and a results directory that cannot be listed, `OSError`; otherwise a previous run exists exactly when the caller named one or the scan finds a usable one; it is the caller's run, else the scan's, else the caller's value unchanged; its count is `_count_steps_in_run` of that run (0 without one); the only error is `OSError`, raised exactly in those two cases or when the run cannot be listed |
| Range.InferStart | run_reproducible_pipeline.py:235-276 | an inferred start ordinal is at least 1 |
| Range.CheckStart | run_reproducible_pipeline.py:277-313 | a start the caller gave is accepted exactly when `StartAccepted` holds, and kept; each refusal has its own error |
| Range.Settle | run_reproducible_pipeline.py:235-318 | an explicit start is accepted exactly when `StartAccepted` holds and becomes its offset; without one, continuation starts after the previous run's steps exactly when there is one with fewer steps, rebuild starts at offset 0 exactly when no run was named, and inference starts at the last step when the pipeline grew, at 0 with no previous run or an unchanged count, and fails when it shrank; the end becomes an offset and the previous run is carried unchanged |
| Range.ResolveWithoutStart | run_reproducible_pipeline.py:204-276 | with no start from the caller, the range is settled from the end ordinal, never past the step count, and the previous run found |
| Range.EndPastLastRejected | run_reproducible_pipeline.py:211-216 | an end past the last step is an inconsistency |
| Range.UnlistableResultsRaises | run_reproducible_pipeline.py:224-230 | with no run named, a results directory that cannot be listed raises `OSError` in every inference mode, before any check on the start |
| Range.ExplicitEndKept | run_reproducible_pipeline.py:211-222 | an end the caller gave within the pipeline is the last step run, and `steps_num` becomes it |
| Range.DefaultInference | run_reproducible_pipeline.py:264-276 | without a previous run or with an unchanged step count the run starts at the first step; with more steps it runs only the last step; with fewer it fails |
| Range.DefaultInferenceSkipsNewSteps | run_reproducible_pipeline.py:264-267 | when the pipeline grew by more than one step, default inference starts past the first new step |
| Range.ContinueMode | run_reproducible_pipeline.py:236-255 | forced continuation starts right after the previous run's steps, and fails with no previous run, an unchanged count, or fewer steps |
| Range.FoundRunIsCountable | run_reproducible_pipeline.py:227-230 | the previous run that the scan finds can always be counted |
| Range.RebuildMode | run_reproducible_pipeline.py:256-263 | forced rebuild fails exactly when the caller named a previous run or, naming none, the results directory cannot be listed, and otherwise starts at the first step |
| Range.ExplicitStart | run_reproducible_pipeline.py:277-318 | a start the caller gave is accepted exactly under the source's conditions (not past the end; not past the previous run's steps plus one, or without a previous run exactly 1, unless missing output is ignored), each refusal has its own error, and both bounds become offsets |
| Range.ShrinkNotDetectedWithoutEnd | run_reproducible_pipeline.py:235-276 | without an explicit end, "number of steps decreased" is never raised |
| Range.EarlyEndLooksLikeShrink | run_reproducible_pipeline.py:217-218 | an explicit end below the previous run's step count makes default inference fail as a shrunken pipeline |
| Inputs.Rebase | run_reproducible_pipeline.py:321-325 | a path relative to a file becomes the file's directory followed by that path |
| Inputs.SpecLine | run_reproducible_pipeline.py:389-397 | a line declares a step exactly when it has two words and the rebased first one exists; the step's name is a word and its script exists in the specification's directory; fewer than two words is `MalformedSpecLine` with the line number, and otherwise the error names a missing script |
| Inputs.ParseLinesOk | run_reproducible_pipeline.py:386-398 | the line loop succeeds exactly when every line parses, and yields one item per line in order |
| Inputs.ParseLinesErr | run_reproducible_pipeline.py:386-401 | a failing line loop reports the error of the first line rejected, all earlier lines being accepted |
| Inputs.ParseLinesStep | run_reproducible_pipeline.py:386-398 | one more line either appends its item or stops with its error |
| Inputs.ParseLinesStops | run_reproducible_pipeline.py:393-395 | once a prefix of the lines fails, the whole file fails with that error |
| Inputs.ParsePipelineLinesSound | run_reproducible_pipeline.py:378-405 | the pipeline parses exactly when every line declares a step with an existing script; the `k`-th step is line `k+1`'s; otherwise the first bad line's error |
| Inputs.SpecLineOfWords | run_reproducible_pipeline.py:389-397 | a line holding `script name ...` between any whitespace separators, whatever its last character, declares step `name` run by the rebased `script` |
| Inputs.UnterminatedLastLine | run_reproducible_pipeline.py:389 | an unterminated last line loses the last character of its step name |
| Inputs.ShortLineMalformed | run_reproducible_pipeline.py:389-391 | a line of fewer than two words is malformed, reported with its line number |
| Inputs.ParseReproducibleLinesSound | run_reproducible_pipeline.py:407-427 | the list parses exactly when every rebased file exists; it then holds them in order, and otherwise reports the first missing line's number |
| Runner.InitializationChecks | run_reproducible_pipeline.py:105-144 | a successful initialization has checked the results and pipeline paths, the run name's absence, the previous run's existence, unless forced a non-empty list of existing and unchanged files, every step's script, an end within the pipeline, and the commit hash |
| Runner.ForceIgnoresGitStatus | run_reproducible_pipeline.py:128-134 | when forced, the outcome does not depend on `git status` |
| Runner.DirtyTreeRefused | run_reproducible_pipeline.py:128-134 | unless forced, changed watched files stop initialization with `NotClean`, whatever the pipeline holds |
| Runner.RunStep | run_reproducible_pipeline.py:156-157 | a step's output directory is made exactly when absent; when it is there the step raises without touching the tree, and otherwise the step runs as `PipelineStep.Run` says |
| Runner.MarkedOnlyAfterSuccess | run_reproducible_pipeline.py:155-164 | a run directory carries a `.final` file only if the run succeeded, every planned step ran and succeeded, and the run was forced or final |
| Runner.StampEntriesOnlyAfterSuccess | run_reproducible_pipeline.py:155-164 | when no step is named `.final`, any entry of that name (what `_is_final` looks for) means the run succeeded and was forced or final; when no step is named `rev.txt`, any entry of that name (what `_is_reproducible` looks for) means every planned step ran and succeeded |
| Runner.RunSucceeds | run_reproducible_pipeline.py:146-188 | a run whose directory can be made, with distinct step names, no step named `rev.txt` or `.final`, a range that slices the steps, a known previous run when it does not start at the first step, with `--link-future` an end before the last step and a start no later than just after it, and every step of the range succeeding, ends without an error |
| Runner.LinksDistinct | run_reproducible_pipeline.py:178-188 | with distinct step names, and the steps after the range not overlapping those before it, no two links get the same name, so `os.symlink` never meets its own link |
| Runner.SuccessRanTheRange | run_reproducible_pipeline.py:155-157 | a successful run invoked exactly the steps of its range, in order, and each holds its output |
| Runner.PipelineRunner.constructor | run_reproducible_pipeline.py:87-103 | the configuration is stored as given |
| Runner.PipelineRunner.Initialize | run_reproducible_pipeline.py:105-144 | initialization raises exactly what `Initialization` raises, and otherwise leaves the runner in the state it computes, with fresh steps |
| Runner.PipelineRunner.CheckConfiguration | run_reproducible_pipeline.py:105-126 | the configuration checks in order, the run name defaulting to the current time |
| Runner.PipelineRunner.Prepare | run_reproducible_pipeline.py:128-144 | the clean-tree policy unless forced, then the pipeline, the range and the commit hash, as `Prepared` computes them |
| Runner.PipelineRunner.ParseReproducibleFile | run_reproducible_pipeline.py:407-427 | the loop yields exactly the parse of the list file, or an `IOError` when it cannot be read |
| Runner.PipelineRunner.ParsePipelineFile | run_reproducible_pipeline.py:378-405 | the loop builds fresh steps exactly as the parse of the pipeline file declares them, or reports its error |
| Runner.PipelineRunner.MakeSteps | run_reproducible_pipeline.py:386-398 | one fresh step per line, each under the results directory; when every line declares a step they are exactly the declared steps, in order, and otherwise the error is that of the first line declaring none |
| Runner.PipelineRunner.LoadPipeline | run_reproducible_pipeline.py:136-144 | the pipeline, then the range, then the commit hash: raises exactly what `Loading` raises and otherwise stores the steps, range and hash it computes |
| Runner.PipelineRunner.DetermineRange | run_reproducible_pipeline.py:193-318 | the runner's range, step count and previous run are those `ResolveRange` computes, or its error |
| Runner.PipelineRunner.LinkRange | run_reproducible_pipeline.py:178-181 | links the steps from `lo` to `hi` in order to the previous run's outputs, adding nothing else; when it fails, it stopped at a step whose name was already taken, every earlier step is linked and no later one is |
| Runner.PipelineRunner.GeneratePreviousStepLinks | run_reproducible_pipeline.py:166-188 | refuses a run from the first step and an unknown previous run; links every step before the range and, with `future`, every step after it, refusing a range that reaches the last step after linking the earlier steps; every new entry is one of those links; every other failure is a negative slice bound or an `OSError` that only a repeated link name causes |
| Runner.PipelineRunner.LinkFutureSteps | run_reproducible_pipeline.py:183-188 | with the earlier steps linked, refuses a range that reaches the last step and otherwise links every step after the range, keeping the earlier links; every new entry is a link of a linked step; an `OSError` only comes from a repeated link name |
| Runner.PipelineRunner.OpenRun | run_reproducible_pipeline.py:150-153 | the run directory is made (or `OSError` with nothing changed), unmarked, and linked as `Opened` states: it then holds only the links, named after the linked steps, and a linking error has one of the causes `LinkFailure` lists |
| Runner.PipelineRunner.ExecuteSteps | run_reproducible_pipeline.py:155-157 | the steps of the range run in order up to the first failure or taken directory; successful steps hold their output, a failed step's directory is gone, nothing outside the run directory changes and no link or marker appears |
| Runner.PipelineRunner.RunNext | run_reproducible_pipeline.py:156-157 | one step of the loop: a taken output directory or a failing script ends the loop as `Executed` states, and otherwise the step joins the steps run so far with its output |
| Runner.PipelineRunner.RunOpened | run_reproducible_pipeline.py:155-164 | once the run directory is open and linked, the steps run and a run whose steps all succeed is stamped, ending as `RunEnded` states: the directory holds only entries named after linked or invoked steps and the stamp files, `rev.txt` is there only once every step succeeded, and each error has a cause `FailureCause` names |
| Runner.PipelineRunner.WriteStamps | run_reproducible_pipeline.py:159-164 | `rev.txt` gets the hash and a newline and, for a forced or final run, `.final` gets `final`; each write fails exactly where a directory or link is in the way |
| Runner.PipelineRunner.Run | run_reproducible_pipeline.py:146-188 | `run` ends as `RunEnded` states: the tree only grows at the run directory, every link is to the previous run, a failed run is never marked final, errors raised before any step leave no step invoked, and a successful run has its links, `rev.txt` and marker; the run directory holds only links, step outputs and stamps, `rev.txt` only after every step succeeded, and each error has its cause: a linking refusal, a bad slice, a failing script, a step whose directory a link or an earlier step already took, or a stamp whose name a link or step took |
| Runner.RunReproduciblePipeline | run_reproducible_pipeline.py:467-473 | an initialization error leaves the tree unchanged; otherwise the run ends as `RunEnded` states (what the run directory holds, and the cause of each error) for the run directory, steps, range and hash initialization settled on |
| Cli.Step | run_reproducible_pipeline.py:512-558 | one turn of the loop advances by one or two arguments and never forgets a seen switch |
| Cli.ValueSwitch | run_reproducible_pipeline.py:511-539 | the first `-o`, `-R`, `-r`, `-p`, `--from` or `--only` followed by a value records it in its own option (`--only` in both ends) and skips it, moving on by two |
| Cli.FlagSwitch | run_reproducible_pipeline.py:540-555 | the first `--ignore-missing-output`, `--link-future`, `--final` or `--force` sets its own option; `--continue` and `--everything` set the inference behaviour; each moves on by one |
| Cli.Spellings | run_reproducible_pipeline.py:475-479 | every switch has at least one spelling, each beginning with `-`, and none is `--continue` or `--everything` |
| Cli.SpellingsDisjoint | run_reproducible_pipeline.py:475-479 | no spelling belongs to two switches |
| Cli.ParseCommandLine | run_reproducible_pipeline.py:498-558 | the loop yields the options, or the error, that `ParseFrom` computes from the program's first argument on |
| Cli.StepConsistent | run_reproducible_pipeline.py:524-539 | one turn of the loop keeps `--only` apart from `--from` and `--to` |
| Cli.ParseConsistent | run_reproducible_pipeline.py:524-539 | a command line that parses never combines `--only` with `--from` or `--to`, and with `--only` both ends are its value |
| Cli.SeenGrows | run_reproducible_pipeline.py:501-509 | the switches seen only grow across the loop |
| Cli.RepeatedSwitch | run_reproducible_pipeline.py:501-504 | every switch but `--with` is refused the second time |
| Cli.InferenceGivenTwice | run_reproducible_pipeline.py:542-549 | `--continue` and `--everything` together, or either twice, are refused |
| Cli.ValueMissing | run_reproducible_pipeline.py:511-539 | a first `-o`, `-R`, `-r`, `-p`, `--from`, `--to` or `--only` that is the last argument, and is not refused for combining `--only` with `--from`/`--to`, fails with the `IndexError` of `nextarg` |
| Cli.ToKeepsItsValue | run_reproducible_pipeline.py:529-532 | `--to` records its value but advances by one, so the value is read again as an argument |
| Cli.ToThenNumber | run_reproducible_pipeline.py:529-532 | `--to 3` fails on `3` as an unrecognized argument |
| Cli.WithUnrecognized | run_reproducible_pipeline.py:556-557 | `--with` is refused as unrecognized |
| Cli.UnknownRefused | run_reproducible_pipeline.py:556-557 | any argument that is not a switch or an inference behaviour is refused |
| Cli.ConfigOf | run_reproducible_pipeline.py:560-564 | the runner gets no previous run from the command line, the bounds as strings, and inference unless `--continue` or `--everything` was given |
| RunReproducible.JoinLength | run_reproducible.py:38 | a join holds the words and one separator between each two |
| RunReproducible.EnglishList | run_reproducible.py:37-38 | fails exactly on the empty list (`IndexError`) |
| RunReproducible.EnglishListSerial | run_reproducible.py:37-38 | with two words or more, the result is the comma-separated list whose last item is the connective and the last word |
| RunReproducible.EnglishListSingle | run_reproducible.py:38 | a single word still gets a leading comma and the connective |
| RunReproducible.EnglishListLength | run_reproducible.py:38 | the result's length is the words' total, two per separator, the connective and one space |
| RunReproducible.SplitArgs | run_reproducible.py:41-54 | the script's name is the first argument that is neither a force flag nor empty; force is set exactly when a force flag precedes it; every later argument, flags included, goes to the script in order; with no name, no argument goes to the script |
| RunReproducible.CleanGate | run_reproducible.py:85-93 | a failing `git status` stops the program; otherwise the tree is clean exactly when git printed nothing, and the program stops exactly when the tree is not clean and no force flag was given |
| RunReproducible.GateAgreesWithRunner | run_reproducible.py:89 | the wrapper and the pipeline runner agree on when the watched files are clean |
| RunReproducible.Preflight | run_reproducible.py:59-93 | the program reaches the script exactly when the files exist, a name was given, the script imports, defines a runnable, and passes the clean gate |
| RunReproducible.MissingScriptStopsEarly | run_reproducible.py:63-65 | without a script's name the program stops whatever the import or git would do |

## Left out

- Printing, error messages and exit codes are not modelled. Errors are
  constructors of `Errors.Error`, and `Errors.ClassOf` gives the exception
  class each is raised as.
- Subprocesses are not run. The output and exit status of `git status` and
  `git rev-parse` are fields of `Runner.Env`. A step's script is the
  `outcome` parameter: its exit status, or `None` when its invocation
  raises, and the files it leaves in its output directory. A script that
  writes elsewhere is not modelled.
- `datetime.now()` is the `Env.now` string.
- Initialization reads the `Env` snapshot, and `run` acts on a
  `FileSystem`. The model does not require the two to agree, and it does
  not model the filesystem changing between initialization and `run`.
- Paths are sequences of segments, and joining is concatenation. Absolute
  paths, `..` segments, normalization and link following are not modelled.
  So `History.FindPreviousRunWith` takes a listed step as present, while
  `path.exists` is false for a dangling link.
  A path given on the command line becomes a single segment
  (`Cli.ConfigOf`).
- Modification times are integers given with the listing. Their resolution
  on a real filesystem, and so how often ties happen, is not modelled; ties
  are resolved as the stable sort resolves them.
- The `invocation.txt` write (run_reproducible_pipeline.py:565-567) and the
  exception reporting (568-580) are not modelled; they only record and
  print.
- `_has_step` (run_reproducible_pipeline.py:190-191) reads attributes that
  do not exist and is never called. `_is_single_step` (445-446) and
  `ireversed` (29-31) are never called. `_find_previous_run_with`
  (366-376) is never called either; it is modelled as
  `History.FindPreviousRunWith`. `self.exc_info` (82) is stored but never
  read.
- In run_reproducible.py: the import of `reproducible` and its `files`
  check (20-35), the dynamic `__import__` and `getattr` (67-79, 96), the
  check on the script's return value (97-101), `git rev-parse` and
  `sha-error.txt` (104-117) are left out. `Preflight` takes whether the
  files exist, whether the import succeeds and whether a runnable exists as
  parameters.
- The `rev.txt` write in run_reproducible.py (119-127) prints the undefined
  name `out` and so always raises `NameError`. It is left out.
- `str.split()` is modelled for ASCII whitespace only.
- The `except:` around the argument loop of run_reproducible.py (55-57)
  cannot be reached, since the loop does not index past the arguments. It
  is not modelled.
- A missing script raises `PipelineStepInitializationError`, which the
  pipeline parser does not catch. The model returns it as the
  `ScriptMissing` error, and `Errors.ClassOf` records its exception class.
- `_parse_pipeline_file` appends each new step to `pipeline_steps` as it
  goes. `Runner.PipelineRunner.MakeSteps` gathers them in a local list,
  which `ParsePipelineFile` stores when the loop is left. Nothing reads
  the list in between, so every exit leaves the same list.
