/** What the runner reads before it runs anything: the pipeline
    specification (`_parse_pipeline_file`), the list of files under
    reproducibility control (`_parse_reproducible_file`), and the
    clean-tree decision (`_is_repo_clean`). A file is given as the lines
    Python's iteration yields, each with its line terminator (the last one
    possibly without). */
module Inputs {
  import opened Wrappers
  import opened Text
  import opened Files
  import opened Errors

  /** The output and exit status of a subprocess (`git status`, `git rev-parse`). */
  datatype ProcessResult = ProcessResult(exitCode: int, stdout: string)

  /** A pipeline step as the specification declares it. */
  datatype StepSpec = StepSpec(name: string, script: Path)

  /** `_rebase_path`: a path relative to a file's directory, as a path
      relative to the working directory. */
  function Rebase(base: Path, relative: string): (p: Path)
    ensures |p| == |Dirname(base)| + 1 && Dirname(p) == Dirname(base) && p[|p| - 1] == relative
  {
    Dirname(base) + [relative]
  }

  /** One line of the pipeline specification (lines 389-397): the last
      character dropped, split on whitespace, the first word rebased as the
      script and the second word as the step's name. */
  function SpecLine(specFile: Path, line: string, lineno: nat, existing: set<Path>): (r: Result<StepSpec, Error>)
    ensures r.Ok? <==> |Words(DropLast(line))| >= 2 && Rebase(specFile, Words(DropLast(line))[0]) in existing
    ensures r.Ok? ==> IsWord(r.value.name) && r.value.script in existing && Dirname(r.value.script) == Dirname(specFile)
    ensures |Words(DropLast(line))| < 2 ==> r == Err(MalformedSpecLine(lineno))
    ensures r.Err? && |Words(DropLast(line))| >= 2 ==> r.error.ScriptMissing? && r.error.script !in existing
  {
    var words := Words(DropLast(line));
    if |words| < 2 then Err(MalformedSpecLine(lineno))
    else
      var script := Rebase(specFile, words[0]);
      if script !in existing then Err(ScriptMissing(script))
      else Ok(StepSpec(words[1], script))
  }

  /** The loop both parsers share: each line in turn, numbered from 1,
      stopping at the first line `parse` rejects. */
  function ParseLines<T>(lines: seq<string>, parse: (string, nat) -> Result<T, Error>): Result<seq<T>, Error> {
    if lines == [] then Ok([])
    else
      var n := |lines|;
      var init :- ParseLines(lines[..n - 1], parse);
      var item :- parse(lines[n - 1], n);
      Ok(init + [item])
  }

  /** The lines parse exactly when each does, and then the `k`-th item is
      what line `k + 1` yields. */
  lemma {:induction false} ParseLinesOk<T>(lines: seq<string>, parse: (string, nat) -> Result<T, Error>)
    ensures ParseLines(lines, parse).Ok? <==> forall k :: 0 <= k < |lines| ==> parse(lines[k], k + 1).Ok?
    ensures ParseLines(lines, parse).Ok? ==>
            |ParseLines(lines, parse).value| == |lines| &&
            forall k :: 0 <= k < |lines| ==> parse(lines[k], k + 1) == Ok(ParseLines(lines, parse).value[k])
  {
    if lines != [] {
      var n := |lines|;
      var init := lines[..n - 1];
      ParseLinesOk(init, parse);
      forall k | 0 <= k < n - 1 ensures lines[k] == init[k] { }
    }
  }

  /** Lines that do not parse report the error of the first line rejected. */
  lemma {:induction false} ParseLinesErr<T>(lines: seq<string>, parse: (string, nat) -> Result<T, Error>)
    ensures ParseLines(lines, parse).Err? ==>
            exists k :: (0 <= k < |lines| && parse(lines[k], k + 1) == Err(ParseLines(lines, parse).error) &&
                         forall j :: 0 <= j < k ==> parse(lines[j], j + 1).Ok?)
  {
    if lines != [] {
      var n := |lines|;
      var init := lines[..n - 1];
      ParseLinesErr(init, parse);
      ParseLinesOk(init, parse);
      forall k | 0 <= k < n - 1 ensures lines[k] == init[k] { }
      if ParseLines(init, parse).Err? {
        var k :| 0 <= k < |init| && parse(init[k], k + 1) == Err(ParseLines(init, parse).error) &&
                 forall j :: 0 <= j < k ==> parse(init[j], j + 1).Ok?;
        assert parse(lines[k], k + 1) == Err(ParseLines(lines, parse).error);
      } else if ParseLines(lines, parse).Err? {
        assert parse(lines[n - 1], n) == Err(ParseLines(lines, parse).error);
      }
    }
  }

  /** Parsing one more line extends the items parsed so far, or stops at
      that line's error. */
  lemma ParseLinesStep<T>(lines: seq<string>, parse: (string, nat) -> Result<T, Error>, i: nat)
    requires i < |lines| && ParseLines(lines[..i], parse).Ok?
    ensures ParseLines(lines[..i + 1], parse) ==
            match parse(lines[i], i + 1)
            case Ok(item) => Ok(ParseLines(lines[..i], parse).value + [item])
            case Err(e) => Err(e)
  {
    assert lines[..i + 1][..i] == lines[..i];
  }

  /** Once a prefix of the lines fails, the whole fails with its error:
      the loop stops at the first bad line. */
  lemma {:induction false} ParseLinesStops<T>(lines: seq<string>, parse: (string, nat) -> Result<T, Error>, i: nat)
    requires i <= |lines|
    ensures ParseLines(lines[..i], parse).Err? ==> ParseLines(lines, parse) == ParseLines(lines[..i], parse)
  {
    if i == |lines| {
      assert lines[..i] == lines;
    } else {
      var init := lines[..|lines| - 1];
      assert init[..i] == lines[..i];
      ParseLinesStops(init, parse, i);
    }
  }

  /** A line that parses extends the items of the lines before it. */
  lemma ParseLinesGrows<T>(lines: seq<string>, parse: (string, nat) -> Result<T, Error>, i: nat, item: T)
    requires i < |lines| && ParseLines(lines[..i], parse).Ok? && parse(lines[i], i + 1) == Ok(item)
    ensures ParseLines(lines[..i + 1], parse) == Ok(ParseLines(lines[..i], parse).value + [item])
  {
    ParseLinesStep(lines, parse, i);
  }

  /** The first line that does not parse gives the error of all the lines. */
  lemma ParseLinesFailsAt<T>(lines: seq<string>, parse: (string, nat) -> Result<T, Error>, i: nat, e: Error)
    requires i < |lines| && ParseLines(lines[..i], parse).Ok? && parse(lines[i], i + 1) == Err(e)
    ensures ParseLines(lines, parse) == Err(e)
  {
    ParseLinesStep(lines, parse, i);
    ParseLinesStops(lines, parse, i + 1);
  }

  /** `_parse_pipeline_file`'s result: one step per line, in file order,
      or the error of the first line that declares none. */
  function ParsePipelineLines(specFile: Path, lines: seq<string>, existing: set<Path>): Result<seq<StepSpec>, Error> {
    ParseLines(lines, SpecLineParser(specFile, existing))
  }

  function SpecLineParser(specFile: Path, existing: set<Path>): (string, nat) -> Result<StepSpec, Error> {
    (line: string, lineno: nat) => SpecLine(specFile, line, lineno, existing)
  }

  /** Line `i + 1` of the specification, read after the lines before it
      all declared steps: either the error the whole specification then
      fails with, or the step that extends theirs. */
  method ReadSpecLine(specFile: Path, lines: seq<string>, existing: set<Path>, i: nat) returns (line: Result<StepSpec, Error>)
    requires i < |lines| && ParseLines(lines[..i], SpecLineParser(specFile, existing)).Ok?
    ensures line.Err? ==> ParsePipelineLines(specFile, lines, existing) == Err(line.error)
    ensures line.Ok? ==>
              var parse := SpecLineParser(specFile, existing);
              ParseLines(lines[..i + 1], parse) == Ok(ParseLines(lines[..i], parse).value + [line.value])
  {
    ghost var parse := SpecLineParser(specFile, existing);
    line := SpecLine(specFile, lines[i], i + 1, existing);
    assert parse(lines[i], i + 1) == line;
    if line.Err? {
      ParseLinesFailsAt(lines, parse, i, line.error);
    } else {
      ParseLinesGrows(lines, parse, i, line.value);
    }
  }

  /** The specification parses exactly when every line declares a step;
      the `k`-th step is then the one line `k + 1` declares, and otherwise
      the error is that of the first line declaring none. */
  lemma ParsePipelineLinesSound(specFile: Path, lines: seq<string>, existing: set<Path>)
    ensures ParsePipelineLines(specFile, lines, existing).Ok? <==>
            forall k :: 0 <= k < |lines| ==> SpecLine(specFile, lines[k], k + 1, existing).Ok?
    ensures ParsePipelineLines(specFile, lines, existing).Ok? ==>
            var steps := ParsePipelineLines(specFile, lines, existing).value;
            |steps| == |lines| &&
            forall k :: 0 <= k < |lines| ==> SpecLine(specFile, lines[k], k + 1, existing) == Ok(steps[k])
    ensures ParsePipelineLines(specFile, lines, existing).Err? ==>
            exists k :: (0 <= k < |lines| &&
                         SpecLine(specFile, lines[k], k + 1, existing) == Err(ParsePipelineLines(specFile, lines, existing).error) &&
                         forall j :: 0 <= j < k ==> SpecLine(specFile, lines[j], j + 1, existing).Ok?)
  {
    var parse := SpecLineParser(specFile, existing);
    ParseLinesOk(lines, parse);
    ParseLinesErr(lines, parse);
  }

  /** A line holding the words `script name [more words]` between any
      whitespace separators, whatever its last character, declares the step
      `name`, run by `script` in the specification's directory. */
  lemma SpecLineOfWords(specFile: Path, seps: seq<string>, script: string, name: string, more: seq<string>,
                        last: char, lineno: nat, existing: set<Path>)
    requires IsWord(script) && IsWord(name)
    requires forall k :: 0 <= k < |more| ==> IsWord(more[k])
    requires |seps| == |more| + 3
    requires forall k :: 0 <= k < |seps| ==> AllSpace(seps[k])
    requires forall k :: 0 < k < |more| + 2 ==> seps[k] != []
    requires Rebase(specFile, script) in existing
    ensures SpecLine(specFile, Interleave(seps, [script, name] + more) + [last], lineno, existing)
            == Ok(StepSpec(name, Rebase(specFile, script)))
  {
    var ws := [script, name] + more;
    var line := Interleave(seps, ws) + [last];
    WordsOfLine(seps, script, name, more, last);
    assert ws[0] == script && ws[1] == name;
    SpecLineOfTwoWords(specFile, line, lineno, existing, ws);
  }

  /** The words of such a line, its last character dropped, are the words
      it was built from. */
  lemma WordsOfLine(seps: seq<string>, script: string, name: string, more: seq<string>, last: char)
    requires IsWord(script) && IsWord(name)
    requires forall k :: 0 <= k < |more| ==> IsWord(more[k])
    requires |seps| == |more| + 3
    requires forall k :: 0 <= k < |seps| ==> AllSpace(seps[k])
    requires forall k :: 0 < k < |more| + 2 ==> seps[k] != []
    ensures Words(DropLast(Interleave(seps, [script, name] + more) + [last])) == [script, name] + more
  {
    var ws := [script, name] + more;
    AllWords(script, name, more);
    var body := Interleave(seps, ws);
    DropLastOfAppend(body, last);
    WordsOfInterleave(seps, ws);
  }

  lemma AllWords(script: string, name: string, more: seq<string>)
    requires IsWord(script) && IsWord(name)
    requires forall k :: 0 <= k < |more| ==> IsWord(more[k])
    ensures forall k :: 0 <= k < |more| + 2 ==> IsWord(([script, name] + more)[k])
  {
    var ws := [script, name] + more;
    forall k | 0 <= k < |ws|
      ensures IsWord(ws[k])
    {
      if k >= 2 {
        assert ws[k] == more[k - 2];
      }
    }
  }

  lemma DropLastOfAppend(body: string, last: char)
    ensures DropLast(body + [last]) == body
  {
    assert (body + [last])[..|body|] == body;
  }

  /** A line whose words are `ws`, the first naming an existing script,
      declares the step named by the second. */
  lemma SpecLineOfTwoWords(specFile: Path, line: string, lineno: nat, existing: set<Path>, ws: seq<string>)
    requires Words(DropLast(line)) == ws && |ws| >= 2 && Rebase(specFile, ws[0]) in existing
    ensures SpecLine(specFile, line, lineno, existing) == Ok(StepSpec(ws[1], Rebase(specFile, ws[0])))
  {
  }

  /** The last character of a line is dropped even when it is not a line
      terminator: a last line `script name` with no newline declares the
      step named `name` without its last character. */
  lemma UnterminatedLastLine(specFile: Path, script: string, name: string, lineno: nat, existing: set<Path>)
    requires IsWord(script) && IsWord(name) && |name| >= 2
    requires Rebase(specFile, script) in existing
    ensures SpecLine(specFile, Unwords([script, name]), lineno, existing)
            == Ok(StepSpec(name[..|name| - 1], Rebase(specFile, script)))
  {
    var shorter := name[..|name| - 1];
    assert Unwords([script, name]) == script + " " + name;
    assert DropLast(script + " " + name) == script + " " + shorter;
    assert Unwords([script, shorter]) == script + " " + shorter;
    WordsOfUnwords([script, shorter]);
  }

  /** A line with fewer than two words (a blank line among them) is
      malformed and is reported with its line number. */
  lemma ShortLineMalformed(specFile: Path, line: string, lineno: nat, existing: set<Path>)
    requires |Words(DropLast(line))| < 2
    ensures SpecLine(specFile, line, lineno, existing) == Err(MalformedSpecLine(lineno))
  {
  }

  /** One line of the reproducibility list (lines 417-423): the last
      character dropped, rebased, and required to exist. */
  function ListedFile(listFile: Path, line: string, lineno: nat, existing: set<Path>): Result<Path, Error> {
    var p := Rebase(listFile, DropLast(line));
    if p !in existing then Err(ReproducibleFileMissing(lineno)) else Ok(p)
  }

  /** `_parse_reproducible_file`'s result: one path per line, in order, or
      the line number of the first listed file that does not exist. */
  function ParseReproducibleLines(listFile: Path, lines: seq<string>, existing: set<Path>): Result<seq<Path>, Error> {
    ParseLines(lines, ListedFileParser(listFile, existing))
  }

  function ListedFileParser(listFile: Path, existing: set<Path>): (string, nat) -> Result<Path, Error> {
    (line: string, lineno: nat) => ListedFile(listFile, line, lineno, existing)
  }

  /** The list parses exactly when every listed file exists; it then holds
      the listed files, rebased, in order, and otherwise it reports the
      line number of the first missing one. */
  lemma ParseReproducibleLinesSound(listFile: Path, lines: seq<string>, existing: set<Path>)
    ensures ParseReproducibleLines(listFile, lines, existing).Ok? <==>
            forall k :: 0 <= k < |lines| ==> Rebase(listFile, DropLast(lines[k])) in existing
    ensures ParseReproducibleLines(listFile, lines, existing).Ok? ==>
            var files := ParseReproducibleLines(listFile, lines, existing).value;
            |files| == |lines| &&
            forall k :: 0 <= k < |lines| ==> files[k] == Rebase(listFile, DropLast(lines[k]))
    ensures ParseReproducibleLines(listFile, lines, existing).Err? ==>
            exists k :: (0 <= k < |lines| &&
                         ParseReproducibleLines(listFile, lines, existing).error == ReproducibleFileMissing(k + 1) &&
                         Rebase(listFile, DropLast(lines[k])) !in existing &&
                         forall j :: 0 <= j < k ==> Rebase(listFile, DropLast(lines[j])) in existing)
  {
    var parse := ListedFileParser(listFile, existing);
    var r := ParseReproducibleLines(listFile, lines, existing);
    assert r == ParseLines(lines, parse);
    forall k | 0 <= k < |lines|
      ensures parse(lines[k], k + 1).Ok? <==> Rebase(listFile, DropLast(lines[k])) in existing
      ensures parse(lines[k], k + 1).Ok? ==> parse(lines[k], k + 1).value == Rebase(listFile, DropLast(lines[k]))
      ensures parse(lines[k], k + 1).Err? ==> parse(lines[k], k + 1).error == ReproducibleFileMissing(k + 1)
    {
    }
    ParseLinesOk(lines, parse);
    ParseLinesErr(lines, parse);
    if r.Ok? {
      forall k | 0 <= k < |lines|
        ensures r.value[k] == Rebase(listFile, DropLast(lines[k]))
      {
        assert parse(lines[k], k + 1) == Ok(r.value[k]);
      }
    } else {
      var k :| 0 <= k < |lines| && parse(lines[k], k + 1) == Err(r.error) &&
               forall j :: 0 <= j < k ==> parse(lines[j], j + 1).Ok?;
      assert r.error == ReproducibleFileMissing(k + 1);
    }
  }

  /** `_is_repo_clean` given what `git status --short <files>` printed:
      an empty list is an error before git is consulted, a failing git is
      an error, and otherwise the tree is clean exactly when git printed
      nothing. */
  function RepoClean(files: seq<Path>, status: ProcessResult): (r: Result<bool, Error>)
    ensures files == [] ==> r == Err(NoReproducibleFiles)
    ensures files != [] && status.exitCode != 0 ==> r == Err(GitStatusFailed)
    ensures files != [] && status.exitCode == 0 ==> r == Ok(status.stdout == [])
  {
    if files == [] then Err(NoReproducibleFiles)
    else if status.exitCode != 0 then Err(GitStatusFailed)
    else Ok(status.stdout == [])
  }
}
