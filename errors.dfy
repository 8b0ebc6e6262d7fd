/** The exceptions the pipeline runner raises, one constructor per reason.
    The source's classes (run_reproducible_pipeline.py:33-50) become
    `ErrorClass`; the standard library's `ValueError`, `OSError` and
    `IOError` that the source lets through are `Uncaught`. */
module Errors {
  import Files

  datatype Error =
    // PipelineRunnerInitializationError, raised while checking the configuration
    | ResultsDirMissing
    | ReproducibleListMissing
    | PipelineFileMissing
    | PreviousRunMissing
    | OutputDirExists
    | ReproducibleFileMissing(lineno: nat)
    | NoReproducibleFiles
    | GitStatusFailed
    | NotClean
    | RevParseFailed
    | MalformedSpecLine(lineno: nat)
    | IoError
    // PipelineRunnerInitializationError, raised by the range resolver
    | EndPastLast
    | StepsDecreased
    | NothingNewToContinue
    | NoPreviousToContinue
    | RebuildWithPrevious
    | StartAfterEnd
    | MissingPriorOutput
    | NothingToResume
    | StartNotPositive
    // PipelineRunnerInitializationError, raised by the linker
    | NoPriorStepsToLink
    | NoPreviousRunToLink
    | NoFutureStepsToLink
    // PipelineStepInitializationError
    | ScriptMissing(script: Files.Path)
    // PipelineStepRuntimeError
    | OutputDirNotCreated
    | ScriptFailed
    // standard-library exceptions the source does not catch
    | NoSuchStep(name: string)
    | BadSlice
    | OsError

  datatype ErrorClass = RunnerInitialization | StepInitialization | StepRuntime | Uncaught

  /** The class each error is raised as; `__main__` reports the first three
      and lets `Uncaught` end the program with a traceback. */
  function ClassOf(e: Error): ErrorClass {
    match e
    case ScriptMissing(_) => StepInitialization
    case OutputDirNotCreated | ScriptFailed => StepRuntime
    case NoSuchStep(_) | BadSlice | OsError => Uncaught
    case _ => RunnerInitialization
  }
}
