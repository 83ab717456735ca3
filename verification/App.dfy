/** internal/app/types.go: the states and errors the other parts share. */
module App {
  datatype RunState = RunRunning | RunSucceeded | RunFailed | RunCanceled

  datatype AttemptState = AttemptRunning | AttemptSucceeded | AttemptFailed | AttemptCanceled

  datatype ErrorKind =
    AuthError | CapacityError | QuotaError | InvalidSpecError | NetworkError | InternalError | RuntimeError | UnknownError

  predicate Retryable(kind: ErrorKind) {
    match kind
    case CapacityError | QuotaError | NetworkError | InternalError => true
    case _ => false
  }

  datatype ResourceState =
    Creating | Booting | Running | Succeeded | Failed | Canceled | Terminating | Terminated | Unknown

  datatype CleanupPolicy = Always | OnSuccess | OnFailure | Never

  datatype CheckpointRef = CheckpointRef(uri: string, step: int)

  /** Exit codes of internal/cli/root.go. */
  const EXIT_INTERNAL := 1
  const EXIT_INVALID_SPEC := 10
  const EXIT_ROUTING := 30
  const EXIT_MISSING_RESUME := 40
  const EXIT_CANCELED := 130
}
