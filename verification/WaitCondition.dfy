/**
 What `session wait` can wait for (crates/multiplex-cli/src/args.rs); the command line reads it and the wait
 evaluates it.
 */
module WaitCondition {
  import opened SessionDomain

  const MAX_TIMEOUT_MS: nat := 300_000

  datatype ActivityState = Unknown | Idle | Busy | NeedsInput | Done | Failed

  datatype Condition = OfLifecycle(lifecycle: Lifecycle) | OfActivity(activity: ActivityState)
}
