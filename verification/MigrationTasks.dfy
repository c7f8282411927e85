/** The migration task state machine (control/migration_state.go), as functions on a task. */
module MigrationTasks {
  import opened Common
  import opened Routing

  predicate Claimable(task: Task, now: int) {
    match task.state
    case Planned => true
    case Cleanup => true
    case Failed => task.nextRetryUnix <= now
    case Running => false
    case Done => false
  }

  function MarkRunning(task: Task, now: int): Task {
    task.(state := Running, error := [], nextRetryUnix := 0,
          startedAtUnix := if task.startedAtUnix == 0 then now else task.startedAtUnix)
  }

  datatype Update =
    | CutoverUpdate(imported: nat, now: int)
    | CompleteUpdate(imported: nat, deleted: nat, now: int)
    | FailUpdate(message: Text, retryAfterMs: int, now: int)

  function NextRetryUnix(now: int, retryAfterMs: int): int {
    if retryAfterMs <= 0 then now
    else if retryAfterMs < 1000 then now + 1
    else now + retryAfterMs / 1000
  }

  function Apply(task: Task, update: Update): Task {
    match update
    case CutoverUpdate(imported, now) =>
      task.(state := Cleanup, error := [], importedEntries := imported, cutoverAtUnix := now, nextRetryUnix := 0)
    case CompleteUpdate(imported, deleted, now) =>
      task.(state := Done, error := [], importedEntries := imported, deletedEntries := deleted, finishedAtUnix := now)
    case FailUpdate(message, retryAfterMs, now) =>
      task.(state := Failed, error := message, attempts := task.attempts + 1,
            nextRetryUnix := NextRetryUnix(now, retryAfterMs), finishedAtUnix := now)
  }

  predicate TimedOut(task: Task, now: int, timeoutMs: int) {
    && (task.state == Running || task.state == Cleanup)
    && task.startedAtUnix != 0
    && (now - task.startedAtUnix) * 1000 >= timeoutMs
  }

  /** The plan's own state, derived from its tasks. */
  function PlanState(tasks: seq<Task>): TaskState {
    if exists k :: 0 <= k < |tasks| && tasks[k].state == Failed then Failed
    else if exists k :: 0 <= k < |tasks| && tasks[k].state != Done then Running
    else Done
  }

  method DeriveMigrationPlanState(tasks: seq<Task>) returns (state: TaskState)
    ensures state == PlanState(tasks)
  {
    var hasRunning, hasPlanned := false, false;
    for k := 0 to |tasks|
      invariant forall j :: 0 <= j < k ==> tasks[j].state != Failed
      invariant hasRunning || hasPlanned <==> exists j :: 0 <= j < k && tasks[j].state != Done
    {
      match tasks[k].state
      case Failed => return Failed;
      case Cleanup => hasRunning := true;
      case Running => hasRunning := true;
      case Planned => hasPlanned := true;
      case Done =>
    }
    state := if hasRunning || hasPlanned then Running else Done;
  }

  /** `retryDelay`: the backoff doubled per attempt and capped at the task timeout. */
  method RetryDelay(attempts: nat, backoff: nat, timeout: nat) returns (delay: nat)
    ensures delay == if attempts == 0 then backoff else Min(timeout, Doubled(backoff, attempts))
  {
    delay := backoff;
    for k := 0 to attempts
      invariant delay == Doubled(backoff, k)
      invariant k > 0 ==> delay < timeout
    {
      delay := delay * 2;
      if delay >= timeout {
        DoubledMono(backoff, k + 1, attempts);
        return timeout;
      }
    }
  }

  function Doubled(x: nat, times: nat): nat {
    if times == 0 then x else 2 * Doubled(x, times - 1)
  }

  lemma {:induction false} DoubledMono(x: nat, a: nat, b: nat)
    requires a <= b
    ensures Doubled(x, a) <= Doubled(x, b)
  {
    if a < b { DoubledMono(x, a, b - 1); }
  }
}
