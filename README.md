# Terrabuild event queue — a Dafny model

This project models the execution core of the Terrabuild build orchestrator:
the two-lane work scheduler `EventQueue`. Build actions are submitted to a
`Normal` lane or a `Background` lane. Each lane is an unbounded FIFO channel
served by its own pool of workers: `maxConcurrency` normal workers and
`4 * maxConcurrency` background workers. The first action that throws is
captured. That capture closes the normal lane and discards the normal work
still queued, while background work goes on. A caller of `WaitCompletion`
starts the pool on first use, waits until every accepted item has been
retired, closes both lanes, joins the workers and gets back the captured
failure, if any.

The model keeps the scheduler's bookkeeping and drops its threads:

- `wrappers.dfy` — `Option` and `Result`.
- `work.dfy` (module `Work`) — lanes, work items, action outcomes, and the
  specification functions: `FirstFailure` (the failure a run of items
  captures), `RunThroughFirstFailure` (what a normal-lane worker runs before
  a throw empties its lane) and `PoolLayout` (the lanes of the started
  workers), with lemmas about them.
- `event_queue.dfy` (module `Scheduler`) — class `EventQueue`, whose fields
  mirror the source's: the two lanes as `seq<WorkItem>`, a closed flag per
  lane, `pending`, `inFlight` (items taken by a worker and still running),
  `started`, `lastError`, `drained` and the worker tasks. Each method is one
  atomic step. Concurrent threads are an arbitrary sequence of these calls.
  Every method keeps the invariant `Valid()`:
  - `pending == |normal| + |background| + inFlight`;
  - a captured failure has closed and emptied the normal lane;
  - `drained` implies `started`;
  - once started, `pending == 0` implies `drained`, so the completion signal
    is never missed;
  - the workers exist exactly when the pool has started.
- `scenarios.dfy` (module `Scenarios`) — whole runs with fixed action
  behaviour, one worker per lane.

A blocking call becomes a step whose `requires` is the condition it waits
for. `WaitCompletion` is three steps:
- `EnsureStarted`;
- `CloseLanes`, enabled once `drained` is set;
- `JoinWorkers`, enabled once every worker could exit. That means both lanes
  are closed and nothing is queued or running.

`drained` is a one-shot signal and stays set. Work submitted after it fired
raises `pending` again, so "drained implies nothing pending" is not an
invariant. `LateSubmissionScenario` exhibits that state. What holds is the
pair of invariants above, plus the fact that `drained` is set only when
`pending` is zero after start. Workers drain their lane before they exit,
so late work still runs before `JoinWorkers`.

## Model

| member | source | states |
|---|---|---|
| `Scheduler.Create` | src/Terrabuild.EventQueue/EventQueue.cs:41-45 | construction fails exactly when `maxConcurrency <= 0`; otherwise the background pool size is `4 * maxConcurrency` and nothing is pending, started or failed |
| `Scheduler.EventQueue.constructor` | src/Terrabuild.EventQueue/EventQueue.cs:41-55 | a new scheduler has empty open lanes, zero pending, is not started, has no error and no signal, and satisfies the invariant |
| `Scheduler.EventQueue.Enqueue` | src/Terrabuild.EventQueue/EventQueue.cs:57-78 | a null action changes nothing; normal work after a captured failure is dropped with no change; a closed lane rejects with net-zero pending; otherwise the item is appended at the end of its lane only and pending grows by one; the signal never changes |
| `Scheduler.EventQueue.EnsureStarted` | src/Terrabuild.EventQueue/EventQueue.cs:96-115 | idempotent; the first call sets `started`, sets `drained` exactly when nothing is pending, and starts `maxConcurrency` normal and `4 * maxConcurrency` background workers |
| `Scheduler.EventQueue.StartWorkers` | src/Terrabuild.EventQueue/EventQueue.cs:117-130 | the task array has `maxConcurrency + backgroundMaxConcurrency` entries, the normal-lane workers first and the background-lane workers after them |
| `Scheduler.EventQueue.TakeNext` | src/Terrabuild.EventQueue/EventQueue.cs:134-135 | `TryRead` succeeds exactly when the lane is non-empty, returns its front item (FIFO) and leaves the rest; the taken item is counted as running; the other lane is unchanged |
| `Scheduler.EventQueue.Finish` | src/Terrabuild.EventQueue/EventQueue.cs:146-155 | a finished item is retired exactly once whether it threw or not; a throw is offered to the failure slot (first wins), and a first throw closes and empties the normal lane and retires each dropped item too; the normal lane closes only on such a capture; the signal fires only when pending reaches zero; background is untouched |
| `Scheduler.EventQueue.TrySetError` | src/Terrabuild.EventQueue/EventQueue.cs:157-177 | with a failure already captured nothing changes; otherwise the failure is captured, the normal lane is closed and emptied and pending drops by exactly the number of dropped items; the background lane is unchanged |
| `Scheduler.EventQueue.DrainAndDrop` | src/Terrabuild.EventQueue/EventQueue.cs:179-183 | the normal lane ends empty and pending drops by exactly its former length; the signal fires if pending reaches zero after start |
| `Scheduler.EventQueue.DecrementPending` | src/Terrabuild.EventQueue/EventQueue.cs:185-190 | pending drops by one; the signal becomes set exactly when it was set or the pool has started and pending is now zero |
| `Scheduler.EventQueue.RunNext` | src/Terrabuild.EventQueue/EventQueue.cs:135-136 | one turn of a worker: it takes the front item if the lane is non-empty and retires it; a throw is captured only if none was, and a capture empties and closes the normal lane; the signal fires only when pending reaches zero; the other lane is unchanged unless a capture empties the normal lane |
| `Scheduler.EventQueue.WorkerLoop` | src/Terrabuild.EventQueue/EventQueue.cs:132-144 | a lone worker empties its lane in FIFO order; on the normal lane it runs the items up to and including the first throw; on the background lane it runs every item; the captured failure is the old one, else the first throw among the items run; the signal fires only when pending has reached zero, and the normal lane closes only on a capture |
| `Scheduler.EventQueue.CloseLanes` | src/Terrabuild.EventQueue/EventQueue.cs:83-88 | after the completion signal, both lane writers are completed and the invariant still holds |
| `Scheduler.EventQueue.JoinWorkers` | src/Terrabuild.EventQueue/EventQueue.cs:90-93 | once the workers have exited, nothing is queued or running, the signal is set, and the result is exactly the captured failure |
| `Work.FirstFailureIsFirstThrow` | src/Terrabuild.EventQueue/EventQueue.cs:157-168 | no failure is captured exactly when every action completes; a captured failure is the exception of an actual item, and every item before it completed |
| `Work.FirstFailureAppend` | src/Terrabuild.EventQueue/EventQueue.cs:157-168 | running one more item keeps an already captured failure and otherwise captures that item's throw, if any |
| `Work.RunThroughFirstFailureIsPrefix` | src/Terrabuild.EventQueue/EventQueue.cs:170-176 | a normal-lane worker runs a prefix of its lane; every item but the last completed; stopping early means the last item threw; the prefix captures the same failure as the whole lane |
| `Work.RunThroughAllWhenNoFailure` | src/Terrabuild.EventQueue/EventQueue.cs:134-137 | a normal lane with no throwing action is run in full |
| `Work.RunThroughStopsAt` | src/Terrabuild.EventQueue/EventQueue.cs:170-176 | when the item at position k is the first to throw, exactly items 0..k run and the rest are dropped |
| `Work.PoolLayoutCounts` | src/Terrabuild.EventQueue/EventQueue.cs:117-130 | the started pool has exactly the requested number of workers on each lane |
| `Scenarios.HappyPathScenario` | src/Terrabuild.EventQueue/EventQueue.cs:80-94 | five normal actions with no failure all run, in submission order, and `WaitCompletion` returns no error |
| `Scenarios.FailFastScenario` | src/Terrabuild.EventQueue/EventQueue.cs:57-63 | after a failing normal action the queued second normal action never runs, a later normal submission is dropped, and the failure is returned |
| `Scenarios.BackgroundImmunityScenario` | src/Terrabuild.EventQueue/EventQueue.cs:170-176 | background actions submitted before and after a normal failure all run, in order, and the failure is still returned |
| `Scenarios.LateSubmissionScenario` | src/Terrabuild.EventQueue/EventQueue.cs:185-190 | the signal stays set when work is submitted after it fired, so drained holds with one item pending; that item still runs before the join |

## Left out

- Threads, `Task.Run`, the channels' asynchronous waits (`WaitToReadAsync`), `Task.WaitAll`, the `Lock`, `Volatile` and `Interlocked`: each operation is one atomic step, so atomicity and races are not verified.
- The blocking waits in `WaitCompletion` are preconditions of the steps that follow them (`CloseLanes`, `JoinWorkers`), not suspensions.
- `WorkerLoop` models one worker per lane running alone; several workers on one lane are the finer steps `TakeNext` and `Finish` in any order.
- Action delegates and `ExceptionDispatchInfo`: an action is an identifier, and its run is an outcome (completed or threw) chosen by the caller of `Finish` or by the behaviour function given to `WorkerLoop`. Actions that submit further work while running are not modelled.
- The asynchronous `WriteAsync(...).ContinueWith` fallback in `Enqueue` is modelled only as the closed-lane rejection, which retires the item at once. A `TryWrite` on an unbounded channel fails only once the channel is closed. So the continuation's decrement after a successful asynchronous write cannot happen, and no retry is modelled.
- `Dispose`, the cancellation token and the `OperationCanceledException`/`ChannelClosedException` handlers: these are teardown and cancellation plumbing.
- 32-bit integers: the source's `int` fields are unbounded integers here, so the model does not capture the unchecked wrap-around of C# arithmetic on them. The lines below name each affected contract.
- `Scheduler.Create`: it promises `4 * maxConcurrency` background workers for every positive input. In the source, `4 * maxConcurrency` wraps for `maxConcurrency >= 536870912`, for example to -2147483648 at exactly 536870912.
- `Scheduler.EventQueue.StartWorkers`: it promises `maxConcurrency + backgroundMaxConcurrency` tasks. In the source that sum (5 times `maxConcurrency`) overflows for `maxConcurrency > 429496729`, and it is negative at 429496730. Then `new Task[...]` throws `OverflowException` out of `WaitCompletion` after `_started` is already set.
- `Scheduler.EventQueue.EnsureStarted`: it promises a started pool of `5 * maxConcurrency` workers. In the source, the task-array overflow above makes the first call throw with `started` set and no workers.
- `Scheduler.EventQueue.Enqueue`: `pending` grows without bound here. In the source `_pending` is an `int` and wraps past `int.MaxValue` outstanding items.
- `Scheduler.EventQueue.constructor`: it requires `maxConcurrency > 0` instead of throwing; the throwing path is `Scheduler.Create`.
