# Air management idle game: simulation core

This project models the simulation core of a small browser idle game. Air drains while the game loop runs, and the loop runs only while a task is queued. The player queues timed tasks, and each task replenishes a resource when it completes. The core has three parts, one Dafny module each:

- `GameSlice` (`game_slice.dfy`) is the resource reducer. It holds a pool of three resources, `Air | Metal | Energy`, as exact `real`s in the `resources` field of the class `GameState`. Its methods are the five actions: `Tick`, `AddResource`, `ConsumeResource`, `SetResource` and `ResetGame`. Each method updates the field in place. Each one's postcondition equates the new pool with a pure function of the old pool (`Decayed`, `Added`, `Consumed`, `Pool.With`, `InitialPool`), and the lemmas are proved about those functions.
- `TaskSlice` (`task_slice.dfy`) is the task queue reducer. The class `TaskState` holds a FIFO `queue: seq<Task>` and the counter `nextId`. Its methods are `AddTask`, `UpdateTaskProgress`, `CompleteTask` and `ClearQueue`. Every method keeps the object invariant `Valid()`: ids strictly increase along the queue, so they are distinct, and all of them are below `nextId`. `FindIndex` models `find` by id. `Advanced` models the progress update and `Removed` models the `filter` by id.
- `AirGameRedux` (`air_game.dfy`) is the per-frame step of the game component. `GameLoop` dispatches the actions of one frame against the two stores, in order:
  1. decay;
  2. advance the head task;
  3. on completion, grant the reward and remove the head.

  It then returns whether the loop schedules another frame. The step is specified by the pure function `Frame`. `StartLoop` is the effect's start condition, and `HandleAddAirTask` is the button that enqueues a 3000 ms task rewarding 20 air.

Elapsed time `dt` (milliseconds) is a parameter of every operation that needs it. It replaces the wall clock and the frame callback.

Three facts about the code shape the model:
- No non-negativity invariant holds in general. `setResource` and `addResource` accept any amount. Non-negativity is proved for decay and consume from any non-negative pool, whatever the elapsed time or amount, and for add and set only with non-negative amounts (`DecayedNonNegative`, `ConsumedNonNegative`, `AddedNonNegative`, `WithNonNegative`, `InitialNonNegative`, `FrameKeepsNonNegative`).
- The frame reads the queue as it was before the frame. So the frame that completes the last task still reschedules itself (`GameLoop` returns `Scheduled(old(tasks.queue))`), with a callback that holds the same old snapshot. What stops that callback is the effect cleanup (src/AirGameRedux.tsx:68-72). The cleanup runs on every change of the queue, not only on teardown (src/AirGameRedux.tsx:73), and it cancels the frame just scheduled. Only after that is the start test re-evaluated on the now empty queue, and it fails (`FrameKeepsLoopRunning`, `AirTaskScenario`). Without the cancellation, the stale callback would test the removed head again and could grant its reward a second time. So the single grant per completion holds in the code only through that cancellation, and the model assumes it: each frame reads the current state.
- No frame runs while the queue is empty, because the loop is started and rescheduled only for a non-empty snapshot (src/AirGameRedux.tsx:57-58, 63-65). So air does not decay with no task queued, and the empty-queue branch of the frame (src/AirGameRedux.tsx:27) is unreachable in the program. `Frame` still defines it, as a decay alone, so that `GameLoop` is total.

## Model

| member | source | states |
|---|---|---|
| `GameSlice.Decayed` | src/gameSlice.ts:31-34 | air becomes `air - (dt/1000)*2` when that is non-negative and 0 otherwise. It is never negative, and for `dt >= 0` it never rises above the old air (except up from a negative value to 0). Metal and energy are unchanged |
| `GameSlice.Added` | src/gameSlice.ts:43-44 | resource `r` grows by exactly `amount` and the other two are unchanged |
| `GameSlice.Consumed` | src/gameSlice.ts:52-55 | when `r >= amount`, `r` becomes `r - amount`, which is then non-negative. Otherwise the pool is unchanged. Other resources are never touched |
| `GameSlice.Pool.With` | src/gameSlice.ts:63-64 | resource `r` equals the given value afterwards, and the others are unchanged |
| `GameSlice.DecayedTimesTotal` | src/gameSlice.ts:31-34 | from non-negative air, `n` ticks of `dt >= 0` equal one decay by `n*dt`, floored at 0. Metal and energy are unchanged |
| `GameSlice.TenSecondsOfDecay` | src/gameSlice.ts:14-34 | ten `tick(1000)` decays from the initial pool give air 80, metal 0 and energy 50 |
| `GameSlice.DecayedNonNegative` | src/gameSlice.ts:31-34 | decay keeps a non-negative pool non-negative for any elapsed time |
| `GameSlice.ConsumedNonNegative` | src/gameSlice.ts:52-55 | a guarded consume keeps a non-negative pool non-negative for any amount |
| `GameSlice.AddedNonNegative` | src/gameSlice.ts:43-44 | adding a non-negative amount keeps a non-negative pool non-negative |
| `GameSlice.WithNonNegative` | src/gameSlice.ts:63-64 | setting a resource to a non-negative amount keeps a non-negative pool non-negative |
| `GameSlice.InitialNonNegative` | src/gameSlice.ts:14-19 | the initial pool, which `resetGame` restores, is non-negative |
| `GameSlice.GameState.constructor` | src/gameSlice.ts:14-19 | the initial pool is air 100, metal 0, energy 50 |
| `GameSlice.GameState.Tick` | src/gameSlice.ts:28-36 | the new pool is `Decayed(old pool, dt)` |
| `GameSlice.GameState.AddResource` | src/gameSlice.ts:39-45 | the new pool is `Added(old pool, r, amount)` |
| `GameSlice.GameState.ConsumeResource` | src/gameSlice.ts:48-56 | the new pool is `Consumed(old pool, r, amount)` |
| `GameSlice.GameState.SetResource` | src/gameSlice.ts:59-65 | the new pool is the old one with `r` set to `amount` |
| `GameSlice.GameState.ResetGame` | src/gameSlice.ts:68 | the pool is the initial pool, whatever it was before |
| `GameSlice.TenTicksScenario` | src/gameSlice.ts:28-36 | ten consecutive `Tick(1000)` calls on a fresh game leave air at 80 |
| `TaskSlice.NewTask` | src/taskSlice.ts:32-36 | a new task has the given id, progress 0, and the payload's duration and reward |
| `TaskSlice.FindIndex` | src/taskSlice.ts:46 | returns the index of the FIRST task with the id: every earlier task has another id. Returns none exactly when no task has the id |
| `TaskSlice.Advanced` | src/taskSlice.ts:46-49 | the length, every id, duration and reward are kept. The found task gains exactly `dt/duration` progress and every other task is unchanged. An unknown id leaves the queue unchanged. With `dt >= 0`, no progress decreases |
| `TaskSlice.Removed` | src/taskSlice.ts:53-54 | a task remains iff it was in the queue and its id differs. The queue never grows, and an absent id leaves the queue unchanged |
| `TaskSlice.RemovedConcat` | src/taskSlice.ts:54 | removal distributes over concatenation, so the survivors keep their relative order |
| `TaskSlice.RemovedPresent` | src/taskSlice.ts:54 | under increasing ids, removing the id of task `i` yields exactly the queue without position `i`, one task shorter |
| `TaskSlice.RemovedIncreasing` | src/taskSlice.ts:54 | removal keeps ids strictly increasing |
| `TaskSlice.AppendedWellFormed` | src/taskSlice.ts:31-38 | appending a task with id `nextId`, then moving `nextId` on by one, keeps ids increasing and below `nextId` |
| `TaskSlice.AdvancedWellFormed` | src/taskSlice.ts:46-48 | a progress update keeps the id invariant |
| `TaskSlice.RemovedWellFormed` | src/taskSlice.ts:53-54 | removal keeps ids increasing and below `nextId` |
| `TaskSlice.AdvancedAll` | src/taskSlice.ts:46-49 | repeated progress updates keep the queue length |
| `TaskSlice.AdvancedKeepsDefined` | src/taskSlice.ts:46-48 | after an update, the same id finds the same index, so a further update is defined |
| `TaskSlice.FindIndexSameIds` | src/taskSlice.ts:46 | the lookup depends only on the sequence of ids |
| `TaskSlice.ProgressMonotone` | src/taskSlice.ts:48 | any sequence of updates with non-negative elapsed times never decreases any task's progress |
| `TaskSlice.TaskState.constructor` | src/taskSlice.ts:22-25 | the initial state is an empty queue with `nextId = 0` |
| `TaskSlice.TaskState.AddTask` | src/taskSlice.ts:31-39 | one task is appended at the tail with id = old `nextId`, progress 0 and the payload's duration and reward. The old prefix is kept, `nextId` grows by 1, and the invariant holds |
| `TaskSlice.TaskState.UpdateTaskProgress` | src/taskSlice.ts:41-50 | the queue becomes `Advanced(old queue, id, dt)`. `nextId` is unchanged and the invariant holds |
| `TaskSlice.TaskState.CompleteTask` | src/taskSlice.ts:52-55 | the queue becomes `Removed(old queue, id)`. `nextId` is unchanged and the invariant holds |
| `TaskSlice.TaskState.ClearQueue` | src/taskSlice.ts:57-59 | the queue is empty and `nextId` is unchanged, so later ids are never reused |
| `AirGameRedux.Frame` | src/AirGameRedux.tsx:24-54 | with an empty queue the frame only decays, and leaves the queue empty. A frame never lengthens the queue |
| `AirGameRedux.Completes` | src/AirGameRedux.tsx:39 | with no elapsed time, an unfinished task does not complete. Its equivalence with the head's updated progress reaching 1 is `CompletionTest` |
| `AirGameRedux.CompletionTest` | src/AirGameRedux.tsx:39 | the snapshot test `progress + dt/duration >= 1` holds iff the head's updated progress is at least 1 |
| `AirGameRedux.FrameCompletes` | src/AirGameRedux.tsx:39-53 | on completion, the queue is the old tail. The resources are the decayed pool plus the reward amount, added once, to the reward's resource only |
| `AirGameRedux.FrameContinues` | src/AirGameRedux.tsx:27-39 | without completion, resources change only by decay. The queue is the head with `dt/duration` more progress, followed by the untouched old tail |
| `AirGameRedux.FrameKeepsWellFormed` | src/AirGameRedux.tsx:27-53 | a frame keeps the id invariant |
| `AirGameRedux.FrameKeepsNonNegative` | src/AirGameRedux.tsx:24-49 | a frame keeps every resource non-negative when the head's reward is non-negative |
| `AirGameRedux.FrameKeepsLoopRunning` | src/AirGameRedux.tsx:57-66 | after a frame a task remains, so the loop is started again, iff there were at least two tasks or the head did not complete |
| `AirGameRedux.AirTaskFrame` | src/AirGameRedux.tsx:75-84 | the button's task alone, run for 3000 ms, completes. It sets air to `max(0, air - 6) + 20`, changes no other resource and empties the queue |
| `AirGameRedux.StartLoop` | src/AirGameRedux.tsx:63-66 | the loop starts iff `Scheduled` holds of the queue (`taskQueue.length > 0`, the same test the frame uses to reschedule). What holds after a frame is `FrameKeepsLoopRunning` |
| `AirGameRedux.GameLoop` | src/AirGameRedux.tsx:18-60 | the new resources and queue are `Frame` of the pre-frame state. `nextId` is unchanged and the invariant holds. It reschedules iff the pre-frame queue was non-empty |
| `AirGameRedux.HandleAddAirTask` | src/AirGameRedux.tsx:75-85 | appends a task of duration 3000 rewarding 20 air, with id = old `nextId` |
| `AirGameRedux.AirTaskScenario` | src/AirGameRedux.tsx:18-85 | on a fresh game, pressing the button starts the loop. One 3000 ms frame gives air 114 and an empty queue, and no loop starts afterwards |

## Left out

- Rendering, styles and the React hooks of the component (src/AirGameRedux.tsx:87-188): presentation only.
- `requestAnimationFrame`, `cancelAnimationFrame` and `Date.now()`: host scheduling and wall clock. Elapsed time is a parameter, the `lastTick` field and `lastTickRef` are dropped, and rescheduling is a returned boolean.
- The effect cleanup (src/AirGameRedux.tsx:68-73), which runs on every queue change and cancels the pending frame. With it goes the stale-closure behaviour of the effect's queue snapshot. The model has each frame read the state as it was just before that frame, which is what the cancellation ensures.
- The type of a reward's resource (src/taskSlice.ts:7-10): it is a free string in the code, cast to one of the three names at src/AirGameRedux.tsx:43-46. The model types it as `Resource`, so a string naming no resource is not modelled.
- The type of task ids (src/taskSlice.ts:4, 43): ids are any `number` in the code and `nat` here. The difference is harmless, because ids are handed out from 0 upwards, so an id that is not a natural number finds no task in a reachable queue and both lookups are no-ops.
- The store wiring in src/redux-store.ts and src/App.tsx: it has no logic.
- IEEE-754 rounding, infinities and NaN: numbers are exact reals.
- The optional `cost` field of a task: it is declared but never read.
- `TaskSlice.TaskState.UpdateTaskProgress`: requires that the task the id finds has a positive duration, because the code divides by it without a guard. The frame (`AirGameRedux.GameLoop`, `AirGameRedux.Frame`) requires the same of the head.
- `TaskSlice.TaskState.AddTask`: requires the id invariant `Valid()`, which every reachable state satisfies from the initial state on. The other `TaskState` methods and `GameLoop` require it too.
