# coevent lazy task, modelled in Dafny

coevent is a small coroutine runtime. Its `task<T>` / `task<void>` is a lazily
started coroutine. The caller awaits it, and on completion control goes
straight back to the awaiting coroutine. This project models that task as a
sequential state machine over three parts:

- **The move-only owning handle** (`task<T>`, `task<void>`). A handle holds
  either no frame or one frame.
  - Move construction and move assignment transfer the frame and empty the
    source.
  - Move assignment and the destructor destroy a frame only when the handle
    still holds one.
  - Every frame carries a ghost `destroyed` flag. Every operation on a frame
    requires that flag to be clear, so a verified caller never uses a
    destroyed frame and never destroys one twice.
- **The completion cell** of the promise. It is `Cell<T> = Value(T) |
  Failure(ExcId)` for `task<T>`, and an optional failure for `task<void>`.
  - `result()` gives an `Outcome` (`Returned(v)` or `Raised(e)`) instead of
    throwing.
  - Like the source's value-initialised `std::variant`, a new cell already
    holds a default `T`.
- **The continuation slot and the await protocol.** Resuming a frame is
  represented by returning that frame's identity. Nothing transfers control.

Files:

- `outcomes.dfy` (module `Outcomes`): frame and failure identities, `Option`,
  `Cell` and `Outcome`.
- `task.dfy` (module `Tasks`): the classes `Frame<T>`, `Task<T>` and
  `Awaiter<T>`, and `VoidFrame`, `VoidTask` and `VoidAwaiter`.
  - A frame and the promise inside it are one object.
  - `Owning(tasks)` / `OwningVoid(tasks)` is the ownership invariant over a
    population of handles: no handle in it has been destroyed, no frame is held
    twice, and every held frame has been adopted and not destroyed. A ghost
    `dropped` flag on each handle, set by the destructor, keeps a destroyed
    handle out of every later population. A ghost `adopted` flag on each frame lets
    `get_return_object` wrap a frame only once. The constructors, move assignment and destructor keep it.
- `ownership.dfy` (module `Ownership`): the handle operations restated as a
  pure transition system over a whole run (`World`, `Op`, `Step`, `Run`).
  - This is an independent restatement of the operations of `Tasks.Task` and
    `Tasks.VoidTask`. No lemma proves that the classes agree with `Step`.
  - It proves that every reachable world keeps the invariant.
  - It proves that no frame is ever destroyed twice.
  - It proves no leak: once no handle holds a frame, every frame ever created
    has been destroyed exactly once.
- `scenarios.dfy` (module `Scenarios`): clients that use only the contracts.
  - A `task<int>` returning 42.
  - A `task<void>` whose failure is raised on every read.
  - A chain A awaits B awaits C, with the order of control transfers.
  - A sequence of moves and destructions.

Two behaviours of the code to note:

- `result()` is not an error before completion. It returns the
  default-constructed `T` that the variant starts with.
- The lvalue awaiter reads the result in place as often as asked. Only the
  rvalue awaiter hands it out for moving.

## Model

| member | source | states |
|---|---|---|
| Tasks.Frame.constructor | include/coevent/task.h:217-219 | a new frame is not done, has no continuation, and its cell already holds the default `T`, so `result()` returns that default rather than failing |
| Tasks.Frame.SetContinuation | include/coevent/task.h:183-185 | the continuation slot afterwards names exactly the given coroutine; done flag and cell are untouched |
| Tasks.Frame.Result | include/coevent/task.h:187-192 | returns normally iff the cell holds a value, with that value; otherwise re-raises the captured failure; reading changes nothing, so every read agrees |
| Tasks.Frame.ReturnValue | include/coevent/task.h:208-211 | round trip: after storing `v`, `result()` returns `v`, whatever the cell held before |
| Tasks.Frame.UnhandledException | include/coevent/task.h:213-215 | round trip: after capturing `e`, `result()` raises `e` |
| Tasks.Frame.FinalAwaitSuspend | include/coevent/task.h:172-180 | at the final suspend point the frame is done and the next frame to run is exactly the continuation last stored |
| Tasks.Frame.Destroy | include/coevent/task.h:72-76 | destroying requires a frame not yet destroyed and marks it destroyed |
| Tasks.Task.Empty | include/coevent/task.h:60 | a default handle holds no frame and joins the population without breaking the ownership invariant |
| Tasks.InitialSuspendReady | include/coevent/task.h:200-202 | `initial_suspend` never lets a new task run before it is awaited: its readiness is false (lazy start) |
| Tasks.FinalAwaiterReady | include/coevent/task.h:172 | the final awaiter is never ready, so a finishing frame always suspends and hands over to its continuation |
| Tasks.Task.Adopt | include/coevent/task.h:196-198 | the handle built by `get_return_object` holds the new frame; a frame can be adopted only once, so no other handle in the population holds it; the invariant is kept |
| Tasks.Task.Move | include/coevent/task.h:68-70 | the new handle holds the source's former frame and the source is empty; the invariant holds for the population plus the new handle |
| Tasks.Task.MoveAssign | include/coevent/task.h:80-88 | for distinct handles: the frame previously held (if any) is destroyed, once, since it was not destroyed before; the target then holds the source's frame and the source is empty; the invariant is kept |
| Tasks.Task.Drop | include/coevent/task.h:72-76 | the frame is destroyed iff the handle still holds one; an empty or moved-from handle destroys nothing; the handle is marked destroyed, so it cannot be used again; the rest of the population keeps the invariant |
| Tasks.Task.CoAwait | include/coevent/task.h:90-92 | awaiting a named task yields an in-place awaiter on the same frame |
| Tasks.Task.CoAwaitByMove | include/coevent/task.h:94-96 | awaiting a temporary task yields a moving awaiter on the same frame |
| Tasks.Awaiter.constructor | include/coevent/task.h:20-22 | the awaiter keeps a non-owning copy of the handle |
| Tasks.Awaiter.AwaitReady | include/coevent/task.h:25-28 | on a non-null, live frame: ready exactly when the frame is done |
| Tasks.Awaiter.AwaitSuspend | include/coevent/task.h:30-34 | the callee's continuation becomes the awaiting coroutine and the next frame to run is the callee; nothing else in the promise changes |
| Tasks.Awaiter.AwaitResume | include/coevent/task.h:44-47 | returns the stored value, or raises the captured failure; changes nothing, so repeated reads see the same value |
| Tasks.Awaiter.AwaitResumeByMove | include/coevent/task.h:54-57 | returns what `result()` gave; a value is handed out for moving and the cell then holds whatever the caller left (`movedFrom`); a failure stays in the cell |
| Tasks.VoidFrame.constructor | include/coevent/task.h:268-270 | a new `task<void>` frame has no captured failure, so `result()` returns normally |
| Tasks.VoidFrame.SetContinuation | include/coevent/task.h:239-241 | the continuation slot afterwards names exactly the given coroutine |
| Tasks.VoidFrame.Result | include/coevent/task.h:243-247 | returns normally iff no failure was captured, otherwise raises the captured failure, on every call |
| Tasks.VoidFrame.ReturnVoid | include/coevent/task.h:262 | changes nothing: the outcome stays "returns normally" unless a failure was captured |
| Tasks.VoidFrame.UnhandledException | include/coevent/task.h:264-266 | round trip: after capturing `e`, `result()` raises `e` |
| Tasks.VoidFrame.FinalAwaitSuspend | include/coevent/task.h:232-236 | the frame is done and the next frame to run is exactly the stored continuation |
| Tasks.VoidFrame.Destroy | include/coevent/task.h:140-144 | destroying requires a frame not yet destroyed and marks it destroyed |
| Tasks.VoidTask.Empty | include/coevent/task.h:128 | a default handle holds no frame; the invariant is kept |
| Tasks.VoidTask.Adopt | include/coevent/task.h:250-252 | the handle built by `get_return_object` holds the new frame, adopted only once and so unshared; the invariant is kept |
| Tasks.VoidTask.Move | include/coevent/task.h:136-138 | the new handle holds the source's former frame and the source is empty |
| Tasks.VoidTask.MoveAssign | include/coevent/task.h:148-156 | for distinct handles: the previous frame (if any) is destroyed once, then the target holds the source's frame and the source is empty |
| Tasks.VoidTask.Drop | include/coevent/task.h:140-144 | the frame is destroyed iff the handle still holds one; the handle is marked destroyed, so it cannot be used again; the rest of the population keeps the invariant |
| Tasks.VoidTask.CoAwait | include/coevent/task.h:158-160 | the awaiter works on the same frame |
| Tasks.VoidAwaiter.constructor | include/coevent/task.h:109-111 | the awaiter keeps a non-owning copy of the handle |
| Tasks.VoidAwaiter.AwaitReady | include/coevent/task.h:114-117 | on a non-null, live frame: ready exactly when the frame is done |
| Ownership.Enabled | include/coevent/task.h:80-88 | the callers' contract on each operation; an enabled move or move assignment has distinct source and target, as the self-assignment assert demands, and reads a live task |
| Ownership.Step | include/coevent/task.h:60-88 | each operation changes only the task objects it names; the live objects afterwards are those before plus the ones constructed, less the one destructed; only adoption creates a frame; a move gives the target the source's frame and empties the source; move assignment and destruction destroy exactly the frame the giving-up handle held, and only if it held one; no other operation destroys anything |
| Ownership.StepKeepsGood | include/coevent/task.h:60-88 | each handle operation that meets its callers' contract keeps the invariant: no frame is destroyed twice, no frame is held twice, a held frame is created and not destroyed, and every created frame is held or destroyed |
| Ownership.RunKeepsGood | include/coevent/task.h:60-88 | every sequence of handle operations that meets the callers' contracts keeps the invariant |
| Ownership.NeverDestroyedTwice | include/coevent/task.h:72-88 | after any valid sequence of constructions, moves, move assignments and destructions, the destroy log has no repeats and no live handle holds a destroyed frame |
| Ownership.DestroyedExactlyOnce | include/coevent/task.h:72-88 | once no handle holds a frame, every frame ever created has been destroyed exactly once, and no other frame has been destroyed |
| Scenarios.AwaitReturned42 | include/coevent/task.h:25-57 | a `task<int>` whose body returns 42 is not ready before it runs; awaiting it transfers into it and, when it finishes, back to the caller; the awaiter reads 42, and reads 42 again |
| Scenarios.MoveThenDestroy | include/coevent/task.h:64-88 | after a move construction, a move assignment over a held frame and three destructions, both frames are destroyed: the first by the move assignment, the second by the handle holding it last |
| Scenarios.MoveAndDrop | include/coevent/task.h:64-88 | the moves and destructions of that scenario, on any two distinct handles of a population that each hold a frame, destroy both frames |
| Scenarios.VoidFailureRaisedTwice | include/coevent/task.h:243-266 | a `task<void>` whose body raises `e` raises `e` on the first and on a second read of the result |
| Scenarios.Chain | include/coevent/task.h:172-185 | A awaits B awaits C: control goes A to B, B to C, then C back to B and B back to A, and the values flow back along the chain |
| Scenarios.AwaitChain | include/coevent/task.h:30-57 | the awaits of that chain on two live, distinct tasks leave both handles and the ownership invariant in place |

## Left out

- The compiler's coroutine machinery is not modelled: frame allocation, real
  suspension and resumption, and symmetric transfer. Resuming frame X is
  modelled as returning X's identity. A frame's `done` flag is set where it
  reaches its final suspend point.
- A `FrameId` is not tied to a single frame: two frames may be built with the
  same id, so a returned "next frame" id names a frame only when the caller
  keeps ids distinct.
- The order of the await protocol is not enforced: the frame methods do not
  forbid, for example, `ReturnValue` after `FinalAwaitSuspend`, which a frame
  stopped at its final suspend point could not do.
- `task<void>::awaiter::await_suspend` and `await_resume` are only declared
  (include/coevent/task.h:119-122), and their bodies are not part of this
  model.
- `std::exception_ptr` and `std::rethrow_exception` are not modelled. A failure
  is an opaque `ExcId`, and re-raising returns `Raised(e)` instead of
  unwinding.
- `return_value` takes any `U` convertible to `T`. The model stores a `T`
  directly, and the conversion is not modelled.
- A null continuation is `None`. The source would hand a null handle to the
  machinery. What happens then is not modelled.
- Tasks.Awaiter.AwaitResume: returns the stored value rather than a `T&` into
  the cell, so writes made through that reference are not modelled.
- Tasks.Awaiter.AwaitResumeByMove: `await_resume` returns `T&&`, and
  `std::move` is only a cast. A move happens only if the code using the
  `co_await` result constructs a `T` from it. The cell then holds the
  parameter `movedFrom`: the moved-from `T`, or the value itself when the
  caller only binds the reference. `T`'s move constructor is not modelled.
- Tasks.Task.Drop: the handle's `coroutine` field is not cleared; the handle
  is marked destroyed instead, as a destroyed object would be. The same holds
  for `Tasks.VoidTask.Drop`.
- The ownership invariant in `Tasks` covers the population of handles that the
  caller passes in, so it cannot say that no frame leaks: a handle outside
  that population, or one never dropped, may still hold a frame. `Ownership`
  states that property over a whole run (`DestroyedExactlyOnce`).
- include/coevent/detached_task.h and src/detached_task_handle.h are not
  modelled. These headers only declare `cancel`, `finish` and the detached
  final awaiter; their bodies are outside this model. Their point is a race
  between threads.
- include/coevent/socket_state_awaiter.h is not modelled. It is a bridge to an
  external reactor that is not part of this model, called back from another
  thread. Of its members only `await_ready` has a body (it returns false);
  the others are only declared, and their bodies are outside this model.
- Concurrency is not modelled. The task protocol is single-owner and
  sequential.
