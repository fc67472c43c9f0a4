/** The lazy task of coevent: the move-only owning handles `task<T>` and
    `task<void>`, their promises (completion cell and continuation slot) and
    the awaiters that make up the await protocol.

    A coroutine frame and the promise that lives in it are one object here
    (`Frame<T>`, `VoidFrame`). Resuming a frame is not modelled: a hook that
    would resume frame X returns X's identity instead. Destroying a frame sets
    its ghost `destroyed` flag, and every operation on a frame requires that
    flag to be clear, so a verified caller never touches a destroyed frame and
    never destroys one twice. */
module Tasks {
  import opened Outcomes

  /** `initial_suspend` returns `std::suspend_always`, whose `await_ready` is
      false: a new task never runs before it is awaited (lazy start). */
  function InitialSuspendReady(): (ready: bool)
    ensures !ready
  {
    false
  }

  /** `final_awaiter::await_ready` is false: a finishing frame always
      suspends at its final suspend point and hands over to its continuation. */
  function FinalAwaiterReady(): (ready: bool)
    ensures !ready
  {
    false
  }

  // ---------------------------------------------------------------------
  // task<T>
  // ---------------------------------------------------------------------

  /** A coroutine frame of a `task<T>` body together with its `task_promise<T>`. */
  class Frame<T> {
    const id: FrameId
    /** `coroutine_handle::done()`: the frame is suspended at its final suspend point. */
    var done: bool
    /** `continuation_`: the coroutine that awaits this one, if any. */
    var continuation: Option<FrameId>
    /** `result_` */
    var cell: Cell<T>
    ghost var destroyed: bool
    /** Set once `get_return_object` has wrapped this frame in its task. */
    ghost var adopted: bool

    /** A new frame, suspended at its initial suspend point. The variant is
        value-initialised to index 0, so the cell already holds a `T`
        (`defaultValue`) before the body returns anything. */
    constructor (id: FrameId, defaultValue: T)
      ensures !destroyed && !adopted
      ensures this.id == id && !done && continuation == None
      ensures cell == Value(defaultValue) && Result() == Returned(defaultValue)
    {
      this.id := id;
      done := false;
      continuation := None;
      cell := Value(defaultValue);
      destroyed := false;
      adopted := false;
    }

    /** `set_continuation`: overwrite the continuation slot. */
    method SetContinuation(awaiting: FrameId)
      requires !destroyed
      modifies this`continuation
      ensures continuation == Some(awaiting)
    {
      continuation := Some(awaiting);
    }

    /** `result()`: the stored value, or the captured failure raised again.
        It changes nothing, so every read gives the same outcome. */
    function Result(): (r: Outcome<T>)
      reads this
      requires !destroyed
      ensures r.Returned? <==> cell.Value?
      ensures cell.Value? ==> r.value == cell.value
      ensures cell.Failure? ==> r.exc == cell.exc
    {
      match cell
      case Value(v) => Returned(v)
      case Failure(e) => Raised(e)
    }

    /** `return_value`: emplace the value, replacing whatever the cell held. */
    method ReturnValue(v: T)
      requires !destroyed
      modifies this`cell
      ensures cell == Value(v)
      ensures Result() == Returned(v)
    {
      cell := Value(v);
    }

    /** `unhandled_exception`: emplace the captured failure. */
    method UnhandledException(e: ExcId)
      requires !destroyed
      modifies this`cell
      ensures cell == Failure(e)
      ensures Result() == Raised(e)
    {
      cell := Failure(e);
    }

    /** `final_awaiter::await_suspend`: the frame is now suspended at its final
        suspend point (so `done()` holds) and the frame to run next is the
        continuation last stored by `set_continuation`. */
    method FinalAwaitSuspend() returns (next: Option<FrameId>)
      requires !destroyed
      modifies this`done
      ensures done
      ensures next == continuation
    {
      done := true;
      next := continuation;
    }

    /** `coroutine_handle::destroy()`. */
    method Destroy()
      requires !destroyed
      modifies this`destroyed
      ensures destroyed
    {
      destroyed := true;
    }
  }

  /** The frames held by a population of task handles. */
  ghost function HeldBy<T>(tasks: set<Task<T>>): set<Frame<T>>
    reads tasks
  {
    set t | t in tasks && t.coroutine != null :: t.coroutine
  }

  /** The ownership discipline over a population of `task<T>` objects: none
      has been destroyed, no two handles hold the same frame, and every held
      frame has been adopted by `get_return_object` and has not been destroyed. */
  ghost predicate Owning<T>(tasks: set<Task<T>>)
    reads tasks, HeldBy(tasks)
  {
    && (forall t :: t in tasks ==> !t.dropped)
    && (forall t, u :: t in tasks && u in tasks && t != u && t.coroutine != null ==> t.coroutine != u.coroutine)
    && (forall t :: t in tasks && t.coroutine != null ==> t.coroutine.adopted && !t.coroutine.destroyed)
  }

  /** `task<T>`: a move-only handle holding no frame (null) or one frame. */
  class Task<T> {
    var coroutine: Frame?<T>
    /** Set by `~task()`: a destroyed handle is not used again. */
    ghost var dropped: bool

    /** The frame this handle holds, as a frame set. */
    ghost function Held(): set<Frame<T>>
      reads this
    {
      if coroutine == null then {} else {coroutine}
    }

    /** `task()`: the default handle holds no frame. */
    constructor Empty(ghost tasks: set<Task<T>>)
      requires Owning(tasks)
      ensures coroutine == null && !dropped
      ensures Owning(tasks + {this})
    {
      coroutine := null;
      dropped := false;
    }

    /** `task(coroutine_handle)`, called by `get_return_object` once per
        frame, with the frame just created; so no other handle holds it. */
    constructor Adopt(f: Frame<T>, ghost tasks: set<Task<T>>)
      requires Owning(tasks) && !f.destroyed && !f.adopted
      modifies f`adopted
      ensures coroutine == f && f.adopted && !dropped
      ensures forall t :: t in tasks ==> t.coroutine != f
      ensures Owning(tasks + {this})
    {
      coroutine := f;
      dropped := false;
      new;
      f.adopted := true;
    }

    /** `task(task&&)`: take the source's frame and leave the source empty. */
    constructor Move(other: Task<T>, ghost tasks: set<Task<T>>)
      requires other in tasks && Owning(tasks)
      modifies other
      ensures coroutine == old(other.coroutine) && other.coroutine == null && !dropped
      ensures Owning(tasks + {this})
    {
      coroutine := other.coroutine;
      dropped := false;
      new;
      other.coroutine := null;
    }

    /** `operator=(task&&)`: destroy the frame held before, if any, exactly
        once, then take the source's frame and leave the source empty.
        Self-assignment is excluded, as the source asserts. */
    method MoveAssign(other: Task<T>, ghost tasks: set<Task<T>>)
      requires this in tasks && other in tasks && other != this && Owning(tasks)
      modifies this, other, Held()
      ensures coroutine == old(other.coroutine) && other.coroutine == null
      ensures old(coroutine) != null ==> old(coroutine).destroyed
      ensures Owning(tasks)
    {
      if coroutine != null {
        coroutine.Destroy();
      }
      coroutine := other.coroutine;
      other.coroutine := null;
    }

    /** `~task()`: destroy the frame exactly when one is still held; an empty
        or moved-from handle destroys nothing. The handle is marked destroyed
        and leaves the population. */
    method Drop(ghost tasks: set<Task<T>>)
      requires this in tasks && Owning(tasks)
      modifies this`dropped, Held()
      ensures coroutine == old(coroutine) && dropped
      ensures coroutine != null ==> coroutine.destroyed
      ensures Owning(tasks - {this})
    {
      if coroutine != null {
        coroutine.Destroy();
      }
      dropped := true;
    }

    /** `operator co_await() const&`: an awaiter that reads the result in place. */
    method CoAwait() returns (a: Awaiter<T>)
      ensures fresh(a) && a.coroutine == coroutine && !a.byMove
    {
      a := new Awaiter(coroutine, false);
    }

    /** `operator co_await() const&&`: an awaiter that moves the result out. */
    method CoAwaitByMove() returns (a: Awaiter<T>)
      ensures fresh(a) && a.coroutine == coroutine && a.byMove
    {
      a := new Awaiter(coroutine, true);
    }
  }

  /** `lvalue_awaiter` (`byMove` false) and `rvalue_awaiter` (`byMove` true):
      a copy of the awaited task's handle, without ownership. */
  class Awaiter<T> {
    const coroutine: Frame?<T>
    const byMove: bool

    constructor (coroutine: Frame?<T>, byMove: bool)
      ensures this.coroutine == coroutine && this.byMove == byMove
    {
      this.coroutine := coroutine;
      this.byMove := byMove;
    }

    /** `await_ready`: asserts the handle is not null and reports `done()`. */
    method AwaitReady() returns (ready: bool)
      requires coroutine != null && !coroutine.destroyed
      ensures ready <==> coroutine.done
    {
      ready := coroutine.done;
    }

    /** `await_suspend`: store the awaiting coroutine as the callee's
        continuation and name the callee as the frame to run next. Nothing
        else in the promise changes. */
    method AwaitSuspend(awaiting: FrameId) returns (next: FrameId)
      requires coroutine != null && !coroutine.destroyed
      modifies coroutine`continuation
      ensures coroutine.continuation == Some(awaiting)
      ensures next == coroutine.id
    {
      coroutine.SetContinuation(awaiting);
      next := coroutine.id;
    }

    /** `lvalue_awaiter::await_resume`: the result read in place; it changes
        nothing, so a second read sees the same value or the same failure. */
    method AwaitResume() returns (r: Outcome<T>)
      requires !byMove && coroutine != null && !coroutine.destroyed
      ensures coroutine.cell.Value? ==> r == Returned(coroutine.cell.value)
      ensures coroutine.cell.Failure? ==> r == Raised(coroutine.cell.exc)
    {
      r := coroutine.Result();
    }

    /** `rvalue_awaiter::await_resume`: returns `T&&`. `std::move` is only a
        cast, so a move happens only if the code using the `co_await` result
        constructs a `T` from it. `movedFrom` is what the cell holds afterwards:
        the moved-from `T` when the caller moves, or the value itself when the
        caller only binds the reference. A captured failure is raised and
        stays in the cell. */
    method AwaitResumeByMove(movedFrom: T) returns (r: Outcome<T>)
      requires byMove && coroutine != null && !coroutine.destroyed
      modifies coroutine`cell
      ensures r == old(coroutine.Result())
      ensures old(coroutine.cell).Value? ==> coroutine.cell == Value(movedFrom)
      ensures old(coroutine.cell).Failure? ==> coroutine.cell == old(coroutine.cell)
    {
      r := coroutine.Result();
      if r.Returned? {
        coroutine.cell := Value(movedFrom);
      }
    }
  }

  // ---------------------------------------------------------------------
  // task<void>
  // ---------------------------------------------------------------------

  /** A coroutine frame of a `task<void>` body together with its
      `task_promise<void>`, which has only a failure slot. */
  class VoidFrame {
    const id: FrameId
    var done: bool
    var continuation: Option<FrameId>
    /** `exception_`: None stands for a null `exception_ptr`. */
    var exception: Option<ExcId>
    ghost var destroyed: bool
    /** Set once `get_return_object` has wrapped this frame in its task. */
    ghost var adopted: bool

    constructor (id: FrameId)
      ensures !destroyed && !adopted
      ensures this.id == id && !done && continuation == None
      ensures exception == None && Result() == Returned(())
    {
      this.id := id;
      done := false;
      continuation := None;
      exception := None;
      destroyed := false;
      adopted := false;
    }

    /** `set_continuation` */
    method SetContinuation(awaiting: FrameId)
      requires !destroyed
      modifies this`continuation
      ensures continuation == Some(awaiting)
    {
      continuation := Some(awaiting);
    }

    /** `result()`: returns normally exactly when no failure was captured,
        otherwise raises the captured failure, on every call. */
    function Result(): (r: Outcome<()>)
      reads this
      requires !destroyed
      ensures r.Returned? <==> exception == None
      ensures exception.Some? ==> r == Raised(exception.value)
    {
      if exception.Some? then Raised(exception.value) else Returned(())
    }

    /** `return_void`: does nothing, so a failure captured before stays. */
    method ReturnVoid()
      requires !destroyed
      ensures Result() == old(Result())
    {
    }

    /** `unhandled_exception`: capture the failure. */
    method UnhandledException(e: ExcId)
      requires !destroyed
      modifies this`exception
      ensures exception == Some(e)
      ensures Result() == Raised(e)
    {
      exception := Some(e);
    }

    /** `final_awaiter::await_suspend` */
    method FinalAwaitSuspend() returns (next: Option<FrameId>)
      requires !destroyed
      modifies this`done
      ensures done
      ensures next == continuation
    {
      done := true;
      next := continuation;
    }

    /** `coroutine_handle::destroy()` */
    method Destroy()
      requires !destroyed
      modifies this`destroyed
      ensures destroyed
    {
      destroyed := true;
    }
  }

  ghost function HeldByVoid(tasks: set<VoidTask>): set<VoidFrame>
    reads tasks
  {
    set t | t in tasks && t.coroutine != null :: t.coroutine
  }

  /** The ownership discipline over a population of `task<void>` objects:
      none has been destroyed, and the rest as for `Owning`. */
  ghost predicate OwningVoid(tasks: set<VoidTask>)
    reads tasks, HeldByVoid(tasks)
  {
    && (forall t :: t in tasks ==> !t.dropped)
    && (forall t, u :: t in tasks && u in tasks && t != u && t.coroutine != null ==> t.coroutine != u.coroutine)
    && (forall t :: t in tasks && t.coroutine != null ==> t.coroutine.adopted && !t.coroutine.destroyed)
  }

  /** `task<void>`: the same move-only handle over a `VoidFrame`. */
  class VoidTask {
    var coroutine: VoidFrame?
    ghost var dropped: bool

    ghost function Held(): set<VoidFrame>
      reads this
    {
      if coroutine == null then {} else {coroutine}
    }

    /** `task()` */
    constructor Empty(ghost tasks: set<VoidTask>)
      requires OwningVoid(tasks)
      ensures coroutine == null && !dropped
      ensures OwningVoid(tasks + {this})
    {
      coroutine := null;
      dropped := false;
    }

    /** `task(coroutine_handle)`, called by `get_return_object` once per frame */
    constructor Adopt(f: VoidFrame, ghost tasks: set<VoidTask>)
      requires OwningVoid(tasks) && !f.destroyed && !f.adopted
      modifies f`adopted
      ensures coroutine == f && f.adopted && !dropped
      ensures forall t :: t in tasks ==> t.coroutine != f
      ensures OwningVoid(tasks + {this})
    {
      coroutine := f;
      dropped := false;
      new;
      f.adopted := true;
    }

    /** `task(task&&)` */
    constructor Move(other: VoidTask, ghost tasks: set<VoidTask>)
      requires other in tasks && OwningVoid(tasks)
      modifies other
      ensures coroutine == old(other.coroutine) && other.coroutine == null && !dropped
      ensures OwningVoid(tasks + {this})
    {
      coroutine := other.coroutine;
      dropped := false;
      new;
      other.coroutine := null;
    }

    /** `operator=(task&&)` */
    method MoveAssign(other: VoidTask, ghost tasks: set<VoidTask>)
      requires this in tasks && other in tasks && other != this && OwningVoid(tasks)
      modifies this, other, Held()
      ensures coroutine == old(other.coroutine) && other.coroutine == null
      ensures old(coroutine) != null ==> old(coroutine).destroyed
      ensures OwningVoid(tasks)
    {
      if coroutine != null {
        coroutine.Destroy();
      }
      coroutine := other.coroutine;
      other.coroutine := null;
    }

    /** `~task()` */
    method Drop(ghost tasks: set<VoidTask>)
      requires this in tasks && OwningVoid(tasks)
      modifies this`dropped, Held()
      ensures coroutine == old(coroutine) && dropped
      ensures coroutine != null ==> coroutine.destroyed
      ensures OwningVoid(tasks - {this})
    {
      if coroutine != null {
        coroutine.Destroy();
      }
      dropped := true;
    }

    /** `operator co_await() const` */
    method CoAwait() returns (a: VoidAwaiter)
      ensures fresh(a) && a.coroutine == coroutine
    {
      a := new VoidAwaiter(coroutine);
    }
  }

  /** `task<void>::awaiter`; only `await_ready` has a body in the source. */
  class VoidAwaiter {
    const coroutine: VoidFrame?

    constructor (coroutine: VoidFrame?)
      ensures this.coroutine == coroutine
    {
      this.coroutine := coroutine;
    }

    /** `await_ready`: asserts the handle is not null and reports `done()`. */
    method AwaitReady() returns (ready: bool)
      requires coroutine != null && !coroutine.destroyed
      ensures ready <==> coroutine.done
    {
      ready := coroutine.done;
    }
  }
}
