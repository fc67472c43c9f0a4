/** Clients of the task model: what a caller can prove from the contracts of
    `Tasks` alone. The body of each awaited coroutine is played out by hand
    between the hooks that suspend and resume it. */
module Scenarios {
  import opened Outcomes
  import opened Tasks

  /** A `task<int>` whose body returns 42, awaited by the coroutine `caller`:
      the awaiter gets 42, and reading again in place gets 42 again. */
  method AwaitReturned42(caller: FrameId)
    returns (ready: bool, next: FrameId, back: Option<FrameId>, r: Outcome<int>, again: Outcome<int>)
    ensures !ready && next == 1 && back == Some(caller)
    ensures r == Returned(42) && again == Returned(42)
  {
    var f := new Frame<int>(1, 0);
    var t := new Task.Adopt(f, {});
    var a := t.CoAwait();
    ready := a.AwaitReady();
    next := a.AwaitSuspend(caller);
    // frame 1 runs: co_return 42;
    f.ReturnValue(42);
    back := f.FinalAwaitSuspend();
    r := a.AwaitResume();
    again := a.AwaitResume();
    t.Drop({t});
  }

  /** A `task<void>` whose body raises failure `e`: `result()` raises `e`, and
      raises it again on a second read. */
  method VoidFailureRaisedTwice(e: ExcId) returns (first: Outcome<()>, second: Outcome<()>)
    ensures first == Raised(e) && second == Raised(e)
  {
    var f := new VoidFrame(1);
    var t := new VoidTask.Adopt(f, {});
    f.UnhandledException(e);
    var _ := f.FinalAwaitSuspend();
    first := f.Result();
    second := f.Result();
    t.Drop({t});
  }

  /** Coroutine A (frame 1) awaits task B (frame 2), which awaits task C
      (frame 3). C returns 7 and B returns what it got plus one. Control goes
      from A into B, from B into C, and as each finishes, back along the chain:
      C to B, then B to A. A receives 8. Both tasks are then destroyed. */
  method Chain() returns (transfers: seq<FrameId>, result: Outcome<int>)
    ensures transfers == [2, 3, 2, 1]
    ensures result == Returned(8)
  {
    var b := new Frame<int>(2, 0);
    var c := new Frame<int>(3, 0);
    var tb := new Task.Adopt(b, {});
    var tc := new Task.Adopt(c, {tb});
    transfers, result := AwaitChain(tb, tc);
    tc.Drop({tb, tc});
    tb.Drop({tb});
  }

  /** The awaits of `Chain`, run by A on the tasks of B and C. */
  method AwaitChain(tb: Task<int>, tc: Task<int>) returns (transfers: seq<FrameId>, result: Outcome<int>)
    requires Owning({tb, tc}) && tb != tc && tb.coroutine != null && tc.coroutine != null
    requires tb.coroutine.id == 2 && tc.coroutine.id == 3
    modifies tb.coroutine, tc.coroutine
    ensures Owning({tb, tc}) && tb.coroutine == old(tb.coroutine) && tc.coroutine == old(tc.coroutine)
    ensures transfers == [2, 3, 2, 1]
    ensures result == Returned(8)
  {
    var b, c := tb.coroutine, tc.coroutine;
    // A: co_await tb;
    var awaitB := tb.CoAwait();
    var next := awaitB.AwaitSuspend(1);
    transfers := [next];
    // B: co_await tc;
    var awaitC := tc.CoAwait();
    next := awaitC.AwaitSuspend(2);
    transfers := transfers + [next];
    // C: co_return 7;
    c.ReturnValue(7);
    var back := c.FinalAwaitSuspend();
    transfers := transfers + [back.value];
    // B resumes: co_return (co_await tc) + 1;
    var fromC := awaitC.AwaitResume();
    b.ReturnValue(fromC.value + 1);
    back := b.FinalAwaitSuspend();
    transfers := transfers + [back.value];
    // A resumes
    result := awaitB.AwaitResume();
  }

  /** Two tasks and a moved-to third: each frame is destroyed once, by the
      handle that holds it at the time, and the emptied handles destroy nothing. */
  method MoveThenDestroy() returns (f1: Frame<int>, f2: Frame<int>)
    ensures f1 != f2 && f1.destroyed && f2.destroyed
  {
    f1 := new Frame<int>(1, 0);
    f2 := new Frame<int>(2, 0);
    var t1 := new Task.Adopt(f1, {});
    var t2 := new Task.Adopt(f2, {t1});
    MoveAndDrop(t1, t2);
  }

  /** The moves and destructions of `MoveThenDestroy`: `t3` is move-constructed
      from `t1`, then move-assigned from `t2`, which destroys `t1`'s frame; the
      two emptied handles destroy nothing, and `t3` destroys `t2`'s frame. */
  method MoveAndDrop(t1: Task<int>, t2: Task<int>)
    requires Owning({t1, t2}) && t1 != t2 && t1.coroutine != null && t2.coroutine != null
    modifies t1, t2, t1.coroutine, t2.coroutine
    ensures old(t1.coroutine).destroyed && old(t2.coroutine).destroyed
  {
    var f1, f2 := t1.coroutine, t2.coroutine;
    var t3 := new Task.Move(t1, {t1, t2});
    assert t1.coroutine == null && t3.coroutine == f1;
    t3.MoveAssign(t2, {t1, t2, t3});
    assert f1.destroyed && !f2.destroyed && t3.coroutine == f2;
    assert t1.Held() == {} && t2.Held() == {};
    t1.Drop({t1, t2, t3});
    t2.Drop({t2, t3});
    assert f1.destroyed && !f2.destroyed && t3.coroutine == f2;
    t3.Drop({t3});
  }
}
