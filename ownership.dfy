/** The ownership discipline of `task<T>` handles, seen across a whole
    program run: a population of task objects (slots, by `TaskId`), each
    holding no frame or one frame, changed by the handle's constructors,
    move assignment and destructor. The run records, in order, every frame
    it destroys. The theorems: no frame is destroyed twice, no frame is held
    twice, no held frame has been destroyed, and no frame is lost — once no
    handle holds a frame any more, every frame ever created has been destroyed
    exactly once. */
module Ownership {
  import opened Outcomes

  /** Identity of a `task` object (the storage it lives in). */
  type TaskId = nat

  /** The operations of `task<T>` and `task<void>` that change ownership. */
  datatype Op =
    | DefaultConstruct(t: TaskId)             // task()
    | Adopt(t: TaskId, f: FrameId)            // task(coroutine_handle), from get_return_object
    | MoveConstruct(dst: TaskId, src: TaskId) // task(task&&)
    | MoveAssign(dst: TaskId, src: TaskId)    // operator=(task&&)
    | Destruct(t: TaskId)                     // ~task()

  /** The live task objects and the frame each holds, the frames created so
      far, and the frames destroyed so far in the order of destruction. */
  datatype World = World(slots: map<TaskId, Option<FrameId>>, created: set<FrameId>, destroyed: seq<FrameId>)

  const Initial := World(map[], {}, [])

  /** What the language and the source demand of each operation: a new object
      is constructed in storage that holds no live task, a frame handed to a
      new task has just been created, a move reads a live task, and move
      assignment is not a self-assignment (the source asserts it). */
  predicate Enabled(w: World, op: Op): (r: bool)
    ensures r && (op.MoveConstruct? || op.MoveAssign?) ==> op.dst != op.src && op.src in w.slots
    ensures r && op.Destruct? ==> op.t in w.slots
  {
    match op
    case DefaultConstruct(t) => t !in w.slots
    case Adopt(t, f) => t !in w.slots && f !in w.created
    case MoveConstruct(dst, src) => dst !in w.slots && src in w.slots
    case MoveAssign(dst, src) => dst in w.slots && src in w.slots && dst != src
    case Destruct(t) => t in w.slots
  }

  /** `if (coroutine_ != nullptr) coroutine_.destroy();` */
  function DestroyHeld(log: seq<FrameId>, h: Option<FrameId>): seq<FrameId> {
    if h.Some? then log + [h.value] else log
  }

  /** The task objects an operation changes; every other slot keeps its frame. */
  function Touched(op: Op): set<TaskId> {
    match op
    case DefaultConstruct(t) => {t}
    case Adopt(t, _) => {t}
    case MoveConstruct(dst, src) => {dst, src}
    case MoveAssign(dst, src) => {dst, src}
    case Destruct(t) => {t}
  }

  /** One handle operation. Only move assignment and destruction destroy a
      frame, and each does so exactly when the handle giving up its frame held
      one; a move leaves its source empty. */
  function Step(w: World, op: Op): (r: World)
    requires Enabled(w, op)
    ensures forall u :: u in w.slots && u !in Touched(op) ==> u in r.slots && r.slots[u] == w.slots[u]
    ensures r.slots.Keys == (w.slots.Keys + Touched(op)) - (if op.Destruct? then {op.t} else {})
    ensures r.created == if op.Adopt? then w.created + {op.f} else w.created
    ensures w.destroyed <= r.destroyed && |r.destroyed| <= |w.destroyed| + 1
    ensures !op.MoveAssign? && !op.Destruct? ==> r.destroyed == w.destroyed
    ensures op.Adopt? ==> op.t in r.slots && r.slots[op.t] == Some(op.f) && op.f in r.created
    ensures op.DefaultConstruct? ==> op.t in r.slots && r.slots[op.t] == None
    ensures op.MoveConstruct? || op.MoveAssign? ==>
      op.dst in r.slots && op.src in r.slots && r.slots[op.dst] == w.slots[op.src] && r.slots[op.src] == None
    ensures op.MoveAssign? ==> (|r.destroyed| == |w.destroyed| + 1 <==> w.slots[op.dst].Some?)
    ensures op.MoveAssign? && w.slots[op.dst].Some? ==> r.destroyed == w.destroyed + [w.slots[op.dst].value]
    ensures op.Destruct? ==> op.t !in r.slots && (|r.destroyed| == |w.destroyed| + 1 <==> w.slots[op.t].Some?)
    ensures op.Destruct? && w.slots[op.t].Some? ==> r.destroyed == w.destroyed + [w.slots[op.t].value]
  {
    match op
    case DefaultConstruct(t) =>
      w.(slots := w.slots[t := None])
    case Adopt(t, f) =>
      w.(slots := w.slots[t := Some(f)], created := w.created + {f})
    case MoveConstruct(dst, src) =>
      w.(slots := w.slots[dst := w.slots[src]][src := None])
    case MoveAssign(dst, src) =>
      w.(slots := w.slots[dst := w.slots[src]][src := None],
         destroyed := DestroyHeld(w.destroyed, w.slots[dst]))
    case Destruct(t) =>
      w.(slots := w.slots - {t}, destroyed := DestroyHeld(w.destroyed, w.slots[t]))
  }

  /** Run a sequence of operations; None when some operation breaks the
      caller's contract (undefined behaviour in the source). */
  function Run(w: World, ops: seq<Op>): Option<World>
    decreases |ops|
  {
    if ops == [] then Some(w)
    else if !Enabled(w, ops[0]) then None
    else Run(Step(w, ops[0]), ops[1..])
  }

  predicate NoDuplicates(s: seq<FrameId>) {
    forall i, j :: 0 <= i < j < |s| ==> s[i] != s[j]
  }

  predicate Holds(w: World, t: TaskId, f: FrameId) {
    t in w.slots && w.slots[t] == Some(f)
  }

  /** No frame is held by two task objects. */
  ghost predicate SoleOwners(w: World) {
    forall a, b, f :: Holds(w, a, f) && Holds(w, b, f) ==> a == b
  }

  /** The invariant of every reachable world. */
  ghost predicate Good(w: World) {
    && NoDuplicates(w.destroyed)
    && SoleOwners(w)
    && (forall t, f :: Holds(w, t, f) ==> f in w.created && f !in w.destroyed)
    && (forall i :: 0 <= i < |w.destroyed| ==> w.destroyed[i] in w.created)
    && (forall f :: f in w.created ==> f in w.destroyed || exists t :: Holds(w, t, f))
  }

  lemma InitialIsGood()
    ensures Good(Initial)
  {
  }

  lemma StepKeepsGood(w: World, op: Op)
    requires Good(w) && Enabled(w, op)
    ensures Good(Step(w, op))
  {
    var w' := Step(w, op);
    match op
    case DefaultConstruct(t) =>
      assert forall u, f :: Holds(w', u, f) ==> Holds(w, u, f);
      assert forall u, f :: Holds(w, u, f) ==> Holds(w', u, f);
    case Adopt(t, f0) =>
      assert forall u, f :: Holds(w', u, f) ==> Holds(w, u, f) || (u == t && f == f0);
      assert forall u, f :: Holds(w, u, f) ==> Holds(w', u, f);
      assert Holds(w', t, f0);
    case MoveConstruct(dst, src) =>
      assert forall u, f :: Holds(w', u, f) ==> (if u == dst then Holds(w, src, f) else Holds(w, u, f));
      forall f | f in w'.created && f !in w'.destroyed
        ensures exists u :: Holds(w', u, f)
      {
        var u :| Holds(w, u, f);
        if u == src { assert Holds(w', dst, f); } else { assert Holds(w', u, f); }
      }
    case MoveAssign(dst, src) =>
      assert forall u, f :: Holds(w', u, f) ==> (if u == dst then Holds(w, src, f) else Holds(w, u, f) && u != src);
      var prev := w.slots[dst];
      if prev.Some? {
        assert Holds(w, dst, prev.value);
        assert w'.destroyed == w.destroyed + [prev.value];
      }
      forall f | f in w'.created && f !in w'.destroyed
        ensures exists u :: Holds(w', u, f)
      {
        var u :| Holds(w, u, f);
        if u == src { assert Holds(w', dst, f); }
        else { assert u != dst && Holds(w', u, f); }
      }
    case Destruct(t) =>
      assert forall u, f :: Holds(w', u, f) ==> Holds(w, u, f) && u != t;
      var prev := w.slots[t];
      if prev.Some? {
        assert Holds(w, t, prev.value);
        assert w'.destroyed == w.destroyed + [prev.value];
      }
      forall f | f in w'.created && f !in w'.destroyed
        ensures exists u :: Holds(w', u, f)
      {
        var u :| Holds(w, u, f);
        assert u != t && Holds(w', u, f);
      }
  }

  lemma {:induction false} RunKeepsGood(w: World, ops: seq<Op>)
    requires Good(w)
    ensures Run(w, ops).Some? ==> Good(Run(w, ops).value)
    decreases |ops|
  {
    if ops != [] && Enabled(w, ops[0]) {
      StepKeepsGood(w, ops[0]);
      RunKeepsGood(Step(w, ops[0]), ops[1..]);
    }
  }

  /** Across any sequence of moves and destructions that keeps the callers'
      contract, no frame is destroyed twice, and no live handle holds a
      destroyed frame. */
  lemma NeverDestroyedTwice(ops: seq<Op>)
    requires Run(Initial, ops).Some?
    ensures NoDuplicates(Run(Initial, ops).value.destroyed)
    ensures forall t, f :: Holds(Run(Initial, ops).value, t, f) ==> f !in Run(Initial, ops).value.destroyed
  {
    InitialIsGood();
    RunKeepsGood(Initial, ops);
  }

  lemma {:induction false} CountAtMostOne(s: seq<FrameId>, f: FrameId)
    requires NoDuplicates(s)
    ensures multiset(s)[f] <= 1
    ensures f in s ==> multiset(s)[f] == 1
  {
    if s != [] {
      var last := s[|s| - 1];
      assert s == s[..|s| - 1] + [last];
      assert f == last ==> f !in s[..|s| - 1];
      CountAtMostOne(s[..|s| - 1], f);
    }
  }

  /** No leak and no double destroy: once no task object holds a frame (all
      were destroyed, moved from or default-constructed), every frame that was
      ever created has been destroyed exactly once, and nothing else has. */
  lemma DestroyedExactlyOnce(ops: seq<Op>, f: FrameId)
    requires Run(Initial, ops).Some?
    requires forall t :: t in Run(Initial, ops).value.slots ==> Run(Initial, ops).value.slots[t] == None
    ensures multiset(Run(Initial, ops).value.destroyed)[f] == if f in Run(Initial, ops).value.created then 1 else 0
  {
    var w := Run(Initial, ops).value;
    InitialIsGood();
    RunKeepsGood(Initial, ops);
    CountAtMostOne(w.destroyed, f);
    if f in w.created {
      assert f in w.destroyed;
    }
  }
}
