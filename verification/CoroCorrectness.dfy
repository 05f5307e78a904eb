/**
 The promise machine computes what direct evaluation computes.

 The state is read back as a trace: the chain of awaiting frames from the root to the
 current one, where every suspended generator stands for the trace it has left (`left`).
 One machine step takes exactly one step off the trace of the root.
 */
module CoroCorrectness {
  import opened Basics
  import opened CoroSemantics
  import opened CoroMachine

  type Left = map<Id, Trace>

  // ---------------------------------------------------------------- reading a frame back

  predicate WellKinded(s: Ctl) {
    if s.Loop? then s.stmt.ForEach? else s.stmt.Try?
  }

  /** A control stack whose loops iterate suspended generators. */
  predicate Good(stack: seq<Ctl>, left: Left) {
    forall i :: 0 <= i < |stack| ==> WellKinded(stack[i]) && (stack[i].Loop? ==> stack[i].gen in left)
  }

  function Continue(s: Ctl, t: Trace, left: Left, ex: Strand): Trace
    requires WellKinded(s) && (s.Loop? ==> s.gen in left)
  {
    match s
    case Handler(stmt) => OnTry(t, stmt, ex)
    case Block(stmt) => OnHandler(t, stmt, ex)
    case Loop(g, stmt) => OnBody(t, left[g], stmt, ex)
  }

  function StackTrace(stack: seq<Ctl>, t: Trace, left: Left, ex: Strand): Trace
    requires Good(stack, left)
    decreases |stack|
  {
    if stack == [] then t
    else
      var n := |stack| - 1;
      StackTrace(stack[..n], Continue(stack[n], t, left, ex), left, ex)
  }

  /** A frame about to execute its code. */
  function FrameTrace(f: Frame, left: Left, ex: Strand): Trace
    requires Good(f.stack, left)
  {
    StackTrace(f.stack, Run(f.code, f.local, ex), left, ex)
  }

  predicate InLoop(f: Frame) {
    !f.code.Await? && !f.code.AwaitResult?
  }

  function Below(f: Frame): seq<Ctl>
    requires f.stack != []
  {
    f.stack[..|f.stack| - 1]
  }

  /** A frame suspended in an awaitable, well-formed below it. */
  predicate GoodWaiting(f: Frame, left: Left) {
    && f.waiting
    && if InLoop(f) then f.stack != [] && Top(f).Loop? && Top(f).stmt.ForEach? && Good(Below(f), left)
       else Good(f.stack, left)
  }

  /** A frame waiting for a callee that has the trace `t` left. */
  function WaitTrace(f: Frame, t: Trace, left: Left, ex: Strand): Trace
    requires GoodWaiting(f, left)
  {
    if InLoop(f) then StackTrace(Below(f), OnNext(t, Top(f).stmt, f.local, ex), left, ex)
    else StackTrace(f.stack, OnAwait(t, f.code, f.local, ex), left, ex)
  }

  predicate GoodReady(f: Frame, left: Left) {
    && GoodWaiting(f, left)
    && if InLoop(f) && f.genSlot.Some? then Top(f).gen in left else f.slot.Got?
  }

  /** A frame about to pick up what its awaitable holds. */
  function ReadyTrace(f: Frame, left: Left, ex: Strand): Trace
    requires GoodReady(f, left)
  {
    if !InLoop(f) then StackTrace(f.stack, PickUp(f.slot.result, f.code, f.local, ex), left, ex)
    else StackTrace(Below(f),
           if f.genSlot.Some? then Deliver(f.genSlot.value, left[Top(f).gen], Top(f).stmt, f.local, ex)
           else Finish(f.slot.result, Top(f).stmt, f.local, ex),
           left, ex)
  }

  predicate GoodCurrent(f: Frame, left: Left) {
    if f.waiting then GoodReady(f, left) else Good(f.stack, left)
  }

  function CurrentTrace(f: Frame, left: Left, ex: Strand): Trace
    requires GoodCurrent(f, left)
  {
    if f.waiting then ReadyTrace(f, left, ex) else FrameTrace(f, left, ex)
  }

  // ---------------------------------------------------------------- laws of traces

  lemma ContinueAfter(n: nat, s: Ctl, t: Trace, left: Left, ex: Strand)
    requires WellKinded(s) && (s.Loop? ==> s.gen in left)
    ensures Continue(s, After(n, t), left, ex) == After(n, Continue(s, t, left, ex))
  {
  }

  lemma {:induction false} StackAfter(n: nat, stack: seq<Ctl>, t: Trace, left: Left, ex: Strand)
    requires Good(stack, left)
    ensures StackTrace(stack, After(n, t), left, ex) == After(n, StackTrace(stack, t, left, ex))
    decreases |stack|
  {
    if stack != [] {
      var s := stack[|stack| - 1];
      ContinueAfter(n, s, t, left, ex);
      StackAfter(n, stack[..|stack| - 1], Continue(s, t, left, ex), left, ex);
    }
  }

  lemma {:induction false} StackYields(n: nat, v: int, stack: seq<Ctl>, t: Trace, left: Left, ex: Strand)
    requires Good(stack, left)
    ensures StackTrace(stack, Yields(n, v, t), left, ex) == Yields(n, v, StackTrace(stack, t, left, ex))
    decreases |stack|
  {
    if stack != [] {
      var s := stack[|stack| - 1];
      StackYields(n, v, stack[..|stack| - 1], Continue(s, t, left, ex), left, ex);
    }
  }

  lemma {:induction false} StackFrame(stack: seq<Ctl>, t: Trace, left: Left, left': Left, ex: Strand)
    requires Good(stack, left) && Good(stack, left')
    requires forall i :: 0 <= i < |stack| && stack[i].Loop? ==> left[stack[i].gen] == left'[stack[i].gen]
    ensures StackTrace(stack, t, left, ex) == StackTrace(stack, t, left', ex)
    decreases |stack|
  {
    if stack != [] {
      var s := stack[|stack| - 1];
      StackFrame(stack[..|stack| - 1], Continue(s, t, left, ex), left, left', ex);
    }
  }

  lemma StackPush(stack: seq<Ctl>, s: Ctl, t: Trace, left: Left, ex: Strand)
    requires Good(stack + [s], left)
    ensures Good(stack, left) && WellKinded(s) && (s.Loop? ==> s.gen in left)
    ensures StackTrace(stack + [s], t, left, ex) == StackTrace(stack, Continue(s, t, left, ex), left, ex)
  {
    assert (stack + [s])[|stack|] == s;
    assert (stack + [s])[..|stack|] == stack;
    assert forall i :: 0 <= i < |stack| ==> (stack + [s])[i] == stack[i];
  }

  lemma WaitAfter(n: nat, f: Frame, t: Trace, left: Left, ex: Strand)
    requires GoodWaiting(f, left)
    ensures WaitTrace(f, After(n, t), left, ex) == After(n, WaitTrace(f, t, left, ex))
  {
    if InLoop(f) {
      var stmt := Top(f).stmt;
      assert OnNext(After(n, t), stmt, f.local, ex) == After(n, OnNext(t, stmt, f.local, ex));
      StackAfter(n, Below(f), OnNext(t, stmt, f.local, ex), left, ex);
    } else {
      assert OnAwait(After(n, t), f.code, f.local, ex) == After(n, OnAwait(t, f.code, f.local, ex));
      StackAfter(n, f.stack, OnAwait(t, f.code, f.local, ex), left, ex);
    }
  }

  /** A yield nobody listens to is one step. */
  lemma WaitIgnoresYield(f: Frame, v: int, t: Trace, left: Left, ex: Strand)
    requires GoodWaiting(f, left) && !InLoop(f)
    ensures WaitTrace(f, Yields(1, v, t), left, ex) == After(1, WaitTrace(f, t, left, ex))
  {
    assert OnAwait(Yields(1, v, t), f.code, f.local, ex) == After(1, OnAwait(t, f.code, f.local, ex));
    StackAfter(1, f.stack, OnAwait(t, f.code, f.local, ex), left, ex);
  }

  lemma FrameSame(f: Frame, g: Frame, left: Left, left': Left, t: Trace, ex: Strand)
    requires GoodWaiting(f, left) && GoodWaiting(g, left')
    requires f.code == g.code && f.stack == g.stack && f.local == g.local
    requires forall i :: 0 <= i < |f.stack| && f.stack[i].Loop? && (InLoop(f) ==> i < |f.stack| - 1) ==>
      left[f.stack[i].gen] == left'[f.stack[i].gen]
    ensures WaitTrace(f, t, left, ex) == WaitTrace(g, t, left', ex)
  {
    if InLoop(f) {
      StackFrame(Below(f), OnNext(t, Top(f).stmt, f.local, ex), left, left', ex);
    } else {
      StackFrame(f.stack, OnAwait(t, f.code, f.local, ex), left, left', ex);
    }
  }

  // ---------------------------------------------------------------- local steps

  /** The one-step law for statements that stay inside their frame. */
  predicate OneStep(f: Frame, f': Frame, left: Left, ex: Strand) {
    && GoodCurrent(f, left) && GoodCurrent(f', left)
    && CurrentTrace(f, left, ex) == After(1, CurrentTrace(f', left, ex))
  }

  lemma SimpleStep(f: Frame, f': Frame, left: Left, ex: Strand)
    requires !f.waiting && !f'.waiting && Good(f.stack, left) && f'.stack == f.stack
    requires Run(f.code, f.local, ex) == After(1, Run(f'.code, f'.local, ex))
    ensures OneStep(f, f', left, ex)
  {
    StackAfter(1, f.stack, Run(f'.code, f'.local, ex), left, ex);
  }

  lemma TryStep(f: Frame, left: Left, ex: Strand)
    requires !f.waiting && Good(f.stack, left) && f.code.Try?
    ensures OneStep(f, f.(code := f.code.body, stack := f.stack + [Handler(f.code)]), left, ex)
  {
    var s := Handler(f.code);
    var t := Run(f.code.body, f.local, ex);
    StackPush(f.stack, s, t, left, ex);
    StackAfter(1, f.stack, OnTry(t, f.code, ex), left, ex);
  }

  /** The frame after leaving its innermost block other than by starting over a loop. */
  function AfterLeaving(f: Frame): Frame
    requires f.stack != [] && WellKinded(Top(f))
    requires f.code.End? || f.code.Return? || f.code.Throw?
    requires !(Top(f).Loop? && f.code.End?)
  {
    match Top(f)
    case Loop(_, _) => Popped(f)
    case Block(stmt) => if f.code.End? then Popped(f).(code := stmt.rest) else Popped(f)
    case Handler(stmt) =>
      if f.code.End? then Popped(f).(code := stmt.rest)
      else if f.code.Throw? then f.(code := stmt.handler, stack := Popped(f).stack + [Block(stmt)])
      else Popped(f)
  }

  lemma LeaveStep(f: Frame, left: Left, ex: Strand)
    requires !f.waiting && Good(f.stack, left) && f.stack != []
    requires f.code.End? || f.code.Return? || f.code.Throw?
    requires !(Top(f).Loop? && f.code.End?)
    ensures OneStep(f, AfterLeaving(f), left, ex)
  {
    var below := Below(f);
    var s := Top(f);
    var f' := AfterLeaving(f);
    assert f.stack == below + [s];
    var t := Run(f.code, f.local, ex);
    StackPush(below, s, t, left, ex);
    if s.Handler? && f.code.Throw? {
      var h := Run(s.stmt.handler, f.local, ex);
      StackPush(below, Block(s.stmt), h, left, ex);
      StackAfter(1, below, OnHandler(h, s.stmt, ex), left, ex);
    } else {
      assert Continue(s, t, left, ex) == After(1, Run(f'.code, f'.local, ex));
      StackAfter(1, below, Run(f'.code, f'.local, ex), left, ex);
    }
  }

  lemma AwaitResumes(f: Frame, left: Left, ex: Strand)
    requires f.waiting && GoodReady(f, left) && !InLoop(f)
    ensures Resume(f).Some? && OneStep(f, Resume(f).value, left, ex)
  {
    var f' := Resume(f).value;
    assert PickUp(f.slot.result, f.code, f.local, ex) == After(1, Run(f'.code, f'.local, ex));
    StackAfter(1, f.stack, Run(f'.code, f'.local, ex), left, ex);
  }

  /** `next()` delivers a value: the body of the loop runs on it. */
  lemma ValueResumes(f: Frame, left: Left, ex: Strand)
    requires f.waiting && GoodReady(f, left) && InLoop(f) && f.genSlot.Some?
    ensures Resume(f).Some? && OneStep(f, Resume(f).value, left, ex)
  {
    var f' := Resume(f).value;
    var t := Run(f'.code, f'.local, ex);
    assert f.stack == Below(f) + [Top(f)];
    StackPush(Below(f), Top(f), t, left, ex);
    StackAfter(1, Below(f), OnBody(t, left[Top(f).gen], Top(f).stmt, ex), left, ex);
  }

  /** `next()` finds the generator at its end: the loop is over. */
  lemma EndResumes(f: Frame, left: Left, ex: Strand)
    requires f.waiting && GoodReady(f, left) && InLoop(f) && f.genSlot.None?
    ensures Resume(f).Some? && OneStep(f, Resume(f).value, left, ex)
  {
    var f' := Resume(f).value;
    assert f'.stack == Below(f);
    assert Finish(f.slot.result, Top(f).stmt, f.local, ex) == After(1, Run(f'.code, f'.local, ex));
    StackAfter(1, Below(f), Run(f'.code, f'.local, ex), left, ex);
  }

  lemma ResumeStep(f: Frame, left: Left, ex: Strand)
    requires f.waiting && GoodReady(f, left)
    ensures Resume(f).Some? && !Resume(f).value.waiting
    ensures OneStep(f, Resume(f).value, left, ex)
  {
    if !InLoop(f) {
      AwaitResumes(f, left, ex);
    } else if f.genSlot.Some? {
      ValueResumes(f, left, ex);
    } else {
      EndResumes(f, left, ex);
    }
  }

  // ---------------------------------------------------------------- the whole machine

  ghost predicate Rooted(f: Frame) {
    f.prev.None? && f.result.None? && f.generated.None? && f.isVoid
  }

  /** The links of the frames on the chain, root first. */
  ghost predicate Linked(heap: map<Id, Frame>, path: seq<Id>, left: Left, ex: Strand) {
    && path != []
    && (forall k :: 0 <= k < |path| ==> path[k] in heap && path[k] !in left)
    && (forall j, k :: 0 <= j < k < |path| ==> path[j] != path[k])
    && (forall k :: 0 <= k < |path| ==> heap[path[k]].executor == ex && !heap[path[k]].done)
    && Rooted(heap[path[0]])
    && (forall k :: 0 < k < |path| ==> LinkedTo(heap, path[k], path[k - 1]))
    && (forall k :: 0 <= k < |path| - 1 ==> GoodWaiting(heap[path[k]], left) && heap[path[k]].genSlot.None?)
    && GoodCurrent(heap[path[|path| - 1]], left)
  }

  /** A frame awaited by its caller: its result goes there, and so do its values if it is
      iterated. */
  ghost predicate LinkedTo(heap: map<Id, Frame>, id: Id, caller: Id) {
    && id in heap && caller in heap
    && heap[id].prev == Some(caller) && heap[id].result == Some(caller)
    && (if InLoop(heap[caller]) then
          && heap[id].generated == Some(caller)
          && heap[caller].stack != [] && Top(heap[caller]).Loop? && Top(heap[caller]).gen == id
        else heap[id].generated == None)
  }

  /** Suspended generators stand for the traces they have left. */
  ghost predicate Suspended(heap: map<Id, Frame>, left: Left, ex: Strand) {
    forall g :: g in left ==>
      && g in heap && !heap[g].waiting && !heap[g].done && Good(heap[g].stack, left)
      && left[g] == FrameTrace(heap[g], left, ex)
  }

  predicate LoopAt(heap: map<Id, Frame>, x: Id, i: nat, g: Id) {
    x in heap && i < |heap[x].stack| && heap[x].stack[i].Loop? && heap[x].stack[i].gen == g
  }

  /** No generator is iterated by two loops, and all are older than the next frame. */
  ghost predicate Owned(heap: map<Id, Frame>, nextId: Id) {
    && (forall x, i: nat, y, j: nat, g :: LoopAt(heap, x, i, g) && LoopAt(heap, y, j, g) ==> x == y && i == j)
    && (forall x, i: nat, g :: LoopAt(heap, x, i, g) ==> g in heap)
    && (forall x :: x in heap ==> x < nextId)
  }

  ghost predicate Inv(m: Machine, path: seq<Id>, left: Left, ex: Strand) {
    && Linked(m.heap, path, left, ex)
    && Suspended(m.heap, left, ex)
    && Owned(m.heap, m.nextId)
    && m.status == Running(path[|path| - 1])
  }

  ghost predicate WaitingChain(heap: map<Id, Frame>, path: seq<Id>, left: Left) {
    forall k :: 0 <= k < |path| ==> path[k] in heap && GoodWaiting(heap[path[k]], left)
  }

  ghost function ChainTrace(heap: map<Id, Frame>, path: seq<Id>, t: Trace, left: Left, ex: Strand): Trace
    requires WaitingChain(heap, path, left)
    decreases |path|
  {
    if path == [] then t
    else
      var n := |path| - 1;
      ChainTrace(heap, path[..n], WaitTrace(heap[path[n]], t, left, ex), left, ex)
  }

  ghost function Total(m: Machine, path: seq<Id>, left: Left, ex: Strand): Trace
    requires Inv(m, path, left, ex)
  {
    var n := |path| - 1;
    ChainTrace(m.heap, path[..n], CurrentTrace(m.heap[path[n]], left, ex), left, ex)
  }

  lemma {:induction false} ChainAfter(n: nat, heap: map<Id, Frame>, path: seq<Id>, t: Trace, left: Left, ex: Strand)
    requires WaitingChain(heap, path, left)
    ensures ChainTrace(heap, path, After(n, t), left, ex) == After(n, ChainTrace(heap, path, t, left, ex))
    decreases |path|
  {
    if path != [] {
      var k := |path| - 1;
      WaitAfter(n, heap[path[k]], t, left, ex);
      ChainAfter(n, heap, path[..k], WaitTrace(heap[path[k]], t, left, ex), left, ex);
    }
  }

  /** The suspended generators a waiting frame iterates, apart from the awaited one. */
  predicate Iterates(f: Frame, i: nat, g: Id) {
    i < |f.stack| && f.stack[i].Loop? && f.stack[i].gen == g && (InLoop(f) ==> i < |f.stack| - 1)
  }

  /** The frames of a chain keep what their traces depend on. */
  ghost predicate ChainKept(heap: map<Id, Frame>, heap': map<Id, Frame>, path: seq<Id>, left: Left, left': Left) {
    && WaitingChain(heap, path, left) && WaitingChain(heap', path, left')
    && (forall k :: 0 <= k < |path| ==>
          && heap'[path[k]].code == heap[path[k]].code && heap'[path[k]].stack == heap[path[k]].stack
          && heap'[path[k]].local == heap[path[k]].local)
    && (forall k, i: nat, g :: 0 <= k < |path| && Iterates(heap[path[k]], i, g) ==>
          g in left && g in left' && left[g] == left'[g])
  }

  lemma {:induction false} ChainFrame(heap: map<Id, Frame>, heap': map<Id, Frame>, path: seq<Id>, t: Trace,
                                      left: Left, left': Left, ex: Strand)
    requires ChainKept(heap, heap', path, left, left')
    ensures ChainTrace(heap, path, t, left, ex) == ChainTrace(heap', path, t, left', ex)
    decreases |path|
  {
    if path != [] {
      var k := |path| - 1;
      var f := heap[path[k]];
      forall i: nat | i < |f.stack| && f.stack[i].Loop? && (InLoop(f) ==> i < |f.stack| - 1)
        ensures left[f.stack[i].gen] == left'[f.stack[i].gen]
      {
        assert Iterates(f, i, f.stack[i].gen);
      }
      FrameSame(f, heap'[path[k]], left, left', t, ex);
      ChainFrame(heap, heap', path[..k], WaitTrace(heap[path[k]], t, left, ex), left, left', ex);
    }
  }

  /** One step closer: one step less to do, and the same outcome. */
  ghost predicate Closer(m: Machine, path: seq<Id>, left: Left, m': Machine, path': seq<Id>, left': Left, ex: Strand) {
    && Inv(m, path, left, ex) && Inv(m', path', left', ex)
    && TotalSteps(Total(m, path, left, ex)) == 1 + TotalSteps(Total(m', path', left', ex))
    && Final(Total(m, path, left, ex)) == Final(Total(m', path', left', ex))
  }

  lemma AfterCounts(n: nat, t: Trace)
    ensures TotalSteps(After(n, t)) == n + TotalSteps(t) && Final(After(n, t)) == Final(t)
  {
  }

  /** Frames of a waiting chain iterate suspended generators only. */
  lemma IteratesLeft(f: Frame, left: Left, i: nat, g: Id)
    requires GoodWaiting(f, left) && Iterates(f, i, g)
    ensures g in left
  {
    if InLoop(f) {
      assert Below(f)[i] == f.stack[i];
    }
  }

  lemma ChainUnchanged(heap: map<Id, Frame>, heap': map<Id, Frame>, path: seq<Id>, left: Left)
    requires WaitingChain(heap, path, left)
    requires forall k :: 0 <= k < |path| ==> path[k] in heap' && heap'[path[k]] == heap[path[k]]
    ensures ChainKept(heap, heap', path, left, left)
  {
    forall k, i: nat, g | 0 <= k < |path| && Iterates(heap[path[k]], i, g) ensures g in left {
      IteratesLeft(heap[path[k]], left, i, g);
    }
  }

  /** If the frame at `k` is one step closer and the frames above it are kept, so is the
      whole machine. */
  lemma Conclude(m: Machine, path: seq<Id>, left: Left, m': Machine, path': seq<Id>, left': Left,
                 k: nat, t: Trace, ex: Strand)
    requires Inv(m, path, left, ex) && Inv(m', path', left', ex) && k <= |path|
    requires ChainKept(m.heap, m'.heap, path[..k], left, left')
    requires Total(m, path, left, ex) == ChainTrace(m.heap, path[..k], After(1, t), left, ex)
    requires Total(m', path', left', ex) == ChainTrace(m'.heap, path[..k], t, left', ex)
    ensures Closer(m, path, left, m', path', left', ex)
  {
    ChainAfter(1, m.heap, path[..k], t, left, ex);
    ChainFrame(m.heap, m'.heap, path[..k], t, left, left', ex);
    AfterCounts(1, ChainTrace(m.heap, path[..k], t, left, ex));
  }

  /** Control entries only disappear, except for entries that are not loops. */
  ghost predicate FewerLoops(f: Frame, f': Frame) {
    forall i :: 0 <= i < |f'.stack| && f'.stack[i].Loop? ==> i < |f.stack| && f'.stack[i] == f.stack[i]
  }

  ghost predicate SamePromise(f: Frame, f': Frame) {
    f'.isVoid == f.isVoid && f'.executor == f.executor && f'.prev == f.prev && f'.result == f.result
    && f'.generated == f.generated && f'.done == f.done
  }

  lemma LocalInv(m: Machine, path: seq<Id>, left: Left, ex: Strand, f': Frame)
    requires Inv(m, path, left, ex)
    requires var f := m.heap[m.status.current];
      FewerLoops(f, f') && SamePromise(f, f') && GoodCurrent(f', left)
    ensures Inv(Put(m, m.status.current, f'), path, left, ex)
  {
    var c := m.status.current;
    var heap' := m.heap[c := f'];
    forall k | 0 < k < |path| ensures LinkedTo(heap', path[k], path[k - 1]) {
      assert LinkedTo(m.heap, path[k], path[k - 1]);
    }
    forall x, i: nat, g | LoopAt(heap', x, i, g) ensures LoopAt(m.heap, x, i, g) {
    }
  }

  lemma LocalStep(m: Machine, path: seq<Id>, left: Left, ex: Strand, f': Frame)
    requires Inv(m, path, left, ex)
    requires var f := m.heap[m.status.current];
      FewerLoops(f, f') && SamePromise(f, f') && OneStep(f, f', left, ex)
    ensures Closer(m, path, left, Put(m, m.status.current, f'), path, left, ex)
  {
    LocalInv(m, path, left, ex, f');
    var m' := Put(m, m.status.current, f');
    var n := |path| - 1;
    ChainUnchanged(m.heap, m'.heap, path[..n], left);
    Conclude(m, path, left, m', path, left, n, CurrentTrace(f', left, ex), ex);
  }

  /** A yield in a coroutine that is not iterated is skipped. */
  lemma IgnoredYieldStep(m: Machine, path: seq<Id>, left: Left, ex: Strand)
    requires Inv(m, path, left, ex)
    requires var f := m.heap[m.status.current]; !f.waiting && f.code.Yield? && f.generated.None?
    ensures var f := m.heap[m.status.current];
      Closer(m, path, left, Put(m, m.status.current, f.(code := f.code.rest)), path, left, ex)
  {
    var f := m.heap[m.status.current];
    var f' := f.(code := f.code.rest);
    LocalInv(m, path, left, ex, f');
    StackYields(1, f.local.value, f.stack, Run(f.code.rest, f.local, ex), left, ex);
    if |path| > 1 {
      IgnoredYieldBelow(m, path, left, ex, f');
    }
  }

  lemma IgnoredYieldBelow(m: Machine, path: seq<Id>, left: Left, ex: Strand, f': Frame)
    requires Inv(m, path, left, ex) && |path| > 1
    requires var f := m.heap[m.status.current];
      && !f.waiting && f.generated.None? && !f'.waiting && Good(f'.stack, left)
      && FrameTrace(f, left, ex) == Yields(1, f.local.value, FrameTrace(f', left, ex))
    requires Inv(Put(m, m.status.current, f'), path, left, ex)
    ensures Closer(m, path, left, Put(m, m.status.current, f'), path, left, ex)
  {
    var m' := Put(m, m.status.current, f');
    var n := |path| - 1;
    var p, t' := m.heap[path[n - 1]], FrameTrace(f', left, ex);
    assert LinkedTo(m.heap, path[n], path[n - 1]);
    WaitIgnoresYield(p, m.heap[m.status.current].local.value, t', left, ex);
    assert path[..n][..n - 1] == path[..n - 1];
    ChainUnchanged(m.heap, m'.heap, path[..n - 1], left);
    Conclude(m, path, left, m', path, left, n - 1, WaitTrace(p, t', left, ex), ex);
  }

  // ---------------------------------------------------------------- transfers

  /** Who may be awaited: a new coroutine, or the generator of the innermost loop. */
  ghost predicate Callee(m: Machine, path: seq<Id>, left: Left, f1: Frame, n: Id, g: Frame, generating: bool) {
    && n !in path && !g.waiting && !g.done && !f1.waiting && Good(g.stack, left - {n})
    && (if generating then InLoop(f1) && f1.stack != [] && Top(f1) == Loop(n, Top(f1).stmt)
        else !InLoop(f1) && g.generated.None?)
    && GoodWaiting(f1.(waiting := true), left - {n})
  }

  function Descended(m: Machine, f1: Frame, n: Id, g: Frame, generating: bool, nextId: Id): Machine
    requires m.status.Running?
  {
    Suspend(m.(nextId := nextId), m.status.current, f1, n, g, generating)
  }

  lemma SuspendedWithout(heap: map<Id, Frame>, heap': map<Id, Frame>, left: Left, n: Id, ex: Strand)
    requires Suspended(heap, left, ex)
    requires forall g :: g in left && g != n ==> g in heap' && heap'[g] == heap[g]
    requires forall x, i: nat :: x in left && x != n ==> !LoopAt(heap, x, i, n)
    ensures Suspended(heap', left - {n}, ex)
  {
    var left' := left - {n};
    forall g | g in left'
      ensures Good(heap[g].stack, left') && FrameTrace(heap[g], left', ex) == left[g]
    {
      var f := heap[g];
      forall i: nat | i < |f.stack| && f.stack[i].Loop? ensures f.stack[i].gen in left' {
        assert LoopAt(heap, g, i, f.stack[i].gen);
      }
      StackFrame(f.stack, Run(f.code, f.local, ex), left, left', ex);
    }
  }

  /** No frame of the chain iterates a generator of another frame. */
  lemma WaitingWithout(heap: map<Id, Frame>, f: Frame, x: Id, left: Left, n: Id)
    requires x in heap && heap[x] == f && GoodWaiting(f, left)
    requires forall i: nat :: !LoopAt(heap, x, i, n)
    ensures GoodWaiting(f, left - {n})
    ensures forall i: nat, g :: Iterates(f, i, g) ==> g in left && g != n
  {
    forall i: nat | i < |f.stack| && f.stack[i].Loop? ensures f.stack[i].gen != n {
      assert !LoopAt(heap, x, i, n);
    }
    forall i: nat, g | Iterates(f, i, g) ensures g in left && g != n {
      if InLoop(f) {
        assert Below(f)[i] == f.stack[i];
      }
    }
  }

  ghost predicate OnlyIteratedBy(heap: map<Id, Frame>, n: Id, c: Id) {
    forall x, i: nat :: LoopAt(heap, x, i, n) ==> x == c
  }

  lemma DescendLinked(m: Machine, path: seq<Id>, left: Left, ex: Strand, f1: Frame, n: Id, g: Frame,
                      generating: bool, nextId: Id)
    requires Inv(m, path, left, ex) && Callee(m, path, left, f1, n, g, generating)
    requires SamePromise(m.heap[m.status.current], f1) && OnlyIteratedBy(m.heap, n, m.status.current)
    ensures Linked(Descended(m, f1, n, g, generating, nextId).heap, path + [n], left - {n}, ex)
  {
    var c := m.status.current;
    var heap' := Descended(m, f1, n, g, generating, nextId).heap;
    var path' := path + [n];
    var last := |path| - 1;
    forall k | 0 < k < |path'| ensures LinkedTo(heap', path'[k], path'[k - 1]) {
      if k <= last {
        assert LinkedTo(m.heap, path[k], path[k - 1]);
      }
    }
    forall k | 0 <= k < |path'| - 1
      ensures GoodWaiting(heap'[path'[k]], left - {n}) && heap'[path'[k]].genSlot.None?
    {
      if k < last {
        assert path[k] != c;
        WaitingWithout(m.heap, m.heap[path[k]], path[k], left, n);
      }
    }
  }

  lemma ChainWithout(heap: map<Id, Frame>, heap': map<Id, Frame>, path: seq<Id>, left: Left, n: Id)
    requires WaitingChain(heap, path, left)
    requires forall k :: 0 <= k < |path| ==> path[k] in heap' && heap'[path[k]] == heap[path[k]]
    requires forall k, i: nat :: 0 <= k < |path| ==> !LoopAt(heap, path[k], i, n)
    ensures ChainKept(heap, heap', path, left, left - {n})
  {
    forall k | 0 <= k < |path|
      ensures GoodWaiting(heap[path[k]], left - {n})
      ensures forall i: nat, g :: Iterates(heap[path[k]], i, g) ==> g in left && g != n
    {
      WaitingWithout(heap, heap[path[k]], path[k], left, n);
    }
  }

  lemma DescendInv(m: Machine, path: seq<Id>, left: Left, ex: Strand, f1: Frame, n: Id, g: Frame,
                   generating: bool, nextId: Id)
    requires Inv(m, path, left, ex) && Callee(m, path, left, f1, n, g, generating)
    requires SamePromise(m.heap[m.status.current], f1) && OnlyIteratedBy(m.heap, n, m.status.current)
    requires Owned(Descended(m, f1, n, g, generating, nextId).heap, nextId)
    ensures var m' := Descended(m, f1, n, g, generating, nextId);
      Inv(m', path + [n], left - {n}, ex) && m'.heap[n].code == g.code && m'.heap[n].stack == g.stack
      && CurrentTrace(m'.heap[n], left - {n}, ex) == FrameTrace(g, left - {n}, ex)
  {
    var m' := Descended(m, f1, n, g, generating, nextId);
    DescendLinked(m, path, left, ex, f1, n, g, generating, nextId);
    SuspendedWithout(m.heap, m'.heap, left, n, ex);
  }

  lemma DescendStep(m: Machine, path: seq<Id>, left: Left, ex: Strand, f1: Frame, n: Id, g: Frame,
                    generating: bool, nextId: Id)
    requires Inv(m, path, left, ex) && Callee(m, path, left, f1, n, g, generating)
    requires SamePromise(m.heap[m.status.current], f1) && OnlyIteratedBy(m.heap, n, m.status.current)
    requires Owned(Descended(m, f1, n, g, generating, nextId).heap, nextId)
    requires CurrentTrace(m.heap[m.status.current], left, ex)
             == After(1, WaitTrace(f1.(waiting := true), FrameTrace(g, left - {n}, ex), left - {n}, ex))
    ensures Closer(m, path, left, Descended(m, f1, n, g, generating, nextId), path + [n], left - {n}, ex)
  {
    var m' := Descended(m, f1, n, g, generating, nextId);
    DescendInv(m, path, left, ex, f1, n, g, generating, nextId);
    DescendTotal(m, path, left, ex, f1, n, g, m');
    var last := |path| - 1;
    ChainBelow(m, path, left, ex, n);
    ChainWithout(m.heap, m'.heap, path[..last], left, n);
    Conclude(m, path, left, m', path + [n], left - {n}, last,
             WaitTrace(f1.(waiting := true), FrameTrace(g, left - {n}, ex), left - {n}, ex), ex);
  }

  /** The chain above the current frame does not iterate what only that frame iterates. */
  lemma ChainBelow(m: Machine, path: seq<Id>, left: Left, ex: Strand, n: Id)
    requires Inv(m, path, left, ex) && OnlyIteratedBy(m.heap, n, m.status.current)
    ensures WaitingChain(m.heap, path[..|path| - 1], left)
    ensures forall k, i: nat :: 0 <= k < |path| - 1 ==> !LoopAt(m.heap, path[k], i, n)
  {
  }

  lemma DescendTotal(m: Machine, path: seq<Id>, left: Left, ex: Strand, f1: Frame, n: Id, g: Frame, m': Machine)
    requires Inv(m, path, left, ex) && Inv(m', path + [n], left - {n}, ex)
    requires Good(g.stack, left - {n}) && GoodWaiting(f1.(waiting := true), left - {n})
    requires m.status.current in m'.heap
    requires m'.heap[m.status.current].code == f1.code && m'.heap[m.status.current].stack == f1.stack
    requires m'.heap[m.status.current].local == f1.local
    requires CurrentTrace(m'.heap[n], left - {n}, ex) == FrameTrace(g, left - {n}, ex)
    ensures WaitingChain(m'.heap, path[..|path| - 1], left - {n})
    ensures Total(m', path + [n], left - {n}, ex)
      == ChainTrace(m'.heap, path[..|path| - 1],
           WaitTrace(f1.(waiting := true), FrameTrace(g, left - {n}, ex), left - {n}, ex), left - {n}, ex)
  {
    var path' := path + [n];
    var last := |path| - 1;
    assert path'[..|path|] == path && path[..|path|][..last] == path[..last];
    assert forall k :: 0 <= k < |path| ==> path'[k] == path[k];
    assert path'[|path|] == n && path'[|path'| - 1] == n;
  }

  /** Back to the caller: the current frame becomes `f'`, the caller picks up, and `left'`
      has the current frame if it is suspended and not finished. */
  ghost predicate Handover(m: Machine, path: seq<Id>, left: Left, m': Machine, f': Frame, left': Left, ex: Strand) {
    && |path| > 1 && m.status.Running? && m.status.current in m.heap && path[|path| - 2] in m.heap
    && var c, p := m.status.current, path[|path| - 2];
       var caller := m.heap[p];
    && c != p && p in m'.heap
    && m'.heap == m.heap[c := f'][p := m'.heap[p]] && m'.nextId == m.nextId && m'.status == Running(p)
    && f'.stack == m.heap[c].stack
    && m'.heap[p].code == caller.code && m'.heap[p].stack == caller.stack && m'.heap[p].waiting
    && SamePromise(caller, m'.heap[p])
    && (left' == left ||
         (!f'.waiting && !f'.done && Good(f'.stack, left) && left' == left[c := FrameTrace(f', left, ex)]))
    && GoodReady(m'.heap[p], left')
  }

  /** The frames above the caller are as they were. */
  lemma AscendAbove(m: Machine, path: seq<Id>, left: Left, m': Machine, f': Frame, left': Left, ex: Strand, k: nat)
    requires Linked(m.heap, path, left, ex) && m.status == Running(path[|path| - 1])
    requires Handover(m, path, left, m', f', left', ex) && k < |path| - 2
    ensures path[k] in m'.heap && m'.heap[path[k]] == m.heap[path[k]]
  {
    assert path[k] != path[|path| - 1] && path[k] != path[|path| - 2];
  }

  lemma AscendLinks(m: Machine, path: seq<Id>, left: Left, m': Machine, f': Frame, left': Left, ex: Strand, k: nat)
    requires Linked(m.heap, path, left, ex) && m.status == Running(path[|path| - 1])
    requires Handover(m, path, left, m', f', left', ex) && 0 < k < |path| - 1
    ensures LinkedTo(m'.heap, path[k], path[k - 1])
  {
    assert LinkedTo(m.heap, path[k], path[k - 1]);
    AscendAbove(m, path, left, m', f', left', ex, k - 1);
    if k < |path| - 2 {
      AscendAbove(m, path, left, m', f', left', ex, k);
    }
  }

  lemma AscendWaits(m: Machine, path: seq<Id>, left: Left, m': Machine, f': Frame, left': Left, ex: Strand, k: nat)
    requires Linked(m.heap, path, left, ex) && m.status == Running(path[|path| - 1])
    requires Handover(m, path, left, m', f', left', ex) && k < |path| - 2
    ensures path[k] in m'.heap && GoodWaiting(m'.heap[path[k]], left') && m'.heap[path[k]].genSlot.None?
  {
    AscendAbove(m, path, left, m', f', left', ex, k);
    assert GoodWaiting(m.heap[path[k]], left) && left.Keys <= left'.Keys;
  }

  lemma AscendFrames(m: Machine, path: seq<Id>, left: Left, m': Machine, f': Frame, left': Left, ex: Strand, k: nat)
    requires Linked(m.heap, path, left, ex) && m.status == Running(path[|path| - 1])
    requires Handover(m, path, left, m', f', left', ex) && k < |path| - 1
    ensures path[k] in m'.heap && path[k] !in left'
    ensures m'.heap[path[k]].executor == ex && !m'.heap[path[k]].done
    ensures SamePromise(m.heap[path[k]], m'.heap[path[k]])
  {
    assert path[k] != path[|path| - 1];
    if k < |path| - 2 {
      AscendAbove(m, path, left, m', f', left', ex, k);
    }
  }

  lemma ShorterLinked(heap: map<Id, Frame>, path: seq<Id>, left: Left, ex: Strand)
    requires |path| > 1 && forall j, k :: 0 <= j < k < |path| ==> path[j] != path[k]
    requires forall k :: 0 <= k < |path| - 1 ==>
      path[k] in heap && path[k] !in left && heap[path[k]].executor == ex && !heap[path[k]].done
    requires Rooted(heap[path[0]])
    requires forall k :: 0 < k < |path| - 1 ==> LinkedTo(heap, path[k], path[k - 1])
    requires forall k :: 0 <= k < |path| - 2 ==> GoodWaiting(heap[path[k]], left) && heap[path[k]].genSlot.None?
    requires GoodCurrent(heap[path[|path| - 2]], left)
    ensures Linked(heap, path[..|path| - 1], left, ex)
  {
  }

  lemma AscendLinked(m: Machine, path: seq<Id>, left: Left, m': Machine, f': Frame, left': Left, ex: Strand)
    requires Inv(m, path, left, ex) && Handover(m, path, left, m', f', left', ex)
    ensures Linked(m'.heap, path[..|path| - 1], left', ex)
  {
    forall k: nat | k < |path| - 1
      ensures path[k] in m'.heap && path[k] !in left'
      ensures m'.heap[path[k]].executor == ex && !m'.heap[path[k]].done
    {
      AscendFrames(m, path, left, m', f', left', ex, k);
    }
    forall k | 0 < k < |path| - 1 ensures LinkedTo(m'.heap, path[k], path[k - 1]) {
      AscendLinks(m, path, left, m', f', left', ex, k);
    }
    forall k: nat | k < |path| - 2 ensures GoodWaiting(m'.heap[path[k]], left') && m'.heap[path[k]].genSlot.None? {
      AscendWaits(m, path, left, m', f', left', ex, k);
    }
    AscendFrames(m, path, left, m', f', left', ex, 0);
    ShorterLinked(m'.heap, path, left', ex);
  }

  lemma AscendSuspended(m: Machine, path: seq<Id>, left: Left, m': Machine, f': Frame, left': Left, ex: Strand)
    requires Inv(m, path, left, ex) && Handover(m, path, left, m', f', left', ex)
    ensures Suspended(m'.heap, left', ex)
  {
    var c, p := m.status.current, path[|path| - 2];
    assert c !in left && p !in left;
    forall g | g in left'
      ensures
        && g in m'.heap && !m'.heap[g].waiting && !m'.heap[g].done && Good(m'.heap[g].stack, left')
        && left'[g] == FrameTrace(m'.heap[g], left', ex)
    {
      var f := if g == c then f' else m.heap[g];
      assert m'.heap[g] == f && Good(f.stack, left);
      StackFrame(f.stack, Run(f.code, f.local, ex), left, left', ex);
    }
  }

  lemma AscendInv(m: Machine, path: seq<Id>, left: Left, m': Machine, f': Frame, left': Left, ex: Strand)
    requires Inv(m, path, left, ex) && Handover(m, path, left, m', f', left', ex)
    ensures Inv(m', path[..|path| - 1], left', ex)
  {
    AscendLinked(m, path, left, m', f', left', ex);
    AscendSuspended(m, path, left, m', f', left', ex);
    forall x, i: nat, g | LoopAt(m'.heap, x, i, g) ensures LoopAt(m.heap, x, i, g) {
    }
    assert Owned(m'.heap, m'.nextId);
  }

  lemma AscendChain(m: Machine, path: seq<Id>, left: Left, m': Machine, f': Frame, left': Left, ex: Strand)
    requires Inv(m, path, left, ex) && Handover(m, path, left, m', f', left', ex)
    ensures ChainKept(m.heap, m'.heap, path[..|path| - 2], left, left')
  {
    var last := |path| - 2;
    forall k: nat | k < last ensures path[k] in m'.heap && m'.heap[path[k]] == m.heap[path[k]] {
      AscendAbove(m, path, left, m', f', left', ex, k);
    }
    ChainGrown(m.heap, m'.heap, path[..last], left, left');
  }

  lemma AscendStep(m: Machine, path: seq<Id>, left: Left, m': Machine, f': Frame, left': Left, ex: Strand)
    requires Inv(m, path, left, ex) && Handover(m, path, left, m', f', left', ex)
    requires WaitTrace(m.heap[path[|path| - 2]], CurrentTrace(m.heap[m.status.current], left, ex), left, ex)
             == After(1, ReadyTrace(m'.heap[path[|path| - 2]], left', ex))
    ensures Closer(m, path, left, m', path[..|path| - 1], left', ex)
  {
    AscendInv(m, path, left, m', f', left', ex);
    AscendChain(m, path, left, m', f', left', ex);
    var last := |path| - 2;
    assert path[..|path| - 1][..last] == path[..last];
    Conclude(m, path, left, m', path[..|path| - 1], left', last, ReadyTrace(m'.heap[path[last]], left', ex), ex);
  }

  lemma ChainGrown(heap: map<Id, Frame>, heap': map<Id, Frame>, path: seq<Id>, left: Left, left': Left)
    requires WaitingChain(heap, path, left) && left.Keys <= left'.Keys && forall g :: g in left ==> left'[g] == left[g]
    requires forall k :: 0 <= k < |path| ==> path[k] in heap' && heap'[path[k]] == heap[path[k]]
    ensures ChainKept(heap, heap', path, left, left')
  {
    forall k, i: nat, g | 0 <= k < |path| && Iterates(heap[path[k]], i, g) ensures g in left {
      IteratesLeft(heap[path[k]], left, i, g);
    }
  }

  predicate LeavesBody(f: Frame) {
    !f.waiting && f.stack == [] && (f.code.End? || f.code.Return? || f.code.Throw?)
  }

  /** A caller that is handed the result of a finished frame. */
  lemma ResultArrives(caller: Frame, f: Frame, left: Left, ex: Strand)
    requires GoodWaiting(caller, left) && caller.genSlot.None? && LeavesBody(f)
    ensures var caller' := caller.(slot := Got(ResultOf(Run(f.code, f.local, ex).outcome)));
      && GoodReady(caller', left)
      && WaitTrace(caller, CurrentTrace(f, left, ex), left, ex) == After(1, ReadyTrace(caller', left, ex))
  {
    var r := ResultOf(Run(f.code, f.local, ex).outcome);
    if InLoop(caller) {
      StackAfter(1, Below(caller), Finish(r, Top(caller).stmt, caller.local, ex), left, ex);
    } else {
      StackAfter(1, caller.stack, PickUp(r, caller.code, caller.local, ex), left, ex);
    }
  }

  /** A finished callee: its result is where its caller looks for it. */
  lemma FinishStep(m: Machine, path: seq<Id>, left: Left, ex: Strand)
    requires Inv(m, path, left, ex) && |path| > 1 && LeavesBody(m.heap[m.status.current])
    ensures CanStep(m)
    ensures Closer(m, path, left, Step(m), path[..|path| - 1], left, ex)
  {
    SoundCurrent(m, path, left, ex);
    var f := m.heap[m.status.current];
    var p := path[|path| - 2];
    var caller := m.heap[p];
    assert LinkedTo(m.heap, path[|path| - 1], p);
    ResultArrives(caller, f, left, ex);
    assert Step(m).heap[p] == caller.(slot := Got(ResultOf(Run(f.code, f.local, ex).outcome)));
    AscendStep(m, path, left, Step(m), f.(done := true), left, ex);
  }

  /** A value generated for a caller that iterates the current frame. */
  lemma YieldStep(m: Machine, path: seq<Id>, left: Left, ex: Strand) returns (left': Left)
    requires Inv(m, path, left, ex)
    requires var f := m.heap[m.status.current]; !f.waiting && f.code.Yield? && f.generated.Some?
    ensures CanStep(m) && |path| > 1
    ensures Closer(m, path, left, Step(m), path[..|path| - 1], left', ex)
  {
    SoundCurrent(m, path, left, ex);
    var c := m.status.current;
    var f := m.heap[c];
    var p := path[|path| - 2];
    var caller := m.heap[p];
    assert LinkedTo(m.heap, path[|path| - 1], p);
    var f' := f.(code := f.code.rest);
    var t := FrameTrace(f', left, ex);
    left' := left[c := t];
    var m' := Step(m);
    assert m'.heap[p] == caller.(genSlot := Some(f.local.value));
    StackYields(1, f.local.value, f.stack, Run(f.code.rest, f.local, ex), left, ex);
    var stmt := Top(caller).stmt;
    assert WaitTrace(caller, Yields(1, f.local.value, t), left, ex)
      == StackTrace(Below(caller), After(1, Deliver(f.local.value, t, stmt, caller.local, ex)), left, ex);
    StackAfter(1, Below(caller), Deliver(f.local.value, t, stmt, caller.local, ex), left, ex);
    StackFrame(Below(caller), Deliver(f.local.value, t, stmt, caller.local, ex), left, left', ex);
    AscendStep(m, path, left, m', f', left', ex);
  }

  lemma SoundCurrent(m: Machine, path: seq<Id>, left: Left, ex: Strand)
    requires Inv(m, path, left, ex)
    ensures CanStep(m)
  {
    var c := m.status.current;
    var f := m.heap[c];
    if |path| > 1 {
      assert LinkedTo(m.heap, path[|path| - 1], path[|path| - 2]);
    }
    forall i: nat | i < |f.stack|
      ensures if f.stack[i].Loop? then f.stack[i].stmt.ForEach? && f.stack[i].gen in m.heap else f.stack[i].stmt.Try?
    {
      if f.stack[i].Loop? {
        assert LoopAt(m.heap, c, i, f.stack[i].gen);
      }
      if f.waiting && InLoop(f) && i < |f.stack| - 1 {
        assert Below(f)[i] == f.stack[i];
      }
    }
  }

  // ---------------------------------------------------------------- one step of any kind

  /** A frame that does not exist yet is iterated by nobody. */
  lemma NewIsUnowned(m: Machine, path: seq<Id>, left: Left, ex: Strand)
    requires Inv(m, path, left, ex)
    ensures m.nextId !in m.heap && m.nextId !in path && m.nextId !in left && left - {m.nextId} == left
    ensures forall x, i: nat :: !LoopAt(m.heap, x, i, m.nextId)
  {
  }

  lemma CallKeepsOwned(m: Machine, path: seq<Id>, left: Left, ex: Strand, f1: Frame, g: Frame, generating: bool)
    requires Inv(m, path, left, ex) && g.stack == []
    requires var f := m.heap[m.status.current];
      f1.stack == if generating then f.stack + [Loop(m.nextId, f.code)] else f.stack
    ensures Owned(Descended(m, f1, m.nextId, g, generating, m.nextId + 1).heap, m.nextId + 1)
  {
    var c := m.status.current;
    var f := m.heap[c];
    NewIsUnowned(m, path, left, ex);
    var heap' := Descended(m, f1, m.nextId, g, generating, m.nextId + 1).heap;
    forall x, i: nat, h | LoopAt(heap', x, i, h)
      ensures LoopAt(m.heap, x, i, h) || (x == c && i == |f.stack| && h == m.nextId)
    {
    }
  }

  /** What a frame that starts a loop has left is one step, then the loop over the new
      generator. */
  lemma LoopStarts(f: Frame, n: Id, left: Left, ex: Strand)
    requires !f.waiting && f.code.ForEach? && Good(f.stack, left)
    ensures var f1 := f.(code := End, stack := f.stack + [Loop(n, f.code)]);
      var g := NewFrame(f.code.gen, f.local.value);
      && Below(f1) == f.stack && Top(f1) == Loop(n, f.code)
      && GoodWaiting(f1.(waiting := true), left)
      && CurrentTrace(f, left, ex)
         == After(1, WaitTrace(f1.(waiting := true), FrameTrace(g, left, ex), left, ex))
  {
    var f1 := f.(code := End, stack := f.stack + [Loop(n, f.code)]);
    assert Below(f1) == f.stack;
    StackAfter(1, f.stack, OnNext(Run(f.code.gen, Entry(f.local.value), ex), f.code, f.local, ex), left, ex);
  }

  lemma CallStarts(f: Frame, left: Left, ex: Strand)
    requires !f.waiting && (f.code.Await? || f.code.AwaitResult?) && Good(f.stack, left)
    ensures GoodWaiting(f.(waiting := true), left)
    ensures var g := NewFrame(f.code.child, f.local.value);
      CurrentTrace(f, left, ex) == After(1, WaitTrace(f.(waiting := true), FrameTrace(g, left, ex), left, ex))
  {
    StackAfter(1, f.stack, OnAwait(Run(f.code.child, Entry(f.local.value), ex), f.code, f.local, ex), left, ex);
  }

  lemma CallDescends(m: Machine)
    requires CanStep(m)
    requires var f := m.heap[m.status.current]; !f.waiting && (f.code.Await? || f.code.AwaitResult?)
    ensures var f := m.heap[m.status.current];
      Step(m) == Descended(m, f, m.nextId, NewFrame(f.code.child, f.local.value), false, m.nextId + 1)
  {
  }

  lemma LoopDescends(m: Machine)
    requires CanStep(m)
    requires var f := m.heap[m.status.current]; !f.waiting && f.code.ForEach?
    ensures var f := m.heap[m.status.current];
      Step(m) == Descended(m, f.(code := End, stack := f.stack + [Loop(m.nextId, f.code)]), m.nextId,
                           NewFrame(f.code.gen, f.local.value), true, m.nextId + 1)
  {
  }

  /** Linking a new frame. */
  lemma NewFrameDescends(m: Machine, path: seq<Id>, left: Left, ex: Strand, f1: Frame, g: Frame, generating: bool)
    requires Inv(m, path, left, ex) && SamePromise(m.heap[m.status.current], f1)
    requires g.stack == [] && Callee(m, path, left, f1, m.nextId, g, generating)
    requires var f := m.heap[m.status.current];
      f1.stack == if generating then f.stack + [Loop(m.nextId, f.code)] else f.stack
    requires CurrentTrace(m.heap[m.status.current], left, ex)
             == After(1, WaitTrace(f1.(waiting := true), FrameTrace(g, left - {m.nextId}, ex), left - {m.nextId}, ex))
    ensures Closer(m, path, left, Descended(m, f1, m.nextId, g, generating, m.nextId + 1),
                   path + [m.nextId], left - {m.nextId}, ex)
  {
    NewIsUnowned(m, path, left, ex);
    CallKeepsOwned(m, path, left, ex, f1, g, generating);
    DescendStep(m, path, left, ex, f1, m.nextId, g, generating, m.nextId + 1);
  }

  /** Starting a new coroutine. */
  lemma AwaitStep(m: Machine, path: seq<Id>, left: Left, ex: Strand)
    requires Inv(m, path, left, ex)
    requires var f := m.heap[m.status.current]; !f.waiting && (f.code.Await? || f.code.AwaitResult?)
    ensures CanStep(m)
    ensures Closer(m, path, left, Step(m), path + [m.nextId], left - {m.nextId}, ex)
  {
    SoundCurrent(m, path, left, ex);
    NewIsUnowned(m, path, left, ex);
    var f := m.heap[m.status.current];
    CallStarts(f, left, ex);
    NewFrameDescends(m, path, left, ex, f, NewFrame(f.code.child, f.local.value), false);
    CallDescends(m);
  }

  /** Starting a new generator, and the first `next()` on it. */
  lemma ForEachStep(m: Machine, path: seq<Id>, left: Left, ex: Strand)
    requires Inv(m, path, left, ex)
    requires var f := m.heap[m.status.current]; !f.waiting && f.code.ForEach?
    ensures CanStep(m)
    ensures Closer(m, path, left, Step(m), path + [m.nextId], left - {m.nextId}, ex)
  {
    SoundCurrent(m, path, left, ex);
    NewIsUnowned(m, path, left, ex);
    var f := m.heap[m.status.current];
    var f1 := f.(code := End, stack := f.stack + [Loop(m.nextId, f.code)]);
    LoopStarts(f, m.nextId, left, ex);
    NewFrameDescends(m, path, left, ex, f1, NewFrame(f.code.gen, f.local.value), true);
    LoopDescends(m);
  }

  /** What a loop whose body is over has left is one step, then the loop over what is left
      of its generator. */
  lemma LoopAsks(f: Frame, n: Id, g: Frame, left: Left, ex: Strand)
    requires !f.waiting && f.code.End? && f.stack != [] && Top(f).Loop? && Top(f).gen == n && Good(f.stack, left)
    requires Good(g.stack, left) && left[n] == FrameTrace(g, left, ex)
    requires Good(Below(f), left - {n}) && Good(g.stack, left - {n})
    ensures GoodWaiting(f.(waiting := true), left - {n})
    ensures CurrentTrace(f, left, ex)
         == After(1, WaitTrace(f.(waiting := true), FrameTrace(g, left - {n}, ex), left - {n}, ex))
  {
    var left', stmt := left - {n}, Top(f).stmt;
    StackFrame(g.stack, Run(g.code, g.local, ex), left, left', ex);
    assert f.stack == Below(f) + [Top(f)];
    StackPush(Below(f), Top(f), Ends(0, Fell(f.local)), left, ex);
    StackFrame(Below(f), After(1, OnNext(left[n], stmt, f.local, ex)), left, left', ex);
    StackAfter(1, Below(f), OnNext(left[n], stmt, f.local, ex), left', ex);
  }

  /** The loop body is over: `next()` on the generator of the loop. */
  lemma NextStep(m: Machine, path: seq<Id>, left: Left, ex: Strand)
    requires Inv(m, path, left, ex)
    requires var f := m.heap[m.status.current]; !f.waiting && f.code.End? && f.stack != [] && Top(f).Loop?
    ensures CanStep(m)
    ensures var n := Top(m.heap[m.status.current]).gen;
      Closer(m, path, left, Step(m), path + [n], left - {n}, ex)
  {
    SoundCurrent(m, path, left, ex);
    var c := m.status.current;
    var f := m.heap[c];
    var n := Top(f).gen;
    var g := m.heap[n];
    assert LoopAt(m.heap, c, |f.stack| - 1, n);
    forall i: nat | i < |Below(f)| && Below(f)[i].Loop? ensures Below(f)[i].gen in left - {n} {
      assert LoopAt(m.heap, c, i, f.stack[i].gen);
    }
    forall i: nat | i < |g.stack| && g.stack[i].Loop? ensures g.stack[i].gen in left - {n} {
      assert LoopAt(m.heap, n, i, g.stack[i].gen);
    }
    var heap' := Descended(m, f, n, g, true, m.nextId).heap;
    forall x, i: nat, h | LoopAt(heap', x, i, h) ensures LoopAt(m.heap, x, i, h) {
    }
    LoopAsks(f, n, g, left, ex);
    DescendStep(m, path, left, ex, f, n, g, true, m.nextId);
  }

  /** How the machine ends when the root has the given trace. */
  function StatusOf(t: Trace): CoroMachine.Status {
    match ResultOf(Final(t))
    case Value(v) => Halted(v)
    case Exception(e) => Terminated(e)
  }

  /** The last step of the root. */
  ghost predicate Ended(m: Machine, t: Trace) {
    && TotalSteps(t) == 0
    && m.status == StatusOf(t)
  }

  /** Statements that stay inside the frame. */
  lemma StatementStep(m: Machine, path: seq<Id>, left: Left, ex: Strand)
    requires Inv(m, path, left, ex)
    requires var f := m.heap[m.status.current];
      !f.waiting && (f.code.Do? || f.code.Branch? || f.code.Executor? || f.code.Try?)
    ensures CanStep(m) && Closer(m, path, left, Step(m), path, left, ex)
  {
    SoundCurrent(m, path, left, ex);
    var c := m.status.current;
    var f := m.heap[c];
    if f.code.Try? {
      TryStep(f, left, ex);
      LocalStep(m, path, left, ex, f.(code := f.code.body, stack := f.stack + [Handler(f.code)]));
    } else {
      var f' := Step(m).heap[c];
      SimpleStep(f, f', left, ex);
      LocalStep(m, path, left, ex, f');
    }
  }

  lemma RootEnds(m: Machine, path: seq<Id>, left: Left, ex: Strand)
    requires Inv(m, path, left, ex) && CanStep(m) && |path| == 1
    requires var f := m.heap[m.status.current];
      !f.waiting && f.stack == [] && (f.code.End? || f.code.Return? || f.code.Throw?)
    ensures Ended(Step(m), Total(m, path, left, ex))
  {
    assert path[..0] == [];
  }

  lemma LeavingIsLocal(m: Machine)
    requires CanStep(m)
    requires var f := m.heap[m.status.current];
      && !f.waiting && f.stack != [] && !(Top(f).Loop? && f.code.End?)
      && (f.code.End? || f.code.Return? || f.code.Throw?)
    ensures WellKinded(Top(m.heap[m.status.current]))
    ensures Step(m) == Put(m, m.status.current, AfterLeaving(m.heap[m.status.current]))
  {
  }

  lemma LeavingKeepsPromise(f: Frame)
    requires f.stack != [] && WellKinded(Top(f)) && (f.code.End? || f.code.Return? || f.code.Throw?)
    requires !(Top(f).Loop? && f.code.End?)
    ensures FewerLoops(f, AfterLeaving(f)) && SamePromise(f, AfterLeaving(f))
  {
  }

  lemma BlockStep(m: Machine, path: seq<Id>, left: Left, ex: Strand)
    requires Inv(m, path, left, ex)
    requires var f := m.heap[m.status.current];
      && !f.waiting && f.stack != [] && !(Top(f).Loop? && f.code.End?)
      && (f.code.End? || f.code.Return? || f.code.Throw?)
    ensures CanStep(m) && Closer(m, path, left, Step(m), path, left, ex)
  {
    SoundCurrent(m, path, left, ex);
    var f := m.heap[m.status.current];
    LeaveStep(f, left, ex);
    LeavingIsLocal(m);
    LeavingKeepsPromise(f);
    LocalStep(m, path, left, ex, AfterLeaving(f));
  }

  /** Blocks, and the end of the body. */
  lemma LeavingStep(m: Machine, path: seq<Id>, left: Left, ex: Strand) returns (path': seq<Id>, left': Left)
    requires Inv(m, path, left, ex)
    requires var f := m.heap[m.status.current]; !f.waiting && (f.code.End? || f.code.Return? || f.code.Throw?)
    ensures CanStep(m)
    ensures Ended(Step(m), Total(m, path, left, ex))
      || (Closer(m, path, left, Step(m), path', left', ex) && path'[0] == path[0])
  {
    SoundCurrent(m, path, left, ex);
    var f := m.heap[m.status.current];
    path', left' := path, left;
    if f.stack != [] && Top(f).Loop? && f.code.End? {
      NextStep(m, path, left, ex);
      path', left' := path + [Top(f).gen], left - {Top(f).gen};
    } else if f.stack != [] {
      BlockStep(m, path, left, ex);
    } else if |path| > 1 {
      FinishStep(m, path, left, ex);
      path' := path[..|path| - 1];
    } else {
      RootEnds(m, path, left, ex);
    }
  }

  lemma AwakeStep(m: Machine, path: seq<Id>, left: Left, ex: Strand)
    requires Inv(m, path, left, ex) && CanStep(m) && m.heap[m.status.current].waiting
    ensures Closer(m, path, left, Step(m), path, left, ex)
  {
    var f := m.heap[m.status.current];
    ResumeStep(f, left, ex);
    ResumeIsLocal(f);
    LocalStep(m, path, left, ex, Resume(f).value);
  }

  lemma ResumeIsLocal(f: Frame)
    requires f.waiting
    requires InLoop(f) ==> f.stack != [] && Top(f).Loop? && Top(f).stmt.ForEach?
    ensures Resume(f).Some? ==> FewerLoops(f, Resume(f).value) && SamePromise(f, Resume(f).value)
  {
  }

  lemma YieldTracks(m: Machine, path: seq<Id>, left: Left, ex: Strand) returns (path': seq<Id>, left': Left)
    requires Inv(m, path, left, ex) && CanStep(m)
    requires !m.heap[m.status.current].waiting && m.heap[m.status.current].code.Yield?
    ensures Closer(m, path, left, Step(m), path', left', ex) && path'[0] == path[0]
  {
    path', left' := path, left;
    if m.heap[m.status.current].generated.None? {
      IgnoredYieldStep(m, path, left, ex);
    } else {
      left' := YieldStep(m, path, left, ex);
      path' := path[..|path| - 1];
    }
  }

  lemma StepTracks(m: Machine, path: seq<Id>, left: Left, ex: Strand) returns (path': seq<Id>, left': Left)
    requires Inv(m, path, left, ex)
    ensures CanStep(m)
    ensures Ended(Step(m), Total(m, path, left, ex))
      || (Closer(m, path, left, Step(m), path', left', ex) && path'[0] == path[0])
  {
    SoundCurrent(m, path, left, ex);
    var f := m.heap[m.status.current];
    path', left' := path, left;
    if f.waiting {
      AwakeStep(m, path, left, ex);
    } else {
      match f.code {
        case Await(_, _) | AwaitResult(_, _, _) =>
          AwaitStep(m, path, left, ex);
          path', left' := path + [m.nextId], left - {m.nextId};
        case ForEach(_, _, _) =>
          ForEachStep(m, path, left, ex);
          path', left' := path + [m.nextId], left - {m.nextId};
        case Yield(_) =>
          path', left' := YieldTracks(m, path, left, ex);
        case End | Return | Throw => path', left' := LeavingStep(m, path, left, ex);
        case _ => StatementStep(m, path, left, ex);
      }
    }
  }

  // ---------------------------------------------------------------- main results

  lemma SpawnInv(code: Code, argument: int, ex: Strand)
    ensures Inv(Spawn(code, argument, ex), [0], map[], ex)
    ensures Total(Spawn(code, argument, ex), [0], map[], ex) == Run(code, Entry(argument), ex)
  {
    assert [0][..0] == [];
  }

  lemma StepManyUnfold(m: Machine, n: nat)
    requires n > 0 && CanStep(m)
    ensures StepMany(m, n) == StepMany(Step(m), n - 1)
    ensures !Step(m).status.Running? ==> StepMany(m, n) == Step(m)
  {
  }

  /** The machine is `k` counted steps and its last one away from `end`. */
  ghost predicate Counted(m: Machine, path: seq<Id>, left: Left, k: nat, ex: Strand, end: CoroMachine.Status) {
    Inv(m, path, left, ex) && TotalSteps(Total(m, path, left, ex)) == k && StatusOf(Total(m, path, left, ex)) == end
  }

  lemma CloserCounts(m: Machine, path: seq<Id>, left: Left, m': Machine, path': seq<Id>, left': Left,
                     k: nat, ex: Strand, end: CoroMachine.Status)
    requires Counted(m, path, left, k, ex, end) && Closer(m, path, left, m', path', left', ex)
    ensures k > 0 && Counted(m', path', left', k - 1, ex, end)
  {
  }

  lemma StepStaysCounted(m: Machine, path: seq<Id>, left: Left, k: nat, ex: Strand, end: CoroMachine.Status)
    returns (m': Machine, path': seq<Id>, left': Left)
    requires Counted(m, path, left, k, ex, end)
    ensures CanStep(m) && m' == Step(m)
    ensures if k == 0 then m'.status == end else Counted(m', path', left', k - 1, ex, end)
  {
    path', left' := StepTracks(m, path, left, ex);
    m' := Step(m);
    if !Ended(m', Total(m, path, left, ex)) {
      CloserCounts(m, path, left, m', path', left', k, ex, end);
    }
  }

  /** The count runs out at the end. */
  lemma {:induction false} CountsDown(m: Machine, path: seq<Id>, left: Left, k: nat, ex: Strand,
                                      end: CoroMachine.Status)
    requires Counted(m, path, left, k, ex, end) && !end.Running?
    ensures StepMany(m, k + 1).status == end
    decreases k
  {
    var m', path', left' := StepStaysCounted(m, path, left, k, ex, end);
    StepManyUnfold(m, k + 1);
    if k > 0 {
      CountsDown(m', path', left', k - 1, ex, end);
    }
  }

  /** The machine computes what direct evaluation computes: after exactly as many steps as
      the evaluation counts, the root has returned the value, or it has been terminated
      because an exception has left it. No assert fails and no empty result is taken on the
      way. */
  lemma MachineIsDirectEvaluation(code: Code, argument: int, ex: Strand)
    ensures StepMany(Spawn(code, argument, ex), TotalSteps(Run(code, Entry(argument), ex)) + 1).status
            == match ResultOf(Eval(code, Entry(argument), ex).1)
               case Value(v) => Halted(v)
               case Exception(e) => Terminated(e)
  {
    SpawnInv(code, argument, ex);
    var t := Run(code, Entry(argument), ex);
    CountsDown(Spawn(code, argument, ex), [0], map[], TotalSteps(t), ex, StatusOf(t));
    RunIsEval(code, Entry(argument), ex);
  }

  /** The machine is on its way to `end`. */
  ghost predicate Tracked(m: Machine, path: seq<Id>, left: Left, ex: Strand, end: CoroMachine.Status) {
    Inv(m, path, left, ex) && path[0] == 0 && StatusOf(Total(m, path, left, ex)) == end
  }

  ghost predicate TrackedOrEnded(m: Machine, path: seq<Id>, left: Left, ex: Strand, end: CoroMachine.Status) {
    if m.status.Running? then Tracked(m, path, left, ex, end) else m.status == end
  }

  lemma StepStaysOnTrack(m: Machine, path: seq<Id>, left: Left, ex: Strand, end: CoroMachine.Status)
    returns (m': Machine, path': seq<Id>, left': Left)
    requires Tracked(m, path, left, ex, end)
    ensures CanStep(m) && m' == Step(m) && TrackedOrEnded(m', path', left', ex, end)
  {
    path', left' := StepTracks(m, path, left, ex);
    m' := Step(m);
  }

  lemma StoppedStays(m: Machine, n: nat)
    requires !m.status.Running?
    ensures StepMany(m, n) == m
  {
  }

  /** A machine on its way stays on it until it stops. */
  lemma {:induction false} AlwaysTracked(m: Machine, path: seq<Id>, left: Left, ex: Strand,
                                         end: CoroMachine.Status, n: nat)
    returns (path': seq<Id>, left': Left)
    requires TrackedOrEnded(m, path, left, ex, end)
    ensures TrackedOrEnded(StepMany(m, n), path', left', ex, end)
    decreases n
  {
    path', left' := path, left;
    if !m.status.Running? {
      StoppedStays(m, n);
    } else if n > 0 {
      var m', p, l := StepStaysOnTrack(m, path, left, ex, end);
      path', left' := AlwaysTracked(m', p, l, ex, end, n - 1);
    }
  }

  /** A chain of callers that leads from the root to the current frame. */
  ghost predicate ChainFromRoot(m: Machine, path: seq<Id>, ex: Strand) {
    && path != [] && path[0] == 0 && m.status == Running(path[|path| - 1])
    && forall k :: 0 <= k < |path| ==>
         && path[k] in m.heap && m.heap[path[k]].executor == ex
         && m.heap[path[k]].prev == (if k == 0 then None else Some(path[k - 1]))
         && m.heap[path[k]].result == (if k == 0 then None else Some(path[k - 1]))
  }

  /** At any time: while it runs, a chain of callers leads to the root and every frame on
      it has the executor of the root; no assert fails, no empty result is taken, and it is
      terminated only if an exception escapes the root. */
  lemma EveryFrameRunsOnTheRootsStrand(code: Code, argument: int, ex: Strand, n: nat) returns (path: seq<Id>)
    ensures var m := StepMany(Spawn(code, argument, ex), n);
      match m.status
      case Running(_) => ChainFromRoot(m, path, ex)
      case Halted(v) => ResultOf(Eval(code, Entry(argument), ex).1) == Value(v)
      case Terminated(e) => ResultOf(Eval(code, Entry(argument), ex).1) == Exception(e)
      case _ => false
  {
    SpawnInv(code, argument, ex);
    RunIsEval(code, Entry(argument), ex);
    var end := StatusOf(Run(code, Entry(argument), ex));
    var p, l := AlwaysTracked(Spawn(code, argument, ex), [0], map[], ex, end, n);
    path := p;
    var m := StepMany(Spawn(code, argument, ex), n);
    if m.status.Running? {
      forall k | 0 < k < |path| ensures LinkedTo(m.heap, path[k], path[k - 1]) {
      }
    }
  }
}
