/**
 The promise machine: every coroutine is a frame with its promise, awaitables live in the
 frame that awaits, and control passes between frames by symmetric transfer. The three
 links of a promise are set when it is awaited and followed when it yields or ends.
 */
module CoroMachine {
  import opened Basics
  import opened CoroSemantics

  type Id = nat

  /** What a frame still has to do when its current block is left. */
  datatype Ctl =
    | Handler(stmt: Code)          // inside the body of a try statement
    | Block(stmt: Code)            // inside its handler
    | Loop(gen: Id, stmt: Code)    // inside the body of a loop over a generator

  datatype Slot = Empty | Got(result: Result)

  datatype Frame = Frame(
    // the body
    code: Code, local: Local, stack: seq<Ctl>,
    // the awaitable this frame is suspended in
    waiting: bool, slot: Slot, genSlot: Option<int>,
    // the promise
    isVoid: bool, executor: Strand, prev: Option<Id>, result: Option<Id>, generated: Option<Id>,
    done: bool)

  datatype Status =
    | Running(current: Id)
    | Halted(value: int)         // the root has returned
    | Terminated(error: int)     // an exception has left the root
    | AssertFailed               // a value returned without a place to put it
    | EmptyResult                // a result taken before there was one

  datatype Machine = Machine(heap: map<Id, Frame>, nextId: Id, status: Status)

  /** The links of a frame lead to frames, and its control entries are statements of the
      right kind. */
  predicate Sound(f: Frame, heap: map<Id, Frame>) {
    && (f.result.Some? ==> f.result.value in heap)
    && (f.generated.Some? ==> f.generated.value in heap)
    && (forall i :: 0 <= i < |f.stack| ==>
          if f.stack[i].Loop? then f.stack[i].stmt.ForEach? && f.stack[i].gen in heap else f.stack[i].stmt.Try?)
    && (f.waiting && !f.code.Await? && !f.code.AwaitResult? ==>
          f.stack != [] && f.stack[|f.stack| - 1].Loop?)
  }

  predicate CanStep(m: Machine) {
    && m.status.Running? && m.status.current in m.heap
    && Sound(m.heap[m.status.current], m.heap)
  }

  /** A promise that is suspended before its first statement. */
  function NewFrame(code: Code, argument: int): Frame {
    Frame(code, Entry(argument), [], false, Empty, None, false, 0, None, None, None, false)
  }

  /** A detached root of type `coro<void>`, as spawned on a strand. */
  function Spawn(code: Code, argument: int, ex: Strand): Machine {
    Machine(map[0 := NewFrame(code, argument).(isVoid := true, executor := ex)], 1, Running(0))
  }

  function Put(m: Machine, id: Id, f: Frame): Machine {
    m.(heap := m.heap[id := f])
  }

  /** `await_suspend`: the awaitable in `caller` is empty, and the promise of `callee` is
      linked to it; `next()` also links the place for a generated value. */
  function Suspend(m: Machine, caller: Id, f: Frame, callee: Id, g: Frame, generating: bool): Machine {
    var waiting := f.(waiting := true, slot := Empty, genSlot := None);
    var linked := g.(result := Some(caller), executor := f.executor, prev := Some(caller),
                     generated := if generating then Some(caller) else g.generated);
    m.(heap := m.heap[caller := waiting][callee := linked], status := Running(callee))
  }

  /** `opt_transfer`: to the previous coroutine, or none for the root. */
  function FinalSuspend(m: Machine, f: Frame, value: int): Machine {
    m.(status := if f.prev.Some? then Running(f.prev.value) else Halted(value))
  }

  function ReturnValue(m: Machine, c: Id, f: Frame): Machine
    requires f.result.Some? ==> f.result.value in m.heap
  {
    if f.result.None? then
      if f.isVoid then FinalSuspend(Put(m, c, f.(done := true)), f, f.local.value) else m.(status := AssertFailed)
    else
      var target := m.heap[f.result.value].(slot := Got(Value(f.local.value)));
      FinalSuspend(Put(Put(m, c, f.(done := true)), f.result.value, target), f, f.local.value)
  }

  function UnhandledException(m: Machine, c: Id, f: Frame): Machine
    requires f.result.Some? ==> f.result.value in m.heap
  {
    if f.result.None? then m.(status := Terminated(f.local.value))
    else
      var target := m.heap[f.result.value].(slot := Got(Exception(f.local.value)));
      FinalSuspend(Put(Put(m, c, f.(done := true)), f.result.value, target), f, f.local.value)
  }

  function YieldValue(m: Machine, c: Id, f: Frame): Machine
    requires f.code.Yield? && (f.generated.Some? ==> f.generated.value in m.heap)
  {
    var resumed := f.(code := f.code.rest);
    if f.generated.None? then Put(m, c, resumed)
    else
      var target := m.heap[f.generated.value].(genSlot := Some(f.local.value));
      var m' := Put(Put(m, c, resumed), f.generated.value, target);
      if f.prev.Some? then m'.(status := Running(f.prev.value)) else m'
  }

  function Top(f: Frame): Ctl
    requires f.stack != []
  {
    f.stack[|f.stack| - 1]
  }

  function Popped(f: Frame): Frame
    requires f.stack != []
  {
    f.(stack := f.stack[..|f.stack| - 1])
  }

  /** A frame that is handed a value keeps its variables. */
  function Handed(f: Frame, value: int): Frame {
    f.(local := f.local.(value := value))
  }

  /** `await_resume` of the awaitable the frame is suspended in. */
  function Resume(f: Frame): Option<Frame>
    requires f.waiting
    requires !f.code.Await? && !f.code.AwaitResult? ==> f.stack != [] && Top(f).Loop? && Top(f).stmt.ForEach?
  {
    var awake := f.(waiting := false);
    if f.code.Await? || f.code.AwaitResult? then
      match f.slot
      case Empty => None
      case Got(Value(v)) => Some(Handed(awake, v).(code := if f.code.Await? then f.code.rest else f.code.ok))
      case Got(Exception(e)) => Some(Handed(awake, e).(code := if f.code.Await? then Throw else f.code.err))
    else if f.genSlot.Some? then Some(Handed(awake, f.genSlot.value).(code := Top(f).stmt.body))
    else
      match f.slot
      case Empty => None
      case Got(Value(v)) => Some(Handed(Popped(awake), v).(code := Top(f).stmt.rest))
      case Got(Exception(e)) => Some(Handed(Popped(awake), e).(code := Throw))
  }

  /** The current block is left by falling through, returning or throwing. */
  function Leave(m: Machine, c: Id, f: Frame): Machine
    requires f.code.End? || f.code.Return? || f.code.Throw?
    requires f.stack != [] && (Top(f).Loop? ==> Top(f).gen in m.heap && Top(f).stmt.ForEach?)
    requires !Top(f).Loop? ==> Top(f).stmt.Try?
  {
    match Top(f)
    case Loop(g, _) =>
      if f.code.End? then Suspend(m, c, f, g, m.heap[g], true) else Put(m, c, Popped(f))
    case Block(stmt) =>
      if f.code.End? then Put(m, c, Popped(f).(code := stmt.rest)) else Put(m, c, Popped(f))
    case Handler(stmt) =>
      if f.code.End? then Put(m, c, Popped(f).(code := stmt.rest))
      else if f.code.Throw? then
        Put(m, c, f.(code := stmt.handler, stack := Popped(f).stack + [Block(stmt)]))
      else Put(m, c, Popped(f))
  }

  function Step(m: Machine): Machine
    requires CanStep(m)
  {
    var c := m.status.current;
    var f := m.heap[c];
    if f.waiting then
      var resumed := Resume(f);
      if resumed.Some? then Put(m, c, resumed.value) else m.(status := EmptyResult)
    else
      match f.code
      case Do(g, rest) => Put(m, c, f.(local := g(f.local), code := rest))
      case Branch(test, yes, no) => Put(m, c, f.(code := if test(f.local) then yes else no))
      case Executor(rest) => Put(m, c, Handed(f, f.executor).(code := rest))
      case Yield(_) => YieldValue(m, c, f)
      case Await(child, _) =>
        Suspend(m.(nextId := m.nextId + 1), c, f, m.nextId, NewFrame(child, f.local.value), false)
      case AwaitResult(child, _, _) =>
        Suspend(m.(nextId := m.nextId + 1), c, f, m.nextId, NewFrame(child, f.local.value), false)
      case Try(body, _, _) => Put(m, c, f.(code := body, stack := f.stack + [Handler(f.code)]))
      case ForEach(gen, _, _) =>
        var entered := f.(code := End, stack := f.stack + [Loop(m.nextId, f.code)]);
        Suspend(m.(nextId := m.nextId + 1), c, entered, m.nextId, NewFrame(gen, f.local.value), true)
      case _ =>
        if f.stack != [] then Leave(m, c, f)
        else if f.code.Throw? then UnhandledException(m, c, f)
        else ReturnValue(m, c, f)
  }

  function StepMany(m: Machine, n: nat): Machine
    decreases n
  {
    if n == 0 || !CanStep(m) then m else StepMany(Step(m), n - 1)
  }
}
