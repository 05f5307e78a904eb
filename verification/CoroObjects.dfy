/**
 The promise machine in place: coroutine objects whose links are set when they are awaited,
 and a scheduler that resumes whichever coroutine control has been transferred to.

 Every method is the corresponding function of `CoroMachine` on the state it finds.
 */
module CoroObjects {
  import opened Basics
  import opened CoroSemantics
  import opened CoroMachine
  import CoroCorrectness

  function IdOf(c: Coroutine?): Option<Id> {
    if c == null then None else Some(c.id)
  }

  function Place(c: Coroutine?): set<Coroutine> {
    if c == null then {} else {c}
  }

  class Coroutine {
    const id: Id
    var code: Code
    var local: Local
    var stack: seq<Ctl>
    // the awaitable this coroutine is suspended in
    var waiting: bool
    var slot: CoroMachine.Slot
    var genSlot: Option<int>
    // the promise
    var isVoid: bool
    var executor: Strand
    var prev: Coroutine?
    var result: Coroutine?
    var generated: Coroutine?
    var done: bool

    constructor (id: Id, code: Code, argument: int)
      ensures this.id == id && View() == NewFrame(code, argument)
      ensures prev == null && result == null && generated == null
    {
      this.id, this.code, local := id, code, Entry(argument);
      stack, waiting, slot, genSlot := [], false, Empty, None;
      isVoid, executor, prev, result, generated, done := false, 0, null, null, null, false;
    }

    function View(): Frame
      reads this
    {
      Frame(code, local, stack, waiting, slot, genSlot,
            isVoid, executor, IdOf(prev), IdOf(result), IdOf(generated), done)
    }

    /** No link and no loop leads from a coroutine to itself. */
    predicate Loopless()
      reads this
    {
      && result != this && generated != this
      && forall i :: 0 <= i < |stack| && stack[i].Loop? ==> stack[i].gen != id
    }

    /** `await_suspend` of the awaitable in `caller` for this coroutine. */
    method AwaitSuspend(caller: Coroutine, generating: bool)
      requires caller != this
      modifies this, caller
      ensures caller.View() == old(caller.View()).(waiting := true, slot := Empty, genSlot := None)
      ensures View() == old(View()).(result := Some(caller.id), executor := old(caller.executor),
                                     prev := Some(caller.id),
                                     generated := if generating then Some(caller.id) else old(IdOf(generated)))
      ensures result == prev == caller && generated == if generating then caller else old(generated)
      ensures caller.prev == old(caller.prev) && caller.result == old(caller.result)
      ensures caller.generated == old(caller.generated)
    {
      caller.waiting, caller.slot, caller.genSlot := true, Empty, None;
      result := caller;
      if generating {
        generated := caller;
      }
      executor := caller.executor;
      prev := caller;
    }

    function Links(): (Coroutine?, Coroutine?, Coroutine?)
      reads this
    {
      (prev, result, generated)
    }

    /** `return_value` and `return_void`: refused without a place for a value. */
    method ReturnValue() returns (stored: bool)
      requires result != this
      modifies this, Place(result)
      ensures stored <==> result != null || isVoid
      ensures View() == (if stored then old(View()).(done := true) else old(View())) && Links() == old(Links())
      ensures result != null ==>
        && result.View() == old(result.View()).(slot := Got(Value(local.value)))
        && result.Links() == old(result.Links())
    {
      stored := result != null || isVoid;
      if result != null {
        result.slot := Got(Value(local.value));
      }
      if stored {
        done := true;
      }
    }

    /** `unhandled_exception`: refused in a detached root. */
    method UnhandledException() returns (stored: bool)
      requires result != this
      modifies this, Place(result)
      ensures stored <==> result != null
      ensures View() == (if stored then old(View()).(done := true) else old(View())) && Links() == old(Links())
      ensures result != null ==>
        && result.View() == old(result.View()).(slot := Got(Exception(local.value)))
        && result.Links() == old(result.Links())
    {
      stored := result != null;
      if result != null {
        result.slot := Got(Exception(local.value));
        done := true;
      }
    }

    /** `yield_value`: the coroutine to continue with; this one goes on after the yield. */
    method YieldValue() returns (next: Coroutine?)
      requires generated != this && code.Yield?
      modifies this, Place(generated)
      ensures View() == old(View()).(code := old(code).rest) && Links() == old(Links())
      ensures generated != null ==>
        && generated.View() == old(generated.View()).(genSlot := Some(local.value))
        && generated.Links() == old(generated.Links())
      ensures next == if generated != null then prev else null
    {
      next := null;
      code := code.rest;
      if generated != null {
        generated.genSlot := Some(local.value);
        next := prev;
      }
    }

    method Execute()
      requires code.Do? || code.Branch? || code.Executor? || code.Try?
      modifies this
      ensures View() == AfterStatement(old(View()))
      ensures Links() == old(Links()) && (old(Loopless()) ==> Loopless())
    {
      match code {
        case Do(f, rest) => local, code := f(local), rest;
        case Branch(test, yes, no) => code := if test(local) then yes else no;
        case Executor(rest) => local, code := local.(value := executor), rest;
        case Try(body, _, _) => stack, code := stack + [Handler(code)], body;
      }
    }

    /** `await_resume`: the awaited result is taken or thrown; there may be none. */
    method Resume() returns (ok: bool)
      requires waiting
      requires !code.Await? && !code.AwaitResult? ==>
                 stack != [] && Top(View()).Loop? && Top(View()).stmt.ForEach?
      modifies this
      ensures match CoroMachine.Resume(old(View()))
              case Some(f) => ok && View() == f
              case None => !ok && View() == old(View())
      ensures Links() == old(Links()) && (old(Loopless()) ==> Loopless())
    {
      ok := true;
      if code.Await? || code.AwaitResult? {
        match slot {
          case Empty => return false;
          case Got(Value(v)) => local, code := local.(value := v), if code.Await? then code.rest else code.ok;
          case Got(Exception(e)) => local, code := local.(value := e), if code.Await? then Throw else code.err;
        }
      } else {
        var stmt := stack[|stack| - 1].stmt;
        if genSlot.Some? {
          local, code := local.(value := genSlot.value), stmt.body;
        } else {
          match slot {
            case Empty => return false;
            case Got(Value(v)) => local, code := local.(value := v), stmt.rest;
            case Got(Exception(e)) => local, code := local.(value := e), Throw;
          }
          stack := stack[..|stack| - 1];
        }
      }
      waiting := false;
    }

    /** The current block is left, unless that means asking a generator for more. */
    method LeaveBlock()
      requires (code.End? || code.Return? || code.Throw?) && stack != []
      requires CoroCorrectness.WellKinded(Top(View())) && !(Top(View()).Loop? && code.End?)
      modifies this
      ensures View() == CoroCorrectness.AfterLeaving(old(View()))
      ensures Links() == old(Links()) && (old(Loopless()) ==> Loopless())
    {
      var top := stack[|stack| - 1];
      stack := stack[..|stack| - 1];
      if !top.Loop? && code.End? {
        code := top.stmt.rest;
      } else if top.Handler? && code.Throw? {
        code := top.stmt.handler;
        stack := stack + [Block(top.stmt)];
      }
    }
  }

  /** What a coroutine looks like after a statement that concerns only itself. */
  function AfterStatement(f: Frame): Frame
    requires f.code.Do? || f.code.Branch? || f.code.Executor? || f.code.Try?
  {
    match f.code
    case Do(g, rest) => f.(local := g(f.local), code := rest)
    case Branch(test, yes, no) => f.(code := if test(f.local) then yes else no)
    case Executor(rest) => Handed(f, f.executor).(code := rest)
    case Try(body, _, _) => f.(code := body, stack := f.stack + [Handler(f.code)])
  }

  lemma StatementIsLocal(m: CoroMachine.Machine, c: Id, f: Frame)
    requires CanStep(m) && m.status == Running(c) && f == m.heap[c] && !f.waiting
    requires f.code.Do? || f.code.Branch? || f.code.Executor? || f.code.Try?
    ensures Step(m) == Put(m, c, AfterStatement(f))
  {
  }

  function Entered(f: Frame, gen: Id): Frame
    requires f.code.ForEach?
  {
    f.(code := End, stack := f.stack + [Loop(gen, f.code)])
  }

  lemma EnteringIsStep(m: CoroMachine.Machine, c: Id, f: Frame)
    requires CanStep(m) && m.status == Running(c) && f == m.heap[c] && !f.waiting && f.code.ForEach?
    ensures var e := Entered(f, m.nextId);
      Step(m) == CoroMachine.Suspend(Put(m, c, e).(nextId := m.nextId + 1), c, e, m.nextId,
                                     NewFrame(f.code.gen, f.local.value), true)
  {
  }

  lemma CallOverwrites(m: CoroMachine.Machine, m': CoroMachine.Machine, c: Id, f: Frame, n: Id, g: Frame,
                       generating: bool)
    requires n == m.nextId && c in m.heap && f == m.heap[c] && n !in m.heap
    requires m' == CoroMachine.Suspend(m.(heap := m.heap[n := g], nextId := n + 1), c, f, n, g, generating)
    ensures m' == CoroMachine.Suspend(m.(nextId := n + 1), c, f, n, g, generating)
  {
  }

  class Scheduler {
    var frames: map<Id, Coroutine>
    var nextId: Id
    var status: CoroMachine.Status
    /** What all of it amounts to. */
    ghost var state: CoroMachine.Machine

    predicate Known(c: Coroutine?)
      reads this`frames
    {
      c != null ==> c.id in frames && frames[c.id] == c
    }

    predicate Proper(c: Coroutine)
      reads this`frames, c
    {
      Known(c) && c.Loopless() && Known(c.prev) && Known(c.result) && Known(c.generated)
    }

    /** Coroutine `i` is in its place, leads only to known ones, and looks as it should. */
    ghost predicate Mirrors(i: Id, heap: map<Id, Frame>)
      reads this`frames, frames.Values
    {
      && i in frames && frames[i].id == i && Proper(frames[i])
      && i in heap && frames[i].View() == heap[i]
    }

    ghost predicate Valid()
      reads this, frames.Values
    {
      && state.heap.Keys == frames.Keys && state.nextId == nextId && state.status == status
      && (status.Running? ==> status.current in frames)
      && (forall i :: i in frames ==> i < nextId)
      && (forall i {:trigger Mirrors(i, state.heap)} :: i in frames ==> Mirrors(i, state.heap))
    }

    /** After a step that changes two coroutines, or one, and leads them only to known ones. */
    twostate lemma OthersMirror(changed: (Coroutine, Coroutine))
      requires old(Valid()) && frames == old(frames) && Proper(changed.0) && Proper(changed.1)
      requires forall i :: i in frames && frames[i] != changed.0 && frames[i] != changed.1 ==> unchanged(frames[i])
      requires state.heap == old(state.heap)[changed.0.id := changed.0.View()][changed.1.id := changed.1.View()]
      ensures forall i {:trigger Mirrors(i, state.heap)} :: i in frames ==> Mirrors(i, state.heap)
    {
      forall i | i in frames ensures Mirrors(i, state.heap) {
        assert old(Mirrors(i, state.heap));
        if frames[i] != changed.0 && frames[i] != changed.1 {
          assert unchanged(frames[i]) && Proper(frames[i]);
        }
      }
    }

    /** A detached root, resumed on a strand. */
    constructor (code: Code, argument: int, ex: Strand)
      ensures Valid() && fresh(frames.Values) && state == Spawn(code, argument, ex)
    {
      var root := new Coroutine(0, code, argument);
      root.isVoid, root.executor := true, ex;
      frames, nextId, status := map[0 := root], 1, Running(0);
      state := Spawn(code, argument, ex);
    }

    method Create(code: Code, argument: int) returns (c: Coroutine)
      requires Valid()
      modifies this`frames, this`nextId, this`state
      ensures Valid() && fresh(c) && frames == old(frames)[old(nextId) := c]
      ensures c.id == old(nextId) && c.View() == NewFrame(code, argument)
      ensures state == old(state).(heap := old(state.heap)[c.id := c.View()], nextId := old(nextId) + 1)
    {
      c := new Coroutine(nextId, code, argument);
      frames := frames[nextId := c];
      state := state.(heap := state.heap[nextId := c.View()], nextId := nextId + 1);
      nextId := nextId + 1;
      forall i | i in frames ensures Mirrors(i, state.heap) {
        assert i != c.id ==> old(Mirrors(i, state.heap));
      }
    }

    /** Control goes from `caller` to `callee`. */
    method Suspend(caller: Coroutine, callee: Coroutine, generating: bool)
      requires Valid() && Known(caller) && Known(callee) && caller != callee
      modifies this`status, this`state, caller, callee
      ensures Valid()
      ensures state == old(CoroMachine.Suspend(state, caller.id, caller.View(), callee.id, callee.View(), generating))
    {
      assert Mirrors(caller.id, state.heap) && Mirrors(callee.id, state.heap);
      state := CoroMachine.Suspend(state, caller.id, caller.View(), callee.id, callee.View(), generating);
      callee.AwaitSuspend(caller, generating);
      status := Running(callee.id);
      OthersMirror((caller, callee));
    }

    /** `final_suspend`: on to the previous coroutine, or none for the root. */
    method FinalSuspend(c: Coroutine)
      modifies this`status
      ensures status == if c.prev != null then Running(c.prev.id) else Halted(c.local.value)
    {
      status := if c.prev != null then Running(c.prev.id) else Halted(c.local.value);
    }

    method Return(c: Coroutine)
      requires Valid() && Known(c) && Mirrors(c.id, state.heap)
      modifies this`status, this`state, c, Place(c.result)
      ensures Valid()
      ensures state == old(CoroMachine.ReturnValue(state, c.id, c.View()))
    {
      if c.result != null {
        ReturnTo(c);
      } else {
        ReturnDetached(c);
      }
    }

    method ReturnTo(c: Coroutine)
      requires Valid() && Known(c) && Mirrors(c.id, state.heap) && c.result != null
      modifies this`status, this`state, c, c.result
      ensures Valid()
      ensures state == old(CoroMachine.ReturnValue(state, c.id, c.View()))
    {
      assert Mirrors(c.result.id, state.heap);
      state := CoroMachine.ReturnValue(state, c.id, c.View());
      var _ := c.ReturnValue();
      FinalSuspend(c);
      OthersMirror((c, c.result));
    }

    method ReturnDetached(c: Coroutine)
      requires Valid() && Known(c) && Mirrors(c.id, state.heap) && c.result == null
      modifies this`status, this`state, c
      ensures Valid()
      ensures state == old(CoroMachine.ReturnValue(state, c.id, c.View()))
    {
      state := CoroMachine.ReturnValue(state, c.id, c.View());
      var stored := c.ReturnValue();
      if stored {
        FinalSuspend(c);
      } else {
        status := AssertFailed;
      }
      OthersMirror((c, c));
    }

    method Fail(c: Coroutine)
      requires Valid() && Known(c) && Mirrors(c.id, state.heap)
      modifies this`status, this`state, c, Place(c.result)
      ensures Valid()
      ensures state == old(CoroMachine.UnhandledException(state, c.id, c.View()))
    {
      if c.result != null {
        FailTo(c);
      } else {
        FailDetached(c);
      }
    }

    method FailTo(c: Coroutine)
      requires Valid() && Known(c) && Mirrors(c.id, state.heap) && c.result != null
      modifies this`status, this`state, c, c.result
      ensures Valid()
      ensures state == old(CoroMachine.UnhandledException(state, c.id, c.View()))
    {
      assert Mirrors(c.result.id, state.heap);
      state := CoroMachine.UnhandledException(state, c.id, c.View());
      var _ := c.UnhandledException();
      FinalSuspend(c);
      OthersMirror((c, c.result));
    }

    method FailDetached(c: Coroutine)
      requires Valid() && Known(c) && Mirrors(c.id, state.heap) && c.result == null
      modifies this`status, this`state, c
      ensures Valid()
      ensures state == old(CoroMachine.UnhandledException(state, c.id, c.View()))
    {
      state := CoroMachine.UnhandledException(state, c.id, c.View());
      var _ := c.UnhandledException();
      status := Terminated(c.local.value);
      OthersMirror((c, c));
    }

    method Yield(c: Coroutine)
      requires Valid() && Known(c) && Mirrors(c.id, state.heap) && c.code.Yield?
      modifies this`status, this`state, c, Place(c.generated)
      ensures Valid()
      ensures state == old(CoroMachine.YieldValue(state, c.id, c.View()))
    {
      if c.generated == null {
        YieldNowhere(c);
      } else if c.prev != null {
        YieldTo(c);
      } else {
        YieldUnawaited(c);
      }
    }

    method YieldTo(c: Coroutine)
      requires Valid() && Known(c) && Mirrors(c.id, state.heap)
      requires c.code.Yield? && c.generated != null && c.prev != null
      modifies this`status, this`state, c, c.generated
      ensures Valid()
      ensures state == old(CoroMachine.YieldValue(state, c.id, c.View()))
    {
      assert Mirrors(c.generated.id, state.heap);
      state := CoroMachine.YieldValue(state, c.id, c.View());
      status := Running(c.prev.id);
      var next := c.YieldValue();
      assert next == c.prev;
      OthersMirror((c, c.generated));
    }

    method YieldUnawaited(c: Coroutine)
      requires Valid() && Known(c) && Mirrors(c.id, state.heap)
      requires c.code.Yield? && c.generated != null && c.prev == null
      modifies this`status, this`state, c, c.generated
      ensures Valid()
      ensures state == old(CoroMachine.YieldValue(state, c.id, c.View()))
    {
      assert Mirrors(c.generated.id, state.heap);
      state := CoroMachine.YieldValue(state, c.id, c.View());
      var _ := c.YieldValue();
      OthersMirror((c, c.generated));
    }

    method YieldNowhere(c: Coroutine)
      requires Valid() && Known(c) && Mirrors(c.id, state.heap) && c.code.Yield? && c.generated == null
      modifies this`status, this`state, c
      ensures Valid()
      ensures state == old(CoroMachine.YieldValue(state, c.id, c.View()))
    {
      state := CoroMachine.YieldValue(state, c.id, c.View());
      var _ := c.YieldValue();
      OthersMirror((c, c));
    }

    /** A statement that concerns its coroutine only. */
    method Execute(c: Coroutine)
      requires Valid() && Known(c) && Mirrors(c.id, state.heap) && status == Running(c.id)
      requires !c.waiting && (c.code.Do? || c.code.Branch? || c.code.Executor? || c.code.Try?)
      requires CanStep(state)
      modifies this`state, c
      ensures Valid()
      ensures state == old(CoroMachine.Step(state))
    {
      StatementIsLocal(state, c.id, c.View());
      c.Execute();
      state := Put(state, c.id, c.View());
      OthersMirror((c, c));
    }

    method Awake(c: Coroutine)
      requires Valid() && Known(c) && Mirrors(c.id, state.heap) && status == Running(c.id)
      requires c.waiting && CanStep(state)
      modifies this`state, this`status, c
      ensures Valid()
      ensures state == old(CoroMachine.Step(state))
    {
      state := CoroMachine.Step(state);
      var ok := c.Resume();
      if !ok {
        status := EmptyResult;
      }
      OthersMirror((c, c));
    }

    method Leave(c: Coroutine)
      requires Valid() && Known(c) && Mirrors(c.id, state.heap) && status == Running(c.id)
      requires !c.waiting && (c.code.End? || c.code.Return? || c.code.Throw?) && c.stack != []
      requires CanStep(state) && !(Top(c.View()).Loop? && c.code.End?)
      modifies this`state, c
      ensures Valid()
      ensures state == old(CoroMachine.Step(state))
    {
      CoroCorrectness.LeavingIsLocal(state);
      c.LeaveBlock();
      state := Put(state, c.id, c.View());
      OthersMirror((c, c));
    }

    /** Awaiting a new coroutine, whose frame is made first. */
    method Call(c: Coroutine, code: Code, generating: bool)
      requires Valid() && Known(c) && Mirrors(c.id, state.heap)
      modifies this, c
      ensures Valid() && fresh(frames.Values - old(frames.Values))
      ensures state == old(CoroMachine.Suspend(state.(nextId := nextId + 1), c.id, c.View(), nextId,
                                               NewFrame(code, c.local.value), generating))
    {
      ghost var m, f := state, c.View();
      var callee := Create(code, c.local.value);
      assert Mirrors(c.id, state.heap);
      assert callee.id == m.nextId && c.View() == f;
      assert state == m.(heap := m.heap[callee.id := callee.View()], nextId := m.nextId + 1);
      Suspend(c, callee, generating);
      CallOverwrites(m, state, c.id, f, m.nextId, NewFrame(code, f.local.value), generating);
    }

    method OpenLoop(c: Coroutine)
      requires Valid() && Known(c) && Mirrors(c.id, state.heap) && c.code.ForEach?
      modifies this`state, c
      ensures Valid()
      ensures state == old(Put(state, c.id, Entered(c.View(), nextId)))
      ensures c.View() == old(Entered(c.View(), nextId)) && Mirrors(c.id, state.heap)
    {
      c.stack, c.code := c.stack + [Loop(nextId, c.code)], End;
      state := Put(state, c.id, c.View());
      OthersMirror((c, c));
    }

    /** A new generator is made and asked for its first value. */
    method EnterLoop(c: Coroutine)
      requires Valid() && Known(c) && Mirrors(c.id, state.heap) && status == Running(c.id)
      requires !c.waiting && c.code.ForEach? && CanStep(state)
      modifies this, c
      ensures Valid() && fresh(frames.Values - old(frames.Values))
      ensures state == CoroMachine.Step(old(state))
    {
      EnteringIsStep(state, c.id, c.View());
      var gen := c.code.gen;
      OpenLoop(c);
      Call(c, gen, true);
    }

    /** The end of a block, or of the body. */
    method StepOut(c: Coroutine)
      requires Valid() && Known(c) && Mirrors(c.id, state.heap) && status == Running(c.id)
      requires !c.waiting && (c.code.End? || c.code.Return? || c.code.Throw?) && CanStep(state)
      modifies this`status, this`state, frames.Values
      ensures Valid()
      ensures state == CoroMachine.Step(old(state))
    {
      if c.stack == [] {
        if c.code.Throw? {
          Fail(c);
        } else {
          Return(c);
        }
      } else {
        var top := c.stack[|c.stack| - 1];
        if top.Loop? && c.code.End? {
          assert Mirrors(top.gen, state.heap);
          Suspend(c, frames[top.gen], true);
        } else {
          Leave(c);
        }
      }
    }

    /** Another coroutine is called and control goes to it. */
    method Descend(c: Coroutine)
      requires Valid() && Known(c) && Mirrors(c.id, state.heap) && status == Running(c.id)
      requires !c.waiting && (c.code.Await? || c.code.AwaitResult? || c.code.ForEach?) && CanStep(state)
      modifies this, c
      ensures Valid() && fresh(frames.Values - old(frames.Values))
      ensures state == CoroMachine.Step(old(state))
    {
      if c.code.ForEach? {
        EnterLoop(c);
      } else {
        Call(c, c.code.child, false);
      }
    }

    /** One step of the coroutine control is at. */
    method Step()
      requires Valid() && CanStep(state)
      modifies this, frames.Values
      ensures Valid() && fresh(frames.Values - old(frames.Values))
      ensures state == CoroMachine.Step(old(state))
    {
      assert Mirrors(status.current, state.heap);
      var c := frames[status.current];
      if c.waiting {
        Awake(c);
        return;
      }
      match c.code {
        case Do(_, _) => Execute(c);
        case Branch(_, _, _) => Execute(c);
        case Executor(_) => Execute(c);
        case Try(_, _, _) => Execute(c);
        case Yield(_) => Yield(c);
        case Await(_, _) => Descend(c);
        case AwaitResult(_, _, _) => Descend(c);
        case ForEach(_, _, _) => Descend(c);
        case _ => StepOut(c);
      }
    }
  }

  lemma {:induction false} StepManyMore(m: CoroMachine.Machine, n: nat)
    requires CanStep(StepMany(m, n))
    ensures StepMany(m, n + 1) == CoroMachine.Step(StepMany(m, n))
    decreases n
  {
    if n > 0 && CanStep(m) {
      StepManyMore(CoroMachine.Step(m), n - 1);
    }
  }

  /** The machine after `n` steps of a detached coroutine. */
  ghost function Reached(code: Code, argument: int, ex: Strand, n: nat): CoroMachine.Machine {
    StepMany(Spawn(code, argument, ex), n)
  }

  /** A root that is still running can go on, and is not at its last step yet. */
  lemma RunningGoesOn(code: Code, argument: int, ex: Strand, n: nat)
    requires Reached(code, argument, ex, n).status.Running?
    ensures CanStep(Reached(code, argument, ex, n))
    ensures Reached(code, argument, ex, n + 1) == CoroMachine.Step(Reached(code, argument, ex, n))
    ensures n != TotalSteps(Run(code, Entry(argument), ex)) + 1
  {
    var m, end := Spawn(code, argument, ex), CoroCorrectness.StatusOf(Run(code, Entry(argument), ex));
    CoroCorrectness.SpawnInv(code, argument, ex);
    var path, left := CoroCorrectness.AlwaysTracked(m, [0], map[], ex, end, n);
    var _, _, _ := CoroCorrectness.StepStaysOnTrack(Reached(code, argument, ex, n), path, left, ex, end);
    StepManyMore(m, n);
    CoroCorrectness.MachineIsDirectEvaluation(code, argument, ex);
  }

  lemma EndIsResult(code: Code, argument: int, ex: Strand, n: nat)
    requires !Reached(code, argument, ex, n).status.Running?
    ensures match Reached(code, argument, ex, n).status
            case Halted(v) => ResultOf(Eval(code, Entry(argument), ex).1) == Value(v)
            case Terminated(e) => ResultOf(Eval(code, Entry(argument), ex).1) == Exception(e)
            case _ => false
  {
    var path := CoroCorrectness.EveryFrameRunsOnTheRootsStrand(code, argument, ex, n);
  }

  method Advance(scheduler: Scheduler, code: Code, argument: int, ex: Strand, ghost n: nat)
    requires scheduler.Valid() && scheduler.status.Running?
    requires scheduler.state == Reached(code, argument, ex, n)
    modifies scheduler, scheduler.frames.Values
    ensures scheduler.Valid() && fresh(scheduler.frames.Values - old(scheduler.frames.Values))
    ensures scheduler.state == Reached(code, argument, ex, n + 1)
    ensures n != TotalSteps(Run(code, Entry(argument), ex)) + 1
  {
    RunningGoesOn(code, argument, ex, n);
    scheduler.Step();
  }

  /** A detached coroutine, run on objects until control returns to its strand: it ends, and
      with the result of evaluating its body directly. */
  method RunDetached(code: Code, argument: int, ex: Strand) returns (r: Result)
    ensures r == ResultOf(Eval(code, Entry(argument), ex).1)
  {
    ghost var n, total := 0, TotalSteps(Run(code, Entry(argument), ex)) + 1;
    var scheduler := new Scheduler(code, argument, ex);
    while scheduler.status.Running?
      invariant fresh(scheduler) && fresh(scheduler.frames.Values) && scheduler.Valid()
      invariant n <= total && scheduler.state == Reached(code, argument, ex, n)
      decreases total - n
    {
      Advance(scheduler, code, argument, ex, n);
      n := n + 1;
    }
    EndIsResult(code, argument, ex, n);
    match scheduler.status {
      case Halted(v) => r := Value(v);
      case Terminated(e) => r := Exception(e);
    }
  }
}
