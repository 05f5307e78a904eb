/**
 Coroutine bodies and what they mean in direct style: a call returns a value or throws, and
 a generator is the list of the values it yields followed by its result.

 `Run` is the same evaluation with a count of machine steps, split at the yields.
 */
module CoroSemantics {
  type Strand = int

  /** The variables of a frame, and the value it was handed last: its argument, or what an
      await, a `next()` or a catch gave it. They outlive every suspension. */
  datatype Local = Local(value: int, vars: map<string, int>)

  /** The frame of a new call. */
  function Entry(argument: int): Local {
    Local(argument, map[])
  }

  /** A body. Between suspensions it computes anything on its variables. A block that reaches
      `End` falls through; a body that does returns its value. */
  datatype Code =
    | End
    | Do(f: Local -> Local, rest: Code)
    | Branch(test: Local -> bool, yes: Code, no: Code)
    | Executor(rest: Code)                              // the strand the coroutine runs on
    | Return
    | Throw
    | Yield(rest: Code)
    | Await(child: Code, rest: Code)                    // rethrows what the child throws
    | AwaitResult(child: Code, ok: Code, err: Code)     // the result as a value
    | Try(body: Code, handler: Code, rest: Code)
    | ForEach(gen: Code, body: Code, rest: Code)        // next() until the generator returns

  /** How a block is left. A handler goes on with the variables as they were at the throw. */
  datatype Outcome = Fell(local: Local) | Returned(value: int) | Threw(local: Local)
  datatype Result = Value(value: int) | Exception(error: int)

  function ResultOf(o: Outcome): Result {
    match o
    case Fell(l) => Value(l.value)
    case Returned(v) => Value(v)
    case Threw(l) => Exception(l.value)
  }

  // ---------------------------------------------------------------- direct evaluation

  /** The values yielded and the outcome. */
  function Eval(code: Code, l: Local, ex: Strand): (seq<int>, Outcome)
    decreases code
  {
    match code
    case End => ([], Fell(l))
    case Do(f, rest) => Eval(rest, f(l), ex)
    case Branch(test, yes, no) => if test(l) then Eval(yes, l, ex) else Eval(no, l, ex)
    case Executor(rest) => Eval(rest, l.(value := ex), ex)
    case Return => ([], Returned(l.value))
    case Throw => ([], Threw(l))
    case Yield(rest) => Before([l.value], Eval(rest, l, ex))
    case Await(child, rest) =>
      (match ResultOf(Eval(child, Entry(l.value), ex).1)
       case Value(v) => Eval(rest, l.(value := v), ex)
       case Exception(e) => ([], Threw(l.(value := e))))
    case AwaitResult(child, ok, err) =>
      (match ResultOf(Eval(child, Entry(l.value), ex).1)
       case Value(v) => Eval(ok, l.(value := v), ex)
       case Exception(e) => Eval(err, l.(value := e), ex))
    case Try(body, handler, rest) =>
      var (ys, o) := Eval(body, l, ex);
      (match o
       case Fell(m) => Before(ys, Eval(rest, m, ex))
       case Returned(_) => (ys, o)
       case Threw(m) =>
         var (hs, ho) := Eval(handler, m, ex);
         if ho.Fell? then Before(ys + hs, Eval(rest, ho.local, ex)) else (ys + hs, ho))
    case ForEach(gen, _, _) =>
      var (gs, go) := Eval(gen, Entry(l.value), ex);
      EvalLoop(gs, ResultOf(go), code, l, ex)
  }

  function Before(ys: seq<int>, r: (seq<int>, Outcome)): (seq<int>, Outcome) {
    (ys + r.0, r.1)
  }

  /** The loop over the generated values that are left, with the variables it has reached. */
  function EvalLoop(gs: seq<int>, end: Result, loop: Code, l: Local, ex: Strand): (seq<int>, Outcome)
    requires loop.ForEach?
    decreases loop, |gs|
  {
    if gs == [] then
      match end
      case Value(v) => Eval(loop.rest, l.(value := v), ex)
      case Exception(e) => ([], Threw(l.(value := e)))
    else
      var (ys, o) := Eval(loop.body, l.(value := gs[0]), ex);
      if o.Fell? then Before(ys, EvalLoop(gs[1..], end, loop, o.local, ex)) else (ys, o)
  }

  // ---------------------------------------------------------------- evaluation with steps

  /** Steps up to the next yield or to the end. */
  datatype Trace =
    | Ends(steps: nat, outcome: Outcome)
    | Yields(steps: nat, value: int, next: Trace)

  function After(n: nat, t: Trace): Trace {
    match t
    case Ends(s, o) => Ends(n + s, o)
    case Yields(s, v, next) => Yields(n + s, v, next)
  }

  function TotalSteps(t: Trace): nat {
    match t
    case Ends(s, _) => s
    case Yields(s, _, next) => s + TotalSteps(next)
  }

  function Values(t: Trace): seq<int> {
    match t
    case Ends(_, _) => []
    case Yields(_, v, next) => [v] + Values(next)
  }

  function Final(t: Trace): Outcome {
    match t
    case Ends(_, o) => o
    case Yields(_, _, next) => Final(next)
  }

  function Run(code: Code, l: Local, ex: Strand): Trace
    decreases code
  {
    match code
    case End => Ends(0, Fell(l))
    case Do(f, rest) => After(1, Run(rest, f(l), ex))
    case Branch(test, yes, no) => After(1, if test(l) then Run(yes, l, ex) else Run(no, l, ex))
    case Executor(rest) => After(1, Run(rest, l.(value := ex), ex))
    case Return => Ends(0, Returned(l.value))
    case Throw => Ends(0, Threw(l))
    case Yield(rest) => Yields(1, l.value, Run(rest, l, ex))
    case Await(child, _) => After(1, OnAwait(Run(child, Entry(l.value), ex), code, l, ex))
    case AwaitResult(child, _, _) => After(1, OnAwait(Run(child, Entry(l.value), ex), code, l, ex))
    case Try(body, _, _) => After(1, OnTry(Run(body, l, ex), code, ex))
    case ForEach(gen, _, _) => After(1, OnNext(Run(gen, Entry(l.value), ex), code, l, ex))
  }

  /** The awaited body runs as `t`, finishes in one step and is picked up in another. */
  function OnAwait(t: Trace, stmt: Code, l: Local, ex: Strand): Trace
    requires stmt.Await? || stmt.AwaitResult?
    decreases stmt, 0
  {
    After(TotalSteps(t) + 1, PickUp(ResultOf(Final(t)), stmt, l, ex))
  }

  function PickUp(r: Result, stmt: Code, l: Local, ex: Strand): Trace
    requires stmt.Await? || stmt.AwaitResult?
    decreases stmt, 0, 0
  {
    After(1,
      match r
      case Value(v) => Run(if stmt.Await? then stmt.rest else stmt.ok, l.(value := v), ex)
      case Exception(e) =>
        if stmt.Await? then Ends(0, Threw(l.(value := e))) else Run(stmt.err, l.(value := e), ex))
  }

  /** A protected block running as `t`: leaving it takes one step. */
  function OnTry(t: Trace, stmt: Code, ex: Strand): Trace
    requires stmt.Try?
    decreases stmt, 1, t
  {
    match t
    case Yields(s, v, next) => Yields(s, v, OnTry(next, stmt, ex))
    case Ends(s, o) =>
      match o
      case Fell(l) => After(s + 1, Run(stmt.rest, l, ex))
      case Returned(_) => Ends(s + 1, o)
      case Threw(l) => After(s + 1, OnHandler(Run(stmt.handler, l, ex), stmt, ex))
  }

  /** The handler running as `t`, to be followed by what comes after the block. */
  function OnHandler(t: Trace, stmt: Code, ex: Strand): Trace
    requires stmt.Try?
    decreases stmt, 0, t
  {
    match t
    case Yields(s, v, next) => Yields(s, v, OnHandler(next, stmt, ex))
    case Ends(s, o) => if o.Fell? then After(s + 1, Run(stmt.rest, o.local, ex)) else Ends(s + 1, o)
  }

  /** The generator running as `g` up to its next yield or its end; `l` are the variables of
      the loop. */
  function OnNext(g: Trace, stmt: Code, l: Local, ex: Strand): Trace
    requires stmt.ForEach?
    decreases stmt, 1, g, 0
  {
    match g
    case Yields(s, v, next) => After(s, Deliver(v, next, stmt, l, ex))
    case Ends(s, o) => After(s + 1, Finish(ResultOf(o), stmt, l, ex))
  }

  function Deliver(v: int, g: Trace, stmt: Code, l: Local, ex: Strand): Trace
    requires stmt.ForEach?
    decreases stmt, 1, g, 2
  {
    After(1, OnBody(Run(stmt.body, l.(value := v), ex), g, stmt, ex))
  }

  function Finish(r: Result, stmt: Code, l: Local, ex: Strand): Trace
    requires stmt.ForEach?
    decreases stmt, 0
  {
    After(1,
      match r
      case Value(v) => Run(stmt.rest, l.(value := v), ex)
      case Exception(e) => Ends(0, Threw(l.(value := e))))
  }

  /** The loop body running as `t` while the generator has `g` left. */
  function OnBody(t: Trace, g: Trace, stmt: Code, ex: Strand): Trace
    requires stmt.ForEach?
    decreases stmt, 1, g, 1, t
  {
    match t
    case Yields(s, v, next) => Yields(s, v, OnBody(next, g, stmt, ex))
    case Ends(s, o) => if o.Fell? then After(s + 1, OnNext(g, stmt, o.local, ex)) else Ends(s + 1, o)
  }

  // ---------------------------------------------------------------- they agree

  ghost predicate Same(t: Trace, r: (seq<int>, Outcome)) {
    Values(t) == r.0 && Final(t) == r.1
  }

  lemma {:induction false} OnTryMeans(t: Trace, stmt: Code, ex: Strand)
    requires stmt.Try?
    ensures var r := OnTry(t, stmt, ex);
      var ys := Values(t);
      match Final(t)
      case Fell(l) => Same(r, Before(ys, (Values(Run(stmt.rest, l, ex)), Final(Run(stmt.rest, l, ex)))))
      case Returned(_) => Same(r, (ys, Final(t)))
      case Threw(l) =>
        var h := OnHandler(Run(stmt.handler, l, ex), stmt, ex);
        Same(r, Before(ys, (Values(h), Final(h))))
    decreases t
  {
    if t.Yields? {
      OnTryMeans(t.next, stmt, ex);
    }
  }

  lemma {:induction false} OnHandlerMeans(t: Trace, stmt: Code, ex: Strand)
    requires stmt.Try?
    ensures var r := OnHandler(t, stmt, ex);
      if Final(t).Fell? then
        var k := Run(stmt.rest, Final(t).local, ex);
        Same(r, Before(Values(t), (Values(k), Final(k))))
      else Same(r, (Values(t), Final(t)))
    decreases t
  {
    if t.Yields? {
      OnHandlerMeans(t.next, stmt, ex);
    }
  }

  lemma {:induction false} OnBodyMeans(t: Trace, g: Trace, stmt: Code, ex: Strand)
    requires stmt.ForEach?
    ensures var r := OnBody(t, g, stmt, ex);
      if Final(t).Fell? then
        var k := OnNext(g, stmt, Final(t).local, ex);
        Same(r, Before(Values(t), (Values(k), Final(k))))
      else Same(r, (Values(t), Final(t)))
    decreases t
  {
    if t.Yields? {
      OnBodyMeans(t.next, g, stmt, ex);
    }
  }

  lemma {:induction false} OnNextMeans(g: Trace, stmt: Code, l: Local, ex: Strand)
    requires stmt.ForEach?
    ensures Same(OnNext(g, stmt, l, ex), EvalLoop(Values(g), ResultOf(Final(g)), stmt, l, ex))
    decreases stmt, g, 0
  {
    match g {
      case Ends(_, o) =>
        if ResultOf(o).Value? {
          RunIsEval(stmt.rest, l.(value := ResultOf(o).value), ex);
        }
      case Yields(_, v, next) =>
        var t := Run(stmt.body, l.(value := v), ex);
        RunIsEval(stmt.body, l.(value := v), ex);
        OnBodyMeans(t, next, stmt, ex);
        if Final(t).Fell? {
          OnNextMeans(next, stmt, Final(t).local, ex);
        }
        assert Values(g)[1..] == Values(next);
    }
  }

  /** Counting steps does not change what a body computes. */
  lemma {:induction false} RunIsEval(code: Code, l: Local, ex: Strand)
    ensures Same(Run(code, l, ex), Eval(code, l, ex))
    decreases code
  {
    match code {
      case End | Return | Throw =>
      case Do(f, rest) => RunIsEval(rest, f(l), ex);
      case Branch(_, yes, no) => RunIsEval(yes, l, ex); RunIsEval(no, l, ex);
      case Executor(rest) => RunIsEval(rest, l.(value := ex), ex);
      case Yield(rest) => RunIsEval(rest, l, ex);
      case Await(child, rest) =>
        RunIsEval(child, Entry(l.value), ex);
        var r := ResultOf(Eval(child, Entry(l.value), ex).1);
        assert Run(code, l, ex)
            == After(1, After(TotalSteps(Run(child, Entry(l.value), ex)) + 1, PickUp(r, code, l, ex)));
        if r.Value? { RunIsEval(rest, l.(value := r.value), ex); }
      case AwaitResult(child, ok, err) =>
        RunIsEval(child, Entry(l.value), ex);
        var r := ResultOf(Eval(child, Entry(l.value), ex).1);
        assert Run(code, l, ex)
            == After(1, After(TotalSteps(Run(child, Entry(l.value), ex)) + 1, PickUp(r, code, l, ex)));
        if r.Value? { RunIsEval(ok, l.(value := r.value), ex); } else { RunIsEval(err, l.(value := r.error), ex); }
      case Try(body, handler, rest) => TryIsEval(code, l, ex);
      case ForEach(gen, body, rest) =>
        RunIsEval(gen, Entry(l.value), ex);
        OnNextMeans(Run(gen, Entry(l.value), ex), code, l, ex);
    }
  }

  lemma {:induction false} TryIsEval(code: Code, l: Local, ex: Strand)
    requires code.Try?
    ensures Same(Run(code, l, ex), Eval(code, l, ex))
    decreases code, 0
  {
    RunIsEval(code.body, l, ex);
    OnTryMeans(Run(code.body, l, ex), code, ex);
    match Eval(code.body, l, ex).1 {
      case Fell(m) => RunIsEval(code.rest, m, ex);
      case Returned(_) =>
      case Threw(m) =>
        RunIsEval(code.handler, m, ex);
        OnHandlerMeans(Run(code.handler, m, ex), code, ex);
        var (ys, hs) := (Eval(code.body, l, ex).0, Eval(code.handler, m, ex).0);
        if Eval(code.handler, m, ex).1.Fell? {
          var k := Eval(code.handler, m, ex).1.local;
          RunIsEval(code.rest, k, ex);
          assert ys + (hs + Eval(code.rest, k, ex).0) == (ys + hs) + Eval(code.rest, k, ex).0;
        }
    }
  }
}
