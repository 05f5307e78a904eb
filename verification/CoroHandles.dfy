/**
 One coroutine handle that is awaited several times, by `co_await` or by `next()`. Each await
 has places of its own for a result and for a generated value, which are gone when it is
 over; the promise only ever gets new links.
 */
module CoroHandles {
  import opened Basics
  import opened CoroMachine
  import opened CoroSemantics

  datatype How = ByAwait | ByNext
  datatype Ask = Ask(caller: Id, how: How)

  /** The awaits whose places a promise is linked to. */
  datatype Places = Places(result: Option<nat>, generated: Option<nat>)

  /** `await_suspend` of the await number `k`. */
  function Linked(p: Places, k: nat, how: How): Places {
    Places(Some(k), if how.ByNext? then Some(k) else p.generated)
  }

  function Asked(asks: seq<Ask>): Places {
    if asks == [] then Places(None, None)
    else Linked(Asked(asks[..|asks| - 1]), |asks| - 1, asks[|asks| - 1].how)
  }

  /** Only the places of the last await still exist. */
  predicate LinksAreLive(asks: seq<Ask>) {
    asks != [] ==>
      && Asked(asks).result == Some(|asks| - 1)
      && (Asked(asks).generated.Some? ==> Asked(asks).generated == Some(|asks| - 1))
  }

  predicate OnlyAwaited(asks: seq<Ask>) {
    forall i :: 0 <= i < |asks| ==> asks[i].how.ByAwait?
  }

  lemma {:induction false} GeneratedIsLastNext(asks: seq<Ask>)
    ensures Asked(asks).generated.None? <==> OnlyAwaited(asks)
    ensures Asked(asks).generated.Some? ==>
      var k := Asked(asks).generated.value;
      k < |asks| && asks[k].how.ByNext? && forall i :: k < i < |asks| ==> asks[i].how.ByAwait?
    decreases |asks|
  {
    if asks != [] {
      var n := |asks| - 1;
      var front := asks[..n];
      GeneratedIsLastNext(front);
      assert forall i :: 0 <= i < n ==> asks[i] == front[i];
    }
  }

  /** The exact condition: the links of a handle are live if and only if it is asked by
      `next()` now, or never was. */
  lemma LinksAreLiveIff(asks: seq<Ask>)
    requires asks != []
    ensures LinksAreLive(asks) <==> asks[|asks| - 1].how.ByNext? || OnlyAwaited(asks)
  {
    GeneratedIsLastNext(asks);
  }

  // ---------------------------------------------------------------- in the machine

  /** The handle is asked by some frame, or the machine does anything else. */
  datatype Event = Asks(ask: Ask) | Other

  /** A step of the machine that suspends the current frame in a loop over `n`. */
  predicate AsksAgain(m: Machine, n: Id)
    requires CanStep(m)
  {
    var f := m.heap[m.status.current];
    !f.waiting && f.code.End? && f.stack != [] && Top(f).Loop? && Top(f).gen == n
  }

  predicate CanHappen(m: Machine, n: Id, e: Event) {
    && n in m.heap && n < m.nextId
    && match e
       case Asks(ask) => ask.caller in m.heap && ask.caller != n
       case Other => CanStep(m) && !AsksAgain(m, n)
  }

  function Happen(m: Machine, n: Id, e: Event): Machine
    requires CanHappen(m, n, e)
  {
    match e
    case Asks(ask) => Suspend(m, ask.caller, m.heap[ask.caller], n, m.heap[n], ask.how.ByNext?)
    case Other => Step(m)
  }

  ghost predicate IsHistory(m: Machine, n: Id, history: seq<Event>)
    decreases |history|, 0
  {
    history == [] ||
      (var front := history[..|history| - 1];
       IsHistory(m, n, front) && CanHappen(Through(m, n, front), n, history[|history| - 1]))
  }

  /** The machine after a history of the handle `n`. */
  ghost function Through(m: Machine, n: Id, history: seq<Event>): Machine
    requires IsHistory(m, n, history)
    decreases |history|, 1
  {
    if history == [] then m
    else Happen(Through(m, n, history[..|history| - 1]), n, history[|history| - 1])
  }

  function AndAsked(asks: seq<Ask>, e: Event): seq<Ask> {
    if e.Asks? then asks + [e.ask] else asks
  }

  function AsksIn(history: seq<Event>): seq<Ask> {
    if history == [] then [] else AndAsked(AsksIn(history[..|history| - 1]), history[|history| - 1])
  }

  /** The frame that made an await. */
  function CallerOf(asks: seq<Ask>, place: Option<nat>): Option<Id> {
    match place
    case None => None
    case Some(k) => if k < |asks| then Some(asks[k].caller) else None
  }

  /** The promise of `n` is linked to the places of these awaits. */
  predicate Tied(m: Machine, n: Id, asks: seq<Ask>) {
    && n in m.heap && n < m.nextId
    && m.heap[n].result == CallerOf(asks, Asked(asks).result)
    && m.heap[n].generated == CallerOf(asks, Asked(asks).generated)
  }

  /** The promise of `n` is still there, with its links. */
  predicate KeepsLinks(m: Machine, n: Id, m': Machine)
    requires n in m.heap
  {
    && n in m'.heap && m.nextId <= m'.nextId
    && m'.heap[n].result == m.heap[n].result && m'.heap[n].generated == m.heap[n].generated
  }

  lemma ResumingKeepsLinks(m: Machine, n: Id)
    requires CanHappen(m, n, Other) && m.heap[m.status.current].waiting
    ensures KeepsLinks(m, n, Step(m))
  {
    var f := m.heap[m.status.current];
    var resumed := Resume(f);
    assert resumed.Some? ==> resumed.value.result == f.result && resumed.value.generated == f.generated;
  }

  lemma LeavingKeepsLinks(m: Machine, n: Id)
    requires CanHappen(m, n, Other)
    requires var f := m.heap[m.status.current]; (f.code.End? || f.code.Return? || f.code.Throw?) && !f.waiting
    ensures KeepsLinks(m, n, Step(m))
  {
    var f := m.heap[m.status.current];
    if f.stack != [] {
      assert f.code.End? && Top(f).Loop? ==> Top(f).gen != n;
    }
  }

  /** A new frame is another frame. */
  lemma SuspendingKeepsLinks(m: Machine, n: Id, f: Frame, g: Frame, generating: bool)
    requires n in m.heap && n < m.nextId && m.status.Running?
    requires m.status.current in m.heap
    requires f.result == m.heap[m.status.current].result && f.generated == m.heap[m.status.current].generated
    ensures KeepsLinks(m, n, Suspend(m.(nextId := m.nextId + 1), m.status.current, f, m.nextId, g, generating))
  {
  }

  lemma CallingKeepsLinks(m: Machine, n: Id)
    requires CanHappen(m, n, Other)
    requires var f := m.heap[m.status.current];
      !f.waiting && (f.code.Await? || f.code.AwaitResult? || f.code.ForEach?)
    ensures KeepsLinks(m, n, Step(m))
  {
    var f := m.heap[m.status.current];
    if f.code.ForEach? {
      var entered := f.(code := End, stack := f.stack + [Loop(m.nextId, f.code)]);
      SuspendingKeepsLinks(m, n, entered, NewFrame(f.code.gen, f.local.value), true);
    } else {
      SuspendingKeepsLinks(m, n, f, NewFrame(f.code.child, f.local.value), false);
    }
  }

  lemma StayingKeepsLinks(m: Machine, n: Id)
    requires CanHappen(m, n, Other)
    requires var f := m.heap[m.status.current];
      !f.waiting && (f.code.Do? || f.code.Branch? || f.code.Executor? || f.code.Yield? || f.code.Try?)
    ensures KeepsLinks(m, n, Step(m))
  {
  }

  lemma OtherStepsKeepLinks(m: Machine, n: Id)
    requires CanHappen(m, n, Other)
    ensures KeepsLinks(m, n, Step(m))
  {
    var f := m.heap[m.status.current];
    if f.waiting {
      ResumingKeepsLinks(m, n);
    } else if f.code.End? || f.code.Return? || f.code.Throw? {
      LeavingKeepsLinks(m, n);
    } else if f.code.Await? || f.code.AwaitResult? || f.code.ForEach? {
      CallingKeepsLinks(m, n);
    } else {
      StayingKeepsLinks(m, n);
    }
  }

  lemma AskedBefore(asks: seq<Ask>, ask: Ask)
    ensures CallerOf(asks + [ask], Asked(asks).generated) == CallerOf(asks, Asked(asks).generated)
    ensures Asked(asks + [ask]) == Linked(Asked(asks), |asks|, ask.how)
  {
    GeneratedIsLastNext(asks);
    assert (asks + [ask])[..|asks|] == asks;
  }

  lemma EventKeepsTied(m: Machine, n: Id, asks: seq<Ask>, e: Event)
    requires Tied(m, n, asks) && CanHappen(m, n, e)
    ensures Tied(Happen(m, n, e), n, AndAsked(asks, e))
  {
    if e.Asks? {
      AskedBefore(asks, e.ask);
    } else {
      OtherStepsKeepLinks(m, n);
    }
  }

  /** In every history of the machine the links of a promise are those of the awaits on its
      handle, whatever its frame and all others do in between. */
  lemma {:induction false} LinksFollowAsks(m: Machine, n: Id, history: seq<Event>)
    requires n in m.heap && n < m.nextId && m.heap[n].result.None? && m.heap[n].generated.None?
    requires IsHistory(m, n, history)
    ensures Tied(Through(m, n, history), n, AsksIn(history))
    decreases |history|
  {
    if history != [] {
      var front := history[..|history| - 1];
      LinksFollowAsks(m, n, front);
      EventKeepsTied(Through(m, n, front), n, AsksIn(front), history[|history| - 1]);
    }
  }

  // ---------------------------------------------------------------- what follows

  /** When a coroutine is awaited by `co_await` and yields: after a `next()` on it control
      comes back to a caller that has no result yet, and only then. */
  lemma YieldIntoAwait(m: Machine, c: Id, f: Frame, n: Id, g: Frame)
    requires c in m.heap && n in m.heap && c != n && m.heap[c] == f && m.heap[n] == g
    requires (f.code.Await? || f.code.AwaitResult?) && Sound(f, m.heap)
    requires !g.waiting && g.code.Yield? && Sound(g, m.heap)
    ensures var m1 := Suspend(m, c, f, n, g, false);
      && CanStep(m1) && CanStep(Step(m1))
      && Step(m1).status == Running(if g.generated.Some? then c else n)
      && (Step(Step(m1)).status.EmptyResult? <==> g.generated.Some?)
  {
    var m1 := Suspend(m, c, f, n, g, false);
    var linked := m1.heap[n];
    assert Sound(linked, m1.heap);
    var m2 := Step(m1);
    if g.generated.Some? {
      var waiting := m2.heap[c];
      assert waiting.waiting && waiting.slot == Empty && waiting.stack == f.stack && waiting.code == f.code;
      assert Sound(waiting, m2.heap);
    } else {
      assert m2.heap[n] == linked.(code := linked.code.rest);
      assert Sound(m2.heap[n], m2.heap);
    }
  }

  /** And a run gets there: a root asks a generator for its first value, and then awaits the
      same handle, which yields again. */
  lemma AwaitAfterNext(gen: Code, body: Code, rest: Code, argument: int, ex: Strand)
    requires gen.Yield? && gen.rest.Yield? && body.Await?
    ensures var m := StepMany(Spawn(ForEach(gen, body, rest), argument, ex), 3);
      && 0 in m.heap && 1 in m.heap && m.heap[0].code == body
      && StepMany(Suspend(m, 0, m.heap[0], 1, m.heap[1], false), 2).status.EmptyResult?
  {
    var m0 := Spawn(ForEach(gen, body, rest), argument, ex);
    var m1 := Step(m0);
    var m2 := Step(m1);
    var m3 := Step(m2);
    assert StepMany(m0, 3) == StepMany(m1, 2) == StepMany(m2, 1) == StepMany(m3, 0);
    YieldIntoAwait(m3, 0, m3.heap[0], 1, m3.heap[1]);
    var m4 := Suspend(m3, 0, m3.heap[0], 1, m3.heap[1], false);
    assert StepMany(m4, 2) == StepMany(Step(m4), 1) == StepMany(Step(Step(m4)), 0);
  }
}
