/**
 A queue for many producers and one consumer built from two lists: producers append to one
 under a lock, the consumer drains the other without it and swaps the two under the lock
 when its own list is empty.
 */
module ScQueue {
  import opened Basics

  class Queue<T> {
    var cons: seq<T>
    var prod: seq<T>

    constructor ()
      ensures cons == [] && prod == []
    {
      cons, prod := [], [];
    }

    method Push(item: T)
      modifies this`prod
      ensures cons + prod == old(cons + prod) + [item]
    {
      prod := prod + [item];
      assert cons + prod == old(cons + prod) + [item];
    }

    method PopCons() returns (item: T)
      requires cons != []
      modifies this`cons
      ensures item == old(cons)[0] && cons == old(cons)[1..]
    {
      item := cons[0];
      cons := cons[1..];
    }

    /** Without interference: the head of the whole queue, or nothing if it is empty. */
    method TryPop() returns (item: Option<T>)
      modifies this
      ensures var whole := old(cons + prod);
        if whole == [] then item == None && cons + prod == []
        else item == Some(whole[0]) && cons + prod == whole[1..]
    {
      ghost var whole := cons + prod;
      if cons == [] {
        assert whole == prod;
        if prod == [] {
          return None;
        }
        cons, prod := prod, cons;
      }
      var head := PopCons();
      item := Some(head);
      assert cons + prod == whole[1..];
    }
  }

  // ------------------------------------------------- producers interleaved with the consumer

  /** Where the consumer is inside `TryPop`. */
  datatype Pc = Outside | Emptied | Swapped

  datatype State<T> = State(cons: seq<T>, prod: seq<T>, pc: Pc)

  /** `Push` is one producer's critical section. The consumer looks at its own list, takes
      the lock, and pops after having released it. */
  datatype Action<T> = Push(item: T) | Look | LockSection | PopSwapped

  /** What a queue without any inner structure would have done. */
  datatype Event<T> = Pushed(item: T) | Popped(item: T) | FoundEmpty

  predicate Enabled<T>(st: State<T>, a: Action<T>) {
    match a
    case Push(_) => true
    case Look => st.pc.Outside?
    case LockSection => st.pc.Emptied?
    case PopSwapped => st.pc.Swapped? && st.cons != []
  }

  function Next<T>(st: State<T>, a: Action<T>): (State<T>, seq<Event<T>>)
    requires Enabled(st, a)
  {
    match a
    case Push(item) => (st.(prod := st.prod + [item]), [Pushed(item)])
    case Look =>
      if st.cons != [] then (st.(cons := st.cons[1..]), [Popped(st.cons[0])])
      else (st.(pc := Emptied), [])
    case LockSection =>
      if st.prod == [] then (st.(pc := Outside), [FoundEmpty])
      else (State(st.prod, st.cons, Swapped), [])
    case PopSwapped => (State(st.cons[1..], st.prod, Outside), [Popped(st.cons[0])])
  }

  /** The contents of a plain FIFO queue after some events, if they are possible at all. */
  function Fifo<T(==)>(events: seq<Event<T>>): Option<seq<T>> {
    if events == [] then Some([])
    else
      var before := Fifo(events[..|events| - 1]);
      if before.None? then None
      else match events[|events| - 1]
        case Pushed(x) => Some(before.value + [x])
        case Popped(x) => if before.value != [] && before.value[0] == x then Some(before.value[1..]) else None
        case FoundEmpty => if before.value == [] then Some([]) else None
  }

  ghost predicate IsRun<T>(st: State<T>, run: seq<Action<T>>)
    decreases |run|
  {
    run == [] || (Enabled(st, run[0]) && IsRun(Next(st, run[0]).0, run[1..]))
  }

  ghost function After<T>(st: State<T>, events: seq<Event<T>>, run: seq<Action<T>>): (State<T>, seq<Event<T>>)
    requires IsRun(st, run)
    decreases |run|
  {
    if run == [] then (st, events)
    else After(Next(st, run[0]).0, events + Next(st, run[0]).1, run[1..])
  }

  ghost predicate Inv<T>(st: State<T>, events: seq<Event<T>>) {
    && Fifo(events) == Some(st.cons + st.prod)
    && (st.pc.Emptied? ==> st.cons == [])
    && (st.pc.Swapped? ==> st.cons != [])
  }

  lemma NextKeepsInv<T>(st: State<T>, events: seq<Event<T>>, a: Action<T>)
    requires Inv(st, events) && Enabled(st, a)
    ensures Inv(Next(st, a).0, events + Next(st, a).1)
  {
    var (st', more) := Next(st, a);
    if more == [] {
      assert events + more == events;
      assert st'.cons + st'.prod == st.cons + st.prod;
    } else {
      assert (events + more)[..|events|] == events;
      assert a.Push? ==> st'.cons + st'.prod == (st.cons + st.prod) + [a.item];
      assert more[0].Popped? ==> st'.cons + st'.prod == (st.cons + st.prod)[1..];
    }
  }

  lemma {:induction false} RunKeepsInv<T>(st: State<T>, events: seq<Event<T>>, run: seq<Action<T>>)
    requires Inv(st, events) && IsRun(st, run)
    ensures var (end, all) := After(st, events, run); Inv(end, all)
    decreases |run|
  {
    if run != [] {
      NextKeepsInv(st, events, run[0]);
      RunKeepsInv(Next(st, run[0]).0, events + Next(st, run[0]).1, run[1..]);
    }
  }

  function Pushes<T>(events: seq<Event<T>>): seq<T> {
    if events == [] then []
    else Pushes(events[..|events| - 1]) + (if events[|events| - 1].Pushed? then [events[|events| - 1].item] else [])
  }

  function Pops<T>(events: seq<Event<T>>): seq<T> {
    if events == [] then []
    else Pops(events[..|events| - 1]) + (if events[|events| - 1].Popped? then [events[|events| - 1].item] else [])
  }

  lemma {:induction false} FifoHistory<T>(events: seq<Event<T>>)
    requires Fifo(events).Some?
    ensures Pushes(events) == Pops(events) + Fifo(events).value
  {
    if events != [] {
      var e := events[|events| - 1];
      FifoHistory(events[..|events| - 1]);
      var q := Fifo(events[..|events| - 1]).value;
      if e.Popped? {
        assert q == [q[0]] + q[1..];
      }
    }
  }

  // ---------------------------------------------------------------- what was asked for

  /** The items that the producers of a run push. */
  function Items<T>(run: seq<Action<T>>): seq<T> {
    if run == [] then [] else (if run[0].Push? then [run[0].item] else []) + Items(run[1..])
  }

  /** How often the consumer of a run calls `TryPop`. */
  function Calls<T>(run: seq<Action<T>>): nat {
    if run == [] then 0 else (if run[0].Look? then 1 else 0) + Calls(run[1..])
  }

  /** How often a call has returned, with an item or without. */
  function Answers<T>(events: seq<Event<T>>): nat {
    if events == [] then 0
    else Answers(events[..|events| - 1]) + (if events[|events| - 1].Pushed? then 0 else 1)
  }

  /** What a step adds to the history: a push its item, and a call one answer, when it ends. */
  lemma StepReports<T>(st: State<T>, events: seq<Event<T>>, a: Action<T>)
    requires Enabled(st, a)
    ensures var (st', more) := Next(st, a);
      && Pushes(events + more) == Pushes(events) + (if a.Push? then [a.item] else [])
      && Answers(events + more) + Underway(st') == Answers(events) + Underway(st) + (if a.Look? then 1 else 0)
  {
    var (st', more) := Next(st, a);
    if more == [] {
      assert events + more == events && Pushes(events) + [] == Pushes(events);
    } else {
      assert (events + more)[..|events|] == events;
    }
  }

  function Underway<T>(st: State<T>): nat {
    if st.pc.Outside? then 0 else 1
  }

  lemma {:induction false} RunReports<T>(st: State<T>, events: seq<Event<T>>, run: seq<Action<T>>)
    requires IsRun(st, run)
    ensures var (end, all) := After(st, events, run);
      && Pushes(all) == Pushes(events) + Items(run)
      && Answers(all) + Underway(end) == Answers(events) + Underway(st) + Calls(run)
    decreases |run|
  {
    if run == [] {
      assert Pushes(events) + [] == Pushes(events);
    } else {
      var (st', more) := Next(st, run[0]);
      var pushed := if run[0].Push? then [run[0].item] else [];
      StepReports(st, events, run[0]);
      RunReports(st', events + more, run[1..]);
      assert (Pushes(events) + pushed) + Items(run[1..]) == Pushes(events) + (pushed + Items(run[1..]));
    }
  }

  /** Linearizability: over every interleaving there is a legal history of one FIFO queue in
      which the pushes are those of the run, in lock order, and every call of `TryPop` but the
      one under way has had one answer, an item or empty. */
  lemma Linearizable<T>(run: seq<Action<T>>)
    requires IsRun(State([], [], Outside), run)
    ensures var (st, events) := After(State([], [], Outside), [], run);
      && Fifo(events) == Some(st.cons + st.prod)
      && Pushes(events) == Items(run)
      && Answers(events) + Underway(st) == Calls(run)
  {
    var start: State<T> := State([], [], Outside);
    assert start.cons + start.prod == [];
    RunKeepsInv(start, [], run);
    RunReports(start, [], run);
    assert [] + Items(run) == Items(run);
  }

  /** The items popped, followed by what is in the queue, are the items pushed, in lock order,
      and after an empty answer everything pushed has been popped. */
  lemma PopsArePrefixOfPushes<T>(run: seq<Action<T>>)
    requires IsRun(State([], [], Outside), run)
    ensures var (st, events) := After(State([], [], Outside), [], run);
      && Items(run) == Pops(events) + (st.cons + st.prod)
      && (events != [] && events[|events| - 1] == FoundEmpty ==> Pops(events) == Items(run))
  {
    Linearizable(run);
    FifoHistory(After(State([], [], Outside), [], run).1);
  }
}
