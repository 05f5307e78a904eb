/**
 The logging thread: it waits on a condition variable for tasks, and stops when a flag that
 the destructor clears is found clear. Checking the queue and going to sleep is one section
 under the lock; notifying happens after a pusher has released it; testing the flag sets it
 again.
 */
module AsyncLoggingThread {
  import AL = AsyncLogging

  datatype Worker =
    | Testing
    | Locking                   // in update, about to look at the queue
    | Sleeping
    | Executing(final: bool)
    | Finalizing                // in finalize, about to take the lock
    | Exited

  datatype Destructor = NotBegun | Cleared | WokeUp | Notified | Joined

  /** `notifiers` counts pushers between their section and their notification. `requests`
      are all requests so far and the first `done` have been carried out; `begun` is how
      many there were when the destructor started. */
  datatype State<M> = State(
    log: AL.State<M>, worker: Worker, running: bool, destructor: Destructor, notifiers: nat,
    requests: seq<AL.Request<M>>, done: nat, begun: nat)

  datatype Action<M> =
    | Request(request: AL.Request<M>)
    | NotifyWorker
    | WakeSpuriously
    | TestFlag
    | CheckQueue
    | ExecuteTask
    | FinishBatch
    | FinalSwap
    | ClearFlag
    | PushWakeUp
    | NotifyFromDestructor
    | Join

  const WAKE_UP: nat := 0

  function Init<M>(): State<M> {
    State(AL.Init(), Testing, true, NotBegun, 0, [], 0, 0)
  }

  function Pushed<M>(st: State<M>, r: AL.Request<M>): State<M> {
    st.(log := AL.Push(st.log, r), requests := st.requests + [r])
  }

  function Woken(w: Worker): Worker {
    if w.Sleeping? then Locking else w
  }

  predicate Enabled<M>(st: State<M>, a: Action<M>) {
    match a
    case Request(_) => true
    case NotifyWorker => st.notifiers > 0
    case WakeSpuriously => st.worker.Sleeping?
    case TestFlag => st.worker.Testing?
    case CheckQueue => st.worker.Locking?
    case ExecuteTask => st.worker.Executing? && AL.CanExecute(st.log)
    case FinishBatch => st.worker.Executing? && st.log.next == |st.log.executing|
    case FinalSwap => st.worker.Finalizing?
    case ClearFlag => st.destructor.NotBegun?
    case PushWakeUp => st.destructor.Cleared?
    case NotifyFromDestructor => st.destructor.WokeUp?
    case Join => st.destructor.Notified? && st.worker.Exited?
  }

  function Next<M>(st: State<M>, a: Action<M>): State<M>
    requires Enabled(st, a)
  {
    match a
    case Request(r) => Pushed(st, r).(notifiers := st.notifiers + 1)
    case NotifyWorker => st.(notifiers := st.notifiers - 1, worker := Woken(st.worker))
    case WakeSpuriously => st.(worker := Locking)
    case TestFlag => st.(worker := if st.running then Locking else Finalizing, running := true)
    case CheckQueue =>
      if st.log.taskQueue == [] then st.(worker := Sleeping)
      else st.(log := AL.Swap(st.log), worker := Executing(false))
    case ExecuteTask => st.(log := AL.Execute(st.log), done := st.done + 1)
    case FinishBatch => st.(log := AL.Clear(st.log), worker := if st.worker.final then Exited else Testing)
    case FinalSwap => st.(log := AL.Swap(st.log), worker := Executing(true))
    case ClearFlag => st.(running := false, destructor := Cleared, begun := |st.requests|)
    case PushWakeUp => Pushed(st, AL.Synchronize(WAKE_UP)).(destructor := WokeUp)
    case NotifyFromDestructor => st.(destructor := Notified, worker := Woken(st.worker))
    case Join => st.(destructor := Joined)
  }

  ghost predicate IsRun<M>(st: State<M>, run: seq<Action<M>>)
    decreases |run|
  {
    run == [] || (Enabled(st, run[0]) && IsRun(Next(st, run[0]), run[1..]))
  }

  ghost function After<M>(st: State<M>, run: seq<Action<M>>): State<M>
    requires IsRun(st, run)
    decreases |run|
  {
    if run == [] then st else After(Next(st, run[0]), run[1..])
  }

  // ---------------------------------------------------------------- the invariant

  predicate Stopping(w: Worker) {
    w.Finalizing? || w.Exited? || (w.Executing? && w.final)
  }

  ghost predicate Inv<M>(st: State<M>) {
    && AL.Refines(st.log, st.requests, st.done)
    && (st.log.busy <==> st.worker.Executing?)
    // a sleeping worker has nothing to do, or somebody is about to wake it
    && (st.worker.Sleeping? ==> st.log.taskQueue == [] || st.notifiers > 0 || st.destructor.WokeUp?)
    // the flag is found clear exactly once, and only because of the destructor
    && (st.destructor.NotBegun? ==> st.running)
    && (!st.destructor.NotBegun? ==> (st.running <==> Stopping(st.worker)))
    && (Stopping(st.worker) ==> !st.destructor.NotBegun?)
    // the wake-up task cannot have been consumed before the flag was tested again
    && ((st.destructor.WokeUp? || st.destructor.Notified?) && (st.worker.Locking? || st.worker.Sleeping?)
        ==> st.log.taskQueue != [])
    && st.begun <= |st.requests|
    && (st.worker.Executing? && st.worker.final ==>
          st.done + |st.log.executing| - st.log.next >= st.begun)
    && (st.worker.Exited? ==> st.done >= st.begun)
    && (st.destructor.Joined? ==> st.worker.Exited?)
  }

  lemma InitInv<M>()
    ensures Inv(Init<M>())
  {
    AL.InitRefines<M>();
  }

  lemma PushKeepsInv<M>(st: State<M>, r: AL.Request<M>)
    requires Inv(st)
    ensures AL.Refines(Pushed(st, r).log, Pushed(st, r).requests, st.done)
    ensures Pushed(st, r).log.taskQueue != [] && Pushed(st, r).log.busy == st.log.busy
  {
    AL.PushRefines(st.log, st.requests, st.done, r);
  }

  lemma RequestKeepsInv<M>(st: State<M>, r: AL.Request<M>)
    requires Inv(st)
    ensures Inv(Next(st, Request(r)))
  {
    PushKeepsInv(st, r);
  }

  lemma PushWakeUpKeepsInv<M>(st: State<M>)
    requires Inv(st) && Enabled(st, PushWakeUp)
    ensures Inv(Next(st, PushWakeUp))
  {
    PushKeepsInv(st, AL.Synchronize(WAKE_UP));
  }

  lemma NotifyKeepsInv<M>(st: State<M>, a: Action<M>)
    requires Inv(st) && Enabled(st, a)
    requires a.NotifyWorker? || a.WakeSpuriously? || a.NotifyFromDestructor?
    ensures Inv(Next(st, a))
  {
  }

  lemma FlagKeepsInv<M>(st: State<M>, a: Action<M>)
    requires Inv(st) && Enabled(st, a)
    requires a.TestFlag? || a.ClearFlag? || a.Join?
    ensures Inv(Next(st, a))
  {
  }

  lemma CheckQueueKeepsInv<M>(st: State<M>)
    requires Inv(st) && Enabled(st, CheckQueue)
    ensures Inv(Next(st, CheckQueue))
  {
    AL.SwapRefines(st.log, st.requests, st.done);
  }

  lemma FinalSwapKeepsInv<M>(st: State<M>)
    requires Inv(st) && Enabled(st, FinalSwap)
    ensures Inv(Next(st, FinalSwap))
  {
    AL.SwapRefines(st.log, st.requests, st.done);
  }

  lemma ExecuteTaskKeepsInv<M>(st: State<M>)
    requires Inv(st) && Enabled(st, ExecuteTask)
    ensures Inv(Next(st, ExecuteTask))
  {
    AL.ExecuteRefines(st.log, st.requests, st.done);
  }

  lemma FinishBatchKeepsInv<M>(st: State<M>)
    requires Inv(st) && Enabled(st, FinishBatch)
    ensures Inv(Next(st, FinishBatch))
  {
    AL.ClearRefines(st.log, st.requests, st.done);
  }

  lemma NextKeepsInv<M>(st: State<M>, a: Action<M>)
    requires Inv(st) && Enabled(st, a)
    ensures Inv(Next(st, a))
  {
    match a {
      case Request(r) => RequestKeepsInv(st, r);
      case PushWakeUp => PushWakeUpKeepsInv(st);
      case CheckQueue => CheckQueueKeepsInv(st);
      case FinalSwap => FinalSwapKeepsInv(st);
      case ExecuteTask => ExecuteTaskKeepsInv(st);
      case FinishBatch => FinishBatchKeepsInv(st);
      case NotifyWorker | WakeSpuriously | NotifyFromDestructor => NotifyKeepsInv(st, a);
      case TestFlag | ClearFlag | Join => FlagKeepsInv(st, a);
    }
  }

  lemma {:induction false} RunKeepsInv<M>(st: State<M>, run: seq<Action<M>>)
    requires Inv(st) && IsRun(st, run)
    ensures Inv(After(st, run))
    decreases |run|
  {
    if run != [] {
      NextKeepsInv(st, run[0]);
      RunKeepsInv(Next(st, run[0]), run[1..]);
    }
  }

  // ---------------------------------------------------------------- what was asked for

  function Asks<M>(a: Action<M>): seq<AL.Request<M>> {
    match a
    case Request(r) => [r]
    case PushWakeUp => [AL.Synchronize(WAKE_UP)]
    case _ => []
  }

  /** The requests of a run, with the one the destructor makes. */
  function Requested<M>(run: seq<Action<M>>): seq<AL.Request<M>> {
    if run == [] then [] else Asks(run[0]) + Requested(run[1..])
  }

  function CountTasks<M>(run: seq<Action<M>>): nat {
    if run == [] then 0 else (if run[0].ExecuteTask? then 1 else 0) + CountTasks(run[1..])
  }

  lemma StepRecords<M>(st: State<M>, a: Action<M>)
    requires Enabled(st, a)
    ensures Next(st, a).requests == st.requests + Asks(a)
    ensures Next(st, a).done == st.done + if a.ExecuteTask? then 1 else 0
  {
  }

  lemma {:induction false} RunRecords<M>(st: State<M>, run: seq<Action<M>>)
    requires IsRun(st, run)
    ensures After(st, run).requests == st.requests + Requested(run)
    ensures After(st, run).done == st.done + CountTasks(run)
    decreases |run|
  {
    if run != [] {
      StepRecords(st, run[0]);
      RunRecords(Next(st, run[0]), run[1..]);
      assert (st.requests + Asks(run[0])) + Requested(run[1..]) == st.requests + (Asks(run[0]) + Requested(run[1..]));
    }
  }

  lemma {:induction false} RunSplits<M>(st: State<M>, run: seq<Action<M>>, k: nat)
    requires IsRun(st, run) && k <= |run|
    ensures IsRun(st, run[..k]) && IsRun(After(st, run[..k]), run[k..])
    ensures After(st, run) == After(After(st, run[..k]), run[k..])
    decreases k
  {
    if k == 0 {
      assert run[..0] == [] && run[0..] == run;
    } else {
      assert run[..k][1..] == run[1..][..k - 1] && run[1..][k - 1..] == run[k..];
      RunSplits(Next(st, run[0]), run[1..], k - 1);
    }
  }

  lemma {:induction false} RequestedSplits<M>(run: seq<Action<M>>, k: nat)
    requires k <= |run|
    ensures Requested(run) == Requested(run[..k]) + Requested(run[k..])
    decreases k
  {
    if k == 0 {
      assert run[..0] == [] && run[0..] == run;
    } else {
      assert run[..k][1..] == run[1..][..k - 1] && run[1..][k - 1..] == run[k..];
      RequestedSplits(run[1..], k - 1);
    }
  }

  /** The destructor begins once. */
  lemma {:induction false} BegunStays<M>(st: State<M>, run: seq<Action<M>>)
    requires IsRun(st, run) && !st.destructor.NotBegun?
    ensures After(st, run).begun == st.begun
    decreases |run|
  {
    if run != [] {
      BegunStays(Next(st, run[0]), run[1..]);
    }
  }

  lemma BegunAtClearFlag<M>(run: seq<Action<M>>, k: nat)
    requires IsRun(Init(), run) && k < |run| && run[k].ClearFlag?
    ensures After(Init(), run).begun == |Requested(run[..k])|
  {
    RunSplits(Init(), run, k);
    var st := After(Init(), run[..k]);
    RunRecords(Init(), run[..k]);
    assert [] + Requested(run[..k]) == Requested(run[..k]);
    assert run[k..][0] == run[k];
    BegunStays(Next(st, run[k]), run[k..][1..]);
  }

  /** Whatever has been requested, the effects are those of carrying out the first of the
      requests, as many as the worker has executed. */
  lemma RequestsAreCarriedOut<M>(run: seq<Action<M>>)
    requires IsRun(Init(), run)
    ensures CountTasks(run) <= |Requested(run)|
    ensures After(Init(), run).log.effects == AL.Synchronous(Requested(run)[..CountTasks(run)])
  {
    InitInv<M>();
    RunKeepsInv(Init(), run);
    RunRecords(Init(), run);
    assert [] + Requested(run) == Requested(run);
  }

  lemma JoinedHasCaughtUp<M>(run: seq<Action<M>>, k: nat)
    requires IsRun(Init(), run) && After(Init(), run).destructor.Joined?
    requires k < |run| && run[k].ClearFlag?
    ensures |Requested(run[..k])| <= CountTasks(run)
  {
    InitInv<M>();
    RunKeepsInv(Init(), run);
    RunRecords(Init(), run);
    BegunAtClearFlag(run, k);
  }

  /** When the destructor returns, everything requested before it began has been done, in
      order and exactly once. */
  lemma ShutdownLosesNothing<M>(run: seq<Action<M>>, k: nat)
    requires IsRun(Init(), run) && After(Init(), run).destructor.Joined?
    requires k < |run| && run[k].ClearFlag?
    ensures |Requested(run[..k])| <= CountTasks(run) <= |Requested(run)|
    ensures Requested(run[..k]) <= Requested(run)
    ensures var e := After(Init(), run).log.effects;
      e == AL.Synchronous(Requested(run)[..CountTasks(run)]) && AL.Served(Requested(run[..k]), e)
  {
    RequestsAreCarriedOut(run);
    JoinedHasCaughtUp(run, k);
    RequestedSplits(run, k);
    var carried := Requested(run)[..CountTasks(run)];
    assert carried[..|Requested(run[..k])|] == Requested(run[..k]);
    AL.EarlierAreServed(carried, |Requested(run[..k])|);
  }

  /** A destructor that has returned has begun. */
  lemma {:induction false} JoinedHasBegun<M>(st: State<M>, run: seq<Action<M>>) returns (k: nat)
    requires IsRun(st, run) && st.destructor.NotBegun? && !After(st, run).destructor.NotBegun?
    ensures k < |run| && run[k].ClearFlag?
    decreases |run|
  {
    k := 0;
    if !run[0].ClearFlag? {
      k := JoinedHasBegun(Next(st, run[0]), run[1..]);
      k := k + 1;
    }
  }

  // ---------------------------------------------------------------- progress

  /** Steps of the thread and of calls already under way: not a new request, not the start
      of the destructor, not a wakeup for no reason. */
  predicate Internal<M>(a: Action<M>) {
    !a.Request? && !a.WakeSpuriously? && !a.ClearFlag?
  }

  function WorkerRank(w: Worker): nat {
    match w
    case Testing => 3
    case Locking => 2
    case Sleeping => 1
    case Executing(final) => if final then 1 else 4
    case Finalizing => 2
    case Exited => 0
  }

  function DestructorRank(d: Destructor): nat {
    match d
    case NotBegun => 30
    case Cleared => 29
    case WokeUp => 4
    case Notified => 1
    case Joined => 0
  }

  function Measure<M>(st: State<M>): int {
    10 * |st.log.taskQueue| + 5 * (|st.log.executing| - st.log.next)
    + 2 * st.notifiers + WorkerRank(st.worker) + DestructorRank(st.destructor)
  }

  lemma InternalStepLowers<M>(st: State<M>, a: Action<M>)
    requires st.log.next <= |st.log.executing| && (!st.worker.Executing? ==> st.log.executing == [])
    requires st.worker.Executing? && st.worker.final ==> !st.destructor.NotBegun?
    requires (st.destructor.WokeUp? || st.destructor.Notified?) && st.worker.Locking? ==> st.log.taskQueue != []
    requires st.worker.Sleeping? && a.NotifyFromDestructor? ==> st.log.taskQueue != []
    requires Enabled(st, a) && Internal(a)
    ensures 0 <= Measure(Next(st, a)) < Measure(st)
  {
  }

  lemma InternalStepDecreases<M>(st: State<M>, a: Action<M>)
    requires Inv(st) && Enabled(st, a) && Internal(a)
    ensures Inv(Next(st, a)) && 0 <= Measure(Next(st, a)) < Measure(st)
  {
    NextKeepsInv(st, a);
    InternalStepLowers(st, a);
  }

  /** Nobody can take an internal step. */
  ghost predicate Quiet<M(!new)>(st: State<M>) {
    forall a :: Internal(a) ==> !Enabled(st, a)
  }

  /** While there is something to do, or the destructor has not returned, somebody can. */
  lemma SomebodyCanStep<M>(st: State<M>) returns (a: Action<M>)
    requires Inv(st)
    requires !st.destructor.Joined?
    requires st.destructor.NotBegun? ==> !st.worker.Sleeping? || st.log.taskQueue != []
    ensures Internal(a) && Enabled(st, a)
  {
    match st.worker {
      case Testing => a := TestFlag;
      case Locking => a := CheckQueue;
      case Finalizing => a := FinalSwap;
      case Executing(_) =>
        if st.log.next < |st.log.executing| {
          AL.ExecuteRefines(st.log, st.requests, st.done);
          a := ExecuteTask;
        } else {
          a := FinishBatch;
        }
      case _ =>
        a := if st.notifiers > 0 then NotifyWorker
             else if st.destructor.Cleared? then PushWakeUp
             else if st.destructor.WokeUp? then NotifyFromDestructor
             else Join;
    }
  }

  /** The worker is left waiting only when it should be: a quiet system either has no
      destructor running and nothing left to do, or its destructor has returned. */
  lemma QuietMeansServed<M(!new)>(st: State<M>)
    requires Inv(st) && Quiet(st)
    ensures st.destructor.NotBegun? || st.destructor.Joined?
    ensures st.destructor.NotBegun? ==> st.worker.Sleeping? && st.done == |st.requests|
  {
    if st.destructor.NotBegun? && st.worker.Sleeping? && st.log.taskQueue == [] {
    } else if !st.destructor.Joined? {
      var a := SomebodyCanStep(st);
      assert false;
    }
  }

  ghost predicate AllInternal<M>(run: seq<Action<M>>) {
    forall i :: 0 <= i < |run| ==> Internal(run[i])
  }

  lemma {:induction false} InternalRunsAreBounded<M>(st: State<M>, run: seq<Action<M>>)
    requires Inv(st) && IsRun(st, run) && AllInternal(run)
    ensures Inv(After(st, run)) && |run| <= Measure(st) - Measure(After(st, run))
    ensures |run| <= Measure(st)
    decreases |run|
  {
    if run != [] {
      InternalStepDecreases(st, run[0]);
      assert forall i :: 0 <= i < |run| - 1 ==> run[1..][i] == run[i + 1];
      InternalRunsAreBounded(Next(st, run[0]), run[1..]);
    }
  }

  lemma {:induction false} RunsJoin<M>(st: State<M>, before: seq<Action<M>>, run: seq<Action<M>>)
    requires IsRun(st, before) && IsRun(After(st, before), run)
    ensures IsRun(st, before + run) && After(st, before + run) == After(After(st, before), run)
    decreases |before|
  {
    if before == [] {
      assert before + run == run;
    } else {
      RunsJoin(Next(st, before[0]), before[1..], run);
      assert (before + run)[1..] == before[1..] + run;
    }
  }

  /** Every flush has been answered, and every sink has received its entries. */
  ghost predicate NothingLeft<M>(requests: seq<AL.Request<M>>, e: AL.Effects<M>) {
    && e.released == AL.Tickets(requests)
    && forall sink :: AL.Received(e.output, sink) == AL.Expected(requests, sink)
  }

  lemma AllCarriedOut<M>(requests: seq<AL.Request<M>>)
    ensures NothingLeft(requests, AL.Synchronous(requests))
  {
    AL.ReleasedAreTickets(requests);
    forall sink ensures AL.Received(AL.Synchronous(requests).output, sink) == AL.Expected(requests, sink) {
      AL.SinkReceivesItsEntries(requests, sink);
    }
  }

  lemma IdleHasNothingLeft<M>(run: seq<Action<M>>)
    requires IsRun(Init(), run)
    requires After(Init(), run).done == |After(Init(), run).requests|
    ensures NothingLeft(Requested(run), After(Init(), run).log.effects)
  {
    RequestsAreCarriedOut(run);
    RunRecords(Init(), run);
    assert [] + Requested(run) == Requested(run);
    assert Requested(run)[..CountTasks(run)] == Requested(run);
    AllCarriedOut(Requested(run));
  }

  /** The destructor began at some moment, and what was requested before has been done. */
  ghost predicate ServedBeforeIt<M>(run: seq<Action<M>>, k: nat, e: AL.Effects<M>) {
    k < |run| && run[k].ClearFlag? && AL.Served(Requested(run[..k]), e)
  }

  /** Everything requested in a run that ends without a destructor is done; with one that has
      returned, what was requested before it began. */
  ghost predicate AllServed<M>(run: seq<Action<M>>, end: State<M>) {
    if end.destructor.NotBegun? then NothingLeft(Requested(run), end.log.effects)
    else end.destructor.Joined? && exists k :: ServedBeforeIt(run, k, end.log.effects)
  }

  lemma JoinedIsServed<M>(run: seq<Action<M>>)
    requires IsRun(Init(), run) && After(Init(), run).destructor.Joined?
    ensures AllServed(run, After(Init(), run))
  {
    var k := JoinedHasBegun(Init(), run);
    ShutdownLosesNothing(run, k);
    assert ServedBeforeIt(run, k, After(Init(), run).log.effects);
  }

  lemma QuietServesAll<M(!new)>(run: seq<Action<M>>)
    requires IsRun(Init(), run) && Quiet(After(Init(), run))
    ensures AllServed(run, After(Init(), run))
  {
    InitInv<M>();
    RunKeepsInv(Init(), run);
    QuietMeansServed(After(Init(), run));
    if After(Init(), run).destructor.NotBegun? {
      IdleHasNothingLeft(run);
    } else {
      JoinedIsServed(run);
    }
  }

  /** Whatever has happened before: internal steps alone come to an end, and when they do
      everything has been served that was to be. */
  lemma EverythingIsServed<M(!new)>(before: seq<Action<M>>, run: seq<Action<M>>)
    requires IsRun(Init(), before) && IsRun(After(Init(), before), run) && AllInternal(run)
    ensures |run| <= Measure(After(Init(), before))
    ensures IsRun(Init(), before + run)
    ensures var end := After(Init(), before + run);
      Quiet(end) ==> AllServed(before + run, end)
  {
    InitInv<M>();
    RunKeepsInv(Init(), before);
    InternalRunsAreBounded(After(Init(), before), run);
    RunsJoin(Init(), before, run);
    if Quiet(After(Init(), before + run)) {
      QuietServesAll(before + run);
    }
  }

  // ---------------------------------------------------------------- under constant load

  /** The worker's own steps, other than carrying out a task. */
  predicate Moves<M>(a: Action<M>) {
    a.TestFlag? || a.CheckQueue? || a.FinishBatch? || a.FinalSwap?
  }

  predicate WakeUpPushed(d: Destructor) {
    d.WokeUp? || d.Notified? || d.Joined?
  }

  /** How many moves the worker has left once the wake-up task has been pushed. */
  function MovesLeft(w: Worker): nat {
    match w
    case Sleeping => 5
    case Locking => 5
    case Executing(final) => if final then 1 else 4
    case Testing => 3
    case Finalizing => 2
    case Exited => 0
  }

  function CountMoves<M>(run: seq<Action<M>>): nat {
    if run == [] then 0 else (if Moves(run[0]) then 1 else 0) + CountMoves(run[1..])
  }

  lemma StepUsesMoves<M>(st: State<M>, a: Action<M>)
    requires Inv(st) && Enabled(st, a) && WakeUpPushed(st.destructor)
    ensures WakeUpPushed(Next(st, a).destructor)
    ensures MovesLeft(Next(st, a).worker) + (if Moves(a) then 1 else 0) <= MovesLeft(st.worker)
    ensures Next(st, a).done == st.done + if a.ExecuteTask? then 1 else 0
  {
  }

  lemma {:induction false} RunUsesMoves<M>(st: State<M>, run: seq<Action<M>>)
    requires Inv(st) && IsRun(st, run) && WakeUpPushed(st.destructor)
    ensures var end := After(st, run);
      && Inv(end) && WakeUpPushed(end.destructor)
      && CountMoves(run) + MovesLeft(end.worker) <= MovesLeft(st.worker)
      && CountTasks(run) == end.done - st.done
    decreases |run|
  {
    if run != [] {
      StepUsesMoves(st, run[0]);
      NextKeepsInv(st, run[0]);
      RunUsesMoves(Next(st, run[0]), run[1..]);
    }
  }

  /** The worker has exited, can take a step of its own, or is about to be notified. */
  ghost predicate NotStranded<M>(st: State<M>) {
    || st.worker.Exited? || Enabled(st, TestFlag) || Enabled(st, CheckQueue) || Enabled(st, ExecuteTask)
    || Enabled(st, FinishBatch) || Enabled(st, FinalSwap)
    || (st.worker.Sleeping? && (st.notifiers > 0 || st.destructor.WokeUp?))
  }

  lemma WorkerIsNotStranded<M>(st: State<M>)
    requires Inv(st) && WakeUpPushed(st.destructor)
    ensures NotStranded(st)
  {
    if st.worker.Executing? && st.log.next < |st.log.executing| {
      AL.ExecuteRefines(st.log, st.requests, st.done);
    }
  }

  /** After the destructor's wake-up the worker gets to its end whatever requests keep
      arriving: it makes at most five more moves besides carrying out tasks, each task is
      one that was requested, and until it has exited it is never stranded. */
  lemma WorkerExitsUnderLoad<M>(before: seq<Action<M>>, run: seq<Action<M>>)
    requires IsRun(Init(), before) && WakeUpPushed(After(Init(), before).destructor)
    requires IsRun(After(Init(), before), run)
    ensures var st := After(Init(), before);
      var end := After(st, run);
      && CountMoves(run) <= 5
      && NotStranded(end)
    ensures IsRun(Init(), before + run) && CountTasks(before + run) <= |Requested(before + run)|
  {
    InitInv<M>();
    RunKeepsInv(Init(), before);
    RunUsesMoves(After(Init(), before), run);
    RunsJoin(Init(), before, run);
    RequestsAreCarriedOut(before + run);
    WorkerIsNotStranded(After(After(Init(), before), run));
  }
}
