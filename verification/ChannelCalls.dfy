/**
 What the two sides have asked for, read off the actions of a run alone, next to what the
 protocol has recorded: the answer to each call is the answer to that call.
 */
module ChannelCalls {
  import opened Basics
  import opened ChannelProtocol

  /** A call of one side, and what has happened to it: whether it had to wait, and whether a
      timeout ended the wait. */
  datatype Call<T> = Call(item: Option<T>, mode: Mode, waited: bool, timedOut: bool)

  function Noted<T>(calls: seq<Call<T>>, s: Side, a: Action<T>): seq<Call<T>> {
    var n := |calls| - 1;
    match a
    case Begin(side, item, mode) => if side == s then calls + [Call(item, mode, false, false)] else calls
    case Enter(side) => if side == s && n >= 0 then calls[n := calls[n].(waited := true)] else calls
    case TimeOut(side) => if side == s && n >= 0 then calls[n := calls[n].(timedOut := true)] else calls
    case _ => calls
  }

  /** The calls of a side after more actions. */
  function Calls<T>(calls: seq<Call<T>>, s: Side, run: seq<Action<T>>): seq<Call<T>>
    decreases |run|
  {
    if run == [] then calls else Calls(Noted(calls, s, run[0]), s, run[1..])
  }

  // ---------------------------------------------------------------- answers

  /** A writer moves the item of the call. The timeout bit says how the wait has ended. */
  predicate Answers<T(==)>(s: Side, call: Call<T>, d: Done<T>) {
    && d.waited == call.waited && d.status.timeout == call.timedOut
    && (d.status.success <==> d.value.Some?)
    && (s.Writer? && d.status.success ==> d.value == call.item)
    && (call.waited ==> !call.mode.Sync?) && (call.timedOut ==> call.mode.Timed? && call.waited)
  }

  predicate Pending(pc: Pc) {
    pc.Armed? || pc.Waiting? || pc.Retrying?
  }

  /** The call a side is in the middle of. */
  predicate IsCurrent<T(==)>(c: Client<T>, call: Call<T>) {
    && call.item == c.arg && !call.mode.Sync?
    && match c.pc
       case Armed(timed) => !call.waited && !call.timedOut && (timed <==> call.mode.Timed?)
       case Waiting(timed) => call.waited && !call.timedOut && (timed <==> call.mode.Timed?)
       case Retrying(timedOut) => call.waited && call.timedOut == timedOut && (timedOut ==> call.mode.Timed?)
       case _ => true
  }

  ghost predicate InOrder<T>(s: Side, calls: seq<Call<T>>, log: seq<Done<T>>) {
    |log| <= |calls| && forall k :: 0 <= k < |log| ==> Answers(s, calls[k], log[k])
  }

  /** One answer for each call, in order; the last call may still be under way. */
  ghost predicate Recorded<T>(s: Side, c: Client<T>, calls: seq<Call<T>>) {
    && |calls| == |c.log| + Count(Pending(c.pc))
    && InOrder(s, calls, c.log)
    && (Pending(c.pc) ==> IsCurrent(c, calls[|calls| - 1]))
  }

  lemma BeginIsRecorded<T>(st: State<T>, s: Side, item: Option<T>, mode: Mode, calls: seq<Call<T>>)
    requires Enabled(st, Begin(s, item, mode)) && Recorded(s, st.At(s), calls)
    ensures Recorded(s, Next(st, Begin(s, item, mode)).At(s), calls + [Call(item, mode, false, false)])
  {
    var calls' := calls + [Call(item, mode, false, false)];
    assert forall k :: 0 <= k < |calls| ==> calls'[k] == calls[k];
  }

  lemma RetryIsRecorded<T>(st: State<T>, s: Side, calls: seq<Call<T>>)
    requires Enabled(st, Retry(s)) && Recorded(s, st.At(s), calls)
    ensures Recorded(s, Next(st, Retry(s)).At(s), calls)
  {
  }

  lemma OwnStepIsRecorded<T>(st: State<T>, a: Action<T>, s: Side, calls: seq<Call<T>>)
    requires Enabled(st, a) && Recorded(s, st.At(s), calls)
    requires (a.Enter? || a.Wake? || a.TimeOut? || a.Drop? || a.Notify?) && a.side == s
    ensures Recorded(s, Next(st, a).At(s), Noted(calls, s, a))
  {
  }

  lemma OtherStepIsRecorded<T>(st: State<T>, a: Action<T>, s: Side, calls: seq<Call<T>>)
    requires Enabled(st, a) && Recorded(s, st.At(s), calls)
    requires a.CloseSection? || a.CloseNotify? || a.side != s
    ensures Recorded(s, Next(st, a).At(s), Noted(calls, s, a))
  {
    var c, c' := st.At(s), Next(st, a).At(s);
    assert c'.pc == c.pc && c'.log == c.log && c'.arg == c.arg;
  }

  lemma StepIsRecorded<T>(st: State<T>, a: Action<T>, s: Side, calls: seq<Call<T>>)
    requires Enabled(st, a) && Recorded(s, st.At(s), calls)
    ensures Recorded(s, Next(st, a).At(s), Noted(calls, s, a))
  {
    if a.CloseSection? || a.CloseNotify? || a.side != s {
      OtherStepIsRecorded(st, a, s, calls);
    } else if a.Begin? {
      BeginIsRecorded(st, s, a.item, a.mode, calls);
    } else if a.Retry? {
      RetryIsRecorded(st, s, calls);
    } else {
      OwnStepIsRecorded(st, a, s, calls);
    }
  }

  /** Over every run, from a state whose calls are recorded. */
  lemma {:induction false} RunIsRecorded<T>(st: State<T>, run: seq<Action<T>>, s: Side, calls: seq<Call<T>>)
    requires IsRun(st, run) && Recorded(s, st.At(s), calls)
    ensures Recorded(s, After(st, run).At(s), Calls(calls, s, run))
    decreases |run|
  {
    if run != [] {
      StepIsRecorded(st, run[0], s, calls);
      RunIsRecorded(Next(st, run[0]), run[1..], s, Noted(calls, s, run[0]));
    }
  }

  /** For every capacity and all wait objects, over every run: the k-th answer of a side is
      the answer to its k-th call, with the item of that call if it has written one, and with
      the timeout bit exactly if a timeout has ended the wait of that call. */
  lemma EveryCallIsAnswered<T>(cap: nat, rk: Wobj, wk: Wobj, run: seq<Action<T>>, s: Side)
    requires IsRun(Init(cap, rk, wk), run)
    ensures Recorded(s, After(Init(cap, rk, wk), run).At(s), Calls([], s, run))
  {
    RunIsRecorded(Init(cap, rk, wk), run, s, []);
  }

  // ---------------------------------------------------------------- what an answer says

  predicate CanMove<T>(st: State<T>, s: Side) {
    if s.Reader? then st.chan.queue != [] else !st.chan.closed && |st.chan.queue| < st.chan.cap
  }

  predicate SeesEnd<T>(st: State<T>, s: Side) {
    st.chan.closed && (s.Reader? ==> st.chan.queue == [])
  }

  /** The channel after the operation of a side that can move. */
  function Moving<T>(chan: BC.Chan<T, Side>, s: Side, item: Option<T>): BC.Chan<T, Side>
    requires s.Reader? ==> chan.queue != []
    requires s.Writer? ==> item.Some?
  {
    chan.(notify := None, queue := if s.Reader? then chan.queue[1..] else chan.queue + [item.value])
  }

  /** The first attempt of a call, and the one after its wait: success whenever the side can
      move, closed when it never will, and otherwise a call waits if it may and has not yet. */
  lemma AttemptsAreAnswered<T>(st: State<T>, a: Action<T>)
    requires Enabled(st, a) && (a.Begin? || a.Retry?)
    ensures var s, c, st' := a.side, st.At(a.side), Next(st, a);
      var item := if a.Begin? then a.item else c.arg;
      var late := a.Retry? && c.pc.timedOut;
      var value := if s.Reader? && st.chan.queue != [] then Some(st.chan.queue[0]) else item;
      var c' := st'.At(s);
      if CanMove(st, s) then
        && st'.chan == Moving(st.chan, s, item)
        && c'.log == c.log + [Done(value, Status(true, false, late), a.Retry?)]
        && c'.pc == if st.chan.notify.Some? then Notifying(st.chan.notify.value) else Idle
      else if SeesEnd(st, s) then
        st'.chan == st.chan && c'.pc == Idle && c'.log == c.log + [Done(None, Status(false, true, late), a.Retry?)]
      else if a.Begin? && !a.mode.Sync? then
        st'.chan == st.chan.(notify := Some(s)) && c'.pc == Armed(a.mode.Timed?) && c'.log == c.log
      else
        && st'.chan == st.chan.(notify := None) && c'.pc == Idle
        && c'.log == c.log + [Done(None, Status(false, false, late), a.Retry?)]
  {
  }

  // ---------------------------------------------------------------- exactly once

  /** The items of the calls that were answered with success. */
  function Written<T>(calls: seq<Call<T>>, log: seq<Done<T>>): seq<T>
    requires |log| <= |calls|
  {
    if log == [] then []
    else
      var n := |log| - 1;
      Written(calls, log[..n])
      + (if log[n].status.success && calls[n].item.Some? then [calls[n].item.value] else [])
  }

  lemma {:induction false} WrittenIsMoved<T>(calls: seq<Call<T>>, log: seq<Done<T>>)
    requires InOrder(Writer, calls, log)
    ensures Written(calls, log) == Moved(log)
    decreases |log|
  {
    if log != [] {
      assert Answers(Writer, calls[|log| - 1], log[|log| - 1]);
      WrittenIsMoved(calls, log[..|log| - 1]);
    }
  }

  ghost predicate Flows<T>(st: State<T>) {
    && |st.chan.queue| <= st.chan.cap
    && st.accepted == st.delivered + st.chan.queue
    && Moved(st.writer.log) == st.accepted && Moved(st.reader.log) == st.delivered
  }

  /** One more answer on one side, and the value it moves, if any. */
  lemma AnswerFlows<T>(st: State<T>, s: Side, d: Done<T>, st': State<T>)
    requires Flows(st) && st'.At(s).log == st.At(s).log + [d] && st'.At(s.Other()).log == st.At(s.Other()).log
    requires |st'.chan.queue| <= st'.chan.cap && st'.accepted == st'.delivered + st'.chan.queue
    requires var moved := if d.status.success && d.value.Some? then [d.value.value] else [];
      && st'.accepted == (if s.Writer? then st.accepted + moved else st.accepted)
      && st'.delivered == (if s.Reader? then st.delivered + moved else st.delivered)
    ensures Flows(st')
  {
    LogGrows(st.At(s).log, d);
    assert st.accepted + [] == st.accepted && st.delivered + [] == st.delivered;
  }

  lemma ReadFlows<T>(st: State<T>, arm: Option<Side>, waited: bool, timedOut: bool)
    requires Flows(st)
    ensures var (st', out) := Attempt(st, Reader, arm);
      Flows(Finish(st', Reader, out, waited, timedOut)) && (!out.status.success ==> Flows(st'))
  {
    var (st', out) := Attempt(st, Reader, arm);
    var d := Done(if out.status.success then out.value else None, out.status.(timeout := timedOut), waited);
    if out.status.success {
      assert st.delivered + st.chan.queue == (st.delivered + [st.chan.queue[0]]) + st.chan.queue[1..];
    } else {
      assert st.delivered + [] == st.delivered;
    }
    AnswerFlows(st, Reader, d, Finish(st', Reader, out, waited, timedOut));
  }

  lemma WriteFlows<T>(st: State<T>, arm: Option<Side>, waited: bool, timedOut: bool)
    requires Flows(st) && st.writer.arg.Some?
    ensures var (st', out) := Attempt(st, Writer, arm);
      Flows(Finish(st', Writer, out, waited, timedOut)) && (!out.status.success ==> Flows(st'))
  {
    var (st', out) := Attempt(st, Writer, arm);
    var d := Done(if out.status.success then st.writer.arg else None, out.status.(timeout := timedOut), waited);
    if out.status.success {
      assert st.accepted + [st.writer.arg.value] == st.delivered + (st.chan.queue + [st.writer.arg.value]);
    } else {
      assert st.accepted + [] == st.accepted;
    }
    AnswerFlows(st, Writer, d, Finish(st', Writer, out, waited, timedOut));
  }

  lemma NextFlows<T>(st: State<T>, a: Action<T>)
    requires Flows(st) && Enabled(st, a)
    ensures Flows(Next(st, a))
  {
    match a {
      case Begin(Reader, item, mode) =>
        ReadFlows(st.(reader := st.reader.(arg := item)), if mode.Sync? then None else Some(Reader), false, false);
      case Begin(Writer, item, mode) =>
        WriteFlows(st.(writer := st.writer.(arg := item)), if mode.Sync? then None else Some(Writer), false, false);
      case Retry(Reader) => ReadFlows(st, None, true, st.reader.pc.timedOut);
      case Retry(Writer) => WriteFlows(st, None, true, st.writer.pc.timedOut);
      case _ =>
    }
  }

  lemma {:induction false} RunFlows<T>(st: State<T>, run: seq<Action<T>>)
    requires Flows(st) && IsRun(st, run)
    ensures Flows(After(st, run))
    decreases |run|
  {
    if run != [] {
      NextFlows(st, run[0]);
      RunFlows(Next(st, run[0]), run[1..]);
    }
  }

  /** Exactly-once transfer, for every capacity and all wait objects, over every run: the
      items of the writing calls that reported success, in order, are the values the reading
      calls have got, followed by what is queued, within the bound. */
  lemma ExactlyOnce<T>(cap: nat, rk: Wobj, wk: Wobj, run: seq<Action<T>>)
    requires IsRun(Init(cap, rk, wk), run)
    ensures var st := After(Init(cap, rk, wk), run);
      var calls := Calls([], Writer, run);
      && |st.chan.queue| <= st.chan.cap
      && |st.writer.log| <= |calls|
      && Written(calls, st.writer.log) == Moved(st.reader.log) + st.chan.queue
      && st.accepted == Written(calls, st.writer.log) && st.delivered == Moved(st.reader.log)
  {
    RunFlows(Init(cap, rk, wk), run);
    EveryCallIsAnswered(cap, rk, wk, run, Writer);
    WrittenIsMoved(Calls([], Writer, run), After(Init(cap, rk, wk), run).writer.log);
  }

  // ---------------------------------------------------------------- timeouts

  function TimeOuts<T>(run: seq<Action<T>>, s: Side): nat {
    if run == [] then 0 else Count(run[0] == TimeOut(s)) + TimeOuts(run[1..], s)
  }

  lemma {:induction false} RunCountsTimeOuts<T>(st: State<T>, run: seq<Action<T>>, s: Side)
    requires IsRun(st, run)
    ensures After(st, run).At(s).timeouts == st.At(s).timeouts + TimeOuts(run, s)
    decreases |run|
  {
    if run != [] {
      assert Next(st, run[0]).At(s).timeouts == st.At(s).timeouts + Count(run[0] == TimeOut(s));
      RunCountsTimeOuts(Next(st, run[0]), run[1..], s);
    }
  }

  /** Over every run, with timeouts: a side sees at most as many aborted results as timeouts
      have ended waits of that side. Without timeouts a wait ends in success or closed. */
  lemma AbortsNeedTimeouts<T>(cap: nat, rk: Wobj, wk: Wobj, run: seq<Action<T>>, s: Side)
    requires 1 <= cap && !rk.OffStrand? && !wk.OffStrand?
    requires IsRun(Init(cap, rk, wk), run)
    ensures var log := After(Init(cap, rk, wk), run).At(s).log;
      && Aborts(log) <= TimeOuts(run, s)
      && (TimeOuts(run, s) == 0 ==> forall i :: 0 <= i < |log| && log[i].waited ==> !log[i].status.Aborted())
  {
    InitInv<T>(cap, rk, wk);
    RunKeepsInv(Init(cap, rk, wk), run);
    RunCountsTimeOuts(Init(cap, rk, wk), run, s);
    NoAborts(After(Init(cap, rk, wk), run).At(s).log);
  }

  lemma {:induction false} NoAborts<T>(log: seq<Done<T>>)
    ensures Aborts(log) == 0 ==> forall i :: 0 <= i < |log| && log[i].waited ==> !log[i].status.Aborted()
  {
    if log != [] {
      NoAborts(log[..|log| - 1]);
      if Aborts(log) == 0 {
        forall i | 0 <= i < |log| && log[i].waited ensures !log[i].status.Aborted() {
          if i < |log| - 1 {
            assert log[..|log| - 1][i] == log[i];
          }
        }
      }
    }
  }
}
