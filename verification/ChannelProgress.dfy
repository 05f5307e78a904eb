/**
 Progress of the wait protocol: a producer that pushes the values of a script, each with an
 unlimited wait, and then closes the channel, against a consumer that polls until it is
 told that the channel is closed.

 Every interleaving terminates, is never stuck before the end, and hands the consumer
 exactly the script.
 */
module ChannelProgress {
  import opened Basics
  import opened ChannelProtocol

  /** The consumer has seen the end of the stream. */
  predicate SawClosed<T>(st: State<T>) {
    st.reader.log != [] && st.reader.log[|st.reader.log| - 1].status.closed
  }

  /** The script's values not handed to the channel operations yet. */
  function Started<T>(st: State<T>): nat {
    |st.accepted| + Count(st.writer.pc.Armed? || st.writer.pc.Waiting? || st.writer.pc.Retrying?)
  }

  /** What the two programs may do next; every other action belongs to the protocol. */
  predicate Allowed<T(==)>(script: seq<T>, st: State<T>, a: Action<T>) {
    && Enabled(st, a)
    && match a
       case Begin(Writer, item, mode) =>
         Started(st) < |script| && item == Some(script[Started(st)]) && mode.Untimed? && !st.chan.closed
       case Begin(Reader, item, mode) => !SawClosed(st) && mode.Untimed?
       case CloseSection => st.writer.pc.Idle? && Started(st) == |script| && !st.chan.closed
       case TimeOut(_) => false
       case _ => true
  }

  predicate Finished<T>(st: State<T>) {
    st.chan.closed && st.closing.None? && st.writer.pc.Idle? && st.reader.pc.Idle? && SawClosed(st)
  }

  ghost predicate ScriptInv<T>(script: seq<T>, st: State<T>) {
    && Inv(st)
    && st.reader.timeouts == 0 && st.writer.timeouts == 0
    && Unlimited(st.reader.pc) && Unlimited(st.writer.pc)
    && Started(st) <= |script|
    && st.accepted == script[..|st.accepted|]
    && (Started(st) > |st.accepted| ==> st.writer.arg == Some(script[|st.accepted|]))
    && (st.chan.closed ==> st.writer.pc.Idle? || st.writer.pc.Notifying?)
    && (st.chan.closed ==> |st.accepted| == |script|)
    && (st.closing.Some? ==> st.chan.closed)
    && (SawClosed(st) ==> st.chan.closed && st.chan.queue == [] && st.reader.pc.Idle?)
  }

  predicate Unlimited(pc: Pc) {
    && ((pc.Armed? || pc.Waiting?) ==> !pc.timed)
    && (pc.Retrying? ==> !pc.timedOut)
  }

  /** How far an operation of a side still has to go. */
  function Rank(pc: Pc): nat {
    match pc
    case Notifying(_) => 6
    case Idle => 5
    case Armed(_) => 4
    case Waiting(_) => 3
    case Retrying(_) => 2
  }

  function Measure<T>(script: seq<T>, st: State<T>): int {
    7 * (|script| - |st.accepted|) + Rank(st.writer.pc)
    + 7 * (|script| - |st.delivered| + 1 - Count(SawClosed(st))) + Rank(st.reader.pc)
    + Count(!st.chan.closed) * 2 + Count(st.closing.Some?)
  }

  /** One step in the right direction. */
  ghost predicate Progress<T>(script: seq<T>, st: State<T>, st': State<T>) {
    ScriptInv(script, st') && Measure(script, st') < Measure(script, st)
  }

  /** Without timeouts nothing is left over: a woken side is no longer blocked. */
  lemma RetryIsNotBlocked<T>(script: seq<T>, st: State<T>, s: Side)
    requires ScriptInv(script, st) && st.At(s).pc.Retrying?
    ensures !st.BlockedOn(s) || st.chan.closed
  {
    assert Tokens(st, s) == 0;
  }

  lemma ReaderOpProgresses<T>(script: seq<T>, st: State<T>, a: Action<T>)
    requires ScriptInv(script, st) && Allowed(script, st, a)
    requires a.Begin? || a.Retry?
    requires a.side == Reader
    ensures Progress(script, st, Next(st, a))
  {
    NextKeepsInv(st, a);
    var started := if a.Begin? then st.With(Reader, st.reader.(arg := a.item)) else st;
    var arm := if a.Begin? then Some(Reader) else None;
    AttemptMoves(started, Reader, arm);
    var (st', out) := Attempt(started, Reader, arm);
    if a.Retry? {
      RetryIsNotBlocked(script, st, Reader);
    }
    ReaderResultProgresses(script, st, started, a.Retry?, st', out, Next(st, a));
  }

  lemma ReaderResultProgresses<T>(script: seq<T>, st: State<T>, started: State<T>, retry: bool,
                                  st': State<T>, out: BC.Outcome<T, Side>, end: State<T>)
    requires ScriptInv(script, st) && !SawClosed(st)
    requires started == st.With(Reader, started.reader) && started.reader == st.reader.(arg := started.reader.arg)
    requires Moves(started, Reader, if retry then None else Some(Reader), st', out)
    requires if retry then st.reader.pc == Retrying(false) else st.reader.pc == Idle
    requires retry ==> out.status.Complete()
    requires end == if out.status.Complete() then Finish(st', Reader, out, retry, false)
                    else st'.With(Reader, st'.reader.(pc := Armed(false)))
    requires Inv(end)
    ensures Progress(script, st, end)
  {
    if out.status.success {
      assert !SawClosed(end);
    } else if out.status.closed {
      assert SawClosed(end);
    }
  }

  lemma WriterOpProgresses<T>(script: seq<T>, st: State<T>, a: Action<T>)
    requires ScriptInv(script, st) && Allowed(script, st, a)
    requires a.Begin? || a.Retry?
    requires a.side == Writer
    ensures Progress(script, st, Next(st, a))
  {
    NextKeepsInv(st, a);
    var started := if a.Begin? then st.With(Writer, st.writer.(arg := a.item)) else st;
    var arm := if a.Begin? then Some(Writer) else None;
    AttemptMoves(started, Writer, arm);
    var (st', out) := Attempt(started, Writer, arm);
    if a.Retry? {
      RetryIsNotBlocked(script, st, Writer);
    }
    WriterResultProgresses(script, st, started, a.Retry?, st', out, Next(st, a));
  }

  lemma WriterResultProgresses<T>(script: seq<T>, st: State<T>, started: State<T>, retry: bool,
                                  st': State<T>, out: BC.Outcome<T, Side>, end: State<T>)
    requires ScriptInv(script, st) && !st.chan.closed && |st.accepted| < |script|
    requires started == st.With(Writer, started.writer)
    requires started.writer == st.writer.(arg := Some(script[|st.accepted|]))
    requires Moves(started, Writer, if retry then None else Some(Writer), st', out)
    requires if retry then st.writer.pc == Retrying(false) else st.writer.pc == Idle
    requires retry ==> out.status.Complete()
    requires end == if out.status.Complete() then Finish(st', Writer, out, retry, false)
                    else st'.With(Writer, st'.writer.(pc := Armed(false)))
    requires Inv(end)
    ensures Progress(script, st, end)
  {
    if out.status.success {
      WriterSuccessProgresses(script, st, started, retry, st', out, end);
    } else {
      assert end == st'.With(Writer, st'.writer.(pc := Armed(false)));
    }
  }

  lemma WriterSuccessProgresses<T>(script: seq<T>, st: State<T>, started: State<T>, retry: bool,
                                   st': State<T>, out: BC.Outcome<T, Side>, end: State<T>)
    requires ScriptInv(script, st) && !st.chan.closed && |st.accepted| < |script|
    requires started == st.With(Writer, started.writer)
    requires started.writer == st.writer.(arg := Some(script[|st.accepted|]))
    requires Moves(started, Writer, if retry then None else Some(Writer), st', out) && out.status.success
    requires if retry then st.writer.pc == Retrying(false) else st.writer.pc == Idle
    requires end == Finish(st', Writer, out, retry, false)
    requires Inv(end)
    ensures Progress(script, st, end)
  {
    assert end.accepted == script[..|st.accepted|] + [script[|st.accepted|]];
    assert end.reader == st.reader && Started(end) == |end.accepted|;
  }

  lemma SignalProgresses<T>(script: seq<T>, st: State<T>, a: Action<T>)
    requires ScriptInv(script, st) && Allowed(script, st, a)
    requires a.Notify? || a.CloseNotify?
    ensures Progress(script, st, Next(st, a))
  {
    NextKeepsInv(st, a);
    if a.CloseNotify? {
      SignalKeepsScript(script, st, st.(closing := None), st.closing.value);
    } else {
      var s := a.side;
      SignalKeepsScript(script, st, st.With(s, st.At(s).(pc := Idle)), st.At(s).pc.target);
    }
  }

  /** Invoking a notification changes nothing the script is about. */
  lemma SignalKeepsScript<T>(script: seq<T>, st: State<T>, st': State<T>, target: Side)
    requires ScriptInv(script, st)
    requires st' == st.(closing := None) || st' == st.With(Reader, st.reader.(pc := Idle))
      || st' == st.With(Writer, st.writer.(pc := Idle))
    requires Measure(script, st') < Measure(script, st)
    requires forall s ::
      && Rank(st'.At(s).pc) <= Rank(st.At(s).pc)
      && (st'.At(s).pc != st.At(s).pc ==> st.At(s).pc.Notifying?)
    ensures var end := st'.With(target, Signal(st'.At(target)));
      Inv(end) ==> Progress(script, st, end)
  {
  }

  /** In a timeout-free run no posted notification is ever wasted. */
  lemma NothingToDrop<T>(script: seq<T>, st: State<T>, s: Side)
    requires ScriptInv(script, st)
    ensures !Enabled(st, Drop(s))
  {
    assert Tokens(st, s) <= Count(st.Arming(s));
  }

  lemma StepProgresses<T>(script: seq<T>, st: State<T>, a: Action<T>)
    requires ScriptInv(script, st) && Allowed(script, st, a)
    ensures Progress(script, st, Next(st, a))
  {
    if (a.Begin? || a.Retry?) && a.side == Reader {
      ReaderOpProgresses(script, st, a);
    } else if a.Begin? || a.Retry? {
      WriterOpProgresses(script, st, a);
    } else if a.Notify? || a.CloseNotify? {
      SignalProgresses(script, st, a);
    } else {
      if a.Drop? {
        NothingToDrop(script, st, a.side);
      }
      NextKeepsInv(st, a);
    }
  }

  ghost predicate Stuck<T(!new)>(script: seq<T>, st: State<T>) {
    forall a :: !Allowed(script, st, a)
  }

  /** Before the end some action is always possible. */
  lemma NeverStuck<T(!new)>(script: seq<T>, st: State<T>)
    requires ScriptInv(script, st) && !Finished(st)
    ensures !Stuck(script, st)
  {
    if st.reader.pc.Armed? { assert Allowed(script, st, Enter(Reader)); }
    if st.writer.pc.Armed? { assert Allowed(script, st, Enter(Writer)); }
    if st.reader.pc.Retrying? { assert Allowed(script, st, Retry(Reader)); }
    if st.writer.pc.Retrying? { assert Allowed(script, st, Retry(Writer)); }
    if st.reader.pc.Notifying? { assert Allowed(script, st, Notify(Reader)); }
    if st.writer.pc.Notifying? { assert Allowed(script, st, Notify(Writer)); }
    if st.closing.Some? { assert Allowed(script, st, CloseNotify); }
    if st.reader.pc.Waiting? && st.reader.pending > 0 { assert Allowed(script, st, Wake(Reader)); }
    if st.writer.pc.Waiting? && st.writer.pending > 0 { assert Allowed(script, st, Wake(Writer)); }
    if st.reader.pc.Idle? && !SawClosed(st) { assert Allowed(script, st, Begin(Reader, None, Untimed)); }
    if st.writer.pc.Idle? && !st.chan.closed {
      if Started(st) < |script| {
        assert Allowed(script, st, Begin(Writer, Some(script[Started(st)]), Untimed));
      } else {
        assert Allowed(script, st, CloseSection);
      }
    }
    InvMeansNoLostWakeup(st);
  }

  ghost predicate IsScriptRun<T>(script: seq<T>, st: State<T>, run: seq<Action<T>>)
    decreases |run|
  {
    run == [] || (Allowed(script, st, run[0]) && IsScriptRun(script, Next(st, run[0]), run[1..]))
  }

  lemma {:induction false} ScriptRunIsRun<T>(script: seq<T>, st: State<T>, run: seq<Action<T>>)
    requires IsScriptRun(script, st, run)
    ensures IsRun(st, run)
    decreases |run|
  {
    if run != [] {
      ScriptRunIsRun(script, Next(st, run[0]), run[1..]);
    }
  }

  lemma {:induction false} RunsAreBounded<T>(script: seq<T>, st: State<T>, run: seq<Action<T>>)
    requires ScriptInv(script, st) && IsScriptRun(script, st, run)
    ensures IsRun(st, run)
    ensures ScriptInv(script, After(st, run))
    ensures |run| <= Measure(script, st) - Measure(script, After(st, run))
    decreases |run|
  {
    ScriptRunIsRun(script, st, run);
    if run != [] {
      StepProgresses(script, st, run[0]);
      RunsAreBounded(script, Next(st, run[0]), run[1..]);
    }
  }

  lemma MeasureIsNatural<T>(script: seq<T>, st: State<T>)
    requires ScriptInv(script, st)
    ensures Measure(script, st) >= 0
  {
  }

  lemma ScriptStarts<T>(script: seq<T>, cap: nat, rk: Wobj, wk: Wobj)
    requires 1 <= cap && !rk.OffStrand? && !wk.OffStrand?
    ensures ScriptInv(script, Init(cap, rk, wk))
    ensures Measure(script, Init(cap, rk, wk)) == 14 * |script| + 19
  {
    InitInv<T>(cap, rk, wk);
  }

  lemma FinishedHasAll<T>(script: seq<T>, st: State<T>)
    requires ScriptInv(script, st) && Finished(st)
    ensures Moved(st.reader.log) == script
  {
    assert st.accepted == st.delivered + [];
    assert script[..|script|] == script;
  }

  /** The main result. Every run of the script has at most `14 * n + 19` steps; a state it
      reaches is either finished or has a next step; and when it is finished the consumer
      has received exactly the script, in order. */
  lemma ProducerConsumerCompletes<T(!new)>(script: seq<T>, cap: nat, rk: Wobj, wk: Wobj, run: seq<Action<T>>)
    requires 1 <= cap && !rk.OffStrand? && !wk.OffStrand?
    requires IsScriptRun(script, Init(cap, rk, wk), run)
    ensures IsRun(Init(cap, rk, wk), run)
    ensures |run| <= 14 * |script| + 19
    ensures var st := After(Init(cap, rk, wk), run);
      && (Finished(st) || !Stuck(script, st))
      && (Finished(st) ==> Moved(st.reader.log) == script)
  {
    var s0 := Init(cap, rk, wk);
    ScriptStarts(script, cap, rk, wk);
    RunsAreBounded(script, s0, run);
    var st := After(s0, run);
    MeasureIsNatural(script, st);
    if Finished(st) {
      FinishedHasAll(script, st);
    } else {
      NeverStuck(script, st);
    }
  }
}
