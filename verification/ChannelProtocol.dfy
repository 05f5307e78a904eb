/**
 The wait protocol over one bounded channel: a reader and a writer, each running
 attempt - arm - wait - retry operations, and a third party that may close the channel at
 any time.

 The system is a set of interleaved atomic actions. A critical section of the channel is
 one action; invoking the notification it took out of the slot is a separate action,
 because that happens after the lock is released; so are entering the wait, waking up,
 timing out and retrying.
 */
module ChannelProtocol {
  import opened Basics
  import BC = BufferedChannel

  datatype Side = Reader | Writer {
    function Other(): Side {
      if Reader? then Writer else Reader
    }
  }

  /** The wait object of a side: a condition variable with a sticky flag, a strand whose
      notifications are posted tasks, or the same strand object used from outside of its
      own strand. */
  datatype Wobj = Cvar | Strand | OffStrand

  /** A single attempt, a wait without limit, or a wait that may time out. */
  datatype Mode = Sync | Untimed | Timed

  datatype Pc =
    | Idle
    | Armed(timed: bool)       // blocked and armed, not waiting yet
    | Waiting(timed: bool)
    | Retrying(timedOut: bool)
    | Notifying(target: Side)  // lock released, notification not invoked yet

  /** A finished operation: what it moved, its status, and whether it waited. */
  datatype Done<T> = Done(value: Option<T>, status: Status, waited: bool)

  /** `pending` is the sticky flag (0 or 1), or the number of notification tasks posted on
      the strand. `timeouts` counts the waits that ended by timeout. */
  datatype Client<T> = Client(
    kind: Wobj, pc: Pc, arg: Option<T>, pending: nat, timeouts: nat, log: seq<Done<T>>)

  datatype State<T> = State(
    chan: BC.Chan<T, Side>,
    reader: Client<T>,
    writer: Client<T>,
    closing: Option<Side>,  // the closer has released the lock and not notified yet
    accepted: seq<T>,
    delivered: seq<T>)
  {
    function At(s: Side): Client<T> {
      if s.Reader? then reader else writer
    }

    function With(s: Side, c: Client<T>): State<T> {
      if s.Reader? then this.(reader := c) else this.(writer := c)
    }

    predicate BlockedOn(s: Side) {
      if s.Reader? then chan.queue == [] else chan.Full()
    }

    predicate Arming(s: Side) {
      At(s).pc.Armed? || At(s).pc.Waiting?
    }
  }

  datatype Action<T> =
    | Begin(side: Side, item: Option<T>, mode: Mode)
    | Enter(side: Side)
    | Wake(side: Side)
    | TimeOut(side: Side)
    | Retry(side: Side)
    | Notify(side: Side)
    | Drop(side: Side)  // a posted notification runs while no callback is registered
    | CloseSection
    | CloseNotify

  function NewClient<T>(kind: Wobj): Client<T> {
    Client(kind, Idle, None, 0, 0, [])
  }

  function Init<T>(cap: nat, readerKind: Wobj, writerKind: Wobj): State<T> {
    State(BC.Init(cap), NewClient(readerKind), NewClient(writerKind), None, [], [])
  }

  /** One stream operation of a side, arming `arm` if it blocks. */
  function Attempt<T>(st: State<T>, s: Side, arm: Option<Side>): (State<T>, BC.Outcome<T, Side>)
    requires s.Writer? ==> st.writer.arg.Some?
  {
    if s.Reader? then
      var (c, out) := BC.Apply(st.chan, BC.Read(arm));
      (st.(chan := c, delivered := st.delivered + BC.Got(out)), out)
    else
      var op := BC.Write(st.writer.arg.value, arm);
      var (c, out) := BC.Apply(st.chan, op);
      (st.(chan := c, accepted := st.accepted + BC.Sent(op, out)), out)
  }

  /** The operation is over: record its result and invoke what it fired. */
  function Finish<T>(st: State<T>, s: Side, out: BC.Outcome<T, Side>, waited: bool, timedOut: bool): State<T> {
    var c := st.At(s);
    var moved := if !out.status.success then None else if s.Reader? then out.value else c.arg;
    st.With(s, c.(
      pc := if out.fired.Some? then Notifying(out.fired.value) else Idle,
      log := c.log + [Done(moved, out.status.(timeout := timedOut), waited)]))
  }

  function Signal<T>(c: Client<T>): Client<T> {
    c.(pending := if c.kind.Cvar? then 1 else c.pending + 1)
  }

  predicate Enabled<T>(st: State<T>, a: Action<T>) {
    match a
    case Begin(s, item, mode) =>
      st.At(s).pc.Idle? && (s.Writer? <==> item.Some?) && (mode.Timed? ==> st.At(s).kind.Cvar?)
    case Enter(s) => st.At(s).pc.Armed?
    case Wake(s) => st.At(s).pc.Waiting? && st.At(s).pending > 0
    case TimeOut(s) => st.At(s).pc == Waiting(true) && st.At(s).pending == 0
    case Retry(s) => st.At(s).pc.Retrying? && (s.Writer? ==> st.writer.arg.Some?)
    case Notify(s) => st.At(s).pc.Notifying?
    case Drop(s) =>
      var c := st.At(s);
      && c.pending > 0 && !c.kind.Cvar?
      && (c.pc.Idle? || (c.kind.OffStrand? && (c.pc.Armed? || c.pc.Notifying?)))
    case CloseSection => st.closing.None?
    case CloseNotify => st.closing.Some?
  }

  function Next<T>(st: State<T>, a: Action<T>): State<T>
    requires Enabled(st, a)
  {
    match a
    case Begin(s, item, mode) =>
      var started := st.With(s, st.At(s).(arg := item));
      var (st', out) := Attempt(started, s, if mode.Sync? then None else Some(s));
      if out.status.Complete() || mode.Sync? then Finish(st', s, out, false, false)
      else st'.With(s, st'.At(s).(pc := Armed(mode.Timed?)))
    case Enter(s) => st.With(s, st.At(s).(pc := Waiting(st.At(s).pc.timed)))
    case Wake(s) =>
      var c := st.At(s);
      st.With(s, c.(pc := Retrying(false), pending := if c.kind.Cvar? then 0 else c.pending - 1))
    case TimeOut(s) =>
      var c := st.At(s);
      st.With(s, c.(pc := Retrying(true), timeouts := c.timeouts + 1))
    case Retry(s) =>
      var (st', out) := Attempt(st, s, None);
      Finish(st', s, out, true, st.At(s).pc.timedOut)
    case Notify(s) =>
      var target := st.At(s).pc.target;
      var st' := st.With(s, st.At(s).(pc := Idle));
      st'.With(target, Signal(st'.At(target)))
    case Drop(s) => st.With(s, st.At(s).(pending := st.At(s).pending - 1))
    case CloseSection =>
      var (c, out) := BC.Apply(st.chan, BC.Close);
      st.(chan := c, closing := out.fired)
    case CloseNotify =>
      st.(closing := None).With(st.closing.value, Signal(st.At(st.closing.value)))
  }

  ghost predicate IsRun<T>(st: State<T>, run: seq<Action<T>>)
    decreases |run|
  {
    run == [] || (Enabled(st, run[0]) && IsRun(Next(st, run[0]), run[1..]))
  }

  ghost function After<T>(st: State<T>, run: seq<Action<T>>): State<T>
    requires IsRun(st, run)
    decreases |run|
  {
    if run == [] then st else After(Next(st, run[0]), run[1..])
  }

  // ---------------------------------------------------------------- the invariant

  function Count(b: bool): nat {
    if b then 1 else 0
  }

  /** Notifications for a side between the slot and its wait object. */
  function InFlight<T>(st: State<T>, s: Side): nat {
    Count(st.reader.pc == Notifying(s)) + Count(st.writer.pc == Notifying(s)) + Count(st.closing == Some(s))
  }

  /** All notifications that exist for a side, wherever they are. */
  function Tokens<T>(st: State<T>, s: Side): nat {
    Count(st.chan.notify == Some(s)) + InFlight(st, s) + st.At(s).pending
  }

  function Aborts<T>(log: seq<Done<T>>): nat {
    if log == [] then 0
    else Aborts(log[..|log| - 1]) + Count(log[|log| - 1].waited && log[|log| - 1].status.Aborted())
  }

  /** The values moved by the operations that reported success. */
  function Moved<T>(log: seq<Done<T>>): seq<T> {
    if log == [] then []
    else
      var d := log[|log| - 1];
      Moved(log[..|log| - 1]) + (if d.status.success && d.value.Some? then [d.value.value] else [])
  }

  ghost predicate WellFormed<T>(st: State<T>, s: Side) {
    var c := st.At(s);
    && !c.kind.OffStrand?
    && (c.pc.Notifying? ==> c.pc.target == s.Other())
    && (s.Writer? && (c.pc.Armed? || c.pc.Waiting? || c.pc.Retrying?) ==> c.arg.Some?)
    && ((c.pc.Armed? || c.pc.Waiting?) && c.pc.timed ==> c.kind.Cvar?)
    && (c.kind.Cvar? ==> c.pending <= 1)
    && (forall i :: 0 <= i < |c.log| ==> (c.log[i].status.success <==> c.log[i].value.Some?))
  }

  /** The slot holds a side's notification exactly while that side is in an operation it
      is still blocked on. */
  ghost predicate SlotOwned<T>(st: State<T>, s: Side) {
    var pc := st.At(s).pc;
    st.chan.notify == Some(s) <==>
    (pc.Armed? || pc.Waiting? || pc.Retrying?) && st.BlockedOn(s) && !st.chan.closed
  }

  /** A waiting side always has a notification on its way. */
  ghost predicate NoLostWakeup<T>(st: State<T>, s: Side) {
    st.At(s).pc.Waiting? ==>
      || (st.chan.notify == Some(s) && st.BlockedOn(s) && !st.chan.closed)
      || InFlight(st, s) > 0
      || st.At(s).pending > 0
  }

  /** Notifications left over from earlier operations are paid for by timeouts. */
  ghost predicate Budget<T>(st: State<T>, s: Side) {
    && (st.Arming(s) ==> Tokens(st, s) >= 1)
    && Tokens(st, s) + Aborts(st.At(s).log) <= st.At(s).timeouts + Count(st.Arming(s))
  }

  ghost predicate Conserved<T>(st: State<T>) {
    && st.accepted == st.delivered + st.chan.queue
    && Moved(st.writer.log) == st.accepted
    && Moved(st.reader.log) == st.delivered
  }

  ghost predicate Inv<T>(st: State<T>) {
    && 1 <= st.chan.cap
    && st.chan.SlotDiscipline()
    && WellFormed(st, Reader) && WellFormed(st, Writer)
    && SlotOwned(st, Reader) && SlotOwned(st, Writer)
    && Budget(st, Reader) && Budget(st, Writer)
    && Conserved(st)
  }

  lemma InitInv<T>(cap: nat, rk: Wobj, wk: Wobj)
    requires 1 <= cap && !rk.OffStrand? && !wk.OffStrand?
    ensures Inv(Init<T>(cap, rk, wk))
  {
  }

  lemma EnterKeepsInv<T>(st: State<T>, s: Side)
    requires Inv(st) && Enabled(st, Enter(s))
    ensures Inv(Next(st, Enter(s)))
  {
  }

  lemma WakeKeepsInv<T>(st: State<T>, s: Side)
    requires Inv(st) && Enabled(st, Wake(s))
    ensures Inv(Next(st, Wake(s)))
  {
  }

  lemma TimeOutKeepsInv<T>(st: State<T>, s: Side)
    requires Inv(st) && Enabled(st, TimeOut(s))
    ensures Inv(Next(st, TimeOut(s)))
  {
  }

  lemma DropKeepsInv<T>(st: State<T>, s: Side)
    requires Inv(st) && Enabled(st, Drop(s))
    ensures Inv(Next(st, Drop(s)))
  {
  }

  lemma NotifyKeepsInv<T>(st: State<T>, s: Side)
    requires Inv(st) && Enabled(st, Notify(s))
    ensures Inv(Next(st, Notify(s)))
  {
    if s.Reader? {
      ReaderNotifyKeepsInv(st);
    } else {
      WriterNotifyKeepsInv(st);
    }
  }

  lemma ReaderNotifyKeepsInv<T>(st: State<T>)
    requires Inv(st) && st.reader.pc.Notifying?
    ensures Inv(st.(reader := st.reader.(pc := Idle), writer := Signal(st.writer)))
  {
  }

  lemma WriterNotifyKeepsInv<T>(st: State<T>)
    requires Inv(st) && st.writer.pc.Notifying?
    ensures Inv(st.(writer := st.writer.(pc := Idle), reader := Signal(st.reader)))
  {
  }

  lemma CloseSectionKeepsInv<T>(st: State<T>)
    requires Inv(st) && Enabled(st, CloseSection)
    ensures Inv(Next(st, CloseSection))
  {
  }

  lemma CloseNotifyKeepsInv<T>(st: State<T>)
    requires Inv(st) && Enabled(st, CloseNotify)
    ensures Inv(Next(st, CloseNotify))
  {
    if st.closing == Some(Reader) {
    } else {
    }
  }

  lemma LogGrows<T>(log: seq<Done<T>>, d: Done<T>)
    ensures Aborts(log + [d]) == Aborts(log) + Count(d.waited && d.status.Aborted())
    ensures Moved(log + [d]) == Moved(log) + (if d.status.success && d.value.Some? then [d.value.value] else [])
  {
    assert (log + [d])[..|log|] == log;
  }

  /** What a finished operation leaves of the bookkeeping of its side. */
  lemma FinishKeepsLog<T>(st: State<T>, s: Side, out: BC.Outcome<T, Side>, waited: bool, timedOut: bool)
    requires WellFormed(st, s) && (s.Writer? ==> st.writer.arg.Some?)
    requires s.Reader? ==> (out.status.success <==> out.value.Some?)
    requires out.fired.Some? ==> out.fired.value == s.Other()
    ensures var st' := Finish(st, s, out, waited, timedOut);
      && WellFormed(st', s)
      && st'.At(s.Other()) == st.At(s.Other()) && st'.chan == st.chan && st'.closing == st.closing
      && Aborts(st'.At(s).log) == Aborts(st.At(s).log)
         + Count(waited && !out.status.success && !out.status.closed && !timedOut)
      && Moved(st'.At(s).log) == Moved(st.At(s).log)
         + (if !out.status.success then [] else if s.Reader? then BC.Got(out) else [st.writer.arg.value])
  {
    var c := st.At(s);
    var moved := if !out.status.success then None else if s.Reader? then out.value else c.arg;
    LogGrows(c.log, Done(moved, out.status.(timeout := timedOut), waited));
  }

  /** What an attempt does, by outcome. */
  ghost predicate Moves<T>(st: State<T>, s: Side, arm: Option<Side>, st': State<T>, out: BC.Outcome<T, Side>) {
    && st' == st.(chan := st'.chan, accepted := st'.accepted, delivered := st'.delivered)
    && st'.chan.SlotDiscipline() && st'.chan.cap == st.chan.cap && st'.chan.closed == st.chan.closed
    && st'.accepted == st'.delivered + st'.chan.queue
    && !out.status.timeout
    && if out.status.success then
         && !st.BlockedOn(s) && !st'.BlockedOn(s.Other())
         && st'.chan.notify == None && out.fired == st.chan.notify
         && !out.status.closed
         && if s.Reader? then
              && out.value.Some? && st'.accepted == st.accepted
              && st'.delivered == st.delivered + [out.value.value]
            else
              && st'.delivered == st.delivered && st.writer.arg.Some?
              && st'.accepted == st.accepted + [st.writer.arg.value]
       else
         && st'.accepted == st.accepted && st'.delivered == st.delivered
         && out.value == None && out.fired == None
         && if out.status.closed then st.chan.closed && st' == st && (s.Reader? ==> st.chan.queue == [])
            else st.BlockedOn(s) && !st.chan.closed && st'.chan == st.chan.(notify := arm)
  }

  lemma AttemptMoves<T>(st: State<T>, s: Side, arm: Option<Side>)
    requires s.Writer? ==> st.writer.arg.Some?
    requires 1 <= st.chan.cap && st.chan.SlotDiscipline() && st.accepted == st.delivered + st.chan.queue
    ensures var (st', out) := Attempt(st, s, arm); Moves(st, s, arm, st', out)
  {
    if s.Reader? {
      ReadMoves(st, arm);
    } else {
      WriteMoves(st, arm);
    }
  }

  lemma ReadMoves<T>(st: State<T>, arm: Option<Side>)
    requires 1 <= st.chan.cap && st.chan.SlotDiscipline() && st.accepted == st.delivered + st.chan.queue
    ensures var (st', out) := Attempt(st, Reader, arm); Moves(st, Reader, arm, st', out)
  {
    var op := BC.Read(arm);
    var (c, out) := BC.Apply(st.chan, op);
    BC.StepConservesValues(st.chan, op);
    BC.SplitSeqs(st.accepted, st.delivered, st.chan.queue, BC.Sent(op, out), BC.Got(out), c.queue);
  }

  lemma WriteMoves<T>(st: State<T>, arm: Option<Side>)
    requires st.writer.arg.Some?
    requires 1 <= st.chan.cap && st.chan.SlotDiscipline() && st.accepted == st.delivered + st.chan.queue
    ensures var (st', out) := Attempt(st, Writer, arm); Moves(st, Writer, arm, st', out)
  {
    var op := BC.Write(st.writer.arg.value, arm);
    var (c, out) := BC.Apply(st.chan, op);
    BC.StepConservesValues(st.chan, op);
    BC.SplitSeqs(st.accepted, st.delivered, st.chan.queue, BC.Sent(op, out), BC.Got(out), c.queue);
  }

  /** The tokens and the slot around an operation of `s` that is finished with status
      `status`; `st'` is the state after it. */
  ghost predicate Concluded<T>(st: State<T>, s: Side, st': State<T>, aborted: bool) {
    var c, c' := st.At(s), st'.At(s);
    && st'.At(s.Other()) == st.At(s.Other()) && st'.closing == st.closing
    && st'.chan.cap == st.chan.cap && st'.chan.closed == st.chan.closed
    && c'.kind == c.kind && c'.pending == c.pending && c'.timeouts == c.timeouts
    && Aborts(c'.log) == Aborts(c.log) + Count(aborted)
    && WellFormed(st', s) && st'.chan.SlotDiscipline() && Conserved(st')
  }

  lemma SuccessKeepsInv<T>(st: State<T>, s: Side, st': State<T>)
    requires Inv(st) && Concluded(st, s, st', false)
    requires st.At(s).pc.Idle? || st.At(s).pc.Retrying?
    requires !st.BlockedOn(s) && !st'.BlockedOn(s.Other()) && st'.chan.notify == None
    requires st'.At(s).pc == if st.chan.notify.Some? then Notifying(st.chan.notify.value) else Idle
    ensures Inv(st')
  {
  }

  lemma FailureKeepsInv<T>(st: State<T>, s: Side, st': State<T>, aborted: bool)
    requires Inv(st) && Concluded(st, s, st', aborted)
    requires st.At(s).pc.Idle? || st.At(s).pc.Retrying?
    requires aborted ==> st.At(s).pc.Retrying?
    requires st'.chan == if st.chan.closed then st.chan else st.chan.(notify := None)
    requires !st.chan.closed ==> st.BlockedOn(s)
    requires aborted ==> !st.chan.closed
    requires st'.At(s).pc == Idle
    ensures Inv(st')
  {
  }

  lemma ArmKeepsInv<T>(st: State<T>, s: Side, st': State<T>, timed: bool)
    requires Inv(st) && Concluded(st, s, st', false)
    requires st.At(s).pc.Idle? && !st.chan.closed && st.BlockedOn(s)
    requires st'.chan == st.chan.(notify := Some(s))
    requires st'.At(s).pc == Armed(timed)
    ensures Inv(st')
  {
  }

  lemma EndIsFinished<T>(st: State<T>, started: State<T>, s: Side, arm: Option<Side>, st': State<T>,
                         out: BC.Outcome<T, Side>, waited: bool, timedOut: bool)
    requires Inv(st) && (st.At(s).pc.Idle? || st.At(s).pc.Retrying?)
    requires started == st.With(s, st.At(s).(arg := started.At(s).arg))
    requires s.Writer? ==> started.writer.arg.Some?
    requires Moves(started, s, arm, st', out)
    ensures Concluded(st, s, Finish(st', s, out, waited, timedOut),
                     waited && !out.status.success && !out.status.closed && !timedOut)
  {
    FinishKeepsLog(st', s, out, waited, timedOut);
  }

  lemma CompletedKeepsInv<T>(st: State<T>, s: Side, item: Option<T>, arm: Option<Side>)
    requires Inv(st) && st.At(s).pc.Idle? && (s.Writer? <==> item.Some?)
    ensures var started := st.With(s, st.At(s).(arg := item));
      var (st', out) := Attempt(started, s, arm);
      out.status.Complete() || arm.None? ==> Inv(Finish(st', s, out, false, false))
  {
    var started := st.With(s, st.At(s).(arg := item));
    AttemptMoves(started, s, arm);
    var (st', out) := Attempt(started, s, arm);
    var end := Finish(st', s, out, false, false);
    EndIsFinished(st, started, s, arm, st', out, false, false);
    if out.status.success {
      SuccessKeepsInv(st, s, end);
    } else if out.status.closed || arm.None? {
      FailureKeepsInv(st, s, end, false);
    }
  }

  lemma BeginKeepsInv<T>(st: State<T>, s: Side, item: Option<T>, mode: Mode)
    requires Inv(st) && Enabled(st, Begin(s, item, mode))
    ensures Inv(Next(st, Begin(s, item, mode)))
  {
    var started := st.With(s, st.At(s).(arg := item));
    var arm := if mode.Sync? then None else Some(s);
    var (st', out) := Attempt(started, s, arm);
    if out.status.Complete() || mode.Sync? {
      CompletedKeepsInv(st, s, item, arm);
    } else {
      AttemptMoves(started, s, arm);
      var end := Next(st, Begin(s, item, mode));
      assert Concluded(st, s, end, false);
      ArmKeepsInv(st, s, end, mode.Timed?);
    }
  }

  lemma RetryKeepsInv<T>(st: State<T>, s: Side)
    requires Inv(st) && Enabled(st, Retry(s))
    ensures Inv(Next(st, Retry(s)))
  {
    AttemptMoves(st, s, None);
    var (st', out) := Attempt(st, s, None);
    var end := Next(st, Retry(s));
    EndIsFinished(st, st, s, None, st', out, true, st.At(s).pc.timedOut);
    if out.status.success {
      SuccessKeepsInv(st, s, end);
    } else {
      FailureKeepsInv(st, s, end, !out.status.closed && !st.At(s).pc.timedOut);
    }
  }

  lemma NextKeepsInv<T>(st: State<T>, a: Action<T>)
    requires Inv(st) && Enabled(st, a)
    ensures Inv(Next(st, a))
  {
    match a {
      case Begin(s, item, mode) => BeginKeepsInv(st, s, item, mode);
      case Enter(s) => EnterKeepsInv(st, s);
      case Wake(s) => WakeKeepsInv(st, s);
      case TimeOut(s) => TimeOutKeepsInv(st, s);
      case Retry(s) => RetryKeepsInv(st, s);
      case Notify(s) => NotifyKeepsInv(st, s);
      case Drop(s) => DropKeepsInv(st, s);
      case CloseSection => CloseSectionKeepsInv(st);
      case CloseNotify => CloseNotifyKeepsInv(st);
    }
  }

  lemma {:induction false} RunKeepsInv<T>(st: State<T>, run: seq<Action<T>>)
    requires Inv(st) && IsRun(st, run)
    ensures Inv(After(st, run))
    decreases |run|
  {
    if run != [] {
      NextKeepsInv(st, run[0]);
      RunKeepsInv(Next(st, run[0]), run[1..]);
    }
  }

  // ---------------------------------------------------------------- main results

  /** Both sides are never waiting with nothing on its way to either of them. */
  ghost predicate NeverBothAsleep<T>(st: State<T>) {
    st.reader.pc.Waiting? && st.writer.pc.Waiting? ==>
      InFlight(st, Reader) + st.reader.pending + InFlight(st, Writer) + st.writer.pending > 0
  }

  lemma InvMeansNoLostWakeup<T>(st: State<T>)
    requires Inv(st)
    ensures NoLostWakeup(st, Reader) && NoLostWakeup(st, Writer) && NeverBothAsleep(st)
  {
    if st.reader.pc.Waiting? && st.writer.pc.Waiting? {
      assert Tokens(st, Reader) >= 1 && Tokens(st, Writer) >= 1;
    }
  }

  ghost predicate WakeupsAreSafe<T(!new)>(cap: nat, rk: Wobj, wk: Wobj) {
    forall run: seq<Action<T>> :: IsRun(Init(cap, rk, wk), run) ==>
      var st := After(Init(cap, rk, wk), run);
      NoLostWakeup(st, Reader) && NoLostWakeup(st, Writer)
  }

  /** The exact condition: no wakeup is ever lost if and only if the queue can hold an
      element and every strand object is used on its own strand. */
  lemma NoLostWakeupIff<T(!new)>(cap: nat, rk: Wobj, wk: Wobj, item: T)
    ensures WakeupsAreSafe<T>(cap, rk, wk) <==> 1 <= cap && !rk.OffStrand? && !wk.OffStrand?
  {
    if 1 <= cap && !rk.OffStrand? && !wk.OffStrand? {
      forall run: seq<Action<T>> | IsRun(Init(cap, rk, wk), run)
        ensures var st := After(Init(cap, rk, wk), run);
          NoLostWakeup(st, Reader) && NoLostWakeup(st, Writer)
      {
        InitInv<T>(cap, rk, wk);
        RunKeepsInv(Init(cap, rk, wk), run);
        InvMeansNoLostWakeup(After(Init(cap, rk, wk), run));
      }
    } else if cap == 0 {
      ZeroCapacityLosesWakeup(rk, wk, item);
    } else if rk.OffStrand? {
      OffStrandReaderLosesWakeup(cap, wk, item);
    } else {
      OffStrandWriterLosesWakeup(cap, rk, item);
    }
  }

  lemma Compose<T>(st: State<T>, run: seq<Action<T>>, a: Action<T>)
    requires IsRun(st, run) && Enabled(After(st, run), a)
    ensures IsRun(st, run + [a]) && After(st, run + [a]) == Next(After(st, run), a)
    decreases |run|
  {
    if run == [] {
      assert [a][1..] == [];
      assert After(Next(st, a), []) == Next(st, a);
    } else {
      Compose(Next(st, run[0]), run[1..], a);
      assert (run + [a])[1..] == run[1..] + [a];
    }
  }

  /** With no room at all, empty and full coincide: the writer's notification replaces the
      reader's in the slot. */
  lemma ZeroCapacityLosesWakeup<T(!new)>(rk: Wobj, wk: Wobj, item: T)
    ensures !WakeupsAreSafe<T>(0, rk, wk)
  {
    var s0 := Init(0, rk, wk);
    var run := [Begin(Reader, None, Untimed)];
    Compose(s0, [], run[0]);
    Compose(s0, run, Begin(Writer, Some(item), Untimed));
    run := run + [Begin(Writer, Some(item), Untimed)];
    Compose(s0, run, Enter(Reader));
    run := run + [Enter(Reader)];
    assert !NoLostWakeup(After(s0, run), Reader);
  }

  lemma OffStrandReaderLosesWakeup<T(!new)>(cap: nat, wk: Wobj, item: T)
    requires 1 <= cap
    ensures !WakeupsAreSafe<T>(cap, OffStrand, wk)
  {
    var s0 := Init(cap, OffStrand, wk);
    var run := [Begin(Reader, None, Untimed)];
    Compose(s0, [], run[0]);
    Compose(s0, run, Begin(Writer, Some(item), Untimed));
    run := run + [Begin(Writer, Some(item), Untimed)];
    run := LoseSignal(s0, run, Reader);
  }

  /** The armed side's notification is fired by the other side, posted, run before the
      callback is registered, and gone. */
  lemma LoseSignal<T>(s0: State<T>, run: seq<Action<T>>, s: Side) returns (longer: seq<Action<T>>)
    requires IsRun(s0, run)
    requires var st := After(s0, run);
      && st.At(s.Other()).pc == Notifying(s) && st.At(s).pc == Armed(false)
      && st.At(s).pending == 0 && st.At(s).kind.OffStrand?
      && st.chan.notify == None && st.closing == None
    ensures IsRun(s0, longer) && !NoLostWakeup(After(s0, longer), s)
  {
    Compose(s0, run, Notify(s.Other()));
    longer := run + [Notify(s.Other())];
    Compose(s0, longer, Drop(s));
    longer := longer + [Drop(s)];
    Compose(s0, longer, Enter(s));
    longer := longer + [Enter(s)];
  }

  lemma {:induction false} FillQueue<T>(cap: nat, rk: Wobj, wk: Wobj, item: T, n: nat) returns (run: seq<Action<T>>)
    requires n <= cap
    ensures IsRun(Init(cap, rk, wk), run)
    ensures var st := After(Init(cap, rk, wk), run);
      && |st.chan.queue| == n && st.chan.notify == None && !st.chan.closed && st.chan.cap == cap
      && st.closing == None && st.reader == NewClient(rk)
      && st.writer.pc.Idle? && st.writer.pending == 0 && st.writer.kind == wk
  {
    run := [];
    if n > 0 {
      run := FillQueue(cap, rk, wk, item, n - 1);
      Compose(Init(cap, rk, wk), run, Begin(Writer, Some(item), Sync));
      run := run + [Begin(Writer, Some(item), Sync)];
    }
  }

  lemma OffStrandWriterLosesWakeup<T(!new)>(cap: nat, rk: Wobj, item: T)
    requires 1 <= cap
    ensures !WakeupsAreSafe<T>(cap, rk, OffStrand)
  {
    var s0 := Init(cap, rk, OffStrand);
    var run := FillQueue(cap, rk, OffStrand, item, cap);
    Compose(s0, run, Begin(Writer, Some(item), Untimed));
    run := run + [Begin(Writer, Some(item), Untimed)];
    Compose(s0, run, Begin(Reader, None, Untimed));
    run := run + [Begin(Reader, None, Untimed)];
    run := LoseSignal(s0, run, Writer);
  }
}
