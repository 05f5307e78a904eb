/**
 The imperative pieces of an endpoint: wait objects updated in place and the operations
 that `basic_xio::async_io` strings together on a channel object. Each method is one
 atomic action of the wait protocol and is proved against it.
 */
module BlockingIo {
  import opened Basics
  import opened ChannelProtocol

  /** A condition variable with a sticky flag. */
  class CvarWobj {
    var flag: bool

    constructor ()
      ensures !flag
    {
      flag := false;
    }

    method NotifyOne()
      modifies this
      ensures flag
    {
      flag := true;
    }

    /** The predicate a wait is woken on: it consumes the flag. */
    method WaitPred() returns (notified: bool)
      modifies this
      ensures notified == old(flag) && !flag
    {
      notified := flag;
      flag := false;
    }
  }

  datatype StrandTask<Cb> = RunCallback | Cancel(cb: Cb)

  /** A strand wait object: one registered callback, and the tasks it has posted on its
      strand, which run one at a time in the order they were posted. */
  class StrandWobj<Cb> {
    var cb: Option<Cb>
    var posted: seq<StrandTask<Cb>>

    constructor ()
      ensures cb == None && posted == []
    {
      cb, posted := None, [];
    }

    method NotifyOne()
      modifies this`posted
      ensures posted == old(posted) + [RunCallback]
    {
      posted := posted + [RunCallback];
    }

    /** Registering over a callback that is still waiting cancels the older one. */
    method Wait(callback: Cb)
      modifies this
      ensures cb == Some(callback)
      ensures posted == old(posted) + (if old(cb).Some? then [Cancel(old(cb).value)] else [])
    {
      if cb.Some? {
        posted := posted + [Cancel(cb.value)];
      }
      cb := Some(callback);
    }

    /** The strand runs its next task. A notification resumes the registered callback at
        most once, and does nothing when there is none. */
    method RunNext() returns (resumed: Option<Cb>)
      requires posted != []
      modifies this
      ensures posted == old(posted)[1..]
      ensures old(posted)[0].RunCallback? ==> resumed == old(cb) && cb == None
      ensures old(posted)[0].Cancel? ==> resumed == Some(old(posted)[0].cb) && cb == old(cb)
    {
      var task := posted[0];
      posted := posted[1..];
      match task {
        case RunCallback =>
          resumed := cb;
          cb := None;
        case Cancel(older) =>
          resumed := Some(older);
      }
    }
  }

  /** The operation of one side on its channel. */
  method StreamOp<T>(channel: BC.Channel<T, Side>, side: Side, arg: Option<T>, arm: Option<Side>)
    returns (out: BC.Outcome<T, Side>)
    requires channel.Value().SlotDiscipline() && (side.Writer? ==> arg.Some?)
    modifies channel
    ensures (channel.Value(), out) ==
            BC.Apply(old(channel.Value()), if side.Reader? then BC.Read(arm) else BC.Write(arg.value, arm))
  {
    if side.Reader? {
      out := channel.Read(arm);
    } else {
      out := channel.Write(arg.value, arm);
    }
  }

  /** One side of a channel, blocking on a condition variable. */
  class BlockingIo<T> {
    const side: Side
    const channel: BC.Channel<T, Side>
    const wobj: CvarWobj
    var pc: Pc
    var arg: Option<T>
    var log: seq<Done<T>>
    ghost var timeouts: nat

    ghost function View(): Client<T>
      reads this, wobj
    {
      Client(Cvar, pc, arg, Count(wobj.flag), timeouts, log)
    }

    /** This object and its channel are what `st` says about them. */
    ghost predicate Shows(st: State<T>)
      reads this, wobj, channel
    {
      st.At(side) == View() && st.chan == channel.Value()
    }

    constructor (side: Side, channel: BC.Channel<T, Side>)
      ensures this.side == side && this.channel == channel && fresh(wobj)
      ensures View() == NewClient(Cvar)
    {
      this.side, this.channel := side, channel;
      wobj := new CvarWobj();
      pc, arg, log, timeouts := Idle, None, [], 0;
    }

    method Complete(out: BC.Outcome<T, Side>, waited: bool, timedOut: bool, ghost st: State<T>)
      requires Shows(st)
      modifies this
      ensures Shows(Finish(st, side, out, waited, timedOut))
    {
      var moved := if !out.status.success then None else if side.Reader? then out.value else arg;
      log := log + [Done(moved, out.status.(timeout := timedOut), waited)];
      pc := if out.fired.Some? then Notifying(out.fired.value) else Idle;
    }

    /** First half of an operation: attempt, and arm the notification if it blocks. */
    method Begin(item: Option<T>, mode: Mode, ghost st: State<T>)
      requires Shows(st) && st.chan.SlotDiscipline() && Enabled(st, Action.Begin(side, item, mode))
      modifies this, channel
      ensures Shows(Next(st, Action.Begin(side, item, mode)))
    {
      arg := item;
      var out := StreamOp(channel, side, arg, if mode.Sync? then None else Some(side));
      if out.status.Complete() || mode.Sync? {
        ghost var started := st.With(side, st.At(side).(arg := item));
        Complete(out, false, false, Attempt(started, side, if mode.Sync? then None else Some(side)).0);
      } else {
        pc := Armed(mode.Timed?);
      }
    }

    /** The wait starts; the flag may already be set. */
    method Enter(ghost st: State<T>)
      requires Shows(st) && pc.Armed?
      modifies this`pc
      ensures Shows(Next(st, Action.Enter(side)))
    {
      pc := Waiting(pc.timed);
    }

    /** The wait is over because its predicate held. */
    method Wake(ghost st: State<T>)
      requires Shows(st) && Enabled(st, Action.Wake(side))
      modifies this, wobj
      ensures Shows(Next(st, Action.Wake(side)))
    {
      var notified := wobj.WaitPred();
      assert notified;
      pc := Retrying(false);
    }

    /** The time limit has passed; the predicate is evaluated one last time. */
    method GiveUp(ghost st: State<T>)
      requires Shows(st) && pc == Waiting(true)
      modifies this, wobj
      ensures Shows(Next(st, if old(wobj.flag) then Action.Wake(side) else TimeOut(side)))
    {
      var notified := wobj.WaitPred();
      if !notified {
        timeouts := timeouts + 1;
      }
      pc := Retrying(!notified);
    }

    /** Second half of an operation that had to wait: one more attempt, disarmed. */
    method Retry(ghost st: State<T>)
      requires Shows(st) && st.chan.SlotDiscipline() && Enabled(st, Action.Retry(side))
      modifies this, channel
      ensures Shows(Next(st, Action.Retry(side)))
    {
      var timedOut := pc.timedOut;
      var out := StreamOp(channel, side, arg, None);
      Complete(out, true, timedOut, Attempt(st, side, None).0);
    }

    /** The lock is free: invoke the notification that was taken out of the slot. */
    method InvokeFired(peer: BlockingIo<T>, ghost st: State<T>)
      requires Shows(st) && peer.Shows(st) && peer.side == side.Other() && peer.wobj != wobj
      requires pc == Notifying(side.Other())
      modifies this, peer.wobj
      ensures Shows(Next(st, Action.Notify(side))) && peer.Shows(Next(st, Action.Notify(side)))
    {
      peer.wobj.NotifyOne();
      pc := Idle;
    }
  }
}
