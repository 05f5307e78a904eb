/**
 One side of a channel on a strand: an endpoint whose operations are called by tasks of the
 strand, or, if it is not used as meant, by somebody else. What the protocol says about
 posted notifications is derived here from two facts: a strand runs one task at a time, and
 a call of `async_io` is over before the task it is made in.
 */
module StrandIo {
  import opened Basics
  import opened ChannelProtocol
  import B = BlockingIo

  class StrandIo<T> {
    const side: Side
    const channel: BC.Channel<T, Side>
    const wobj: B.StrandWobj<Side>
    /** Operations are called by tasks of the strand. */
    const own: bool
    /** The strand is running a task. */
    var busy: bool
    var pc: Pc
    var arg: Option<T>
    var log: seq<Done<T>>

    /** In the middle of a call, or of the callback of a wait. */
    predicate InCall()
      reads this`pc
    {
      pc.Armed? || pc.Retrying? || pc.Notifying?
    }

    /** Posted notifications and the registered callback, as the protocol counts them. */
    ghost function View(): Client<T>
      reads this, wobj
    {
      Client(if own then Strand else OffStrand, pc, arg, |wobj.posted|, 0, log)
    }

    ghost predicate Shows(st: State<T>)
      reads this, wobj, channel
    {
      && st.At(side) == View() && st.chan == channel.Value()
      && (wobj.cb.Some? <==> pc.Waiting?)
      && (forall i :: 0 <= i < |wobj.posted| ==> wobj.posted[i].RunCallback?)
      && (InCall() && (own || pc.Retrying?) ==> busy)
    }

    constructor (side: Side, channel: BC.Channel<T, Side>, own: bool)
      ensures this.side == side && this.channel == channel && this.own == own && fresh(wobj)
      ensures View() == NewClient(if own then Strand else OffStrand) && wobj.cb == None && !busy
    {
      this.side, this.channel, this.own := side, channel, own;
      wobj := new B.StrandWobj();
      busy, pc, arg, log := false, Idle, None, [];
    }

    /** The strand starts a task that is not a notification. */
    method StartTask(ghost st: State<T>)
      requires Shows(st) && !busy
      modifies this`busy
      ensures Shows(st) && busy
    {
      busy := true;
    }

    /** A task ends; a call it has made is over by then. */
    method EndTask(ghost st: State<T>)
      requires Shows(st) && busy && !(InCall() && (own || pc.Retrying?))
      modifies this`busy
      ensures Shows(st) && !busy
    {
      busy := false;
    }

    method Complete(out: BC.Outcome<T, Side>, waited: bool, ghost st: State<T>)
      requires Shows(st) && !pc.Waiting? && (out.fired.Some? && own ==> busy)
      modifies this`pc, this`log
      ensures Shows(Finish(st, side, out, waited, false))
    {
      var moved := if !out.status.success then None else if side.Reader? then out.value else arg;
      log := log + [Done(moved, out.status.(timeout := false), waited)];
      pc := if out.fired.Some? then Notifying(out.fired.value) else Idle;
    }

    /** A call of `async_io`: attempt, and arm the notification if it blocks. */
    method Begin(item: Option<T>, mode: Mode, ghost st: State<T>)
      requires Shows(st) && st.chan.SlotDiscipline() && Enabled(st, Action.Begin(side, item, mode))
      requires own ==> busy
      modifies this`arg, this`pc, this`log, channel
      ensures Shows(Next(st, Action.Begin(side, item, mode)))
    {
      arg := item;
      var out := B.StreamOp(channel, side, arg, if mode.Sync? then None else Some(side));
      if out.status.Complete() || mode.Sync? {
        ghost var started := st.With(side, st.At(side).(arg := item));
        Complete(out, false, Attempt(started, side, if mode.Sync? then None else Some(side)).0);
      } else {
        pc := Armed(mode.Timed?);
      }
    }

    /** The same call registers its callback with the wait object. */
    method Enter(ghost st: State<T>)
      requires Shows(st) && pc.Armed?
      modifies this`pc, wobj
      ensures Shows(Next(st, Action.Enter(side)))
    {
      wobj.Wait(side);
      pc := Waiting(pc.timed);
    }

    /** The strand runs the next posted notification: it resumes the wait, or finds nobody
        waiting. On the strand the latter is only possible between calls. */
    method RunNext(ghost st: State<T>)
      requires Shows(st) && !busy && wobj.posted != []
      modifies this`busy, this`pc, wobj
      ensures var a := if old(pc).Waiting? then Wake(side) else Drop(side);
        Enabled(st, a) && Shows(Next(st, a))
      ensures old(pc).Waiting? || !own || pc.Idle?
      ensures busy == old(pc).Waiting?
    {
      var resumed := wobj.RunNext();
      if resumed.Some? {
        busy := true;
        pc := Retrying(false);
      }
    }

    /** The callback: one more attempt, disarmed. */
    method Retry(ghost st: State<T>)
      requires Shows(st) && st.chan.SlotDiscipline() && Enabled(st, Action.Retry(side)) && !pc.timedOut
      modifies this`pc, this`log, channel
      ensures Shows(Next(st, Action.Retry(side)))
    {
      var out := B.StreamOp(channel, side, arg, None);
      Complete(out, true, Attempt(st, side, None).0);
    }

    /** The lock is free: invoke the notification, which is posted on the other's strand. */
    method InvokeFired(peer: StrandIo<T>, ghost st: State<T>)
      requires Shows(st) && peer.Shows(st) && peer.side == side.Other() && peer.wobj != wobj
      requires pc == Notifying(side.Other())
      modifies this`pc, peer.wobj
      ensures Shows(Next(st, Action.Notify(side))) && peer.Shows(Next(st, Action.Notify(side)))
    {
      peer.wobj.NotifyOne();
      pc := Idle;
    }

    /** The same with a blocking endpoint on the other side. */
    method InvokeFiredBlocking(peer: B.BlockingIo<T>, ghost st: State<T>)
      requires Shows(st) && peer.Shows(st) && peer.side == side.Other()
      requires pc == Notifying(side.Other())
      modifies this`pc, peer.wobj
      ensures Shows(Next(st, Action.Notify(side))) && peer.Shows(Next(st, Action.Notify(side)))
    {
      peer.wobj.NotifyOne();
      pc := Idle;
    }

    /** And the other way round: a blocking endpoint invokes this one's notification. */
    method InvokedBy(peer: B.BlockingIo<T>, ghost st: State<T>)
      requires Shows(st) && peer.Shows(st) && peer.side == side.Other()
      requires peer.pc == Notifying(side)
      modifies peer`pc, wobj
      ensures Shows(Next(st, Action.Notify(peer.side))) && peer.Shows(Next(st, Action.Notify(peer.side)))
    {
      wobj.NotifyOne();
      peer.pc := Idle;
    }
  }
}
