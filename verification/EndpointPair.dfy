/**
 Two endpoint objects on one channel object. Each side blocks on a condition variable or
 runs on a strand, and a third party may close the channel. Whatever steps of the protocol
 are taken, in whatever order, the objects are in the state the protocol says.
 */
module EndpointPair {
  import opened Basics
  import opened ChannelCalls
  import opened ChannelProtocol
  import B = BlockingIo
  import S = StrandIo

  datatype Endpoint<T> = Blocking(io: B.BlockingIo<T>) | OnStrand(strandIo: S.StrandIo<T>) {
    function GetSide(): Side {
      if Blocking? then io.side else strandIo.side
    }

    function Channel(): BC.Channel<T, Side> {
      if Blocking? then io.channel else strandIo.channel
    }

    function Objects(): set<object> {
      if Blocking? then {io, io.wobj} else {strandIo, strandIo.wobj}
    }

    function Log(): seq<Done<T>>
      reads Objects()
    {
      if Blocking? then io.log else strandIo.log
    }

    /** A strand is busy with a task of this endpoint exactly during a call made in it. */
    ghost predicate Shows(st: State<T>)
      reads Objects(), Channel()
    {
      if Blocking? then io.Shows(st)
      else
        && strandIo.Shows(st) && strandIo.own
        && (strandIo.busy <==> strandIo.InCall())
        && (strandIo.pc.Retrying? ==> !strandIo.pc.timedOut)
    }
  }

  /** A step of one side that only concerns that side and the channel. */
  predicate OwnStep<T>(a: Action<T>, side: Side) {
    match a
    case Notify(_) => false
    case CloseSection => false
    case CloseNotify => false
    case _ => a.side == side
  }

  lemma OwnStepIsLocal<T>(st: State<T>, a: Action<T>, side: Side)
    requires Enabled(st, a) && OwnStep(a, side)
    ensures Next(st, a).At(side.Other()) == st.At(side.Other()) && Next(st, a).closing == st.closing
  {
  }

  // ---------------------------------------------------------------- one endpoint

  method StepBlocking<T>(io: B.BlockingIo<T>, a: Action<T>, ghost st: State<T>)
    requires io.Shows(st) && Inv(st) && Enabled(st, a) && OwnStep(a, io.side)
    modifies io, io.wobj, io.channel
    ensures io.Shows(Next(st, a))
  {
    match a {
      case Begin(_, item, mode) => io.Begin(item, mode, st);
      case Enter(_) => io.Enter(st);
      case Wake(_) => io.Wake(st);
      case TimeOut(_) => io.GiveUp(st);
      case Retry(_) => io.Retry(st);
      case _ => assert false;
    }
  }

  /** A call is made in a task of its own. The task ends with the call. */
  method BeginOnStrand<T>(io: S.StrandIo<T>, item: Option<T>, mode: Mode, ghost st: State<T>)
    requires OnStrand(io).Shows(st) && st.chan.SlotDiscipline() && Enabled(st, Begin(io.side, item, mode))
    modifies io, io.wobj, io.channel
    ensures OnStrand(io).Shows(Next(st, Begin(io.side, item, mode)))
  {
    io.StartTask(st);
    io.Begin(item, mode, st);
    if !io.InCall() {
      io.EndTask(Next(st, Begin(io.side, item, mode)));
    }
  }

  method EnterOnStrand<T>(io: S.StrandIo<T>, ghost st: State<T>)
    requires OnStrand(io).Shows(st) && Enabled(st, Enter(io.side))
    modifies io, io.wobj
    ensures OnStrand(io).Shows(Next(st, Enter(io.side)))
  {
    io.Enter(st);
    io.EndTask(Next(st, Enter(io.side)));
  }

  method RetryOnStrand<T>(io: S.StrandIo<T>, ghost st: State<T>)
    requires OnStrand(io).Shows(st) && st.chan.SlotDiscipline() && Enabled(st, Retry(io.side))
    modifies io, io.wobj, io.channel
    ensures OnStrand(io).Shows(Next(st, Retry(io.side)))
  {
    io.Retry(st);
    if !io.InCall() {
      io.EndTask(Next(st, Retry(io.side)));
    }
  }

  /** Nothing times out here, so no posted notification is left over to be dropped. */
  method StepOnStrand<T>(io: S.StrandIo<T>, a: Action<T>, ghost st: State<T>)
    requires OnStrand(io).Shows(st) && Inv(st) && Enabled(st, a) && OwnStep(a, io.side)
    modifies io, io.wobj, io.channel
    ensures OnStrand(io).Shows(Next(st, a))
  {
    match a {
      case Begin(_, item, mode) => BeginOnStrand(io, item, mode, st);
      case Enter(_) => EnterOnStrand(io, st);
      case Wake(_) => io.RunNext(st);
      case Retry(_) => RetryOnStrand(io, st);
      case _ => assert false;
    }
  }

  /** The step of one endpoint, with the other one beside it. */
  method StepBeside<T>(e: Endpoint<T>, other: Endpoint<T>, a: Action<T>, ghost st: State<T>)
    requires e.Shows(st) && other.Shows(st) && Inv(st) && Enabled(st, a) && OwnStep(a, e.GetSide())
    requires other.GetSide() == e.GetSide().Other() && other.Channel() == e.Channel()
    requires e.Objects() !! other.Objects()
    modifies e.Objects(), e.Channel()
    ensures e.Shows(Next(st, a)) && other.Shows(Next(st, a))
  {
    if e.Blocking? {
      StepBlocking(e.io, a, st);
    } else {
      StepOnStrand(e.strandIo, a, st);
    }
    OwnStepIsLocal(st, a, e.GetSide());
  }

  method NotifyFromBlocking<T>(io: B.BlockingIo<T>, other: Endpoint<T>, ghost st: State<T>)
    requires io.Shows(st) && other.Shows(st) && io.pc == Notifying(io.side.Other())
    requires other.GetSide() == io.side.Other() && {io, io.wobj} !! other.Objects()
    modifies io, other.Objects()
    ensures io.Shows(Next(st, Notify(io.side))) && other.Shows(Next(st, Notify(io.side)))
  {
    match other {
      case Blocking(peer) => io.InvokeFired(peer, st);
      case OnStrand(peer) => peer.InvokedBy(io, st);
    }
  }

  method NotifyFromStrand<T>(io: S.StrandIo<T>, other: Endpoint<T>, ghost st: State<T>)
    requires OnStrand(io).Shows(st) && other.Shows(st) && io.pc == Notifying(io.side.Other())
    requires other.GetSide() == io.side.Other() && {io, io.wobj} !! other.Objects()
    modifies io, other.Objects()
    ensures OnStrand(io).Shows(Next(st, Notify(io.side))) && other.Shows(Next(st, Notify(io.side)))
  {
    match other {
      case Blocking(peer) => io.InvokeFiredBlocking(peer, st);
      case OnStrand(peer) => io.InvokeFired(peer, st);
    }
    io.EndTask(Next(st, Notify(io.side)));
  }

  /** One endpoint invokes the notification it took out of the slot, which is the other's. */
  method NotifyBeside<T>(e: Endpoint<T>, other: Endpoint<T>, ghost st: State<T>)
    requires e.Shows(st) && other.Shows(st) && Inv(st) && Enabled(st, Notify(e.GetSide()))
    requires other.GetSide() == e.GetSide().Other() && e.Objects() !! other.Objects()
    modifies e.Objects(), other.Objects()
    ensures e.Shows(Next(st, Notify(e.GetSide()))) && other.Shows(Next(st, Notify(e.GetSide())))
  {
    assert WellFormed(st, e.GetSide());
    if e.Blocking? {
      NotifyFromBlocking(e.io, other, st);
    } else {
      NotifyFromStrand(e.strandIo, other, st);
    }
  }

  /** The closer invokes the notification it took out of the slot. */
  method CloserNotifies<T>(e: Endpoint<T>, other: Endpoint<T>, ghost st: State<T>)
    requires e.Shows(st) && other.Shows(st) && st.closing == Some(e.GetSide())
    requires other.GetSide() == e.GetSide().Other() && e.Objects() !! other.Objects()
    modifies e.Objects()
    ensures e.Shows(Next(st, CloseNotify)) && other.Shows(Next(st, CloseNotify))
  {
    if e.Blocking? {
      e.io.wobj.NotifyOne();
    } else {
      e.strandIo.wobj.NotifyOne();
    }
  }

  // ---------------------------------------------------------------- both, and the closer

  class Pair<T> {
    const channel: BC.Channel<T, Side>
    const reader: Endpoint<T>
    const writer: Endpoint<T>
    var closing: Option<Side>

    ghost predicate Valid() {
      && reader.GetSide() == Reader && writer.GetSide() == Writer
      && reader.Channel() == writer.Channel() == channel
      && reader.Objects() !! writer.Objects()
      && this !in reader.Objects() && this !in writer.Objects()
    }

    ghost predicate Shows(st: State<T>)
      requires Valid()
      reads this, channel, reader.Objects(), writer.Objects()
    {
      reader.Shows(st) && writer.Shows(st) && closing == st.closing
    }

    constructor (reader: Endpoint<T>, writer: Endpoint<T>, channel: BC.Channel<T, Side>)
      requires reader.GetSide() == Reader && writer.GetSide() == Writer
      requires reader.Channel() == writer.Channel() == channel
      requires reader.Objects() !! writer.Objects()
      ensures this.reader == reader && this.writer == writer && this.channel == channel
      ensures Valid() && closing == None
    {
      this.channel, this.reader, this.writer := channel, reader, writer;
      closing := None;
    }

    method Close(ghost st: State<T>)
      requires Valid() && Shows(st) && Enabled(st, CloseSection)
      modifies this, channel
      ensures Shows(Next(st, CloseSection))
    {
      var out := channel.Close();
      closing := out.fired;
    }

    method CloserNotify(ghost st: State<T>)
      requires Valid() && Shows(st) && Enabled(st, CloseNotify)
      modifies this, reader.Objects(), writer.Objects()
      ensures Shows(Next(st, CloseNotify))
    {
      match closing.value {
        case Reader => CloserNotifies(reader, writer, st);
        case Writer => CloserNotifies(writer, reader, st);
      }
      closing := None;
    }

    method Notify(side: Side, ghost st: State<T>)
      requires Valid() && Shows(st) && Inv(st) && Enabled(st, Action.Notify(side))
      modifies reader.Objects(), writer.Objects()
      ensures Shows(Next(st, Action.Notify(side)))
    {
      match side {
        case Reader => NotifyBeside(reader, writer, st);
        case Writer => NotifyBeside(writer, reader, st);
      }
    }

    method Step(side: Side, a: Action<T>, ghost st: State<T>)
      requires Valid() && Shows(st) && Inv(st) && Enabled(st, a) && OwnStep(a, side)
      modifies channel, reader.Objects(), writer.Objects()
      ensures Shows(Next(st, a))
    {
      OwnStepIsLocal(st, a, side);
      match side {
        case Reader => StepBeside(reader, writer, a, st);
        case Writer => StepBeside(writer, reader, a, st);
      }
    }

    /** Any step of the protocol, taken on the objects. */
    method Do(a: Action<T>, ghost st: State<T>)
      requires Valid() && Shows(st) && Inv(st) && Enabled(st, a)
      modifies this, channel, reader.Objects(), writer.Objects()
      ensures Shows(Next(st, a))
    {
      match a {
        case CloseSection => Close(st);
        case CloseNotify => CloserNotify(st);
        case Notify(side) => Notify(side, st);
        case _ => Step(a.side, a, st);
      }
    }
  }

  // ---------------------------------------------------------------- whole runs

  method NewEndpoint<T>(side: Side, kind: Wobj, channel: BC.Channel<T, Side>) returns (e: Endpoint<T>)
    requires !kind.OffStrand?
    ensures e.GetSide() == side && e.Channel() == channel && fresh(e.Objects())
    ensures forall st: State<T> :: st.At(side) == NewClient(kind) && st.chan == channel.Value() ==> e.Shows(st)
  {
    if kind.Cvar? {
      var io := new B.BlockingIo(side, channel);
      e := Blocking(io);
    } else {
      var io := new S.StrandIo(side, channel, true);
      e := OnStrand(io);
    }
  }

  method NewPair<T>(cap: nat, readerKind: Wobj, writerKind: Wobj) returns (p: Pair<T>)
    requires !readerKind.OffStrand? && !writerKind.OffStrand?
    ensures p.Valid() && p.Shows(Init(cap, readerKind, writerKind))
    ensures fresh(p) && fresh(p.channel) && fresh(p.reader.Objects()) && fresh(p.writer.Objects())
  {
    var channel := new BC.Channel<T, Side>(cap);
    var reader := NewEndpoint(Reader, readerKind, channel);
    var writer := NewEndpoint(Writer, writerKind, channel);
    assert reader.Shows(Init(cap, readerKind, writerKind)) && writer.Shows(Init(cap, readerKind, writerKind));
    p := new Pair(reader, writer, channel);
  }

  /** The steps of any run of the protocol can be taken on a new pair of objects, which ends
      up as the protocol says: each object has answered the calls made on it, in order, and
      the items of the writing calls it reported as written are exactly the values that the
      reading object has got and those still queued. */
  method Run<T>(cap: nat, readerKind: Wobj, writerKind: Wobj, run: seq<Action<T>>) returns (p: Pair<T>)
    requires 1 <= cap && !readerKind.OffStrand? && !writerKind.OffStrand?
    requires IsRun(Init(cap, readerKind, writerKind), run)
    ensures p.Valid() && p.Shows(After(Init(cap, readerKind, writerKind), run))
    ensures InOrder(Writer, Calls([], Writer, run), p.writer.Log())
    ensures InOrder(Reader, Calls([], Reader, run), p.reader.Log())
    ensures Written(Calls([], Writer, run), p.writer.Log()) == Moved(p.reader.Log()) + p.channel.queue
    ensures |p.channel.queue| <= cap
  {
    p := NewPair(cap, readerKind, writerKind);
    ghost var st := Init<T>(cap, readerKind, writerKind);
    InitInv<T>(cap, readerKind, writerKind);
    var i := 0;
    while i < |run|
      invariant 0 <= i <= |run|
      invariant fresh(p) && fresh(p.channel) && fresh(p.reader.Objects()) && fresh(p.writer.Objects())
      invariant p.Valid() && p.Shows(st) && Inv(st)
      invariant IsRun(st, run[i..]) && After(st, run[i..]) == After(Init(cap, readerKind, writerKind), run)
    {
      assert run[i..][0] == run[i] && run[i..][1..] == run[i + 1..];
      NextKeepsInv(st, run[i]);
      p.Do(run[i], st);
      st := Next(st, run[i]);
      i := i + 1;
    }
    EveryCallIsAnswered(cap, readerKind, writerKind, run, Writer);
    EveryCallIsAnswered(cap, readerKind, writerKind, run, Reader);
    ExactlyOnce(cap, readerKind, writerKind, run);
  }
}
