/**
 The bounded channel: a queue, a single notification slot shared by the reader and the
 writer, and a closed flag.

 Every public operation is one critical section. `Apply` gives that section on values;
 the methods of the class compute it in place. A notification taken out of the slot by a
 section is invoked only after the lock has been released, so sections report it
 (`fired`) and leave the call to the client.
 */
module BufferedChannel {
  import opened Basics

  datatype Chan<T, K> = Chan(cap: nat, queue: seq<T>, notify: Option<K>, closed: bool) {
    predicate Full() {
      |queue| == cap
    }

    /** What a set notification means: a party is blocked on an open channel. */
    predicate SlotDiscipline() {
      && |queue| <= cap
      && (notify.Some? ==> !closed && (queue == [] || Full()))
    }
  }

  /** Result of one section: status bits, the value read, the task handed back to the
      caller and the task to invoke once the lock is released. */
  datatype Outcome<T, K> = Outcome(status: Status, value: Option<T>, returned: Option<K>, fired: Option<K>)

  datatype Op<T, K> =
    | Write(item: T, arm: Option<K>)
    | Read(arm: Option<K>)
    | Close
    | ExchangeReadNotify(arm: Option<K>)
    | ExchangeWriteNotify(arm: Option<K>)

  function Init<T, K>(cap: nat): Chan<T, K> {
    Chan(cap, [], None, false)
  }

  function Block<T, K>(c: Chan<T, K>, arm: Option<K>): (Chan<T, K>, Outcome<T, K>) {
    (c.(notify := arm), Outcome(BLOCKED, None, c.notify, None))
  }

  function Apply<T, K>(c: Chan<T, K>, op: Op<T, K>): (Chan<T, K>, Outcome<T, K>) {
    match op
    case Write(item, arm) =>
      if c.closed then (c, Outcome(CLOSED, None, None, None))
      else if |c.queue| < c.cap then
        (c.(queue := c.queue + [item], notify := None), Outcome(SUCCESS, None, None, c.notify))
      else Block(c, arm)
    case Read(arm) =>
      if c.queue != [] then
        (c.(queue := c.queue[1..], notify := None), Outcome(SUCCESS, Some(c.queue[0]), None, c.notify))
      else if c.closed then (c, Outcome(CLOSED, None, None, None))
      else Block(c, arm)
    case Close => (c.(closed := true, notify := None), Outcome(BLOCKED, None, None, c.notify))
    case ExchangeReadNotify(arm) =>
      if c.queue == [] then Block(c, arm) else (c, Outcome(BLOCKED, None, None, None))
    case ExchangeWriteNotify(arm) =>
      if c.Full() then Block(c, arm) else (c, Outcome(BLOCKED, None, None, None))
  }

  /** The conditions asserted by the sections of `write` and `read`. */
  predicate Asserts<T, K>(c: Chan<T, K>, op: Op<T, K>) {
    match op
    case Write(_, _) =>
      if c.closed then c.notify.None?
      else |c.queue| < c.cap ==> c.queue == [] || c.notify.None?
    case Read(_) =>
      if c.queue != [] then c.Full() || c.notify.None?
      else c.closed ==> c.notify.None?
    case _ => true
  }

  /** A notification armed through an exchange although the channel is already closed. */
  predicate LateArm<T, K>(c: Chan<T, K>, op: Op<T, K>) {
    && c.closed
    && match op
       case ExchangeReadNotify(arm) => arm.Some? && c.queue == []
       case ExchangeWriteNotify(arm) => arm.Some? && c.Full()
       case _ => false
  }

  /** The discipline is kept by every section except a late arm, and after a late arm
      the very next write trips its assert. */
  lemma DisciplineKeptIffNoLateArm<T, K>(c: Chan<T, K>, op: Op<T, K>)
    requires c.SlotDiscipline()
    ensures Asserts(c, op)
    ensures Apply(c, op).0.SlotDiscipline() <==> !LateArm(c, op)
    ensures LateArm(c, op) ==> forall item :: !Asserts(Apply(c, op).0, Write(item, None))
  {
  }

  /** The channel after a whole history, with everything that left it on the way. */
  datatype History<T, K> = History(
    chan: Chan<T, K>,
    accepted: seq<T>,
    delivered: seq<T>,
    armed: multiset<K>,
    fired: multiset<K>,
    returned: multiset<K>,
    ok: bool)

  function ArmOf<T, K>(c: Chan<T, K>, op: Op<T, K>): multiset<K> {
    var blocks := match op
      case Write(_, _) => !c.closed && |c.queue| >= c.cap
      case Read(_) => !c.closed && c.queue == []
      case Close => false
      case ExchangeReadNotify(_) => c.queue == []
      case ExchangeWriteNotify(_) => c.Full();
    if blocks then Bag(op.arm) else multiset{}
  }

  function Sent<T, K>(op: Op<T, K>, out: Outcome<T, K>): seq<T> {
    if op.Write? && out.status.success then [op.item] else []
  }

  function Got<T, K>(out: Outcome<T, K>): seq<T> {
    if out.value.Some? then [out.value.value] else []
  }

  function Extend<T, K>(h: History<T, K>, op: Op<T, K>): History<T, K> {
    var (c, out) := Apply(h.chan, op);
    History(
      c,
      h.accepted + Sent(op, out),
      h.delivered + Got(out),
      h.armed + ArmOf(h.chan, op),
      h.fired + Bag(out.fired),
      h.returned + Bag(out.returned),
      h.ok && Asserts(h.chan, op))
  }

  function Start<T, K>(cap: nat): History<T, K> {
    History(Init(cap), [], [], multiset{}, multiset{}, multiset{}, true)
  }

  /** A history that goes on with more sections. */
  function GoOn<T, K>(h: History<T, K>, ops: seq<Op<T, K>>): History<T, K>
    decreases |ops|
  {
    if ops == [] then h else GoOn(Extend(h, ops[0]), ops[1..])
  }

  function Play<T, K>(cap: nat, ops: seq<Op<T, K>>): History<T, K> {
    GoOn(Start(cap), ops)
  }

  predicate NoLateArms<T, K>(h: History<T, K>, ops: seq<Op<T, K>>)
    decreases |ops|
  {
    ops == [] || (!LateArm(h.chan, ops[0]) && NoLateArms(Extend(h, ops[0]), ops[1..]))
  }

  ghost predicate ValuesConserved<T, K>(h: History<T, K>) {
    && |h.chan.queue| <= h.chan.cap
    && h.accepted == h.delivered + h.chan.queue
  }

  ghost predicate TasksConserved<T, K>(h: History<T, K>) {
    h.armed == h.fired + h.returned + Bag(h.chan.notify)
  }

  /** One section moves an armed task along exactly one of three ways. */
  lemma StepConservesTasks<T, K>(c: Chan<T, K>, op: Op<T, K>)
    ensures var (d, out) := Apply(c, op);
      ArmOf(c, op) + Bag(c.notify) == Bag(out.fired) + Bag(out.returned) + Bag(d.notify)
  {
  }

  /** Only a section that moves a value or closes fires the slot, and it empties it; only one
      that is blocked, or an exchange, hands the old task back, and leaves the new one. */
  lemma FiresOrHandsBack<T, K>(c: Chan<T, K>, op: Op<T, K>)
    ensures var (d, out) := Apply(c, op);
      && (out.status.success || op.Close? ==> out.fired == c.notify && out.returned == None && d.notify == None)
      && (!out.status.success && !op.Close? ==> out.fired == None)
      && (op.ExchangeReadNotify? || op.ExchangeWriteNotify? ==>
            && !out.status.success && d.queue == c.queue && d.closed == c.closed
            && if (op.ExchangeReadNotify? && c.queue == []) || (op.ExchangeWriteNotify? && c.Full())
               then out.returned == c.notify && d.notify == op.arm
               else out.returned == None && d.notify == c.notify)
      && ((op.Write? || op.Read?) && !out.status.success ==>
            if out.status.closed then out.returned == None && d == c
            else out.returned == c.notify && d == c.(notify := op.arm))
  {
  }

  /** One section moves a value in at the back, or out at the front, or not at all. */
  lemma StepConservesValues<T, K>(c: Chan<T, K>, op: Op<T, K>)
    requires |c.queue| <= c.cap
    ensures var (d, out) := Apply(c, op);
      d.cap == c.cap && |d.queue| <= d.cap && Got(out) + d.queue == c.queue + Sent(op, out)
  {
  }

  lemma ExtendConservesTasks<T, K>(h: History<T, K>, op: Op<T, K>)
    requires TasksConserved(h)
    ensures TasksConserved(Extend(h, op))
  {
    StepConservesTasks(h.chan, op);
    var (c, out) := Apply(h.chan, op);
    SplitBags(h.armed, h.fired, h.returned, Bag(h.chan.notify), ArmOf(h.chan, op),
              Bag(out.fired), Bag(out.returned), Bag(c.notify));
  }

  lemma SplitBags<K>(armed: multiset<K>, fired: multiset<K>, returned: multiset<K>, slot: multiset<K>,
                     arm: multiset<K>, fire: multiset<K>, back: multiset<K>, slot': multiset<K>)
    requires armed == fired + returned + slot
    requires arm + slot == fire + back + slot'
    ensures armed + arm == (fired + fire) + (returned + back) + slot'
  {
    var all := (fired + fire) + (returned + back) + slot';
    forall k ensures (armed + arm)[k] == all[k] {
      assert (arm + slot)[k] == (fire + back + slot')[k];
    }
  }

  lemma ExtendConservesValues<T, K>(h: History<T, K>, op: Op<T, K>)
    requires ValuesConserved(h)
    ensures var g := Extend(h, op); g.chan.cap == h.chan.cap && ValuesConserved(g)
  {
    StepConservesValues(h.chan, op);
    var (c, out) := Apply(h.chan, op);
    SplitSeqs(h.accepted, h.delivered, h.chan.queue, Sent(op, out), Got(out), c.queue);
  }

  lemma SplitSeqs<T>(accepted: seq<T>, delivered: seq<T>, queue: seq<T>, sent: seq<T>, got: seq<T>, queue': seq<T>)
    requires accepted == delivered + queue
    requires got + queue' == queue + sent
    ensures accepted + sent == delivered + got + queue'
  {
    assert accepted + sent == delivered + (queue + sent);
  }

  ghost predicate Conserved<T, K>(h: History<T, K>, cap: nat) {
    h.chan.cap == cap && ValuesConserved(h) && TasksConserved(h)
  }

  lemma {:induction false} GoOnConserves<T, K>(h: History<T, K>, cap: nat, ops: seq<Op<T, K>>)
    requires Conserved(h, cap)
    ensures Conserved(GoOn(h, ops), cap)
    decreases |ops|
  {
    if ops != [] {
      ExtendConservesTasks(h, ops[0]);
      ExtendConservesValues(h, ops[0]);
      GoOnConserves(Extend(h, ops[0]), cap, ops[1..]);
    }
  }

  /** Over every history: no value is lost, duplicated or reordered, the bound holds, and
      every armed task has been fired, handed back or is still in the slot. */
  lemma HistoryConserves<T, K>(cap: nat, ops: seq<Op<T, K>>)
    ensures var h := Play(cap, ops);
      h.chan.cap == cap && ValuesConserved(h) && TasksConserved(h)
  {
    GoOnConserves(Start<T, K>(cap), cap, ops);
  }

  lemma {:induction false} GoOnAsserts<T, K>(h: History<T, K>, ops: seq<Op<T, K>>)
    requires h.ok && h.chan.SlotDiscipline() && NoLateArms(h, ops)
    ensures GoOn(h, ops).ok && GoOn(h, ops).chan.SlotDiscipline()
    decreases |ops|
  {
    if ops != [] {
      DisciplineKeptIffNoLateArm(h.chan, ops[0]);
      GoOnAsserts(Extend(h, ops[0]), ops[1..]);
    }
  }

  /** Over every history that never arms a closed channel the discipline holds and no
      assert ever fails. */
  lemma AssertsNeverFail<T, K>(cap: nat, ops: seq<Op<T, K>>)
    requires NoLateArms(Start(cap), ops)
    ensures var h := Play(cap, ops); h.ok && h.chan.SlotDiscipline()
  {
    GoOnAsserts(Start(cap), ops);
  }

  /** A write tried after the first `n` sections still finds its assert to hold. */
  ghost predicate ProbeOk<T, K>(h: History<T, K>, ops: seq<Op<T, K>>, n: nat, item: T)
    requires n <= |ops|
  {
    GoOn(h, ops[..n] + [Write(item, None)]).ok
  }

  ghost predicate ProbesOk<T, K>(h: History<T, K>, ops: seq<Op<T, K>>, item: T) {
    forall n :: 0 <= n <= |ops| ==> ProbeOk(h, ops, n, item)
  }

  lemma GoOnWith<T, K>(h: History<T, K>, op: Op<T, K>, ops: seq<Op<T, K>>)
    ensures GoOn(h, [op] + ops) == GoOn(Extend(h, op), ops)
  {
    assert ([op] + ops)[1..] == ops;
  }

  lemma ProbeNow<T, K>(h: History<T, K>, ops: seq<Op<T, K>>, item: T)
    ensures ProbeOk(h, ops, 0, item) <==> h.ok && Asserts(h.chan, Write(item, None))
  {
    assert ops[..0] + [Write(item, None)] == [Write(item, None)] + [];
    GoOnWith(h, Write(item, None), []);
  }

  lemma ProbeLater<T, K>(h: History<T, K>, ops: seq<Op<T, K>>, n: nat, item: T)
    requires n < |ops|
    ensures ProbeOk(h, ops, n + 1, item) <==> ProbeOk(Extend(h, ops[0]), ops[1..], n, item)
  {
    var rest := ops[1..][..n] + [Write(item, None)];
    assert ops[..n + 1] + [Write(item, None)] == [ops[0]] + rest;
    GoOnWith(h, ops[0], rest);
  }

  lemma ProbesSplit<T, K>(h: History<T, K>, ops: seq<Op<T, K>>, item: T)
    requires ops != []
    ensures ProbesOk(h, ops, item) <==> ProbeOk(h, ops, 0, item) && ProbesOk(Extend(h, ops[0]), ops[1..], item)
  {
    var next, rest := Extend(h, ops[0]), ops[1..];
    forall n: nat | n < |ops| ensures ProbeOk(h, ops, n + 1, item) <==> ProbeOk(next, rest, n, item) {
      ProbeLater(h, ops, n, item);
    }
    if ProbeOk(h, ops, 0, item) && ProbesOk(next, rest, item) {
      forall n | 0 <= n <= |ops| ensures ProbeOk(h, ops, n, item) {
        if n > 0 {
          assert ProbeOk(next, rest, n - 1, item) && ProbeOk(h, ops, (n - 1) + 1, item);
        }
      }
    }
  }

  lemma {:induction false} ProbesFindLateArms<T, K>(h: History<T, K>, ops: seq<Op<T, K>>, item: T)
    requires h.ok && h.chan.SlotDiscipline()
    ensures NoLateArms(h, ops) <==> ProbesOk(h, ops, item)
    decreases |ops|
  {
    ProbeNow(h, ops, item);
    if ops != [] {
      var next := Extend(h, ops[0]);
      DisciplineKeptIffNoLateArm(h.chan, ops[0]);
      ProbesSplit(h, ops, item);
      if LateArm(h.chan, ops[0]) {
        ProbeNow(next, ops[1..], item);
      } else {
        ProbesFindLateArms(next, ops[1..], item);
      }
    }
  }

  /** The exact condition over histories: no assert fails, not even in a write tried at any
      point on the way, if and only if no closed channel is ever armed. */
  lemma AssertsHoldIff<T, K>(cap: nat, ops: seq<Op<T, K>>, item: T)
    ensures NoLateArms(Start(cap), ops)
            <==> forall n :: 0 <= n <= |ops| ==> Play(cap, ops[..n] + [Write(item, None)]).ok
  {
    var h := Start<T, K>(cap);
    ProbesFindLateArms(h, ops, item);
    forall n | 0 <= n <= |ops|
      ensures Play(cap, ops[..n] + [Write(item, None)]).ok <==> ProbeOk(h, ops, n, item)
    {
    }
  }

  /** Arming a closed channel and then writing: the assert of the write fails. */
  lemma LateArmTripsWrite<T, K>(cap: nat, k: K, item: T)
    ensures !Play(cap, [Close, ExchangeReadNotify(Some(k)), Write(item, None)]).ok
  {
    var close, arm, write: Op<T, K> := Close, ExchangeReadNotify(Some(k)), Write(item, None);
    var h := Start<T, K>(cap);
    var closed := Extend(h, close);
    assert LateArm(closed.chan, arm);
    assert [close, arm, write] == [close] + ([arm] + ([write] + []));
    GoOnWith(h, close, [arm] + ([write] + []));
    GoOnWith(closed, arm, [write] + []);
    GoOnWith(Extend(closed, arm), write, []);
  }

  function Least(a: nat, b: nat): nat {
    if a < b then a else b
  }

  lemma Dequeue<T>(queue: seq<T>, k: nat)
    requires k < |queue|
    ensures [queue[0]] + queue[1..][..k] == queue[..k + 1]
    ensures queue[1..][k..] == queue[k + 1..]
  {
  }

  /** Reads of a closed channel, armed or not, take out what is left, one each and in
      order, and once it is empty they report closed. */
  lemma {:induction false} ClosedChannelDrains<T, K>(c: Chan<T, K>, arms: seq<Option<K>>)
    requires c.closed
    ensures var (d, got) := ReadMany(c, arms);
      var n := Least(|arms|, |c.queue|);
      && d.closed
      && got == c.queue[..n] && d.queue == c.queue[n..]
      && (d.queue == [] ==> forall arm :: Apply(d, Read(arm)) == (d, Outcome(CLOSED, None, None, None)))
    decreases |arms|
  {
    if arms != [] && c.queue != [] {
      var d := c.(queue := c.queue[1..], notify := None);
      assert Apply(c, Read(arms[0])).0 == d;
      ClosedChannelDrains(d, arms[1..]);
      Dequeue(c.queue, Least(|arms| - 1, |c.queue| - 1));
    } else if arms != [] {
      ClosedChannelDrains(c, arms[1..]);
    }
  }

  lemma {:induction false} GoOnSplits<T, K>(h: History<T, K>, before: seq<Op<T, K>>, ops: seq<Op<T, K>>)
    ensures GoOn(h, before + ops) == GoOn(GoOn(h, before), ops)
    decreases |before|
  {
    if before == [] {
      assert before + ops == ops;
    } else {
      assert (before + ops)[1..] == before[1..] + ops;
      GoOnSplits(Extend(h, before[0]), before[1..], ops);
    }
  }

  /** Nothing more is accepted from a closed channel on, and it stays closed. */
  lemma {:induction false} ClosedAcceptsNothing<T, K>(h: History<T, K>, ops: seq<Op<T, K>>)
    requires h.chan.closed
    ensures var g := GoOn(h, ops);
      g.chan.closed && g.accepted == h.accepted && |h.delivered| <= |g.delivered|
    decreases |ops|
  {
    if ops != [] {
      ClosedAcceptsNothing(Extend(h, ops[0]), ops[1..]);
    }
  }

  /** Closing is for good, over every history and whatever comes after it: no write
      succeeds any more, what was queued is delivered in order and nothing else is, and once
      it is gone every read reports closed; neither has an effect, whatever it would arm. */
  lemma ClosedForever<T, K>(cap: nat, before: seq<Op<T, K>>, ops: seq<Op<T, K>>)
    requires Play(cap, before).chan.closed
    ensures var h, g := Play(cap, before), Play(cap, before + ops);
      && g.chan.closed
      && g.accepted == h.accepted
      && h.delivered <= g.delivered
      && h.delivered + h.chan.queue == g.delivered + g.chan.queue
      && (forall item, arm :: Apply(g.chan, Write(item, arm)) == (g.chan, Outcome(CLOSED, None, None, None)))
      && (g.chan.queue == [] ==>
            forall arm :: Apply(g.chan, Read(arm)) == (g.chan, Outcome(CLOSED, None, None, None)))
  {
    var h, g := Play(cap, before), Play(cap, before + ops);
    GoOnSplits(Start(cap), before, ops);
    ClosedAcceptsNothing(h, ops);
    HistoryConserves(cap, before);
    HistoryConserves(cap, before + ops);
    assert h.delivered == g.accepted[..|h.delivered|] && g.delivered == g.accepted[..|g.delivered|];
  }

  /** Reads in a row, with what each would arm. */
  function ReadMany<T, K>(c: Chan<T, K>, arms: seq<Option<K>>): (Chan<T, K>, seq<T>)
    decreases |arms|
  {
    if arms == [] then (c, [])
    else
      var (d, out) := Apply(c, Read(arms[0]));
      var (e, rest) := ReadMany(d, arms[1..]);
      (e, if out.value.Some? then [out.value.value] + rest else rest)
  }

  /** The channel object. `K` stands for the callable stored in the slot. */
  class Channel<T, K> {
    const maxSize: nat
    var queue: seq<T>
    var notify: Option<K>
    var closed: bool

    function Value(): Chan<T, K>
      reads this
    {
      Chan(maxSize, queue, notify, closed)
    }

    constructor (maxSize: nat)
      ensures Value() == Init(maxSize)
    {
      this.maxSize := maxSize;
      queue, notify, closed := [], None, false;
    }

    method ExchangeNotify(arm: Option<K>) returns (previous: Option<K>)
      modifies this`notify
      ensures previous == old(notify) && notify == arm
    {
      previous := notify;
      notify := arm;
    }

    method Write(item: T, arm: Option<K>) returns (out: Outcome<T, K>)
      requires Value().SlotDiscipline()
      modifies this
      ensures (Value(), out) == Apply(old(Value()), Op.Write(item, arm))
      ensures Value().SlotDiscipline()
    {
      if closed {
        assert notify.None?;
        out := Outcome(CLOSED, None, None, None);
      } else if |queue| < maxSize {
        assert queue == [] || notify.None?;
        queue := queue + [item];
        var fired := ExchangeNotify(None);
        out := Outcome(SUCCESS, None, None, fired);
      } else {
        var returned := ExchangeNotify(arm);
        out := Outcome(BLOCKED, None, returned, None);
      }
    }

    method Read(arm: Option<K>) returns (out: Outcome<T, K>)
      requires Value().SlotDiscipline()
      modifies this
      ensures (Value(), out) == Apply(old(Value()), Op.Read(arm))
      ensures Value().SlotDiscipline()
    {
      if queue != [] {
        assert |queue| == maxSize || notify.None?;
        var item := queue[0];
        queue := queue[1..];
        var fired := ExchangeNotify(None);
        out := Outcome(SUCCESS, Some(item), None, fired);
      } else if closed {
        assert notify.None?;
        out := Outcome(CLOSED, None, None, None);
      } else {
        var returned := ExchangeNotify(arm);
        out := Outcome(BLOCKED, None, returned, None);
      }
    }

    method Close() returns (out: Outcome<T, K>)
      modifies this
      ensures (Value(), out) == Apply(old(Value()), Op.Close)
      ensures old(Value()).SlotDiscipline() ==> Value().SlotDiscipline()
    {
      closed := true;
      var fired := ExchangeNotify(None);
      out := Outcome(BLOCKED, None, None, fired);
    }

    method ExchangeReadNotify(arm: Option<K>) returns (out: Outcome<T, K>)
      modifies this`notify
      ensures (Value(), out) == Apply(old(Value()), Op.ExchangeReadNotify(arm))
    {
      out := Outcome(BLOCKED, None, None, None);
      if queue == [] {
        var returned := ExchangeNotify(arm);
        out := out.(returned := returned);
      }
    }

    method ExchangeWriteNotify(arm: Option<K>) returns (out: Outcome<T, K>)
      modifies this`notify
      ensures (Value(), out) == Apply(old(Value()), Op.ExchangeWriteNotify(arm))
    {
      out := Outcome(BLOCKED, None, None, None);
      if |queue| == maxSize {
        var returned := ExchangeNotify(arm);
        out := out.(returned := returned);
      }
    }
  }
}
