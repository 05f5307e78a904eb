/**
 Asynchronous logging: requests are queued together with a shared text buffer, the two
 buffers are swapped out under the lock, and a worker replays the batch, rebuilding each
 entry's text from a start index.

 The reference is synchronous logging: every request is carried out when it is made.
 */
module AsyncLogging {
  /** What callers ask for. A sink is an identity; `M` is the rest of an entry. */
  datatype Request<M> =
    | Record(meta: M, text: string)
    | AddSink(sink: nat)
    | RemoveSink(sink: nat)
    | Synchronize(ticket: nat)

  datatype Delivery<M> = Delivery(sink: nat, meta: M, text: string)

  // ---------------------------------------------------------------- synchronous logging

  datatype Effects<M> = Effects(sinks: seq<nat>, output: seq<Delivery<M>>, released: seq<nat>)

  function RecordAll<M>(sinks: seq<nat>, meta: M, text: string): seq<Delivery<M>> {
    if sinks == [] then []
    else RecordAll(sinks[..|sinks| - 1], meta, text) + [Delivery(sinks[|sinks| - 1], meta, text)]
  }

  function Without(sinks: seq<nat>, sink: nat): seq<nat> {
    if sinks == [] then []
    else Without(sinks[..|sinks| - 1], sink)
         + (if sinks[|sinks| - 1] == sink then [] else [sinks[|sinks| - 1]])
  }

  function Perform<M>(e: Effects<M>, r: Request<M>): Effects<M> {
    match r
    case Record(meta, text) => e.(output := e.output + RecordAll(e.sinks, meta, text))
    case AddSink(sink) => e.(sinks := e.sinks + [sink])
    case RemoveSink(sink) => e.(sinks := Without(e.sinks, sink))
    case Synchronize(ticket) => e.(released := e.released + [ticket])
  }

  function Synchronous<M>(requests: seq<Request<M>>): Effects<M> {
    if requests == [] then Effects([], [], [])
    else Perform(Synchronous(requests[..|requests| - 1]), requests[|requests| - 1])
  }

  // ---------------------------------------------------------------- the implementation

  /** A queued task: an entry keeps the size of its text and where it starts. */
  datatype Task<M> =
    | LogEntry(meta: M, ibegin: nat, size: nat)
    | Adding(sink: nat)
    | Removing(sink: nat)
    | Synchronizing(ticket: nat)

  /** `next` is the position of the worker in the batch it executes; `busy` says that a
      batch has been swapped in and not been cleared yet. */
  datatype State<M> = State(
    taskQueue: seq<Task<M>>, textBuffer: string,
    executing: seq<Task<M>>, loggingText: string,
    next: nat, busy: bool, effects: Effects<M>)

  function Init<M>(): State<M> {
    State([], [], [], [], 0, false, Effects([], [], []))
  }

  /** The task queued for a request; `ibegin` is where the text of an entry will start. */
  function TaskOf<M>(r: Request<M>, ibegin: nat): Task<M> {
    match r
    case Record(meta, text) => LogEntry(meta, ibegin, |text|)
    case AddSink(sink) => Adding(sink)
    case RemoveSink(sink) => Removing(sink)
    case Synchronize(ticket) => Synchronizing(ticket)
  }

  /** The critical section of pushing a request. */
  function Push<M>(st: State<M>, r: Request<M>): State<M> {
    st.(taskQueue := st.taskQueue + [TaskOf(r, |st.textBuffer|)],
        textBuffer := if r.Record? then st.textBuffer + r.text + ['\0'] else st.textBuffer)
  }

  function Swap<M>(st: State<M>): State<M> {
    st.(taskQueue := st.executing, textBuffer := st.loggingText,
        executing := st.taskQueue, loggingText := st.textBuffer, next := 0, busy := true)
  }

  /** The text of an entry is in the buffer, with a terminating zero after it. */
  predicate TextInside<M>(t: Task<M>, buffer: string) {
    t.LogEntry? ==> t.ibegin + t.size < |buffer| && buffer[t.ibegin + t.size] == '\0'
  }

  function Rebuild<M>(t: Task<M>, buffer: string): Request<M>
    requires TextInside(t, buffer)
  {
    match t
    case LogEntry(meta, ibegin, size) => Record(meta, buffer[ibegin..ibegin + size])
    case Adding(sink) => AddSink(sink)
    case Removing(sink) => RemoveSink(sink)
    case Synchronizing(ticket) => Synchronize(ticket)
  }

  predicate CanExecute<M>(st: State<M>) {
    st.busy && st.next < |st.executing| && TextInside(st.executing[st.next], st.loggingText)
  }

  function Execute<M>(st: State<M>): State<M>
    requires CanExecute(st)
  {
    st.(next := st.next + 1,
        effects := Perform(st.effects, Rebuild(st.executing[st.next], st.loggingText)))
  }

  function Clear<M>(st: State<M>): State<M> {
    st.(executing := [], loggingText := [], next := 0, busy := false)
  }

  // ---------------------------------------------------------------- refinement

  /** The requests a list of tasks stands for, given its text buffer. */
  function Decode<M>(tasks: seq<Task<M>>, buffer: string): seq<Request<M>>
    requires forall i :: 0 <= i < |tasks| ==> TextInside(tasks[i], buffer)
  {
    seq(|tasks|, i requires 0 <= i < |tasks| => Rebuild(tasks[i], buffer))
  }

  ghost predicate AllInside<M>(tasks: seq<Task<M>>, buffer: string) {
    forall i :: 0 <= i < |tasks| ==> TextInside(tasks[i], buffer)
  }

  /** `pushed` are the requests in the order of their critical sections and the first
      `done` of them have been carried out. */
  ghost predicate Refines<M>(st: State<M>, pushed: seq<Request<M>>, done: nat) {
    && AllInside(st.executing, st.loggingText) && AllInside(st.taskQueue, st.textBuffer)
    && st.next <= |st.executing|
    && (!st.busy ==> st.executing == [] && st.loggingText == [])
    && done + (|st.executing| - st.next) + |st.taskQueue| == |pushed|
    && pushed[done..] == Decode(st.executing, st.loggingText)[st.next..] + Decode(st.taskQueue, st.textBuffer)
    && st.effects == Synchronous(pushed[..done])
  }

  lemma InitRefines<M>()
    ensures Refines(Init<M>(), [], 0)
  {
  }

  /** Growing the buffer does not move the text of the tasks already queued. */
  lemma PushRefines<M>(st: State<M>, pushed: seq<Request<M>>, done: nat, r: Request<M>)
    requires Refines(st, pushed, done)
    ensures Refines(Push(st, r), pushed + [r], done)
  {
    var st' := Push(st, r);
    forall i | 0 <= i < |st'.taskQueue|
      ensures TextInside(st'.taskQueue[i], st'.textBuffer)
      ensures Rebuild(st'.taskQueue[i], st'.textBuffer)
              == if i < |st.taskQueue| then Rebuild(st.taskQueue[i], st.textBuffer) else r
    {
      if i < |st.taskQueue| {
        assert st'.taskQueue[i] == st.taskQueue[i];
        assert TextInside(st.taskQueue[i], st.textBuffer);
        if r.Record? && st.taskQueue[i].LogEntry? {
          var t := st.taskQueue[i];
          assert st'.textBuffer[..|st.textBuffer|] == st.textBuffer;
          assert st'.textBuffer[t.ibegin..t.ibegin + t.size] == st.textBuffer[t.ibegin..t.ibegin + t.size];
        }
      } else if r.Record? {
        assert st'.textBuffer[|st.textBuffer|..|st.textBuffer| + |r.text|] == r.text;
      }
    }
    assert Decode(st'.taskQueue, st'.textBuffer) == Decode(st.taskQueue, st.textBuffer) + [r];
    assert (pushed + [r])[done..] == pushed[done..] + [r];
    assert (pushed + [r])[..done] == pushed[..done];
  }

  lemma SwapRefines<M>(st: State<M>, pushed: seq<Request<M>>, done: nat)
    requires Refines(st, pushed, done) && !st.busy
    ensures Refines(Swap(st), pushed, done)
  {
    assert Decode(st.executing, st.loggingText)[st.next..] == [];
  }

  lemma ExecuteRefines<M>(st: State<M>, pushed: seq<Request<M>>, done: nat)
    requires Refines(st, pushed, done) && st.busy && st.next < |st.executing|
    ensures CanExecute(st) && Refines(Execute(st), pushed, done + 1)
  {
    var batch := Decode(st.executing, st.loggingText);
    assert pushed[done] == pushed[done..][0] == batch[st.next];
    assert pushed[..done + 1] == pushed[..done] + [pushed[done]];
    assert pushed[done + 1..] == pushed[done..][1..];
    assert batch[st.next..][1..] == batch[st.next + 1..];
  }

  lemma ClearRefines<M>(st: State<M>, pushed: seq<Request<M>>, done: nat)
    requires Refines(st, pushed, done) && st.busy && st.next == |st.executing|
    ensures Refines(Clear(st), pushed, done)
  {
    assert Decode(st.executing, st.loggingText)[st.next..] == [];
  }

  /** Any caller pushes, or the worker takes its next step. */
  datatype Action<M> = Request(request: Request<M>) | SwapBuffers | ExecuteTask | ClearBatch

  predicate Enabled<M>(st: State<M>, a: Action<M>) {
    match a
    case Request(_) => true
    case SwapBuffers => !st.busy
    case ExecuteTask => CanExecute(st)
    case ClearBatch => st.busy && st.next == |st.executing|
  }

  function Next<M>(st: State<M>, a: Action<M>): State<M>
    requires Enabled(st, a)
  {
    match a
    case Request(r) => Push(st, r)
    case SwapBuffers => Swap(st)
    case ExecuteTask => Execute(st)
    case ClearBatch => Clear(st)
  }

  ghost predicate IsRun<M>(st: State<M>, run: seq<Action<M>>)
    decreases |run|
  {
    run == [] || (Enabled(st, run[0]) && IsRun(Next(st, run[0]), run[1..]))
  }

  ghost function After<M>(st: State<M>, run: seq<Action<M>>): State<M>
    requires IsRun(st, run)
    decreases |run|
  {
    if run == [] then st else After(Next(st, run[0]), run[1..])
  }

  function Requests<M>(run: seq<Action<M>>): seq<Request<M>> {
    if run == [] then []
    else (if run[0].Request? then [run[0].request] else []) + Requests(run[1..])
  }

  function Executions<M>(run: seq<Action<M>>): nat {
    if run == [] then 0 else (if run[0].ExecuteTask? then 1 else 0) + Executions(run[1..])
  }

  function MorePushed<M>(pushed: seq<Request<M>>, a: Action<M>): seq<Request<M>> {
    if a.Request? then pushed + [a.request] else pushed
  }

  function MoreDone<M>(done: nat, a: Action<M>): nat {
    if a.ExecuteTask? then done + 1 else done
  }

  lemma NextRefines<M>(st: State<M>, pushed: seq<Request<M>>, done: nat, a: Action<M>)
    requires Refines(st, pushed, done) && Enabled(st, a)
    ensures Refines(Next(st, a), MorePushed(pushed, a), MoreDone(done, a))
  {
    match a {
      case Request(r) => PushRefines(st, pushed, done, r);
      case SwapBuffers => SwapRefines(st, pushed, done);
      case ExecuteTask => ExecuteRefines(st, pushed, done);
      case ClearBatch => ClearRefines(st, pushed, done);
    }
  }

  lemma {:induction false} RequestsSplit<M>(pushed: seq<Request<M>>, done: nat, run: seq<Action<M>>)
    requires run != []
    ensures pushed + Requests(run) == MorePushed(pushed, run[0]) + Requests(run[1..])
    ensures done + Executions(run) == MoreDone(done, run[0]) + Executions(run[1..])
  {
    var rest := Requests(run[1..]);
    if run[0].Request? {
      assert pushed + ([run[0].request] + rest) == pushed + [run[0].request] + rest;
    } else {
      assert [] + rest == rest;
    }
  }

  ghost predicate StepKeeps<M>(p: (State<M>, seq<Request<M>>, nat) -> bool, st: State<M>, pushed: seq<Request<M>>,
                               done: nat, a: Action<M>) {
    p(st, pushed, done) && Enabled(st, a) ==> p(Next(st, a), MorePushed(pushed, a), MoreDone(done, a))
  }

  /** What every step keeps, every run keeps. */
  lemma {:induction false} RunKeeps<M>(p: (State<M>, seq<Request<M>>, nat) -> bool, st: State<M>,
                                       pushed: seq<Request<M>>, done: nat, run: seq<Action<M>>)
    requires forall x, q, d, a :: StepKeeps(p, x, q, d, a)
    requires p(st, pushed, done) && IsRun(st, run)
    ensures p(After(st, run), pushed + Requests(run), done + Executions(run))
    decreases |run|
  {
    if run == [] {
      assert pushed + [] == pushed;
    } else {
      assert StepKeeps(p, st, pushed, done, run[0]);
      RunKeeps(p, Next(st, run[0]), MorePushed(pushed, run[0]), MoreDone(done, run[0]), run[1..]);
      RequestsSplit(pushed, done, run);
    }
  }

  lemma RunRefines<M>(run: seq<Action<M>>)
    requires IsRun(Init(), run)
    ensures Refines(After(Init(), run), Requests(run), Executions(run))
  {
    var p: (State<M>, seq<Request<M>>, nat) -> bool :=
      (x: State<M>, q: seq<Request<M>>, d: nat) => Refines(x, q, d);
    forall x, q, d, a ensures StepKeeps(p, x, q, d, a) {
      if Refines(x, q, d) && Enabled(x, a) {
        NextRefines(x, q, d, a);
      }
    }
    InitRefines<M>();
    RunKeeps(p, Init(), [], 0, run);
    assert [] + Requests(run) == Requests(run);
  }

  /** The main result: at any moment of any interleaving the effects are those of
      synchronous logging of the requests made so far, up to the ones still queued; once
      nothing is queued they are all there. */
  lemma RefinesSynchronousLogging<M>(run: seq<Action<M>>)
    requires IsRun(Init(), run)
    ensures var st := After(Init(), run);
      && Executions(run) + (|st.executing| - st.next) + |st.taskQueue| == |Requests(run)|
      && Executions(run) <= |Requests(run)|
      && st.effects == Synchronous(Requests(run)[..Executions(run)])
      && (st.taskQueue == [] && !st.busy ==> st.effects == Synchronous(Requests(run)))
  {
    RunRefines(run);
    var st := After(Init(), run);
    if st.taskQueue == [] && !st.busy {
      assert Requests(run)[..Executions(run)] == Requests(run);
    }
  }

  // ---------------------------------------------------------------- what a sink sees

  /** How often a sink is registered after the given requests. */
  function Registered<M>(requests: seq<Request<M>>, sink: nat): nat {
    if requests == [] then 0
    else
      var before := Registered(requests[..|requests| - 1], sink);
      match requests[|requests| - 1]
      case AddSink(s) => if s == sink then before + 1 else before
      case RemoveSink(s) => if s == sink then 0 else before
      case _ => before
  }

  function Copies<M>(d: Delivery<M>, n: nat): seq<Delivery<M>> {
    if n == 0 then [] else Copies(d, n - 1) + [d]
  }

  /** The entries made while the sink was registered, in order, once per registration. */
  function Expected<M>(requests: seq<Request<M>>, sink: nat): seq<Delivery<M>> {
    if requests == [] then []
    else
      var front := requests[..|requests| - 1];
      var r := requests[|requests| - 1];
      Expected(front, sink)
      + (if r.Record? then Copies(Delivery(sink, r.meta, r.text), Registered(front, sink)) else [])
  }

  function Received<M>(output: seq<Delivery<M>>, sink: nat): seq<Delivery<M>> {
    if output == [] then []
    else
      var d := output[|output| - 1];
      Received(output[..|output| - 1], sink) + (if d.sink == sink then [d] else [])
  }

  function Occurrences(sinks: seq<nat>, sink: nat): nat {
    if sinks == [] then 0
    else Occurrences(sinks[..|sinks| - 1], sink) + (if sinks[|sinks| - 1] == sink then 1 else 0)
  }

  lemma {:induction false} ReceivedAppend<M>(a: seq<Delivery<M>>, b: seq<Delivery<M>>, sink: nat)
    ensures Received(a + b, sink) == Received(a, sink) + Received(b, sink)
    decreases |b|
  {
    if b == [] {
      assert a + b == a;
    } else {
      ReceivedAppend(a, b[..|b| - 1], sink);
      assert (a + b)[..|a + b| - 1] == a + b[..|b| - 1];
    }
  }

  lemma {:induction false} RecordReceived<M>(sinks: seq<nat>, meta: M, text: string, sink: nat)
    ensures Received(RecordAll(sinks, meta, text), sink) == Copies(Delivery(sink, meta, text), Occurrences(sinks, sink))
  {
    if sinks != [] {
      var all := RecordAll(sinks, meta, text);
      RecordReceived(sinks[..|sinks| - 1], meta, text, sink);
      assert all[..|all| - 1] == RecordAll(sinks[..|sinks| - 1], meta, text);
    }
  }

  lemma OccurrencesSnoc(sinks: seq<nat>, s: nat, sink: nat)
    ensures Occurrences(sinks + [s], sink) == Occurrences(sinks, sink) + (if s == sink then 1 else 0)
  {
    assert (sinks + [s])[..|sinks|] == sinks;
  }

  lemma {:induction false} OccurrencesWithout(sinks: seq<nat>, gone: nat, sink: nat)
    ensures Occurrences(Without(sinks, gone), sink) == if gone == sink then 0 else Occurrences(sinks, sink)
  {
    if sinks != [] {
      var front := sinks[..|sinks| - 1];
      var last := sinks[|sinks| - 1];
      OccurrencesWithout(front, gone, sink);
      if last == gone {
        assert Without(sinks, gone) == Without(front, gone);
      } else {
        OccurrencesSnoc(Without(front, gone), last, sink);
      }
    }
  }

  /** Each sink receives exactly the entries made between its add and its remove, in the
      order they were made, with the original text. */
  lemma {:induction false} SinkReceivesItsEntries<M>(requests: seq<Request<M>>, sink: nat)
    ensures var e := Synchronous(requests);
      && Occurrences(e.sinks, sink) == Registered(requests, sink)
      && Received(e.output, sink) == Expected(requests, sink)
  {
    if requests != [] {
      var front := requests[..|requests| - 1];
      var r := requests[|requests| - 1];
      SinkReceivesItsEntries(front, sink);
      var e := Synchronous(front);
      match r {
        case Record(meta, text) =>
          ReceivedAppend(e.output, RecordAll(e.sinks, meta, text), sink);
          RecordReceived(e.sinks, meta, text, sink);
        case AddSink(s) => OccurrencesSnoc(e.sinks, s, sink);
        case RemoveSink(s) => OccurrencesWithout(e.sinks, s, sink);
        case Synchronize(_) =>
      }
    }
  }

  /** The sink a request adds, unless a later one removes it. */
  function Stays<M(==)>(r: Request<M>, later: seq<Request<M>>): seq<nat> {
    if r.AddSink? && Request<M>.RemoveSink(r.sink) !in later then [r.sink] else []
  }

  /** The sinks added and not removed since, in the order in which they were added. */
  function Standing<M(==)>(requests: seq<Request<M>>): seq<nat> {
    if requests == [] then [] else Stays(requests[0], requests[1..]) + Standing(requests[1..])
  }

  function Changed<M>(sinks: seq<nat>, r: Request<M>): seq<nat> {
    match r
    case AddSink(sink) => sinks + [sink]
    case RemoveSink(sink) => Without(sinks, sink)
    case _ => sinks
  }

  lemma {:induction false} WithoutFront(front: seq<nat>, sinks: seq<nat>, sink: nat)
    ensures Without(front + sinks, sink) == Without(front, sink) + Without(sinks, sink)
    decreases |sinks|
  {
    if sinks == [] {
      assert front + [] == front && Without(front, sink) + [] == Without(front, sink);
    } else {
      WithoutFront(front, sinks[..|sinks| - 1], sink);
      assert (front + sinks)[..|front + sinks| - 1] == front + sinks[..|sinks| - 1];
    }
  }

  lemma StaysSnoc<M>(first: Request<M>, later: seq<Request<M>>, r: Request<M>)
    ensures Stays(first, later + [r])
            == if r.RemoveSink? then Without(Stays(first, later), r.sink) else Stays(first, later)
  {
    var stays := Stays(first, later);
    if stays != [] {
      assert stays[..0] == [];
    }
  }

  lemma ChangedFront<M>(stays: seq<nat>, sinks: seq<nat>, r: Request<M>)
    ensures (if r.RemoveSink? then Without(stays, r.sink) else stays) + Changed(sinks, r) == Changed(stays + sinks, r)
  {
    if r.RemoveSink? {
      WithoutFront(stays, sinks, r.sink);
    } else if r.AddSink? {
      assert stays + (sinks + [r.sink]) == (stays + sinks) + [r.sink];
    }
  }

  lemma {:induction false} StandingSnoc<M>(front: seq<Request<M>>, r: Request<M>)
    ensures Standing(front + [r]) == Changed(Standing(front), r)
  {
    if front == [] {
      assert front + [r] == [r] && [r][1..] == [] && Stays(r, []) + [] == Stays(r, []);
    } else {
      StandingSnoc(front[1..], r);
      StaysSnoc(front[0], front[1..], r);
      ChangedFront(Stays(front[0], front[1..]), Standing(front[1..]), r);
      assert (front + [r])[1..] == front[1..] + [r];
    }
  }

  lemma {:induction false} SinksStand<M>(requests: seq<Request<M>>)
    ensures Synchronous(requests).sinks == Standing(requests)
  {
    if requests != [] {
      var front, r := requests[..|requests| - 1], requests[|requests| - 1];
      SinksStand(front);
      StandingSnoc(front, r);
      assert front + [r] == requests;
      assert Synchronous(requests).sinks == Changed(Synchronous(front).sinks, r);
    }
  }

  lemma {:induction false} RecordedInOrder<M>(sinks: seq<nat>, meta: M, text: string)
    ensures |RecordAll(sinks, meta, text)| == |sinks|
    ensures forall k :: 0 <= k < |sinks| ==> RecordAll(sinks, meta, text)[k] == Delivery(sinks[k], meta, text)
  {
    if sinks != [] {
      RecordedInOrder(sinks[..|sinks| - 1], meta, text);
    }
  }

  /** Entries are delivered in the order in which they were made, each to the sinks that stand
      at that moment, in the order in which they were added. */
  lemma EntriesGoToStandingSinks<M>(front: seq<Request<M>>, r: Request<M>)
    ensures var more := if r.Record? then RecordAll(Standing(front), r.meta, r.text) else [];
      && Synchronous(front + [r]).output == Synchronous(front).output + more
      && |more| == (if r.Record? then |Standing(front)| else 0)
      && forall k :: 0 <= k < |more| ==> more[k] == Delivery(Standing(front)[k], r.meta, r.text)
  {
    assert (front + [r])[..|front|] == front;
    SinksStand(front);
    if r.Record? {
      RecordedInOrder(Standing(front), r.meta, r.text);
    }
  }

  /** Over every interleaving of recording, adding and removing threads with the worker: at
      any moment a sink has received exactly the entries requested between its adds and its
      removes among the requests carried out so far, which are all of them once nothing is
      queued, in order and with the original text. */
  lemma SinksReceiveTheirEntries<M>(run: seq<Action<M>>, sink: nat)
    requires IsRun(Init(), run)
    ensures var st := After(Init(), run);
      && Executions(run) <= |Requests(run)|
      && Received(st.effects.output, sink) == Expected(Requests(run)[..Executions(run)], sink)
      && (st.taskQueue == [] && !st.busy ==> Received(st.effects.output, sink) == Expected(Requests(run), sink))
  {
    RefinesSynchronousLogging(run);
    SinkReceivesItsEntries(Requests(run)[..Executions(run)], sink);
    SinkReceivesItsEntries(Requests(run), sink);
  }

  function TicketOf<M>(r: Request<M>): seq<nat> {
    if r.Synchronize? then [r.ticket] else []
  }

  /** The tickets of the flushes among the requests, in order. */
  function Tickets<M>(requests: seq<Request<M>>): seq<nat> {
    if requests == [] then [] else TicketOf(requests[0]) + Tickets(requests[1..])
  }

  lemma {:induction false} TicketsAppend<M>(a: seq<Request<M>>, b: seq<Request<M>>)
    ensures Tickets(a + b) == Tickets(a) + Tickets(b)
  {
    if a == [] {
      assert a + b == b && Tickets(a) + Tickets(b) == Tickets(b);
    } else {
      TicketsAppend(a[1..], b);
      assert (a + b)[1..] == a[1..] + b && (a + b)[0] == a[0];
      Regroup(TicketOf(a[0]), Tickets(a[1..]), Tickets(b));
    }
  }

  lemma Regroup(a: seq<nat>, b: seq<nat>, c: seq<nat>)
    ensures a + (b + c) == (a + b) + c
    ensures a <= a + b
  {
  }

  lemma TicketsSnoc<M>(front: seq<Request<M>>, r: Request<M>)
    ensures Tickets(front + [r]) == Tickets(front) + TicketOf(r)
  {
    TicketsAppend(front, [r]);
    assert Tickets([r]) == TicketOf(r) + [] == TicketOf(r);
  }

  /** Every flush that is carried out is answered, once and in order, and nothing else is. */
  lemma {:induction false} ReleasedAreTickets<M>(requests: seq<Request<M>>)
    ensures Synchronous(requests).released == Tickets(requests)
  {
    if requests != [] {
      var front := requests[..|requests| - 1];
      ReleasedAreTickets(front);
      TicketsSnoc(front, requests[|requests| - 1]);
      assert requests == front + [requests[|requests| - 1]];
    }
  }

  lemma {:induction false} TicketIsThere<M>(requests: seq<Request<M>>, ticket: nat)
    ensures ticket in Tickets(requests) <==> Synchronize(ticket) in requests
  {
    if requests != [] {
      TicketIsThere(requests[1..], ticket);
      assert requests == [requests[0]] + requests[1..];
    }
  }

  /** Over every interleaving: the tickets released are those of the flushes among the
      requests carried out so far, which are all of them once nothing is queued. */
  lemma FlushesAreAnswered<M>(run: seq<Action<M>>)
    requires IsRun(Init(), run)
    ensures var st := After(Init(), run);
      && Executions(run) <= |Requests(run)|
      && st.effects.released == Tickets(Requests(run)[..Executions(run)])
      && (st.taskQueue == [] && !st.busy ==> st.effects.released == Tickets(Requests(run)))
  {
    RefinesSynchronousLogging(run);
    ReleasedAreTickets(Requests(run)[..Executions(run)]);
    ReleasedAreTickets(Requests(run));
  }

  /** Later requests only add to what earlier ones delivered. */
  lemma {:induction false} OutputGrows<M>(requests: seq<Request<M>>, n: nat)
    requires n <= |requests|
    ensures Synchronous(requests[..n]).output <= Synchronous(requests).output
  {
    if n == |requests| {
      assert requests[..n] == requests;
    } else {
      var front := requests[..|requests| - 1];
      OutputGrows(front, n);
      assert front[..n] == requests[..n];
    }
  }

  lemma ReceivedGrows<M>(before: seq<Delivery<M>>, output: seq<Delivery<M>>, sink: nat)
    requires before <= output
    ensures Received(before, sink) <= Received(output, sink)
  {
    ReceivedAppend(before, output[|before|..], sink);
    assert output == before + output[|before|..];
  }

  /** What was asked for by some requests has been done: their flushes are answered, and every
      sink has received what it was to receive from them. */
  ghost predicate Served<M>(requests: seq<Request<M>>, e: Effects<M>) {
    && Tickets(requests) <= e.released
    && forall sink :: Expected(requests, sink) <= Received(e.output, sink)
  }

  lemma EarlierAreAnswered<M>(requests: seq<Request<M>>, n: nat)
    requires n <= |requests|
    ensures Tickets(requests[..n]) <= Synchronous(requests).released
  {
    var front, back := requests[..n], requests[n..];
    ReleasedAreTickets(requests);
    assert requests == front + back;
    TicketsAppend(front, back);
    Regroup(Tickets(front), Tickets(back), []);
  }

  lemma EarlierAreReceived<M>(requests: seq<Request<M>>, n: nat, sink: nat)
    requires n <= |requests|
    ensures Expected(requests[..n], sink) <= Received(Synchronous(requests).output, sink)
  {
    OutputGrows(requests, n);
    SinkReceivesItsEntries(requests[..n], sink);
    ReceivedGrows(Synchronous(requests[..n]).output, Synchronous(requests).output, sink);
  }

  lemma EarlierAreServed<M>(requests: seq<Request<M>>, n: nat)
    requires n <= |requests|
    ensures Served(requests[..n], Synchronous(requests))
  {
    EarlierAreAnswered(requests, n);
    forall sink ensures Expected(requests[..n], sink) <= Received(Synchronous(requests).output, sink) {
      EarlierAreReceived(requests, n, sink);
    }
  }

  /** A flush, with a ticket used only once, returns exactly when its request has been carried
      out, and at that moment everything requested before it has been done. */
  lemma FlushWaitsForEarlierEntries<M>(run: seq<Action<M>>, i: nat)
    requires IsRun(Init(), run)
    requires i < |Requests(run)| && Requests(run)[i].Synchronize?
    requires forall j :: 0 <= j < |Requests(run)| && Requests(run)[j] == Requests(run)[i] ==> j == i
    ensures var st := After(Init(), run);
      && (Requests(run)[i].ticket in st.effects.released <==> i < Executions(run))
      && (i < Executions(run) ==> Served(Requests(run)[..i], st.effects))
  {
    FlushesAreAnswered(run);
    RefinesSynchronousLogging(run);
    var done := Requests(run)[..Executions(run)];
    TicketIsThere(done, Requests(run)[i].ticket);
    if i < Executions(run) {
      assert done[i] == Requests(run)[i];
      EarlierAreServed(done, i);
      assert done[..i] == Requests(run)[..i];
    }
  }

  // ---------------------------------------------------------------- the object

  class Logger<M> {
    var sinks: seq<nat>
    var taskQueue: seq<Task<M>>
    var textBuffer: string
    var executing: seq<Task<M>>
    var loggingText: string
    ghost var next: nat
    ghost var busy: bool
    ghost var output: seq<Delivery<M>>
    ghost var released: seq<nat>

    ghost function View(): State<M>
      reads this
    {
      State(taskQueue, textBuffer, executing, loggingText, next, busy, Effects(sinks, output, released))
    }

    constructor ()
      ensures View() == Init()
    {
      sinks, taskQueue, textBuffer, executing, loggingText := [], [], [], [], [];
      next, busy, output, released := 0, false, [], [];
    }

    method PushTask(r: Request<M>)
      modifies this
      ensures View() == Push(old(View()), r)
    {
      match r {
        case Record(meta, text) =>
          var ibegin := |textBuffer|;
          textBuffer := textBuffer + text;
          textBuffer := textBuffer + ['\0'];
          taskQueue := taskQueue + [LogEntry(meta, ibegin, |text|)];
        case AddSink(sink) => taskQueue := taskQueue + [Adding(sink)];
        case RemoveSink(sink) => taskQueue := taskQueue + [Removing(sink)];
        case Synchronize(ticket) => taskQueue := taskQueue + [Synchronizing(ticket)];
      }
    }

    method SwapBuffers()
      requires !busy && executing == [] && loggingText == []
      modifies this
      ensures View() == Swap(old(View()))
    {
      executing, taskQueue := taskQueue, executing;
      loggingText, textBuffer := textBuffer, loggingText;
      next, busy := 0, true;
    }

    /** Replays one task on the sinks. */
    method ExecuteOne(task: Task<M>)
      requires TextInside(task, loggingText)
      modifies this`sinks, this`output, this`released
      ensures Effects(sinks, output, released)
              == Perform(old(Effects(sinks, output, released)), Rebuild(task, loggingText))
    {
      match task {
        case LogEntry(meta, ibegin, size) =>
          var text := loggingText[ibegin..ibegin + size];
          ghost var before := output;
          for k := 0 to |sinks|
            invariant sinks == old(sinks) && released == old(released)
            invariant output == before + RecordAll(sinks[..k], meta, text)
          {
            assert sinks[..k + 1][..k] == sinks[..k];
            output := output + [Delivery(sinks[k], meta, text)];
          }
          assert sinks[..|sinks|] == sinks;
        case Adding(sink) => sinks := sinks + [sink];
        case Removing(sink) =>
          var kept := [];
          for k := 0 to |sinks|
            invariant kept == Without(sinks[..k], sink)
          {
            assert sinks[..k + 1][..k] == sinks[..k];
            if sinks[k] != sink {
              kept := kept + [sinks[k]];
            }
          }
          assert sinks[..|sinks|] == sinks;
          sinks := kept;
        case Synchronizing(ticket) => released := released + [ticket];
      }
    }

    /** The loop of the batch, one task further. */
    method ExecuteNext(k: nat)
      requires busy && k == next < |executing| && TextInside(executing[k], loggingText)
      modifies this`sinks, this`output, this`released, this`next
      ensures View() == Execute(old(View()))
    {
      ExecuteOne(executing[k]);
      next := next + 1;
    }

    method ClearBatch()
      modifies this
      ensures View() == Clear(old(View()))
    {
      executing := [];
      loggingText := [];
      next, busy := 0, false;
    }

    /** One update of the worker, with nobody pushing meanwhile: everything requested so
        far has taken effect, and both buffers are empty again. */
    method Update(ghost pushed: seq<Request<M>>, ghost done: nat)
      requires Refines(View(), pushed, done) && !busy
      modifies this
      ensures View() == State([], [], [], [], 0, false, Synchronous(pushed))
    {
      SwapRefines(View(), pushed, done);
      SwapBuffers();
      ghost var d: nat := done;
      var k := 0;
      while k < |executing|
        invariant k == next <= |executing| && busy
        invariant taskQueue == [] && textBuffer == []
        invariant Refines(View(), pushed, d)
      {
        ExecuteRefines(View(), pushed, d);
        ExecuteNext(k);
        k := k + 1;
        d := d + 1;
      }
      ClearRefines(View(), pushed, d);
      ClearBatch();
      AllDone(View(), pushed, d);
    }
  }

  lemma AllDone<M>(st: State<M>, pushed: seq<Request<M>>, done: nat)
    requires Refines(st, pushed, done) && !st.busy && st.taskQueue == []
    ensures st.effects == Synchronous(pushed)
  {
    assert pushed[..done] == pushed;
  }
}
