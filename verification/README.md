# Alpaca Core: channels, logging, coroutines, containers, resources and serialization

A Dafny model of the stateful cores of Alpaca Core's C++ libraries, with proofs of what they
keep over whole runs. `dafny verify dfyconfig.toml` checks everything.

## What is modelled

**The bounded channel and its wait protocol.** `BufferedChannel` holds the critical sections of
the channel, as functions on values and as a class proved against them. `ChannelProtocol` is the
interleaved step system around it: a reader and a writer run attempt, arm, wait and retry
operations, a third party may close, and a lock section, the notification invoked after the lock is
released, entering the wait, waking, timing out and retrying are separate steps. One notification
slot is shared by both sides. A wait object is a condition variable with a sticky flag, a strand
whose notifications are posted tasks, or that strand object used from off its own strand.
`ChannelCalls` reads the calls of each side off the actions of a run and ties the answers to them.
`ChannelProgress` runs a whole producer and consumer on the protocol. `BlockingIo` holds the wait objects and
the blocking endpoint as classes whose methods are the steps of the protocol, and `StrandIo` the
endpoint on a strand, where what the protocol allows of posted notifications is derived from a strand
running one task at a time. `EndpointPair` puts two endpoint objects of either kind on one channel
object and takes any run of the protocol on them.

**Asynchronous logging.** `AsyncLogging` has the two swapped buffers, with entries stored as an
index into a growing text buffer and rebuilt later, and relates them to logging synchronously.
`AsyncLoggingThread` adds the condition variable, the flag tested and set by the worker, the
destructor and spurious wakeups. `ScQueue` is the double-buffered queue next to it.

**The coroutine promise machine.** `CoroSemantics` says what coroutine bodies mean in direct style
(any computation on the variables of a frame, return, throw, catch, await, await as a result, yield,
loop over `next()`). `CoroMachine` is the machine of frames with their `m_prev`, `m_result`,
`m_generated` and `m_executor` links and symmetric transfer. `CoroCorrectness` proves that the machine
computes the direct meaning. `CoroObjects` is the same machine on objects that change in place, with a
scheduler loop that runs a detached root. `CoroHandles` is about one handle that is awaited several times,
in any history of the machine.

**small_vector.** `SmallVectorSteps` has the choice of the buffer, its cost, and the loops on values,
which fail when a slot is not what they need. `SmallVector` has raw, live and moved-from slots in
arrays, explicit construction, move and destruction, a static buffer and at most one heap block, and
reversion to the static buffer.

**Resources.** `Resources` is caches, manager and locks as a step system over time, where any number of
caches come and go on one manager. `ResourceHistory` reads off a run what has happened to a resource --
its cache and key, its age limit, who holds it -- and ties the state to that. `ResourceObjects` holds
caches, manager and locks as classes that share a ledger of reference counts.

**Serialization and integer printing.** `Serialization` and `SchemaGenerator` define writer, reader and
schema generator over one tree of field declarations, `Depiction` says what a dictionary says of a value
and what is wrong with one, `SchemaAgreement` and `SchemaNames` compare the generated schema with what is
read and written, and `SchemaVisitors` holds the field object and the
visitors as they run. `IntegerPrint` covers digits, sign, padding and the fixed buffer.

## What turned out not to hold

Each of these is kept as the code has it, with a proof of the exact condition.

- With a capacity of 0, or a strand wait object used off its own strand, a wakeup can be lost:
  `ChannelProtocol.NoLostWakeupIff`.
- Arming a notification through `exchange_read_notify_cb` or `exchange_write_notify_cb` after `close`
  breaks the slot discipline, and the assert of the next `write` fails:
  `BufferedChannel.DisciplineKeptIffNoLateArm`, over histories `BufferedChannel.AssertsHoldIff`, with an
  input in `BufferedChannel.LateArmTripsWrite`.
- A resource that is alive in its manager can be found if and only if the cache it was made for still
  exists: `Resources.FoundIffCacheRemains`. A service owns its cache while the manager belongs to the worker
  strand (local/dummy-plugin/code/ac/dummy/LocalDummy.cpp:233, local/code/ac/local/BackendWorkerStrand.hpp:24),
  so unloading a service leaves its resources there, out of reach, until they are collected:
  `Resources.UnloadedIsLost`.
- There is a schema for a type if and only if every default declared in it, at every level, can be written.
  For a field whose default is a struct with an unset required field the generator fails:
  `SchemaGenerator.DescribesIff`, `SchemaGenerator.UnwritableDefault`.
- Reading back what was written restores the value exactly if every field the writer leaves out is
  already in the value read into. A default of a nested struct that sets an optional field leaks into
  the result: `Serialization.RoundTripIff`, `Serialization.DefaultStructLeaksIntoResult`. The reader
  and the generated schema can likewise disagree below a nested struct whose default differs from a
  new object: `SchemaAgreement.ReaderAndSchemaAgreeIff`, with an input in
  `SchemaAgreement.NestedDefaultDisagrees`.
- The schema of a `bool` says `integer`, because the test for integers comes first
  (frame/code/ac/schema/SchemaVisitor.hpp:29-40), and a struct of which nothing is written is written as
  null where the schema says `object`. Every leaf that is written has the kind that the schema names there
  if and only if no `bool` occurs in the type, and everything has, at every level, if and only if besides
  every struct in the type has a required field: `SchemaNames.WrittenKindsFitIff`.
- A coroutine that was asked by `next()` and is then awaited otherwise keeps its link to the place for a
  generated value, which is gone: `CoroHandles.LinksAreLiveIff`. When it yields again the caller takes a
  result that is not there: `CoroHandles.YieldIntoAwait`, with a run in `CoroHandles.AwaitAfterNext`.
- The buffer of `write_integer` is one character too short for the signed minimum in base 2, and
  the 16-bit subtraction in `write_padded` can wrap around for very negative pad sizes:
  `IntegerPrint.BufferFits`, `IntegerPrint.PaddedShape`.
- Inserting or erasing nothing away from the end of a `small_vector` is legal if and only if the vector
  changes its storage on the way, which a heap vector below the limit for reversion does; in place it
  constructs over an element: `SmallVectorSteps.GrowIsLegalIff`, `SmallVectorSteps.ShrinkIsLegalIff`.
- `revert_to_static` answers true for a heap vector of exactly the static capacity but leaves it on the
  heap: `SmallVector.SmallVec.RevertToStatic`. The comment at
  common/astl/include/astl/small_vector.hpp:86-89 says that `resize` may revert to the static buffer;
  the code never does, and the model follows the code: `SmallVector.SmallVec.Resize`.

## Model

| member | source | states |
|---|---|---|
| BufferedChannel.DisciplineKeptIffNoLateArm | common/io/code/ac/io/buffered_channel.hpp:24-116 | from a state where a set notification means "open, and empty or full", the asserts hold, and the state stays such if and only if the section is not an exchange that arms a closed channel; after such a late arm the next write's assert fails |
| BufferedChannel.StepConservesTasks | common/io/code/ac/io/buffered_channel.hpp:88-116 | in one section the task armed and the task in the slot are, as a bag, the task fired, the task handed back and the task left in the slot |
| BufferedChannel.FiresOrHandsBack | common/io/code/ac/io/buffered_channel.hpp:24-116 | only a section that succeeds or closes fires the slot, and empties it; an exchange fires nothing and, like a blocked operation, hands the old task back for the new one |
| BufferedChannel.StepConservesValues | common/io/code/ac/io/buffered_channel.hpp:46-81 | one section puts a value in at the back, takes one out at the front, or neither, within the bound |
| BufferedChannel.HistoryConserves | common/io/code/ac/io/buffered_channel.hpp:46-116 | over every history: accepted = delivered then queued, the bound holds, and tasks armed = fired + handed back + still in the slot |
| BufferedChannel.AssertsNeverFail | common/io/code/ac/io/buffered_channel.hpp:49-75 | over every history without late arms none of the asserts ever fails and the slot discipline holds |
| BufferedChannel.AssertsHoldIff | common/io/code/ac/io/buffered_channel.hpp:24-75 | over every history: no assert fails, not even in a write tried after any prefix, if and only if no closed channel is ever armed |
| BufferedChannel.LateArmTripsWrite | common/io/code/ac/io/buffered_channel.hpp:24-62 | for every capacity: closing, arming through the exchange and writing fails the assert of the write |
| BufferedChannel.ClosedForever | common/io/code/ac/io/buffered_channel.hpp:46-87 | over every history and whatever comes after a close: the channel stays closed, nothing more is accepted, what was queued at that time is delivered in order and nothing else is, and from then on every write, and every read once the queue is empty, reports closed without effect, whatever it would arm |
| BufferedChannel.ClosedChannelDrains | common/io/code/ac/io/buffered_channel.hpp:67-77 | reads of a closed channel, armed or not, take out one queued value each, in order, until none is left |
| BufferedChannel.Channel.constructor | common/io/code/ac/io/buffered_channel.hpp:20-22 | an empty open channel with nothing armed |
| BufferedChannel.Channel.Write | common/io/code/ac/io/buffered_channel.hpp:46-62 | the object does what the section of `write` does on values, both asserts hold, and the discipline is kept |
| BufferedChannel.Channel.Read | common/io/code/ac/io/buffered_channel.hpp:64-81 | the object does what the section of `read` does on values, both asserts hold, and the discipline is kept |
| BufferedChannel.Channel.Close | common/io/code/ac/io/buffered_channel.hpp:83-87 | closed from now on, the armed task is fired, the queue stays |
| BufferedChannel.Channel.ExchangeNotify | common/io/code/ac/io/buffered_channel.hpp:89-101 | the new task replaces the old one, which is handed back |
| BufferedChannel.Channel.ExchangeReadNotify | common/io/code/ac/io/buffered_channel.hpp:24-33 | the slot is exchanged only when the queue is empty, closed or not |
| BufferedChannel.Channel.ExchangeWriteNotify | common/io/code/ac/io/buffered_channel.hpp:35-44 | the slot is exchanged only when the queue is full, closed or not |
| ChannelProtocol.AttemptMoves | common/io/code/ac/io/buffered_channel.hpp:46-106 | the outcomes of one attempt: success moves one value, fires the slot and unblocks the other side; closed changes nothing; blocked arms the slot and changes nothing else |
| ChannelProtocol.NotifyKeepsInv | common/io/code/ac/io/buffered_channel.hpp:108-116 | invoking a notification after the lock was released keeps the invariant, whatever happened in between |
| ChannelProtocol.BeginKeepsInv | common/io/code/ac/io/xio.hpp:139-149 | starting an operation (attempt, and arm if blocked) keeps the invariant |
| ChannelProtocol.RetryKeepsInv | common/io/code/ac/io/xio.hpp:89-97 | the retry with no callback, after a wakeup or a timeout, keeps the invariant and counts an aborted result only if there was neither success, close nor timeout |
| ChannelProtocol.CloseSectionKeepsInv | common/io/code/ac/io/buffered_channel.hpp:83-87 | closing at any moment keeps the invariant |
| ChannelProtocol.NextKeepsInv | common/io/code/ac/io/xio.hpp:70-98 | every step of either side, the closer or a wait object keeps: the slot holds exactly the notification of a side in an operation it is blocked on, and notifications on their way plus aborted results never exceed timeouts plus the current wait |
| ChannelProtocol.RunKeepsInv | common/io/code/ac/io/xio.hpp:70-98 | the invariant holds after every run |
| ChannelProtocol.InvMeansNoLostWakeup | common/io/code/ac/io/blocking_io.hpp:28-49 | the invariant means that a waiting side has its notification in the slot of a channel that still blocks it, in flight, or recorded in its wait object, and both sides are never waiting with nothing on its way |
| ChannelCalls.EveryCallIsAnswered | common/io/code/ac/io/xio.hpp:70-149 | over every run, for every capacity and all wait objects: the k-th answer of a side belongs to the k-th call made on it in the run; a write that succeeded moved the item of that call, and an answer has the timeout bit exactly if a timeout ended the wait of that call |
| ChannelCalls.AttemptsAreAnswered | common/io/code/ac/io/buffered_channel.hpp:46-106 | the attempt of a call and the one after its wait: success with its effect whenever the side can move, closed without effect when it never will, and otherwise a first attempt that may wait arms and any other gives up |
| ChannelCalls.ExactlyOnce | common/io/code/ac/io/buffered_channel.hpp:46-81 | over every run, with timeouts, for every capacity and all wait objects: the items of the writing calls that reported success, in order, are the values the reading calls have got followed by what is queued, within the bound |
| ChannelCalls.AbortsNeedTimeouts | common/io/code/ac/io/blocking_io.hpp:32-65 | over every run a side sees at most as many aborted results as timeouts ended waits of that side in the run; without timeouts a wait ends in success or closed |
| ChannelProtocol.NoLostWakeupIff | common/xec/code/ac/xec/strand_wobj.hpp:18-34 | over all runs no wakeup is lost if and only if the capacity is at least 1 and neither strand wait object is used off its strand |
| ChannelProtocol.ZeroCapacityLosesWakeup | common/io/code/ac/io/buffered_channel.hpp:64-106 | with capacity 0 the writer's notification replaces the waiting reader's, which then waits with nothing on its way |
| ChannelProtocol.OffStrandReaderLosesWakeup | common/xec/code/ac/xec/strand_wobj.hpp:18-34 | off the strand a reader's posted notification can run before the callback is registered, and is gone |
| ChannelProtocol.OffStrandWriterLosesWakeup | common/xec/code/ac/xec/strand_wobj.hpp:18-34 | the same for a writer on a full queue, for every capacity |
| ChannelProgress.RetryIsNotBlocked | common/io/code/ac/io/xio.hpp:76-80 | without timeouts a woken side finds the channel no longer blocking it, or closed |
| ChannelProgress.NothingToDrop | common/xec/code/ac/xec/strand_wobj.hpp:18-25 | without timeouts no posted notification ever finds the callback missing |
| ChannelProgress.StepProgresses | common/io/code/ac/io/xio.hpp:70-98 | every step of the producer and consumer programs lowers a measure and keeps their invariant |
| ChannelProgress.NeverStuck | common/io/code/ac/io/xio.hpp:70-98 | in every state they reach that is not finished, some step is possible |
| ChannelProgress.RunsAreBounded | common/io/code/ac/io/xio.hpp:70-98 | a run is at most as long as the measure it uses up |
| ChannelProgress.ProducerConsumerCompletes | common/io/code/ac/io/blocking_io.hpp:23-66 | a producer of any n values that then closes and a consumer polling until closed: every interleaving has at most 14 n + 19 steps, is never stuck, and ends with the consumer holding exactly the n values in order |
| BlockingIo.CvarWobj.NotifyOne | common/io/code/ac/io/blocking_io.hpp:43-49 | the flag is set and stays set |
| BlockingIo.CvarWobj.WaitPred | common/io/code/ac/io/blocking_io.hpp:28-30 | the predicate of a wait consumes the flag |
| BlockingIo.StrandWobj.NotifyOne | common/xec/code/ac/xec/strand_wobj.hpp:18-25 | a notification is posted behind the tasks already on the strand |
| BlockingIo.StrandWobj.Wait | common/xec/code/ac/xec/strand_wobj.hpp:27-34 | the callback is registered, and an older one is posted to be cancelled |
| BlockingIo.StrandWobj.RunNext | common/xec/code/ac/xec/strand_wobj.hpp:18-34 | tasks run in the order posted; a notification resumes the registered callback once, or nothing |
| BlockingIo.BlockingIo.Begin | common/io/code/ac/io/xio.hpp:139-149 | the attempt on the endpoint object is the protocol's step |
| BlockingIo.BlockingIo.Enter | common/io/code/ac/io/blocking_io.hpp:32-41 | starting the wait, whether or not the flag is set already, is the protocol's step |
| BlockingIo.BlockingIo.Wake | common/io/code/ac/io/blocking_io.hpp:32-41 | a wait that ends because the flag is set is the protocol's step |
| BlockingIo.BlockingIo.GiveUp | common/io/code/ac/io/blocking_io.hpp:38-41 | when the time is up the flag is looked at once more: a wakeup if it is set, a timeout if not |
| BlockingIo.BlockingIo.Retry | common/io/code/ac/io/xio.hpp:89-97 | the retry on the endpoint object is the protocol's step, with the timeout bit of its wait |
| BlockingIo.BlockingIo.InvokeFired | common/io/code/ac/io/buffered_channel.hpp:108-116 | the notification taken out of the slot reaches the other endpoint's wait object, as in the protocol |
| StrandIo.StrandIo.Begin | common/io/code/ac/io/xio.hpp:70-74 | the attempt in a call of `async_io` on the strand object is the protocol's step |
| StrandIo.StrandIo.Enter | common/io/code/ac/io/xio.hpp:76-80 | registering the callback in the same call is the protocol's step, with the registered callback standing for the waiting side |
| StrandIo.StrandIo.RunNext | common/xec/code/ac/xec/strand_wobj.hpp:18-25 | running a posted notification is the protocol's wakeup if a callback is registered and its dropped notification otherwise; that both are allowed then is derived from the strand running one task at a time, so on the strand none is dropped between arming and registering |
| StrandIo.StrandIo.EndTask | common/xec/code/ac/xec/strand_wobj.hpp:18-34 | a task that is not in the middle of a call can end, and the next one may run |
| StrandIo.StrandIo.Retry | common/io/code/ac/io/xio.hpp:76-80 | the callback's attempt is the protocol's retry |
| StrandIo.StrandIo.InvokeFired | common/io/code/ac/io/buffered_channel.hpp:108-116 | a fired notification is posted on the other strand, where the protocol counts it |
| StrandIo.StrandIo.InvokeFiredBlocking | common/io/code/ac/io/buffered_channel.hpp:108-116 | or sets the flag of a blocking endpoint on the other side |
| StrandIo.StrandIo.InvokedBy | common/io/code/ac/io/buffered_channel.hpp:108-116 | and a blocking endpoint posts it the other way round |
| EndpointPair.StepBeside | common/io/code/ac/io/xio.hpp:70-98 | beginning, waiting, waking, timing out and retrying on one endpoint object keeps the other one, of either kind, in step with the protocol |
| EndpointPair.NotifyBeside | common/io/code/ac/io/buffered_channel.hpp:108-116 | an endpoint of either kind that invokes the notification it took out reaches the one of either kind on the other side, and both are in step |
| EndpointPair.Pair.Do | common/io/code/ac/io/xio.hpp:70-149 | every step the protocol allows, of either side or of the closer, can be taken on the objects and leaves them as the protocol says |
| EndpointPair.Run | common/io/code/ac/io/buffered_channel.hpp:20-116 | every run of the protocol can be taken on a new pair of objects, which ends as the protocol says: each object has answered the calls made on it in order, and the items of the writing calls it reported as written are what the reading object got, then what is queued |
| ScQueue.Queue.Push | common/astl/include/astl/sc_queue.hpp:34-38 | the item is appended to the whole queue |
| ScQueue.Queue.TryPop | common/astl/include/astl/sc_queue.hpp:40-52 | undisturbed, the head of the whole queue, or nothing exactly if all of it is empty |
| ScQueue.NextKeepsInv | common/astl/include/astl/sc_queue.hpp:34-52 | every step of a producer or of the consumer extends a legal history of one FIFO queue |
| ScQueue.StepReports | common/astl/include/astl/sc_queue.hpp:34-52 | every push adds exactly its item to the history, and every `try_pop` exactly one answer, at its end |
| ScQueue.Linearizable | common/astl/include/astl/sc_queue.hpp:34-52 | over every interleaving there is a legal history of one FIFO queue whose pushes are those of the run, in lock order, and in which every call of `try_pop` but the one under way has had one answer |
| ScQueue.PopsArePrefixOfPushes | common/astl/include/astl/sc_queue.hpp:34-52 | over every interleaving the items popped, followed by what is in the two lists, are the items pushed in the run, and after an empty answer all of them have been popped |
| IntegerPrint.DigitsParse | common/jalog/code/ac/jalog/_qwrite.hpp:74-87 | the digits read back as the number, without sign or leading zero |
| IntegerPrint.TextRoundTrip | common/jalog/code/ac/jalog/_qwrite.hpp:64-96 | for every value and base 2 to 36 the text parses back to the value and has no leading zero |
| IntegerPrint.DigitsFit | common/jalog/code/ac/jalog/_qwrite.hpp:60-87 | at most k digits are needed exactly for numbers below the k-th power of the base |
| IntegerPrint.BufferFits | common/jalog/code/ac/jalog/_qwrite.hpp:60-96 | one character per bit is enough for digits and sign of every value of every width and base, except exactly the signed minimum in base 2 |
| IntegerPrint.UnsignedIsMagnitude | common/jalog/code/ac/jalog/_qwrite.hpp:64-72 | converting to unsigned and negating modulo 2 to the width gives the absolute value, the minimum included |
| IntegerPrint.PaddedShape | common/jalog/code/ac/jalog/_qwrite.hpp:29-51 | the output has max(size, length) characters if and only if the 16-bit subtraction does not wrap; the text survives at the side the type says, sign first under inner padding, and the rest is the padding character |
| IntegerPrint.WritePadded | common/jalog/code/ac/jalog/_qwrite.hpp:29-51 | the loops append exactly the padded text |
| IntegerPrint.WriteDigits | common/jalog/code/ac/jalog/_qwrite.hpp:74-87 | the loop leaves the digits at the end of the buffer |
| IntegerPrint.WriteInteger | common/jalog/code/ac/jalog/_qwrite.hpp:56-99 | the padded text of the value is appended; writing in front of the buffer would happen exactly for the signed minimum in base 2 |
| AsyncLogging.PushRefines | common/jalog/code/ac/jalog/AsyncLogging.cpp:142-165 | recording at any moment, also while a batch runs, keeps the refinement: the growing buffer does not disturb the text of entries already queued |
| AsyncLogging.SwapRefines | common/jalog/code/ac/jalog/AsyncLogging.cpp:106-111 | swapping the buffers keeps the refinement |
| AsyncLogging.ExecuteRefines | common/jalog/code/ac/jalog/AsyncLogging.cpp:49-67 | carrying out a task, its text rebuilt from the start index, has the effect of the request it was made from |
| AsyncLogging.ClearRefines | common/jalog/code/ac/jalog/AsyncLogging.cpp:113-121 | clearing after a batch keeps the refinement |
| AsyncLogging.RefinesSynchronousLogging | common/jalog/code/ac/jalog/AsyncLogging.cpp:106-175 | at any moment of any interleaving the effects are those of synchronous logging of a prefix of the requests, and all of them once nothing is queued |
| AsyncLogging.SinkReceivesItsEntries | common/jalog/code/ac/jalog/AsyncLogging.cpp:69-85 | under synchronous logging a sink gets exactly the entries between its add and its remove, in order, with the original text, once for each registration |
| AsyncLogging.EntriesGoToStandingSinks | common/jalog/code/ac/jalog/AsyncLogging.cpp:54-85 | entries are delivered in the order in which they were made, each once to every registration that stands at that moment, in the order of adding |
| AsyncLogging.SinksReceiveTheirEntries | common/jalog/code/ac/jalog/AsyncLogging.cpp:49-175 | over every interleaving of recording, adding and removing threads with the worker: at any moment a sink has received exactly the entries between its adds and its removes among the requests carried out so far, all of them once nothing is queued |
| AsyncLogging.OutputGrows | common/jalog/code/ac/jalog/AsyncLogging.cpp:113-121 | later requests only add to what earlier ones delivered |
| AsyncLogging.ReleasedAreTickets | common/jalog/code/ac/jalog/AsyncLogging.cpp:87-93 | carrying out requests answers exactly their flushes, in order, once each |
| AsyncLogging.FlushesAreAnswered | common/jalog/code/ac/jalog/AsyncLogging.cpp:177-182 | over every interleaving the flushes answered are those among the requests carried out so far, and all of them once nothing is queued |
| AsyncLogging.EarlierAreServed | common/jalog/code/ac/jalog/AsyncLogging.cpp:113-121 | carrying out requests serves every first part of them: its flushes are answered and every sink has received its entries |
| AsyncLogging.FlushWaitsForEarlierEntries | common/jalog/code/ac/jalog/AsyncLogging.cpp:177-182 | over every interleaving a flush returns if and only if its request has been carried out, and then everything requested before it has been done |
| AsyncLogging.Logger.PushTask | common/jalog/code/ac/jalog/AsyncLogging.cpp:142-165 | the text and a zero are appended and the entry keeps where it begins |
| AsyncLogging.Logger.SwapBuffers | common/jalog/code/ac/jalog/AsyncLogging.cpp:106-111 | both pairs of buffers change places |
| AsyncLogging.Logger.ExecuteOne | common/jalog/code/ac/jalog/AsyncLogging.cpp:49-93 | one task on the sinks has the effect of the request rebuilt from it, the loops over sinks included |
| AsyncLogging.Logger.ExecuteNext | common/jalog/code/ac/jalog/AsyncLogging.cpp:113-118 | one round of the batch loop is the worker's step |
| AsyncLogging.Logger.Update | common/jalog/code/ac/jalog/AsyncLogging.cpp:123-135 | an update nobody interferes with brings the effects up to synchronous logging of all requests and empties both buffers |
| AsyncLoggingThread.NextKeepsInv | common/jalog/code/ac/jalog/AsyncLogging.cpp:130-187 | every step of pushers, worker and destructor keeps the invariant, whichever way clearing the flag, waking up and testing it interleave |
| AsyncLoggingThread.RequestsAreCarriedOut | common/jalog/code/ac/jalog/AsyncLogging.cpp:167-175 | over every interleaving of pushers, worker and destructor the effects are those of carrying out the first requests of the run, as many as the worker has executed |
| AsyncLoggingThread.ShutdownLosesNothing | common/jalog/code/ac/jalog/AsyncLogging.cpp:246-250 | when the destructor has returned, everything requested in the run before it began has been done, in order and exactly once: those flushes are answered and every sink has its entries |
| AsyncLoggingThread.SomebodyCanStep | common/jalog/code/ac/jalog/AsyncLogging.cpp:130-187 | while there is something to do or the destructor has not returned, some step is possible |
| AsyncLoggingThread.InternalStepDecreases | common/jalog/code/ac/jalog/AsyncLogging.cpp:231-250 | every step other than a new request, the start of the destructor or a spurious wakeup lowers a measure |
| AsyncLoggingThread.QuietMeansServed | common/jalog/code/ac/jalog/AsyncLogging.cpp:130-140 | the worker is left waiting only with an empty queue and no destructor under way |
| AsyncLoggingThread.EverythingIsServed | common/jalog/code/ac/jalog/AsyncLogging.cpp:231-250 | after any run, internal steps alone are bounded, and when none is left every flush of the run is answered and every sink has exactly its entries, or a destructor has returned and what was requested before it began has been done |
| AsyncLoggingThread.WorkerExitsUnderLoad | common/jalog/code/ac/jalog/AsyncLogging.cpp:239-250 | after the destructor's wake-up, whatever keeps arriving, the worker makes at most five more moves besides carrying out tasks, never more of those than the run has requested, and is never stranded |
| CoroSemantics.OnNextMeans | common/xec/code/ac/xec/coro.hpp:178-214 | repeated `next()` gives the body the generated values in order and then the returned value or the exception |
| CoroSemantics.RunIsEval | common/xec/code/ac/xec/coro.hpp:128-214 | evaluation that counts machine steps yields the same values and ends in the same outcome as direct evaluation |
| CoroCorrectness.ResumeStep | common/xec/code/ac/xec/coro.hpp:145-170 | picking up what an awaitable holds never finds it empty, and continues the awaiting body with the value or the exception |
| CoroCorrectness.FinishStep | common/xec/code/ac/xec/coro.hpp:18-83 | a frame that ends stores its result in its caller's awaitable and hands control back, which is one step of the evaluation |
| CoroCorrectness.YieldStep | common/xec/code/ac/xec/coro.hpp:85-99 | a yield of an iterated coroutine hands its value to the loop that asked for it |
| CoroCorrectness.IgnoredYieldStep | common/xec/code/ac/xec/coro.hpp:95-98 | a yield of a coroutine that is not iterated is thrown away and the body goes on |
| CoroCorrectness.AwaitStep | common/xec/code/ac/xec/coro.hpp:128-172 | awaiting links the callee to the awaitable in the caller's frame and continues with the callee |
| CoroCorrectness.ForEachStep | common/xec/code/ac/xec/coro.hpp:174-191 | the first `next()` starts the generator with both of its links |
| CoroCorrectness.NextStep | common/xec/code/ac/xec/coro.hpp:174-214 | a further `next()` resumes the generator after its yield |
| CoroCorrectness.StepTracks | common/xec/code/ac/xec/coro.hpp:51-214 | every step of a machine that runs a body brings it one counted step closer to the outcome of direct evaluation, with the chain of links intact |
| CoroCorrectness.MachineIsDirectEvaluation | common/xec/code/ac/xec/coro.hpp:51-214 | after exactly as many steps as direct evaluation counts, the root has returned the same value, or an exception has reached terminate exactly when direct evaluation throws it |
| CoroCorrectness.EveryFrameRunsOnTheRootsStrand | common/xec/code/ac/xec/coro.hpp:136-142 | at any time a chain of `m_prev` and `m_result` links leads to the root and every frame on it has the root's executor; the assert never fails, no empty result is taken, and terminate needs an exception escaping the root |
| CoroHandles.LinksAreLiveIff | common/xec/code/ac/xec/coro.hpp:136-191 | a promise is linked only to places of the await it is in if and only if that is a `next()` or none of the earlier awaits was one |
| CoroHandles.LinksFollowAsks | common/xec/code/ac/xec/coro.hpp:136-191 | in every history of the machine, whatever runs in between, the links of a promise are those of the last await and of the last `next()` on its handle |
| CoroHandles.YieldIntoAwait | common/xec/code/ac/xec/coro.hpp:85-99 | a yield into a plain await hands control to a caller without a result if and only if the coroutine was asked by `next()` before |
| CoroHandles.AwaitAfterNext | common/xec/code/ac/xec/coro.hpp:84-191 | for every generator that starts with two yields: a root that asks it by `next()` once and then awaits the same handle takes an empty result |
| CoroObjects.Coroutine.AwaitSuspend | common/xec/code/ac/xec/coro.hpp:136-191 | the callee's promise gets its result, executor and previous links, and the generated link only from `next()`; the awaitable is empty |
| CoroObjects.Coroutine.ReturnValue | common/xec/code/ac/xec/coro.hpp:18-36 | the value goes to the linked awaitable; only a root of type void may return without one |
| CoroObjects.Coroutine.UnhandledException | common/xec/code/ac/xec/coro.hpp:78-83 | the exception goes to the linked awaitable, and is refused in a root |
| CoroObjects.Coroutine.YieldValue | common/xec/code/ac/xec/coro.hpp:85-99 | the value goes to the linked place and control to the previous coroutine, or neither |
| CoroObjects.Coroutine.Resume | common/xec/code/ac/xec/coro.hpp:145-214 | the frame continues with the value, the generated value or the exception, and with nothing if there is none yet |
| CoroObjects.Scheduler.constructor | common/xec/code/ac/xec/co_spawn.hpp:10-16 | a spawned root is a detached void coroutine with the given executor, about to run |
| CoroObjects.Scheduler.Suspend | common/xec/code/ac/xec/coro.hpp:136-142 | suspending in place is the machine's transfer to the awaited coroutine |
| CoroObjects.Scheduler.FinalSuspend | common/xec/code/ac/xec/coro.hpp:71-76 | control goes to the previous coroutine, and a root without one has ended |
| CoroObjects.Scheduler.Return | common/xec/code/ac/xec/coro.hpp:18-76 | returning in place is the machine's step |
| CoroObjects.Scheduler.Fail | common/xec/code/ac/xec/coro.hpp:71-83 | an escaping exception in place is the machine's step |
| CoroObjects.Scheduler.Yield | common/xec/code/ac/xec/coro.hpp:85-99 | yielding in place is the machine's step |
| CoroObjects.Scheduler.Step | common/xec/code/ac/xec/coro.hpp:51-214 | whatever the current coroutine is at, one step on the objects is one step of the machine |
| CoroObjects.RunDetached | common/xec/code/ac/xec/co_spawn.hpp:10-16 | running a detached body of any nesting on the objects terminates with the result of evaluating it directly |
| SmallVector.Construct | common/astl/include/astl/small_vector.hpp:583-588 | construction needs a raw slot and makes it live |
| SmallVector.SmallVec.MoveConstruct | common/astl/include/astl/small_vector.hpp:484-487 | a move needs a raw target and a live source, which is left to be destroyed; this is the only place where moves are counted |
| SmallVector.Destroy | common/astl/include/astl/small_vector.hpp:725-731 | destruction needs a constructed slot and makes it raw |
| SmallVector.SmallVec.ShiftUp | common/astl/include/astl/small_vector.hpp:768-780 | the backward loop opens a raw gap and keeps the elements in order |
| SmallVector.SmallVec.ShiftDown | common/astl/include/astl/small_vector.hpp:837-853 | the forward loop closes a gap and leaves raw slots at the end |
| SmallVectorSteps.OpeningIsLegalIff | common/astl/include/astl/small_vector.hpp:774-778 | the backward loop constructs only in raw slots if and only if the gap is not empty or at the end, and then only shifts the elements |
| SmallVectorSteps.ClosingIsLegalIff | common/astl/include/astl/small_vector.hpp:841-845 | the forward loop moves only live elements if and only if the gap is not empty or at the end, and then only shifts the elements |
| SmallVectorSteps.RelocationIsLegal | common/astl/include/astl/small_vector.hpp:784-806 | the loops that move everything around a gap are legal for every gap, the empty one included |
| SmallVectorSteps.ContractionIsLegal | common/astl/include/astl/small_vector.hpp:854-876 | the loops that move everything without a range are legal for every range, the empty one included |
| SmallVectorSteps.GrowIsLegalIff | common/astl/include/astl/small_vector.hpp:759-820 | growing at a position constructs, moves and destroys only what it may if and only if the count is at least 1, or the position is the end, or the storage changes; then it leaves exactly the gap |
| SmallVectorSteps.ShrinkIsLegalIff | common/astl/include/astl/small_vector.hpp:822-888 | the same for shrinking, which then removes exactly the range |
| SmallVectorSteps.GrownBounds | common/astl/include/astl/small_vector.hpp:966-972 | the growth loop reaches the capacity asked for, grows by at least half and stays below one and a half times of it |
| SmallVectorSteps.ChoiceFits | common/astl/include/astl/small_vector.hpp:956-998 | the chosen buffer always has room, the static one is chosen only when it has, and a reallocation is within the growth bounds |
| SmallVectorSteps.PushedState | common/astl/include/astl/small_vector.hpp:650-654 | after n insertions at the end of an empty vector: on the heap exactly beyond the static capacity, moves within a potential of the capacity |
| SmallVectorSteps.PushesAreCheap | common/astl/include/astl/small_vector.hpp:650-654 | the recurrence of repeated insertion at the end adds up to at most 4 n moves |
| SmallVector.SmallVec.constructor | common/astl/include/astl/small_vector.hpp:220-229 | an empty vector in its static buffer |
| SmallVector.SmallVec.HeapFree | common/astl/include/astl/small_vector.hpp:275-280 | a heap block is given back only while it is owned, with the capacity it was allocated with, and with nothing left in it |
| SmallVector.SmallVec.ChooseData | common/astl/include/astl/small_vector.hpp:956-998 | the branches and the growth loop make the specified choice, and allocate only when they say so |
| SmallVector.SmallVec.Reserve | common/astl/include/astl/small_vector.hpp:472-504 | the elements stay, there is room, the buffer changes only if it must, and the asserts at lines 478 and 479 hold |
| SmallVector.SmallVec.ShrinkToFit | common/astl/include/astl/small_vector.hpp:511-544 | the elements stay; a heap vector with room to spare becomes static if strictly below the static capacity, and exactly as large as its size otherwise |
| SmallVector.SmallVec.RevertToStatic | common/astl/include/astl/small_vector.hpp:549-557 | it answers true if and only if the vector was static or has at most the static capacity, and is static afterwards if and only if it was or has less |
| SmallVector.SmallVec.Clear | common/astl/include/astl/small_vector.hpp:560-581 | empty, and static if the type reverts at all |
| SmallVector.SmallVec.GrowAt | common/astl/include/astl/small_vector.hpp:759-820 | out of range changes nothing; otherwise, for every legal call, the buffer is the one chosen and what the loops on values make of it: a raw gap at the position and all elements around it |
| SmallVector.SmallVec.ShrinkAt | common/astl/include/astl/small_vector.hpp:822-888 | out of range changes nothing; otherwise, for every legal call, the elements of the range are gone as the loops on values say, the vector goes back to its static buffer exactly if it falls below the limit, and the assert at line 858 holds |
| SmallVector.SmallVec.InsertRange | common/astl/include/astl/small_vector.hpp:607-629 | refines insertion of a sequence at a position, or reports out of range |
| SmallVector.SmallVec.InsertFill | common/astl/include/astl/small_vector.hpp:597-605 | refines insertion of copies of one element |
| SmallVector.SmallVec.Insert | common/astl/include/astl/small_vector.hpp:583-595 | refines insertion of one element |
| SmallVector.SmallVec.PushBack | common/astl/include/astl/small_vector.hpp:650-660 | refines appending one element |
| SmallVector.SmallVec.Erase | common/astl/include/astl/small_vector.hpp:639-648 | refines removal of a range, or reports out of range |
| SmallVector.SmallVec.PopBack | common/astl/include/astl/small_vector.hpp:670-673 | refines removal of the last element; an empty vector is out of range |
| SmallVector.SmallVec.Resize | common/astl/include/astl/small_vector.hpp:675-690 | refines cutting off or filling up, and never goes back to the static buffer |
| SmallVector.SmallVec.Assign | common/astl/include/astl/small_vector.hpp:325-330 | the old elements are destroyed and the new ones are there, in the chosen buffer |
| SmallVector.SmallVec.AssignCopy | common/astl/include/astl/small_vector.hpp:910-929 | construction in the chosen buffer, and the old heap block is freed when it is left |
| SmallVector.SmallVec.TakeImpl | common/astl/include/astl/small_vector.hpp:733-754 | the elements change owner, with their heap block and without a move if there is one, and the source is an empty static vector |
| SmallVector.SmallVec.Move | common/astl/include/astl/small_vector.hpp:266-271 | a vector constructed by moving has the elements and the source is empty |
| SmallVector.SmallVec.MoveAssign | common/astl/include/astl/small_vector.hpp:297-317 | move assignment frees what was there first, and does nothing to itself |
| SmallVector.SmallVec.Destructor | common/astl/include/astl/small_vector.hpp:273-281 | no element is left constructed and no heap block is left owned |
| SmallVector.SmallVec.PushAll | common/astl/include/astl/small_vector.hpp:650-660 | repeated push_back builds the sequence, and the moves its loops make are those of the recurrence, at most 4 n |
| Resources.NoKeyBeforeNewSlot | local/code/ac/local/ResourceCache.hpp:40-48 | no live slot with the key comes before the one `add` writes |
| Resources.AddKeepsInv | local/code/ac/local/ResourceCache.hpp:37-52 | adding a fresh resource under a key that is not found keeps all invariants although stale slots with the key may remain |
| Resources.NextKeepsInv | local/code/ac/local/ResourceCache.hpp:31-61 | for one cache: finding, adding, find-or-create, copying, resetting and dropping locks, time passing and collecting keep that live resources are owned once and no live slot is preceded by one with its key |
| Resources.SharedNextKeepsInv | local/code/ac/local/ResourceCache.hpp:19-61 | for any number of caches made and destroyed on one manager: every step keeps the invariants of all, and that a live resource is in no cache but the one it was made for, and in that one as long as it exists |
| Resources.FindIsLookup | local/code/ac/local/ResourceCache.hpp:31-35 | looking only at the first slot with the key finds exactly the live resource stored under it |
| Resources.CacheCoherence | local/code/ac/local/ResourceCache.hpp:31-61 | in every run of any number of caches on one manager: at most one live resource per key of a cache, a live one under only one key of only one cache, and `find` returns exactly it |
| Resources.FoundIffCacheRemains | local/code/ac/local/ResourceCache.hpp:26-35 | in every run a live resource is found under some key of some cache if and only if the cache it was made for still exists, and then only there |
| Resources.UnloadedIsLost | local/code/ac/local/BackendWorkerStrand.hpp:24 | a run that makes a resource, releases it and destroys its cache leaves it alive in the manager and found by nobody |
| Resources.LiveMeansOwnedOnce | local/code/ac/local/ResourceManager.hpp:38-52 | in every run a resource is live if and only if exactly one manager slot holds it |
| ResourceHistory.LocksAreHolders | local/code/ac/local/ResourceLock.hpp:14-38 | in every run the locks on a resource are those handed out and not released, its age limit is the one it was given last, and while it is held it is live |
| ResourceHistory.FindsWhatWasMade | local/code/ac/local/ResourceCache.hpp:31-52 | in every run `find` gives a resource if and only if it is live and was made for this cache under this key |
| ResourceHistory.CollectionIsExact | local/code/ac/local/ResourceManager.hpp:20-36 | in every run a collection leaves what is held, and of the rest removes exactly what was last released at t with age limit a when t + a has passed, and all of it when forced |
| ResourceHistory.KeptForItsAge | local/code/ac/local/Resource.hpp:11-17 | a resource whose last lock is released at t after any run, and that is not locked again, is live until the first collection that is forced or made at t + a or later, where a is the age limit it was given in the run |
| ResourceHistory.NowIsClock | local/code/ac/local/ResourceManager.hpp:20-22 | the time everything is measured against is the last reading of the clock |
| ResourceObjects.ClearedAreRemoved | local/code/ac/local/ResourceManager.hpp:20-36 | the returned count is the number of resources that stop being live |
| ResourceObjects.SweptSlotIsSoleOwner | local/code/ac/local/ResourceManager.hpp:24-29 | in the middle of a sweep an occupied slot is the only one for its resource, so a use count of 1 means unlocked |
| ResourceObjects.ResourceManager.GarbageCollect | local/code/ac/local/ResourceManager.hpp:20-36 | the loop clears exactly the collectable slots and returns their number |
| ResourceObjects.ResourceManager.CollectSlot | local/code/ac/local/ResourceManager.hpp:24-33 | one slot is cleared if and only if it is the sole owner of an expired resource |
| ResourceObjects.ResourceManager.Add | local/code/ac/local/ResourceManager.hpp:42-53 | the resource goes to the first free slot, or to a new one |
| ResourceObjects.ResourceCache.Find | local/code/ac/local/ResourceCache.hpp:31-35 | locking the first slot with the key, or nothing |
| ResourceObjects.ResourceCache.Add | local/code/ac/local/ResourceCache.hpp:37-52 | the first expired slot is reused, the manager gets the resource, and it is returned locked |
| ResourceObjects.ResourceCache.FindOrCreate | local/code/ac/local/ResourceCache.hpp:54-61 | the factory's resource is used only on a miss |
| ResourceObjects.ResourceLock.Reset | local/code/ac/local/ResourceLock.hpp:30-34 | reset touches the resource and keeps holding it |
| ResourceObjects.ResourceLock.Destroy | local/code/ac/local/ResourceLock.hpp:36-38 | destruction touches the resource and then gives up the ownership |
| Serialization.WritesIffWritable | frame/code/ac/schema/SerializeVisitors.hpp:26-62 | writing succeeds if and only if every required field holds a value, at every level that is written, and the only error is a required field that is not set |
| Serialization.WriteFieldsWrites | frame/code/ac/schema/SerializeVisitors.hpp:50-62 | a name is found in the written dict exactly if its field holds a value that is not marked as the default, with that value written |
| Depiction.WrittenDepicts | frame/code/ac/schema/SerializeVisitors.hpp:26-62 | what is written is what the value has, leaf by leaf and element by element, wherever the dict has something |
| Depiction.ReadIsExact | frame/code/ac/schema/SerializeVisitors.hpp:80-118 | reading fails if and only if some visited value is not of the kind asked for or a required name is missing, with the first such problem; otherwise the result is what the dict has, a boolean read as 0 or 1, and what the dict lacks stays as it was |
| Serialization.RoundTripIff | frame/code/ac/schema/SerializeVisitors.hpp:26-118 | for every field tree, value and target: reading back what was written restores all field values if and only if the target already holds what the writer leaves out, at every level |
| Serialization.RegularRoundTrip | frame/code/ac/schema/SerializeVisitors.hpp:26-126 | if nested structs default to a new object: a value whose required fields are set, whose flagged fields hold the declared default and whose initialized fields are not emptied can be written and is restored, all-default structs written as null included |
| Serialization.DefaultStructLeaksIntoResult | frame/code/ac/schema/Field.hpp:84-89 | a concrete type and value where a nested default that sets an optional field comes back although the field was empty |
| SchemaGenerator.DescribesIff | frame/code/ac/schema/SchemaVisitor.hpp:28-73 | there is a schema if and only if every declared default, at every level, can be written; otherwise the error is a required field that is not set |
| SchemaGenerator.DefaultReadsBack | frame/code/ac/schema/SchemaVisitor.hpp:67-69 | a property has a default exactly if its field declares one, and reading it into a new value gives the declared one if and only if a new value already has what the writer leaves out |
| SchemaGenerator.UnwritableDefault | frame/code/ac/schema/SchemaVisitor.hpp:67-69 | a concrete type with a default-constructed nested struct for which the generator fails |
| SchemaAgreement.StructLacks | frame/code/ac/schema/SchemaVisitor.hpp:55-73 | the required list and the properties of a struct's schema together demand of an object what its fields demand one by one |
| SchemaAgreement.ReaderAgrees | frame/code/ac/schema/SerializeVisitors.hpp:98-118 | on matching dicts the only error is a missing field, raised exactly when some object lacks a name the schema requires of it, at every level and inside arrays |
| SchemaAgreement.Disagreement | frame/code/ac/schema/SchemaVisitor.hpp:66-72 | whenever the value read into demands other fields than a new object, there is a matching dict on which reader and schema disagree |
| SchemaAgreement.ReaderAndSchemaAgreeIff | frame/code/ac/schema/SchemaVisitor.hpp:28-73 | for every type that has a schema: reader and schema agree on all matching dicts if and only if the value read into demands the same fields as a new object, all the way down |
| SchemaAgreement.NestedDefaultDisagrees | frame/code/ac/schema/SchemaVisitor.hpp:66-72 | a concrete type that has a schema, a struct with a required field below a default that sets it, where reader and schema disagree about a new object |
| SchemaAgreement.PlainTypesAgree | frame/code/ac/schema/SerializeVisitors.hpp:120-126 | for types whose nested structs default to a new object and whose defaults can be written there is a schema, and `Struct_fromDict` agrees with it |
| SchemaNames.NamesFit | frame/code/ac/schema/SchemaVisitor.hpp:28-53 | for types without `bool` every leaf that is written has the kind the schema names there; if also every struct has a required field and flags are as declared, everything has, at every level |
| SchemaNames.SomethingIsMisnamed | frame/code/ac/schema/SchemaVisitor.hpp:29-48 | for every other type there is a value, with flags as declared, that can be written and has a leaf, or a struct written as null, of another kind than the schema names |
| SchemaNames.WrittenKindsFitIff | frame/code/ac/schema/SchemaVisitor.hpp:28-53 | for every type that has a schema: every leaf of everything that can be written has the kind named there if and only if there is no `bool` in the type, and everything has at every level if and only if besides every struct has a required field |
| SchemaVisitors.FieldObject.Declared | frame/code/ac/schema/Field.hpp:32-52 | value and flags of a field as declared: required, optional, defaulted or preset |
| SchemaVisitors.FieldObject.Assign | frame/code/ac/schema/Field.hpp:59-63 | an assigned field is written, it no longer counts as the default |
| SchemaVisitors.FieldObject.Materialize | frame/code/ac/schema/Field.hpp:84-89 | an absent value becomes a new one and the flags stay |
| SchemaVisitors.FieldObject.ReadFrom | frame/code/ac/schema/SerializeVisitors.hpp:105-118 | reading one field in place, absent names included, has the specified result or error |
| SchemaVisitors.WriteToDict | frame/code/ac/schema/SerializeVisitors.hpp:26-48 | the recursive writer with its loop over a vector computes the specified dict or error |
| SchemaVisitors.VisitToDict | frame/code/ac/schema/SerializeVisitors.hpp:50-62 | visiting the fields in order computes the specified members or the first error |
| SchemaVisitors.ReadFromDict | frame/code/ac/schema/SerializeVisitors.hpp:80-103 | the recursive reader with its loop over a vector computes the specified value or error |
| SchemaVisitors.VisitFromDict | frame/code/ac/schema/SerializeVisitors.hpp:80-118 | visiting field objects in order fills each in place as specified, and ends at the first error |
| SchemaVisitors.DescribeType | frame/code/ac/schema/SchemaVisitor.hpp:28-53 | the recursive generator computes the specified schema or the error |
| SchemaVisitors.VisitSchema | frame/code/ac/schema/SchemaVisitor.hpp:16-73 | visiting a new object writes its defaults and collects its properties and the required names in order, or ends at the first default that cannot be written |

## Left out

- Boost.Asio, operating-system condition variables, real clocks and memory orders: a strand is a FIFO of atomic tasks, time is an integer that does not go back, a timeout and a spurious wakeup are steps that may happen.
- `timer_wobj`, `timer`, `context`, `thread_runner`: thin wrappers over Asio.
- More than one outstanding operation per side of a channel.
- AsyncLogging.FlushWaitsForEarlierEntries: each flush carries a ticket used once, in place of the address of its promise.
- AsyncLoggingThread: thread and destructor are steps of a system and not methods, since they run in parallel.
- AsyncLogging: a text index is an integer without a width, so the narrowing of a start index to `int` is not modelled, and the text buffer is a plain sequence.
- Coroutines: values are integers, a generator is iterated by one loop that asks until it returns or the loop is left (CoroHandles has one handle asked in any way, without the bodies around it), and the memory of finished frames is not freed.
- StrandIo: the task that posts the callback of an operation completed at once is not modelled; the protocol records the result at the attempt.
- SmallVector.SmallVec.Assign: arguments that alias the vector, element types that throw, allocators with state, a static capacity of 0, and overflow of `size_t`.
- SmallVector.SmallVec.Resize: the overload that default-constructs new elements is the one with a default value.
- Resources: adding one shared pointer twice, factories that re-enter the cache, and assigning over a lock that is held, which does not touch.
- Serialization: floats, the width of integers, the order of names in a dict, two fields of one name, reading a vector from an object, and writing again what was read, which skips fields still marked as default.
- SchemaVisitors.WriteToDict: the dict is built up and returned, where the code fills one it is given a reference to.
- SchemaVisitors.VisitFromDict: the fields of the visited struct are objects that change in place, structs nested in them are values.
- SchemaGenerator: descriptions.
- SchemaNames.WrittenKindsFitIff: at every level it is about fields whose flags are those of their declaration; a field that was assigned another one, such as `nullopt`, has the flags of that.
- EndpointPair.Run: the strands of the endpoints run nothing but the calls and notifications of the run.
- IntegerPrint: floats and pointers.
- `atomic_cvar`, `generator.hpp`, `expected`, `flat_map`, `version`, `FileUri`, `PluginManager`, `Backend`, `AssetMgrService`, sinks and filesystem helpers: input and output, wiring, or easy members only.
