# Verification of the STOMP subscription service

A Dafny model of the World Cup subscription service: the Java server (reactor,
actor thread pool, connection handlers, STOMP broker, frame codec) and the C++
client (ids and receipts, frame parser), with proofs of what the whole is
meant to do. `dafny verify dfyconfig.toml` checks everything.

## How the model is built

**The reactor's concurrency.** The actor pool, the reading half and the writing
half of the reactor are state machines: a state datatype, a step datatype, and
`Enabled` / `Next`, with one program counter for each thread. One step is one
access to shared state, so the gap between `readLock().unlock()` and
`writeLock().lock()` in `pendingRunnablesOf`, and the gap between the second
`isEmpty()` and `updateInterestedOps(OP_READ)` in `continueWrite`, are steps of
their own. A theorem about a run speaks about every interleaving. The history fields
of a state (what was submitted, read, sent, asked) are proved equal to what the steps
of the run say, and the theorems speak of the steps.

| module | content |
|---|---|
| `ActorPool` | `ActorThreadPool` as a machine, its invariant |
| `ActorPoolTheorems` | exactly-once FIFO, mutual exclusion, no lost queue, no deadlock, bounded overtaking |
| `ActorPoolProgress` | a potential that bounds every run, so that everything submitted finishes |
| `ReadPath`, `ReadPathInvariant`, `ReadPathHistory`, `ReadPathTheorems` | selector reads, buffer pool, decoding tasks on top of the actor pool; refinement of thread-per-client, buffer ownership |
| `OutputPath` | write queues, interest ops, wakeup token; conservation and no lost wakeup |
| `BlockingHandler` | the thread-per-client read loop |

The reading half does not copy chunks into tasks: a task reads whatever its
buffer holds at that moment, so that it reads its own chunk is a theorem
(`TaskReadsItsChunk`). Runs of the reading half include tasks that throw, as on
every text that builds no frame. The refinement speaks about handlers none of
whose tasks has thrown, because after an exception the reactor drops the rest of
the chunk, while the thread-per-client handler ends its connection; what is handed
then is `FailedTasksDropTheirRest`.

**Framing and parsing.** `NulFraming` and `LengthFraming` hold the two decoders,
`Text` the string operations of both languages, `Frames` the Java and the C++
parser, `FrameRelation` how they relate, `ParsedFrames` exactly which texts each
accepts, and `ServerFrames` the way of a server frame to the client.

**The broker.** `Broker` says, as functions on the tables, what one call of
`process` does; `BrokerObjects` holds the classes whose methods and loops change
the tables in place, each proved equal to those functions; `BrokerRuns`,
`BrokerAnswers` and `BrokerSends` say for every frame text what is answered and what
changes; `BrokerTheorems`, `BrokerDisconnect`, `BrokerTopics` and `BrokerLogins` hold
the other results over all runs from the empty tables, and `BrokerWitnesses` two runs
of frame texts. `EndToEnd` follows a SEND and a CONNECT to the client. `process` is one
atomic step: the code takes no lock here. An exception is an outcome, and the tables
then are what they were when it was thrown.

**Client and broker together.** `Client` allocates ids and receipts and resolves
RECEIPT frames; `Session` joins one client to the broker by two FIFO channels of
frame texts, while all other connections send arbitrary texts at any time.

## Where the code and its documentation disagree

The model follows the code.

- Only the first SUBSCRIBE since a connection was accepted or last disconnected
  records an id to send under, so until its disconnect it can SEND to one channel
  (`FirstSubscribeDecides`, `OnlyFirstChannelCanSend`).
- A recipient's own id goes under the misspelt key `subscribtion`; the
  `subscription` it sees is the sender's (`SubscriptionIsOwnExactly` says when
  the two agree).
- No ERROR frame is ever emitted: every refusal text has a header line without a
  colon, so building the response throws before `terminate` is set
  (`RefusalThrows`, `TerminateNeverSet`). The receipt of a SEND has no blank line
  and throws as well (`SendReceiptThrows`). DISCONNECT has no receipt.
- Removal by index under a live iterator fails fast unless the entry is absent or
  in the last two positions (`RemoveWhileIterating`, `RemoveFirstExactly`), and ends
  a disconnect early. `CleanDisconnectExactly` says, from the tables before the call,
  exactly when the connection is out of every list all the same;
  `EverySubscriberHasHandler` says which runs keep a handler for every subscriber,
  and `FailFastLeavesDangling` shows one that does not.
- "User is already logged in" (README.md:331-334 of the repository) guards a login
  only once a passcode is on record (`CallerHoldsExactly`); before that two
  connections can share one (`LoginSharedWithoutPasscode`). `HeldExactly` says exactly
  how long a guarded login stays guarded. A channel closed without DISCONNECT keeps
  its login.
- `removeFromMaps` compares boxed ids by reference, which is comparison by value
  up to 127 (section 5.1.7 of the Java Language Specification).
- The length-prefixed decoder can take no empty payload (`EmptyPayloadWedges`).

## Assumptions

- A `char` of a string stands for one byte. Frame texts, headers and bodies are
  ASCII, for which UTF-8 is the identity.
- Library queues, locks, maps and the executor's FIFO are atomic, memory is
  sequentially consistent, and `act` objects stay reachable.
- Channels stay open, and a lease counts from `poll` on, so the buffers allocated
  include one about to be allocated.
- Whether two passcode references are equal is an input of `process`.
- `Enabled` contains conditions that a state needs for the step's reads to be
  defined. `InsideCanMove`, `NobodyIsStuck` and `SelectorNeverStuck` prove that
  they never hold a thread up in a reachable state, except where the source blocks
  (entering a monitor, an empty executor queue, `select`).

## Model

| member | source | states |
|---|---|---|
| ActorPool.InvStep | server/src/main/java/bgu/spl/net/srv/ActorThreadPool.java:28-76 | every step of every thread keeps the scheduler's invariant: monitors, turns, queue objects, playingNow and the order of runnables |
| ActorPool.RunsKeepInv | server/src/main/java/bgu/spl/net/srv/ActorThreadPool.java:28-76 | the invariant holds in every state of every run |
| ActorPoolTheorems.SubmittedIsEntered | server/src/main/java/bgu/spl/net/srv/ActorThreadPool.java:28-37 | what the machine records as submitted is, by the steps alone, the calls of submit in the order in which they entered their act's monitor |
| ActorPoolTheorems.SubmittedExactlyOnceInOrder | server/src/main/java/bgu/spl/net/srv/ActorThreadPool.java:28-76 | for each act the runnables of these calls are, in that order and each exactly once, the finished ones, at most one running, scheduled or handed on, the pending ones, and the one inside submit |
| ActorPoolTheorems.MutualExclusion | server/src/main/java/bgu/spl/net/srv/ActorThreadPool.java:57-76 | no two threads ever run runnables of the same act |
| ActorPoolTheorems.MonitorExclusion | server/src/main/java/bgu/spl/net/srv/ActorThreadPool.java:29-36 | no two threads are ever inside the same act's synchronized block |
| ActorPoolTheorems.QueueNeverOverwritten | server/src/main/java/bgu/spl/net/srv/ActorThreadPool.java:43-55 | the put after the lock gap never replaces an act's queue, and no two acts share one |
| ActorPoolTheorems.IdleActsAreEmpty | server/src/main/java/bgu/spl/net/srv/ActorThreadPool.java:28-37 | an act outside playingNow has nothing pending, scheduled or running; all it submitted has finished, but for one still entering submit |
| ActorPoolTheorems.InsideCanMove | server/src/main/java/bgu/spl/net/srv/ActorThreadPool.java:28-76 | a thread inside submit or complete always has its next step |
| ActorPoolTheorems.NoDeadlock | server/src/main/java/bgu/spl/net/srv/ActorThreadPool.java:57-76 | with a worker, some thread can step as long as anything submitted has not finished |
| ActorPoolTheorems.StandStill | server/src/main/java/bgu/spl/net/srv/ActorThreadPool.java:28-76 | where no thread can step, every thread is outside the pool's code and everything submitted has finished |
| ActorPoolProgress.EverythingFinishes | server/src/main/java/bgu/spl/net/srv/ActorThreadPool.java:28-76 | a run has at most 16 steps per call of submit, and where no thread can go on every call has entered and every runnable called for has finished |
| ActorPoolProgress.StepPays | server/src/main/java/bgu/spl/net/srv/ActorThreadPool.java:28-76 | every step but a new call of submit lowers the potential |
| ActorPoolTheorems.BoundedOvertaking | server/src/main/java/bgu/spl/net/srv/ActorThreadPool.java:57-76 | while a wrapper waits in the executor, every other act starts at most one runnable and its own act none |
| ActorPoolTheorems.OneWrapperPerPlayingAct | server/src/main/java/bgu/spl/net/srv/ActorThreadPool.java:28-76 | outside critical sections the scheduled and running wrappers are as many as playingNow has acts |
| ReadPathInvariant.InvStep | server/src/main/java/bgu/spl/net/srv/NonBlockingConnectionHandler.java:45-80 | every step of selector, submit, complete and tasks keeps who owns which buffer, what each buffer holds and what each handler has decoded |
| ReadPathHistory.ReadIsWhatArrived | server/src/main/java/bgu/spl/net/srv/NonBlockingConnectionHandler.java:45-60 | what a connection has read is, by the steps alone, what its channel delivered, and its tasks in order hold these very chunks |
| ReadPathHistory.ThrewExactly | server/src/main/java/bgu/spl/net/srv/NonBlockingConnectionHandler.java:57-73 | a connection has thrown exactly when a step of a task of it threw: in process, in the decoder's array, or on a text that builds no frame |
| ReadPathTheorems.ReactorRefinesThreadPerClient | server/src/main/java/bgu/spl/net/srv/NonBlockingConnectionHandler.java:45-80 | under every interleaving, while no step of a task of the connection has thrown, the frames handed to process are a prefix of the byte-by-byte decoding of the delivered chunks, and exactly it at quiescence |
| ReadPathTheorems.HandedAreTheSentFrames | server/src/main/java/bgu/spl/net/srv/Reactor.java:115-129 | when the channel delivered a prefix of the encodings of texts that build frames, in any chunks, and process throws on none, process is handed a prefix of exactly those texts, and at quiescence all that arrived |
| ReadPathTheorems.FailedTasksDropTheirRest | server/src/main/java/bgu/spl/net/srv/NonBlockingConnectionHandler.java:57-73 | whatever throws, process has been handed the decoding, less the texts that build no frame, of each delivered chunk in order, whole or up to right after the frame on which its task threw |
| ReadPathTheorems.StandStillIsQuiescent | server/src/main/java/bgu/spl/net/srv/Reactor.java:115-129 | where no work that has begun can go on, everything delivered has been decoded, and a connection whose tasks did not throw has been handed exactly its segments |
| ReadPathTheorems.NobodyIsStuck | server/src/main/java/bgu/spl/net/srv/NonBlockingConnectionHandler.java:45-80 | a running task, the selector inside continueRead and a thread inside the pool always have a next step; the selector can start on any connection |
| ReadPathTheorems.BufferInOnePlace | server/src/main/java/bgu/spl/net/srv/NonBlockingConnectionHandler.java:116-128 | every allocated buffer is in exactly one place: the pool, the selector's continueRead or one unfinished task |
| ReadPathTheorems.TasksDoNotShare | server/src/main/java/bgu/spl/net/srv/NonBlockingConnectionHandler.java:45-80 | no two unfinished tasks, of the same or of different handlers, have the same buffer |
| ReadPathTheorems.TaskReadsItsChunk | server/src/main/java/bgu/spl/net/srv/NonBlockingConnectionHandler.java:55-73 | while a task loops, its buffer holds the chunk that was read for it |
| ReadPathTheorems.AllocatedIsThePeak | server/src/main/java/bgu/spl/net/srv/NonBlockingConnectionHandler.java:116-128 | the buffers allocated are as many as were ever leased at once |
| BlockingHandler.Run | server/src/main/java/bgu/spl/net/srv/BlockingConnectionHandler.java:35-68 | hands process exactly the NUL-delimited segments of what it reads, up to the one that ends it: by the loop condition, by an exception from building a frame, from process or from the decoder's array |
| OutputPath.InvStep | server/src/main/java/bgu/spl/net/srv/NonBlockingConnectionHandler.java:94-114 | every step of producers and selector keeps the queue, the interest ops and the wakeup token in agreement |
| OutputPath.HistoriesAreTheSteps | server/src/main/java/bgu/spl/net/srv/NonBlockingConnectionHandler.java:130-134 | the messages queued are, by the steps alone, those given to send in the order of the calls, and the wire has as many bytes as the channel accepted |
| OutputPath.NothingLostOrTorn | server/src/main/java/bgu/spl/net/srv/NonBlockingConnectionHandler.java:94-114 | bytes written and bytes queued are together the messages given to send in the order of the calls, and the wire ends inside at most one of them |
| OutputPath.PeerSeesPrefix | server/src/main/java/bgu/spl/net/srv/NonBlockingConnectionHandler.java:130-134 | what the peer decodes is always a prefix of the texts whose encodings were given to send, and all of them once the queue is empty |
| OutputPath.NoLostWakeup | server/src/main/java/bgu/spl/net/srv/NonBlockingConnectionHandler.java:94-134 | when the selector blocks without a token and no producer is active, every channel with unwritten output has its write interest on |
| OutputPath.QueuedTaskHasWakeup | server/src/main/java/bgu/spl/net/srv/Reactor.java:90-100 | a task in selectorTasks always has a token, a draining selector or a producer about to wake it |
| OutputPath.SelectorNeverStuck | server/src/main/java/bgu/spl/net/srv/Reactor.java:59-77 | the selector's loop always has a next step; peek and remove never meet an empty queue |
| OutputPath.DrainedGoesQuiet | server/src/main/java/bgu/spl/net/srv/NonBlockingConnectionHandler.java:110-114 | continueWrite on a drained queue, undisturbed, turns the write interest off |
| OutputPath.PartialWriteWaits | server/src/main/java/bgu/spl/net/srv/NonBlockingConnectionHandler.java:95-101 | a partial write keeps the rest queued and the write interest as it was |
| NulFraming.MessageDecoder.constructor | server/src/main/java/bgu/spl/net/api/MessageEncoderDecoderImpl.java:10-11 | a new decoder has seen and copied nothing |
| NulFraming.MessageDecoder.DecodeNextByte | server/src/main/java/bgu/spl/net/api/MessageEncoderDecoderImpl.java:14-24 | emits exactly the NUL-delimited segments of the byte history; capacity is 1024 times a power of two; the bytes copied over its whole life stay below twice the longest segment; it fails exactly when doubling overflows |
| NulFraming.MessageDecoder.PushByte | server/src/main/java/bgu/spl/net/api/MessageEncoderDecoderImpl.java:31-37 | appends one byte, doubling a full array and copying its content |
| NulFraming.MessageDecoder.PopString | server/src/main/java/bgu/spl/net/api/MessageEncoderDecoderImpl.java:39-43 | returns the current segment and empties it |
| NulFraming.SegmentsConcat | server/src/main/java/bgu/spl/net/api/MessageEncoderDecoderImpl.java:14-24 | how the bytes are cut into chunks does not matter |
| NulFraming.DecodeChunk | server/src/main/java/bgu/spl/net/srv/NonBlockingConnectionHandler.java:59-69 | feeding a chunk byte by byte yields exactly the frames by which the segments grow |
| NulFraming.SegmentsInvertWire | server/src/main/java/bgu/spl/net/api/MessageEncoderDecoderImpl.java:14-29 | decoding any concatenation of encodings of NUL-free texts gives those texts and leaves the rest |
| NulFraming.WireInvertsSegments | server/src/main/java/bgu/spl/net/api/MessageEncoderDecoderImpl.java:14-29 | the segments re-encoded, and the rest, are the bytes: nothing is lost, and no segment holds a NUL |
| NulFraming.SegmentsGrow | server/src/main/java/bgu/spl/net/api/MessageEncoderDecoderImpl.java:14-24 | more bytes never take a segment back |
| NulFraming.PrefixOfWire | server/src/main/java/bgu/spl/net/api/MessageEncoderDecoderImpl.java:14-29 | any prefix of a wire carries a prefix of its texts |
| NulFraming.LongestIsMaximum | server/src/main/java/bgu/spl/net/api/MessageEncoderDecoderImpl.java:31-43 | the longest segment of a history bounds every segment and is one of them |
| NulFraming.GetFrameAscii | client/src/ConnectionHandler.cpp:81-101 | returns the bytes up to the first delimiter without their NULs, or fails when the input ends first |
| NulFraming.ReadAll | client/src/ConnectionHandler.cpp:81-107 | repeated calls return exactly the NUL-delimited segments |
| LengthFraming.ObjectEncoderDecoder.DecodeNextByte | server/src/main/java/bgu/spl/net/impl/rci/ObjectEncoderDecoder.java:20-39 | one byte, in any state and also after an exception, takes the two-phase state one step on with the result or the exception that the framing gives |
| LengthFraming.ObjectEncoderDecoder.SerializeObject | server/src/main/java/bgu/spl/net/impl/rci/ObjectEncoderDecoder.java:56-77 | patches the big-endian payload length over the placeholder |
| LengthFraming.BigEndian | server/src/main/java/bgu/spl/net/impl/rci/ObjectEncoderDecoder.java:70-71 | the length prefix has the most significant byte first |
| LengthFraming.DecodeConcat | server/src/main/java/bgu/spl/net/impl/rci/ObjectEncoderDecoder.java:20-39 | chunk boundaries do not matter |
| LengthFraming.DecodeInvertsWire | server/src/main/java/bgu/spl/net/impl/rci/ObjectEncoderDecoder.java:15-77 | any sequence of non-empty payloads comes back in order and the decoder ends in its initial phase |
| LengthFraming.EmptyPayloadWedges | server/src/main/java/bgu/spl/net/impl/rci/ObjectEncoderDecoder.java:21-36 | an empty payload never comes out, and the next byte throws |
| LengthFraming.RoundTripExactly | server/src/main/java/bgu/spl/net/impl/rci/ObjectEncoderDecoder.java:20-77 | one encoded payload decodes to itself exactly when it is not empty |
| Text.SplitLoop | client/src/StompProtocol.cpp:514-526 | the getline loop yields the fields between delimiters, less one trailing empty field |
| Text.ParseIntInvertsDecimal | server/src/main/java/bgu/spl/net/api/StompMessagingProtocolimpl.java:352-353 | reading a printed number gives it back exactly when it is an int |
| Text.ParseIntReads | server/src/main/java/bgu/spl/net/api/StompMessagingProtocolimpl.java:352-353 | a number with an optional sign and zeros in front is read as itself exactly when it is an int |
| Text.ParseIntOnly | server/src/main/java/bgu/spl/net/api/StompMessagingProtocolimpl.java:352-353 | nothing else is read as a number |
| Frames.JavaFrame.MapMsgToFrame | server/src/main/java/bgu/spl/net/api/Frame.java:14-32 | fills the map, or throws, exactly as the parse function says |
| Frames.JavaFrame.GetNextLine | server/src/main/java/bgu/spl/net/api/Frame.java:66-77 | cuts the text after its first newline and throws exactly when it has none |
| Frames.JavaFrame.MapCommand | server/src/main/java/bgu/spl/net/api/Frame.java:34-41 | puts the first line under StompCommand |
| Frames.JavaFrame.MapHeaders | server/src/main/java/bgu/spl/net/api/Frame.java:42-58 | puts the header lines up to the blank line, later ones over earlier ones |
| Frames.JavaFrame.MapBody | server/src/main/java/bgu/spl/net/api/Frame.java:60-62 | puts the rest under FrameBody |
| Frames.CppFrame.Build | client/src/Frame.cpp:10-19 | fills the map, or fails with the fault, that the parse function names |
| Frames.CppFrame.GetNextLine | client/src/Frame.cpp:55-77 | an empty text yields an empty line; otherwise cuts at the newline or throws |
| Frames.CppFrame.MapStompCommand | client/src/Frame.cpp:25-32 | inserts the first line under StompCommand |
| Frames.CppFrame.MapHeaders | client/src/Frame.cpp:33-47 | inserts the header lines up to a blank line or the end, the first of equal keys staying |
| Frames.CppFrame.MapBody | client/src/Frame.cpp:48-53 | inserts the rest under FrameBody |
| FrameRelation.JavaReadsFrame | server/src/main/java/bgu/spl/net/api/Frame.java:24-77 | parsing a rendered frame gives its command, its headers put in order, and its body |
| FrameRelation.CppReadsFrame | client/src/Frame.cpp:10-77 | the same on the client, also without the blank line, an empty body leaving no entry |
| FrameRelation.JavaNeedsBlankLine | server/src/main/java/bgu/spl/net/api/Frame.java:42-77 | header lines without a blank line always throw on the server |
| ParsedFrames.FieldsExactly | server/src/main/java/bgu/spl/net/api/Frame.java:49 | the fields of a line are the only colon-free strings that joined by colons give it |
| ParsedFrames.JavaHeaderFields | server/src/main/java/bgu/spl/net/api/Frame.java:49-51 | the server takes the first two fields of a header line, however many there are, if one after the first is not empty, and throws otherwise |
| ParsedFrames.CppHeaderFields | client/src/Frame.cpp:37-39 | the client takes the first two, unless the line is a key alone or a key and its colon |
| ParsedFrames.JavaParsesExactly | server/src/main/java/bgu/spl/net/api/Frame.java:24-77 | the server accepts exactly the texts of a command line, good header lines, a blank line and a body, and reads just those; every other text throws |
| ParsedFrames.CppParsesExactly | client/src/Frame.cpp:10-77 | the client accepts exactly the empty text and those texts with or without the blank line and a body, and reads just those |
| FrameRelation.JavaHeaderExactly | server/src/main/java/bgu/spl/net/api/Frame.java:49-51 | the server's split gives back a header exactly when key and value have no colon and the value is not empty |
| FrameRelation.CppHeaderExactly | client/src/Frame.cpp:37-39 | and the client's split under the same condition |
| FrameRelation.ParsersMirror | server/src/main/java/bgu/spl/net/api/Frame.java:42-77 | for every well-formed header list the server's parse is the client's parse of the reversed list |
| FrameRelation.HeaderOrderIrrelevant | README.md:37-45 | with distinct keys any permutation of the headers gives the same map on either side, and the two agree |
| ServerFrames.ToStringLayout | server/src/main/java/bgu/spl/net/api/Frame.java:80-136 | toString prints the STOMP layout of the printed headers, with one newline after a MESSAGE body |
| ServerFrames.FrameReachesClient | client/src/StompProtocol.cpp:142-155 | toString, dropping the last character and the client's parse recover the command, every printed header and the exact body |
| ServerFrames.ClientReadsMessage | server/src/main/java/bgu/spl/net/api/Frame.java:91-102 | the client of a MESSAGE has the values of the server's map under subscription, message-id, destination and receipt-id, null for a missing one, and the server's body |
| ServerFrames.ClientReadsConnected | server/src/main/java/bgu/spl/net/api/Frame.java:84-89 | the client of a CONNECTED frame has its version |
| ServerFrames.ClientReadsReceipt | server/src/main/java/bgu/spl/net/api/Frame.java:104-109 | the client of a RECEIPT has its receipt-id |
| ServerFrames.ClientSees | client/src/Frame.cpp:10-77 | the client finds each printed value under its key |
| ServerFrames.TextNulFree | server/src/main/java/bgu/spl/net/api/Frame.java:80-136 | a printed frame has no NUL, so its encoding is one segment |
| ServerFrames.StreamReachesClient | client/src/ConnectionHandler.cpp:81-101 | from any prefix of a stream of server frames the client parses exactly the first of them, in order |
| BrokerObjects.RemoveWhileIterating | server/src/main/java/bgu/spl/net/api/StompMessagingProtocolimpl.java:357-367 | removal by index under the live iterator deletes exactly the first occurrence, and fails fast exactly when that was before the last two positions |
| BrokerObjects.Connections.constructor | server/src/main/java/bgu/spl/net/srv/connectionsImpl.java:32-46 | the tables start empty |
| BrokerObjects.Connections.SendToChannel | server/src/main/java/bgu/spl/net/srv/connectionsImpl.java:72-81 | sends to the subscribers in list order up to the first exception |
| BrokerObjects.Connections.RemoveFromLists | server/src/main/java/bgu/spl/net/srv/connectionsImpl.java:133-146 | one removal pass per recorded channel, up to the first exception |
| BrokerObjects.Connections.RemoveFromMaps | server/src/main/java/bgu/spl/net/srv/connectionsImpl.java:119-150 | clears the connection's entries; an exception leaves its channel record |
| BrokerObjects.StompProtocol.CheckValid | server/src/main/java/bgu/spl/net/api/StompMessagingProtocolimpl.java:447-561 | the scan of the lists gives the refusal code, 0 or an exception |
| BrokerObjects.StompProtocol.Answer | server/src/main/java/bgu/spl/net/api/StompMessagingProtocolimpl.java:56-62 | builds the response with the real parser and sets terminate only when that does not throw |
| BrokerObjects.StompProtocol.Process | server/src/main/java/bgu/spl/net/api/StompMessagingProtocolimpl.java:32-415 | dispatches on the command after the checks; the tables, the outcome and terminate are those the broker functions give |
| BrokerObjects.StompProtocol.Send | server/src/main/java/bgu/spl/net/api/StompMessagingProtocolimpl.java:162-195 | builds the MESSAGE and sends it to the channel's list |
| BrokerObjects.StompProtocol.Unsubscribe | server/src/main/java/bgu/spl/net/api/StompMessagingProtocolimpl.java:351-380 | removes the first entry and answers the receipt, or fails fast |
| BrokerRuns.KeepProcess | server/src/main/java/bgu/spl/net/api/StompMessagingProtocolimpl.java:32-415 | every call of process, whatever it is asked and however it ends, keeps the redundant tables in agreement |
| BrokerRuns.RunsKeepInv | server/src/main/java/bgu/spl/net/srv/connectionsImpl.java:15-30 | the tables agree in every state of every run |
| BrokerRuns.PassesCount | server/src/main/java/bgu/spl/net/srv/connectionsImpl.java:133-146 | the removal passes take from each list one entry per recorded channel, of this connection only |
| BrokerRuns.PassesCompleteExactly | server/src/main/java/bgu/spl/net/srv/connectionsImpl.java:133-146 | the removal passes complete exactly when, in every recorded channel's list before the call, the connection is absent or first in the last two positions; a channel may be recorded twice |
| BrokerRuns.PassesLeave | server/src/main/java/bgu/spl/net/srv/connectionsImpl.java:133-146 | whether they complete or fail fast, the passes delete one entry per recording of a channel up to and including the first whose list does not complete |
| BrokerTheorems.ListedAtMostRecorded | server/src/main/java/bgu/spl/net/srv/connectionsImpl.java:104-150 | in every run a connection with an id up to 127 is listed under a channel at most as often as that channel is recorded for it |
| BrokerDisconnect.CleanDisconnectExactly | server/src/main/java/bgu/spl/net/srv/connectionsImpl.java:83-150 | a disconnect takes the connection out of every list exactly when, before it, no list names it more often than the channel is recorded up to the first pass that fails fast (none for an id above 127 or without a subscription); its record goes exactly when every pass completes, its handler always, and nobody else is removed |
| BrokerDisconnect.StepStaysConnected | server/src/main/java/bgu/spl/net/api/StompMessagingProtocolimpl.java:32-415 | one event keeps a handler for every subscriber exactly when it is no SUBSCRIBE without a handler and no disconnect that stays in a list |
| BrokerDisconnect.EverySubscriberHasHandler | server/src/main/java/bgu/spl/net/srv/connectionsImpl.java:83-150 | every listed subscriber has a handler in all states of a run up to any point exactly when every event before it is of that kind |
| BrokerWitnesses.FailFastLeavesDangling | server/src/main/java/bgu/spl/net/srv/connectionsImpl.java:133-146 | a run of frame texts, for any two channel names, in which the first of three subscribers disconnects and stays listed without a handler |
| BrokerAnswers.RemoveFirstExactly | server/src/main/java/bgu/spl/net/api/StompMessagingProtocolimpl.java:357-367 | the removal takes out the first entry, leaves the others in their order, and completes exactly when at most one entry follows |
| BrokerAnswers.UnsubscribeExactly | server/src/main/java/bgu/spl/net/api/StompMessagingProtocolimpl.java:311-380 | in every run an UNSUBSCRIBE text whose id the server knows takes out the connection's first entry under that channel, the others staying in order, and is answered by its receipt unless two entries follow; any other throws and changes nothing |
| BrokerAnswers.SubscribeExactly | server/src/main/java/bgu/spl/net/api/StompMessagingProtocolimpl.java:197-309 | a SUBSCRIBE text with destination and int id enters the connection in the four tables and is answered by its receipt; any other throws and changes nothing |
| BrokerAnswers.DisconnectExactly | server/src/main/java/bgu/spl/net/api/StompMessagingProtocolimpl.java:390-415 | in every run a DISCONNECT text with a receipt, from a connection with a handler and a subscription, answers nothing exactly when no removal fails fast; every other throws |
| BrokerAnswers.OtherTextsExactly | server/src/main/java/bgu/spl/net/api/StompMessagingProtocolimpl.java:32-39 | a text that is no frame throws, a frame of another command is ignored |
| BrokerAnswers.NewConnectionIsNew | server/src/main/java/bgu/spl/net/srv/connectionsImpl.java:97-102 | the n-th connection accepted gets number n, which nobody had and which no list names |
| BrokerSends.SendExactly | server/src/main/java/bgu/spl/net/api/StompMessagingProtocolimpl.java:124-195 | in every run a SEND text of a connection listed under the destination with an id for it sends one MESSAGE, in list order, to each subscriber before the first without id or handler, and is answered accordingly; any other throws and changes nothing |
| BrokerSends.SendReachesAllExactly | server/src/main/java/bgu/spl/net/srv/connectionsImpl.java:49-81 | a SEND text reaches every list entry if and only if its sender is listed with an id for the destination, and every subscriber has an id and a handler |
| EndToEnd.SendReachesClients | server/src/main/java/bgu/spl/net/api/Frame.java:91-102 | then the client of each list entry reads a MESSAGE with the destination and body of the SEND text, the sender's id and consecutive numbers, exactly when the destination is not empty |
| BrokerTheorems.MessageNumbersIncrease | server/src/main/java/bgu/spl/net/srv/connectionsImpl.java:52-62 | delivered message numbers strictly increase over the whole run |
| EndToEnd.SubscriptionIsOwnExactly | server/src/main/java/bgu/spl/net/srv/connectionsImpl.java:53-58 | the subscription it reads is the recipient's own id exactly when sender and recipient chose the same |
| BrokerTopics.KnownSinceSubscribe | server/src/main/java/bgu/spl/net/api/StompMessagingProtocolimpl.java:262-289 | the server knows ids of a connection exactly when it has subscribed and not disconnected since |
| BrokerTopics.FirstSubscribeDecides | server/src/main/java/bgu/spl/net/api/StompMessagingProtocolimpl.java:275-289 | the first SUBSCRIBE since the connection was accepted or last disconnected fixes the one channel and id it can send under, until its disconnect |
| BrokerTopics.OnlyFirstChannelCanSend | server/src/main/java/bgu/spl/net/api/StompMessagingProtocolimpl.java:162-178 | for that time a SEND text to any other channel throws, and changes and delivers nothing |
| BrokerLogins.ConnectAnsweredExactly | server/src/main/java/bgu/spl/net/api/StompMessagingProtocolimpl.java:40-121 | a CONNECT is answered, with CONNECTED and version 1.2, exactly when nobody holds its login and the passcode on record, if any, is the same object; otherwise it throws and changes nothing |
| EndToEnd.ConnectReachesClient | server/src/main/java/bgu/spl/net/api/StompMessagingProtocolimpl.java:96-112 | the client of an answered CONNECT reads CONNECTED with version 1.2 |
| BrokerLogins.PasscodeIsFirst | server/src/main/java/bgu/spl/net/api/StompMessagingProtocolimpl.java:104-107 | in every run the passcode on record for a login is that of the first answered CONNECT that gave one |
| BrokerLogins.CallerHoldsExactly | server/src/main/java/bgu/spl/net/api/StompMessagingProtocolimpl.java:87-119 | the answered caller holds its login exactly when a passcode is on record or in the frame |
| BrokerLogins.FreedExactly | server/src/main/java/bgu/spl/net/api/StompMessagingProtocolimpl.java:32-415 | a held login is freed by exactly one kind of event: an accepted DISCONNECT of its holder, or of a connection that has the login on record |
| BrokerLogins.HeldExactly | server/src/main/java/bgu/spl/net/srv/connectionsImpl.java:119-129 | over every run a login is held from one state through another exactly when no such event lies between them |
| BrokerLogins.RefusedUntilFreed | server/src/main/java/bgu/spl/net/api/StompMessagingProtocolimpl.java:453-470 | in every run, from an answered CONNECT with a passcode until such an event, every CONNECT with the same login is refused and changes nothing |
| BrokerLogins.LoginHeldByOne | server/src/main/java/bgu/spl/net/api/StompMessagingProtocolimpl.java:453-470 | if every CONNECT of one login has a passcode, whatever those of other logins have, only the holder's own DISCONNECT ends the refusals |
| BrokerWitnesses.LoginSharedWithoutPasscode | server/src/main/java/bgu/spl/net/api/StompMessagingProtocolimpl.java:87-119 | a run of frame texts, for any user, in which two connections are answered CONNECTED for one login and nobody disconnects |
| BrokerTheorems.RefusalThrows | server/src/main/java/bgu/spl/net/api/StompMessagingProtocolimpl.java:47-86 | building the response to any refused frame throws |
| BrokerTheorems.SendReceiptThrows | server/src/main/java/bgu/spl/net/api/StompMessagingProtocolimpl.java:180-186 | so does the receipt of every SEND |
| BrokerTheorems.TerminateNeverSet | server/src/main/java/bgu/spl/net/api/StompMessagingProtocolimpl.java:32-415 | no frame whatever makes the protocol set terminate |
| Client.StompClient.HandleSubscribe | client/src/StompProtocol.cpp:338-362 | a known name keeps its id, a new one gets the next; the request is remembered under its receipt number |
| Client.StompClient.HandleUnSubscribe | client/src/StompProtocol.cpp:367-378 | names the id of the joined channel and remembers the request |
| Client.StompClient.RememberRequest | client/src/StompProtocol.cpp:355-358 | insert keeps an existing entry |
| Client.ServerReadsSubscribe | server/src/main/java/bgu/spl/net/api/Frame.java:24-77 | the server parses the client's SUBSCRIBE text into the headers the client meant |
| Client.ServerReadsUnsubscribe | server/src/main/java/bgu/spl/net/api/Frame.java:24-77 | and its UNSUBSCRIBE text |
| Client.TagSplits | client/src/StompProtocol.cpp:294-306 | a remembered request splits back into its kind and channel |
| Session.KeepStep | client/src/StompProtocol.cpp:287-378 | every step of user, server, client reader and other connections keeps client, channels and tables in agreement |
| Session.ServeStep | server/src/main/java/bgu/spl/net/api/StompMessagingProtocolimpl.java:255-380 | every request in flight is served as the user meant it |
| Session.OthersKeepTopics | server/src/main/java/bgu/spl/net/srv/connectionsImpl.java:119-124 | nothing another connection sends changes this connection's ids |
| Session.HistoriesAreTheSteps | client/src/StompProtocol.cpp:338-378 | the requests are the user's commands in order, and server and client have processed as many frames as they took steps |
| Session.IdsInjective | client/src/StompProtocol.cpp:343-351 | two channels never have the same id |
| Session.ExitLeavesNamedChannel | client/src/StompProtocol.cpp:367-378 | whatever is in flight, the UNSUBSCRIBE of an exit command takes the connection's first entry out of the list of exactly the channel the user named, the others staying in order |
| Session.JoinEntersNamedChannel | server/src/main/java/bgu/spl/net/api/StompMessagingProtocolimpl.java:255-300 | a join's SUBSCRIBE appends the connection to the named list, answers, and binds the id to that channel for the rest of the run |
| Session.ReceiveStep | client/src/StompProtocol.cpp:287-312 | the client takes a RECEIPT for the request it answers, and nothing else for a RECEIPT |
| Session.ReceiptsCorrelate | client/src/StompProtocol.cpp:287-312 | each accepted command gets one RECEIPT with its number, in the order of the commands, and the client resolves each to the kind and channel of the command that allocated the number |

## Left out

- `ActorThreadPool`, `NonBlockingConnectionHandler` and `Reactor` are step relations over values, not classes: Dafny methods run alone, and these files are about interleaving.
- Sockets, the selector's key sets, accepting, closing, EOF and IOException paths: channels stay open. A failed read only gives its buffer back. `continueWrite`'s loop after an IOException is not modelled.
- Executor shutdown, `WeakHashMap` expiry and the JVM memory model.
- That a runnable itself terminates: in `ActorPoolProgress` the body of a runnable counts as one step.
- ActorPoolProgress.EverythingFinishes: bounds the steps of a run; that the scheduler of the machine gives an enabled thread its turn is an assumption.
- ReadPathTheorems.StandStillIsQuiescent: the number of steps of the reading half is not bounded; a task has one step per byte of its chunk.
- Session.ExitLeavesNamedChannel: frame texts arrive whole and one by one; when an UNSUBSCRIBE fails fast, frames that the reactor would drop with the rest of its chunk are not.
- Session.KeepStep: a MESSAGE for the client may arrive at any time with any content, whether or not some SEND caused it; the client's id and receipt counters stay in the int range.
- Exit of a name that was never joined (`operator[]` would insert id 0): joined names are a precondition of the exit command, as for `Client.StompClient.HandleUnSubscribe`.
- BrokerObjects.StompProtocol.CheckValid: takes the outcome of the passcode reference comparison as an input.
- ReadPathTheorems.ReactorRefinesThreadPerClient: for a handler one of whose tasks has thrown the reactor and the thread-per-client server differ; `ReadPathTheorems.FailedTasksDropTheirRest` states what the reactor does.
- The overflow of the server's connection and message counters. The decoder's overflow at 2^30 bytes is modelled.
- The content of serialized objects in `ObjectEncoderDecoder`: payload bytes are taken as given, and deserializing them does not throw.
- UTF-8 beyond ASCII, and the partial-transfer loops of the client's `sendBytes` and `getBytes`.
- DISCONNECT and CONNECT on the client side, `handleLogout`, `handleSend`, the game summary, event parsing and console code.
- What toString prints for an ERROR frame: none is ever built.
- STOMP 1.2 features the code does not have: content-length, header escaping, heart-beating, transactions.
- Echo, NewsFeed, RCI client and the line codec: wiring, or easier twins of what is covered.
