# librpc in Dafny

A model of the parts of librpc where most of its state and branching is, with proofs about all inputs,
all runs and all reachable states.

- **The MessagePack codec** (`Bytes`, `Format`, `FormatTable`, `Grammar`, `NodeTree`, `ParseStep`,
  `ParserState`, `ParserProof`, `TreeParser`, `Reader`, `Decoders`, `Writer`, `Track`, `ValueWriter`, `Utf8`,
  `Utf8Forms`). `Grammar` is a recursive decoder of the MessagePack specification, section "Formats". The
  stack-driven tree parser, the refilling reader and the tracked writer are held to it. Floats are bit
  patterns.
- **The streaming call protocol** (`ServerCall`, `ClientCall`, `StreamProtocol`, `StreamResults`,
  `StreamWaiting`, `StreamFlow`, `StreamReports`, `ProducerWakeup`, `CallTimeout`). Both sides of a call are
  classes whose methods run under the lock of the call and are proved against functions of their state. The
  protocol, the waiting of producers and the race with the timer are step relations over those functions,
  with inductive invariants over all runs.
- **Connections and servers** (`Connection`, `ConnectionOpen`, `ServerLife`, `ServerSettles`). Flag bits,
  reference counts and call tables, with every interleaving of accepting, peer disconnects, closing a
  connection and closing the server, one locked section or unlocked access at a time.
- **The object query engine** (`Objects`, `ObjectHash`, `ObjectMeaning`, `Query`, `Paths`, `PathText`,
  `QuerySet`, `QueryStore`, `QueryMade`, `QueryTree`, `QueryDepth`). Deep equality, hash
  and copy; the rules and the iterator; setting and getting by path over objects in memory that containers
  may share.

Functions that specify a method are themselves tied to a statement that does not name them: bytes of the wire
(`FormatTable`), decimal numbers and dots (`PathText`), maps (`ObjectMeaning`), the ranges of RFC 3629
(`Utf8Forms`), sequences of objects written (`ValueWriter`), what a set made (`QueryMade`), what a client is
told and grants (`StreamReports`), and what stays open (`ConnectionOpen`).

Where the code does less than it may seem to promise, the model follows the code, a lemma gives an input or
a run that shows it, and the condition under which the promise holds is proved:

- a copy is equal exactly if no string in it has a zero byte (`CopyEqual`);
- the error of a killed call needs no credit, so frames can exceed the prefetch by one (`KilledRun`), exactly
  as `ServeExceeds` says, while data never do (`FlowIsBounded`);
- the server does not look at the outcome of its sends, so that a lost fragment can make both sides wait
  (`LostFragmentDeadlocks`) or leave a gap (`LostFragmentLeavesGap`), exactly as `NoDeadlock`,
  `StreamIsFaithful`, `PrefixExactly` and `Drain` say;
- a timeout, a failed grant, a close or a free at the client leaves the server waiting (`EachSilences`), nothing
  else does (`OnlyTheseSilence`), and `WaitsExactly` says when it waits for ever;
- a wake-up can be lost with two producers on one call (`WakeupLost`), but not with one (`NoLostWakeup`);
- a call registered after the sweep of `rpc_close` is not told by it (`LateCallIsNotTold`), all others are
  (`ClosedCallsReport`); the late call then sends its frame, and `rpc_connection_call` frees it and returns
  nothing if that fails, which is not part of the model;
- a user that closes without a reference of its own may retain a freed connection (`RetainAfterFree`,
  `CarelessFails`), one with such a reference never (`StepAsserted`, `ServerIsFreedOnce`);
- a refused connection is never freed (`RefusedIsNeverFreed`), an accepted one is (`EverythingIsFreed`);
- `rpc_query_set` breaks its promise with a cycle, sharing or an empty token (`Cycle`, `SharedContainer`,
  `EmptyToken`), exactly as `GetAfterSetExactly`, `OtherPathsExactly` and `GotExactlyWithoutEmptyTokens` say.

Assumed of the surroundings: allocation succeeds, except that shrinking to nothing fails as
`mpack_realloc` has it; a fill function returns a prefix of its source of at most the requested size; the
prefetch is at least one; `rpc_call_continue` is called with an item at the head; call ids are unique; the
timer of a call runs at most once; a transport's abort returns only after `rpc_close` has begun; a user
closes a connection at most once, and one that is valid when the close begins; an error reply is not a
timeout.

## Model

| member | source | states |
|---|---|---|
| `Bytes.LoadStore` | contrib/mpack/mpack.h:1095-1193 | A number stored big-endian in a field of any width is loaded back. |
| `Bytes.FirstByteIsHighest` | contrib/mpack/mpack.h:1095-1138 | A load takes the first byte as the most significant: it is that byte times 256 to the number of bytes after it, plus the load of these. |
| `Bytes.StoredHighestFirst` | contrib/mpack/mpack.h:1140-1184 | A store puts the highest byte first: it is the quotient by 256 to the remaining width, and the rest stores the remainder. |
| `Bytes.SignedIsCongruent` | contrib/mpack/mpack.h:1186-1193 | The signed reading is the one number of that many bits with a sign that is congruent to the unsigned one. |
| `Format.TagCmpLaws` | contrib/mpack/mpack.c:286-360 | On every host, whatever its byte order and its memcmp, the tag comparison is zero exactly on tags with one canonical form (a non-negative signed integer equals the unsigned one), and exchanging its arguments turns its sign. |
| `FormatTable.TagCmpOrders` | contrib/mpack/mpack.c:286-360 | Within one type the comparison is negative exactly on the smaller number, the shorter length, the smaller ext type before its length, and false before true. |
| `FormatTable.TypesOrdered` | contrib/mpack/mpack.h:876-888 | Tags of different types compare in the order nil, bool, float, double, int, uint, str, bin, ext, array, map, whatever they hold. |
| `FormatTable.FloatsCompare` | contrib/mpack/mpack.c:343-353 | With a memcmp that goes by the first byte that differs, floats and doubles compare as their bit patterns where memory has the highest byte first, and by their bytes from the other end where it has the lowest first. |
| `Format.NonNegative` | contrib/mpack/mpack.c:1347-1459 | The signed and the unsigned writer emit the same bytes for a value both can hold. |
| `Format.TagRoundTrip` | contrib/mpack/mpack.c:1042-1553 | Every header written, whatever follows it, is parsed back to the canonical form of its tag, and the parser takes exactly the bytes written. |
| `Format.TagShortest` | contrib/mpack/mpack.c:1095-1553 | No byte string shorter than what the writer emits parses to a tag that compares equal, on any host. |
| `FormatTable.OneByteForms` | contrib/mpack/mpack.c:2275-2339 | The headers of one byte, by ranges of that byte: small numbers of either sign, nil, the truth values, short str, array and map; 0xc1 announces nothing. |
| `FormatTable.NumberForms` | contrib/mpack/mpack.c:2392-2470 | The code of a number is its base plus k for 2^k bytes, which follow highest first; so for float and double. |
| `FormatTable.TwoBytes` | contrib/mpack/mpack.h:1099-1108 | In particular the bytes 0xcd a b are the number 256 a + b. |
| `FormatTable.LengthForms` | contrib/mpack/mpack.c:2517-2572 | The same for the lengths of str, bin, array and map; the latter two have no length of one byte. |
| `FormatTable.ExtForms` | contrib/mpack/mpack.c:2365-2515 | The same for ext, and the code plus k for 2^k payload bytes; the type byte comes last. |
| `FormatTable.MapDocument` | contrib/mpack/mpack.c:2651-2690 | A map header is followed by twice as many objects as it says, keys and values alternating. |
| `FormatTable.ArrayDocument` | contrib/mpack/mpack.c:2651-2690 | An array header is followed by as many objects as it says. |
| `FormatTable.StrDocument` | contrib/mpack/mpack.c:2651-2690 | A str header is followed by as many bytes as it says. |
| `Grammar.DecodeByHeader` | contrib/mpack/mpack.c:2651-2690 | Decoding an object is reading its header, skipping its payload bytes and decoding its payload objects; it fails exactly when one of these does. |
| `ParserState.GrowLaw` | contrib/mpack/mpack.c:3729-3814 | Only a fixed pool runs out. Otherwise the nodes given to a container are new to the tree, memory grows by unused nodes only, and pages given up early are at least seven eighths full. |
| `ParserProof.AdvanceValid` | contrib/mpack/mpack.c:3581-3604 | Each step keeps the accounting: bytes consumed, bytes free and bytes set aside for open levels add up to the input length; reserved nodes never exceed input bytes; pending nodes are distinct and reserved. |
| `ParserProof.AdvanceTracks` | contrib/mpack/mpack.c:4162-4189 | Each step keeps the link to the grammar: the whole input decodes exactly if what is left decodes to as many objects as the stack has pending, with sizes adding up, and the nodes written so far are the decoded value with the pending nodes as holes. |
| `ParserProof.AdvanceFails` | contrib/mpack/mpack.c:3729-3833 | A step that fails (truncated, reserved byte, more children than bytes, pool exhausted) fails on an input the grammar does not accept, or one whose value has more nodes than the pool. |
| `ParserProof.AdvanceMoves` | contrib/mpack/mpack.c:4162-4189 | Each step consumes input, so the loop ends. |
| `ParserProof.AdvanceChildren` | contrib/mpack/mpack.c:3729-3814 | Each step keeps the child ranges of any two containers in the tree disjoint. |
| `TreeParser.Parser.Allocate` | contrib/mpack/mpack.c:3729-3814 | Node allocation from the pool, a new page or a page of its own, as the pure specification has it. |
| `TreeParser.Parser.PushStack` | contrib/mpack/mpack.c:3683-3727 | The level stack grows by doubling and receives the new level, unless it is empty. |
| `TreeParser.Parser.ParseNode` | contrib/mpack/mpack.c:3827-4160 | One node: the whole state after it is the specified step, for each of the 256 type bytes and each truncation. |
| `TreeParser.Parser.ParseElements` | contrib/mpack/mpack.c:4162-4189 | The loop ends; without an error every level is used up and the tree is complete, with an error the input is not acceptable. |
| `TreeParser.Parser.ParseTree` | contrib/mpack/mpack.c:4191-4254 | From a message that is not empty and memory for its first node: what the constructor promises holds at the end. |
| `TreeParser.Parser.constructor` | contrib/mpack/mpack.c:4191-4313 | The parser ends without error exactly if the recursive decoder accepts a prefix (and its value fits a fixed pool); the size is that prefix's length; the node tree holds the decoded value, the child ranges of any two containers are disjoint; it has as many nodes as the value and no more than input bytes; with pages, 7 * slots <= 8 * length + 7 * nodes per page. |
| `Reader.Reader.InMemory` | contrib/mpack/mpack.c:1664-1684 | A reader over a message, without a fill function. |
| `Reader.Reader.Streaming` | contrib/mpack/mpack.c:1640-1662 | A reader over the bytes already in its buffer and a stream, for any buffer size from the minimum on and any fill function that returns a prefix. |
| `Reader.Reader.PartialFill` | contrib/mpack/mpack.c:1843-1847 | A refill moves what is left to the front and changes nothing of what remains to be delivered. |
| `Reader.Reader.Ensure` | contrib/mpack/mpack.h:3065-3078 | Ensuring bytes changes nothing of what remains; it fails only by an early return of the fill function or at the end. |
| `Reader.Reader.ReadNative` | contrib/mpack/mpack.h:3080-3091 | What was delivered followed by what remains is what remained before, wherever the refills fall; bytes outside the destination are untouched; on an error what was not delivered is zero. |
| `Reader.Reader.ReadNativeBig` | contrib/mpack/mpack.c:1887-1969 | The same for a read over the end of the buffer: the rest of the buffer, whole buffers directly into the destination, and the remainder; on an error all is zero but for what the buffer had and whole buffers read. |
| `Reader.Reader.SkipUsingFill` | contrib/mpack/mpack.c:2016-2042 | Skipping by refills passes exactly `count` bytes. |
| `Reader.Reader.SkipBytes` | contrib/mpack/mpack.c:1971-2014 | Skipping passes exactly `count` bytes of what remains, or flags the error of the reader's kind; with a prompt source only if there are fewer. |
| `Reader.Reader.ReadInPlace` | contrib/mpack/mpack.c:2147-2195 | The bytes returned in the buffer followed by what remains are what remained before; too big exactly if they do not fit the buffer. |
| `Reader.Reader.ParseTag` | contrib/mpack/mpack.c:2216-2587 | The tag and size are those of the header of what remains, which is not passed; a failure means there is none, unless the source returned early. |
| `Reader.Reader.ReadTag` | contrib/mpack/mpack.c:2589-2633 | The same, and exactly the header is passed. |
| `Reader.Reader.Discard` | contrib/mpack/mpack.c:2651-2690 | Success means an object decodes from what remains, and exactly its bytes are passed; failure means none decodes, unless the source returned early. |
| `Reader.Session` | contrib/mpack/mpack.c:1831-2195 | Buffering is invisible over whole sessions: for any mixture of reads, in-place reads, skips and tags, any buffer size and any refills, the responses and what remains are those of the plain byte string; a prompt source fails only where the byte string does, or, with the too-big error, on an in-place read larger than the buffer. |
| `Decoders.ParseAndDiscard` | contrib/mpack/mpack.c:2651-2690 | On every message the tree parser and the tag reader's discard both succeed or both fail, and take the same number of bytes. |
| `Writer.GrownSize` | contrib/mpack/mpack.c:775-780 | The new capacity is at least double, enough, and either double or below twice what is needed. |
| `Writer.Writer.Flush` | contrib/mpack/mpack.c:745-802 | The three uses of the flush: at teardown nothing changes, of the buffer its bytes stay and it doubles, of other data they are appended. |
| `Writer.Writer.Ensure` | contrib/mpack/mpack.c:937-967 | A flush always makes enough room, so the error for too little room is never flagged. |
| `Writer.Writer.WriteEncoded` | contrib/mpack/mpack.c:1295-1300 | A header encoded in place is appended; the capacity stays 4096 or below twice the bytes written. |
| `Writer.Writer.WriteStraddle` | contrib/mpack/mpack.c:971-1007 | A write that does not fit is appended, through one flush or two. |
| `Writer.Writer.WriteNative` | contrib/mpack/mpack.c:1010-1019 | A write is appended; the capacity stays 4096 or below twice the bytes written. |
| `Writer.Writer.Destroy` | contrib/mpack/mpack.c:804-832 | The bytes handed over are the bytes written, in a buffer of at most twice their number plus one; nothing is handed over exactly if the writer had an error or nothing was written, which is an error too. |
| `Writer.Store` | contrib/mpack/mpack.c:925-1040 | Any sequence of writes and encoded headers hands over their concatenation. |
| `Track.TrackedWriter.Push` | contrib/mpack/mpack.c:397-418 | An element is opened with its count, doubled for a map; the stack grows when full. |
| `Track.TrackedWriter.Pop` | contrib/mpack/mpack.c:419-445 | Closing succeeds exactly if the innermost open element has that type and nothing left. |
| `Track.TrackedWriter.TrackElement` | contrib/mpack/mpack.c:447-477 | An element may be written exactly if nothing is open or the innermost container has one left; it uses that up. |
| `Track.TrackedWriter.TrackBytes` | contrib/mpack/mpack.c:479-503 | Bytes may be written exactly inside a str, bin or ext with that many left. |
| `Track.PromiseKept` | contrib/mpack/mpack.c:661-685 | Each call in order keeps the promise: whatever supplies what the open elements lack completes the output to a concatenation of objects. |
| `Track.ClosedRunIsComplete` | contrib/mpack/mpack.c:1471-1586 | Any run of calls in order that closes what it opened has emitted a concatenation of complete objects. |
| `Track.TrackedWriter.Run` | contrib/mpack/mpack.c:661-685 | For any run of start, write, bytes and finish calls over the growable writer: an error is flagged exactly if some call is out of order; without an error the stack of open elements and the bytes in the writer are those of the run. |
| `Track.WriteDocument` | contrib/mpack/mpack.c:804-832 | What a run of calls hands over at the end: something exactly if all calls were in order and emitted something; it is what they emitted, and a concatenation of complete objects if they closed what they opened. |
| `ValueWriter.AnyPieces` | contrib/mpack/mpack.c:479-503 | Payload bytes may be written in any pieces: tracking lets the parts pass if it lets the whole pass, to the same stack. |
| `ValueWriter.ValueInOrder` | contrib/mpack/mpack.c:1560-1579 | The calls that write a nested value, its payloads cut into any pieces, are in order wherever an element may be written, and count as one. |
| `ValueWriter.InOrderExactly` | contrib/mpack/mpack.c:661-685 | Which closed runs tracking lets pass, said without a stack: exactly those that write one object after another, each header followed by as many bytes, elements or twice as many as it says, and the finish of its kind. |
| `ValueWriter.ValueRoundTrip` | contrib/mpack/mpack.c:1560-1586 | A nested value written by these calls, in whatever pieces, is decoded back, whatever follows. |
| `ValueWriter.ClosedRunIsRead` | contrib/mpack/mpack.c:804-832 | So every closed run in order is decoded back to the values it wrote. |
| `ValueWriter.PlanFor` | contrib/mpack/mpack.c:1560-1586 | Every value the format can carry can be written. |
| `Utf8.OneSpelling` | contrib/mpack/mpack.c:546-625 | The front of a byte string is the encoding of at most one scalar value. |
| `Utf8.AcceptedSpells` | contrib/mpack/mpack.c:550-621 | What passes those tests is the encoding of a scalar value. |
| `Utf8.SpelledIsAccepted` | contrib/mpack/mpack.c:550-621 | The encoding of a scalar value passes them. |
| `Utf8Forms.CharExactly` | contrib/mpack/mpack.c:550-621 | The encodings of scalar values are exactly the byte ranges of RFC 3629, section 4. |
| `Utf8Forms.EncodingsSorted` | contrib/mpack/mpack.c:550-621 | They sort byte by byte as their code points do (RFC 3629, section 1). |
| `Utf8.Check` | contrib/mpack/mpack.c:546-642 | Accepts a byte string exactly if it is a concatenation of encodings of Unicode scalar values (RFC 3629, sections 3 and 4), and without allowed nulls exactly if none of them is U+0000. |
| `ServerCall.Call.Start` | src/rpc_service.c:620-655 | Past its wait loop: the start frame with the current number, or after an abort at most one error. |
| `ServerCall.Call.Yield` | src/rpc_service.c:665-701 | Past its wait loop: the fragment with the current number, or after an abort at most one error. |
| `ServerCall.Call.End` | src/rpc_service.c:725-761 | Past its wait loop, up to where it lets go of the lock: the end frame unless already ended, or after an abort an error unless ended or responded. |
| `ServerCall.Call.CloseInbound` | src/rpc_service.c:748-761 | After it let go of the lock: the call leaves the table of inbound calls. |
| `ServerCall.Call.OnContinue` | src/rpc_connection.c:569-597 | Adds the credits and signals the producer of a call in the table; a message for another call changes nothing. |
| `ServerCall.Call.OnAbort` | src/rpc_connection.c:637-663 | Marks a call in the table ended and aborted, and signals the producer; a message for another call changes nothing. |
| `ServerCall.Call.Kill` | src/rpc_service.c:772-781 | Marks the call aborted, and signals the producer. |
| `ClientCall.Call.Continue` | src/rpc_connection.c:2369-2426 | Pops the head of a running call; when the counters meet it grants the prefetch; refuses a terminal head. |
| `StreamReports.ContinueGrants` | src/rpc_connection.c:2389-2412 | A continue of a running call pops the head, counts it, and when the counters meet adds exactly the prefetch then set, also if the grant cannot be sent, which queues an error. |
| `StreamReports.GrantIsPrefetch` | src/rpc_connection.c:2389-2406 | In the protocol that prefetch, and nothing else, is then on its way to the server. |
| `StreamReports.CreditArrives` | src/rpc_connection.c:569-597 | And arrives as that much credit. |
| `StreamReports.GrantsOnTime` | src/rpc_connection.c:2389-2412 | In every run with one prefetch: what was granted is a multiple of it, the least that covers what was popped. |
| `StreamProtocol.StepInv` | src/rpc_service.c:620-781 | Every step keeps the invariant, failed sends of either side, kill, client abort, free, timer, a close at either end and the loss of what is in flight among them: credits granted, received and in flight add up; what was queued before the client learns of the end is the frames sent, in order; the frames produced are the script of the stream, with at most one error behind it, and those sent are these but for the failed sends. |
| `StreamResults.NoDeadlock` | src/rpc_service.c:626-654 | In every run, for any changes of the prefetch from one on: of a call not freed and not finished, with both channels and the client's queue empty, a request of the server waits for credit exactly if the call is not aborted and as many frames were lost as the client has room for (one plus granted minus consumed). |
| `StreamResults.NothingLost` | src/rpc_connection.c:1246-1306 | Only a failed send of the server, whose result the source discards, loses a frame; so without one no request waits there. |
| `StreamResults.LostFragmentDeadlocks` | src/rpc_service.c:694-700 | The run that shows it: a fragment whose sending fails leaves both sides waiting, with nothing closed, cut or aborted. |
| `StreamWaiting.SilencedServes` | src/rpc_connection.c:2378-2387 | Once the client can neither grant credit nor abort (terminal head, freed or cut) and the server has not been told, every run serves no more requests than there is credit for, until the server's own side kills the call or sees the close. |
| `StreamWaiting.CanServe` | src/rpc_connection.c:2428-2461 | In every other reachable state, or with credit left, some run serves one more request without such help: the credit arrives, or the client aborts. |
| `StreamWaiting.WaitsExactly` | src/rpc_connection.c:2369-2461 | So in every reachable state: the server's caller waits for ever, unless its own side ends the call, exactly if the client is silenced like that and no credit is left. |
| `StreamWaiting.EachSilences` | src/rpc_connection.c:1216-1244 | A timeout, a failed send of a grant, a close at the client and a free of the call each lead there by a run without the others: none of them tells the server. |
| `StreamWaiting.OnlyTheseSilence` | src/rpc_connection.c:2550-2573 | Nothing else does: in every run without these four, whatever is killed, aborted or lost, the client is not silenced. |
| `StreamFlow.FlowIsBounded` | src/rpc_connection.c:2389-2412 | In every run data in flight and queued never exceeds the largest prefetch ever set, and there is at most one error, of a call that was aborted. |
| `StreamFlow.ServeExceeds` | src/rpc_service.c:665-701 | Seen from before a request: serving it takes all frames together beyond the largest prefetch exactly if the call was aborted without having ended, as much data is outstanding as allowed, and its error can be sent. |
| `StreamFlow.KilledRun` | src/rpc_service.c:772-781 | The run that shows it: start, kill and yield put two frames in flight with a prefetch of one, and the payload is not sent. |
| `StreamResults.StreamIsFaithful` | src/rpc_connection.c:469-567 | In every run the frames produced are numbered 0, 1, 2, ... without gap and an error is only ever the last; those sent are these but for the failed sends; what the client consumed is a prefix of the fragments not lost, and all of them when it sees the end; these are all that was yielded exactly if no fragment was lost. |
| `StreamResults.PrefixExactly` | src/rpc_connection.c:469-567 | For payloads that differ: what was consumed is a prefix of what was yielded exactly if none of the first so many fragments was lost. |
| `StreamResults.LostFragmentLeavesGap` | src/rpc_service.c:694-700 | A run with a gap: yielded are 5 and 6, consumed is 6. |
| `StreamResults.Drain` | src/rpc_connection.c:2369-2471 | From every state of the invariant, delivering and consuming what there is leads, in a number of steps known beforehand, to a state where the client has something terminal to report (all data not lost if it is the end), or the server can go on, or the call was freed or the connection cut; and it does not exactly if losses took the rest of the credit or the last frame. |
| `StreamReports.ReasonsAreTrue` | src/rpc_connection.c:423-567 | In every run every item the client is given has its cause in the run: a timeout the timer, an abort an abort that was sent, a closed or failed connection a close or a failed send, a payload its yield. |
| `StreamReports.EndIsReported` | src/rpc_connection.c:469-567 | In every run an end or an error that was sent is at the client's head once all is delivered and consumed, unless the client learned of something else first. |
| `ProducerWakeup.NoLostWakeup` | src/rpc_service.c:626-643 | With lock, unlock, wait and leaving the table as separate steps, a producer at the wait point with credit or an abort pending has a signal pending; its next step is possible and brings it to its return in at most four. |
| `ProducerWakeup.WakeupLost` | src/notify_eventfd.c:51-61 | With two producers or more on one call, a run exists in which one of them waits with credit and no signal: the previous property holds exactly for one. |
| `ProducerWakeup.AfterAbort` | src/rpc_service.c:635-643 | After an abort, a kill or a close, start, yield and end send no data, and at most one error together; none if the client aborted. |
| `ClientCall.Call.CancelTimeout` | src/rpc_connection.c:355-368 | Cancels the timer, or reports that it has already fired. |
| `ClientCall.Call.Receive` | src/rpc_connection.c:423-467 | A reply, start, end, error or close enqueues its item, unless the timer fired first. |
| `ClientCall.Call.ReceiveFragment` | src/rpc_connection.c:515-567 | A fragment enqueues its payload; a frame without one only cancels the timer. |
| `ClientCall.Call.Timeout` | src/rpc_connection.c:1216-1244 | The timer enqueues its error only if nothing cancelled it. |
| `ClientCall.Call.Abort` | src/rpc_connection.c:2428-2461 | An abort of a running call enqueues an item unless the timer fired first; refuses a terminal head. |
| `ClientCall.Call.Free` | src/rpc_connection.c:2550-2565 | The loop empties the queue and the timer is cancelled unless it fired; nothing is sent. |
| `CallTimeout.StepInv` | src/rpc_connection.c:355-368 | Every event keeps the invariant that ties the timer, the flag and the items pushed. |
| `CallTimeout.TimeoutIsAlone` | src/rpc_connection.c:1216-1244 | In every run: if the timeout error is enqueued it is the only item the queue is ever given, and it stays; if something cancelled the timer first it is never enqueued; one of the two wins. |
| `CallTimeout.EmptyFragmentCancels` | src/rpc_connection.c:515-567 | A fragment without a payload queues nothing, and the timer can no longer fire; one with a payload queues it. |
| `CallTimeout.TerminalHeadStays` | src/rpc_connection.c:2378-2387 | A terminal head stays the head through every run of events, until the call is freed. |
| `CallTimeout.ClosedCallsReport` | src/rpc_connection.c:1035-1055 | After rpc_close every call registered before it has a non-empty queue, then and ever after, and was given the error of a closed connection unless it had timed out. |
| `CallTimeout.LateCallIsNotTold` | src/rpc_connection.c:2101-2124 | A call registered after the sweep is not told by it: the previous property needs its condition. |
| `CallTimeout.SweepCalls` | src/rpc_connection.c:1035-1055 | The loop over the table gives every call its error, or leaves it to the timer that fired first. |
| `Connection.StepInv` | src/rpc_connection.c:1584-1636 | Every step of user, server loop, transport and calls keeps the invariant, with the retain after the lock as a step of its own: the count is what the holders hold; one agent at a time has the initial reference to drop; the list reference is dropped by whoever took the connection off the list, or by the loop. |
| `ConnectionOpen.ClientKeepsConnection` | src/rpc_connection.c:977-1058 | In every run of a client's connection: until its user closes it, it is neither closed nor released, its initial reference is held and it is not freed, even if the peer has gone. |
| `ConnectionOpen.ServerKeepsConnection` | src/rpc_server.c:74-103 | In every run of an accepted connection: until somebody begins to close it, it is open, listed, and holds both references. |
| `ConnectionOpen.CloseTakesEffect` | src/rpc_connection.c:1584-1636 | A close by the user or the loop closes it, one by the transport aborts it, and with the transport done a closed connection is released. |
| `ConnectionOpen.NoNewCalls` | src/rpc_connection.c:1065-1082 | In every run from a closed, aborted or released connection: it stays so, and no call is made on it. |
| `Connection.StepAsserted` | src/rpc_connection.c:1678-1732 | If users hold a reference of their own while they close: no step touches a freed connection, and the assertions never fire: a retain finds the count positive, a disconnect finds the connection aborted, a connection is freed closed and with empty call tables. |
| `Connection.RetainAfterFree` | src/rpc_connection.c:1606-1610 | Without such a reference, a run exists, of a server's and of a client's connection, in which the closing user retains a freed connection. |
| `Connection.FreedIsFinished` | src/rpc_connection.c:1553-1575 | A freed connection whose user closes with a reference of its own dropped its initial reference once and its list reference once, has no calls, and no agent has anything left to do with it. |
| `Connection.QuietIsFreed` | src/rpc_connection.c:1584-1732 | An accepted connection, or a client's that its user closed, for which no agent, call or peer has anything left to do is freed, its initial reference dropped exactly once, and the list reference exactly once if there was one. |
| `Connection.SettleProgress` | src/rpc_connection.c:1584-1732 | Every step that finishes something leaves less to do, so finishing ends. |
| `Connection.RefusedIsNeverFreed` | src/rpc_server.c:79-85 | A refused connection carries the released flag from the start, so nobody drops its initial reference and it is never freed. |
| `ServerLife.AtInv` | src/rpc_server.c:105-131 | A step of a connection keeps the counts of the server: references, connections made, connections closed. |
| `ConnectionOpen.AcceptMeans` | src/rpc_server.c:74-103 | An open server admits, lists and counts a new connection and takes a reference; a closed one refuses it; the others stay as they are. |
| `ConnectionOpen.ClosedServerRefuses` | src/rpc_server.c:74-103 | In every run a closed server stays closed and admits nothing. |
| `ServerLife.ServerIsFreedOnce` | src/rpc_server.c:373-454 | In every interleaving of accepting, disconnecting, closing connections (by users with a reference of their own) and closing the server: no assertion fires (made equals closed among them), nothing freed is used, and the server is freed at most once, exactly when its close has ended and its last accepted connection is gone. |
| `ServerLife.ReferencesAreDroppedOnce` | src/rpc_server.c:74-131 | In every such interleaving the initial and the list reference of a connection are dropped at most once each, and exactly once each if it is freed, which happens only with empty call tables; a refused connection is never freed. |
| `ServerSettles.AtRestIsFreed` | src/rpc_server.c:403-454 | When nothing begun is left to finish, every accepted connection is freed with both references dropped exactly once, and a closed server is freed exactly once. |
| `ServerSettles.FinishingRun` | src/rpc_server.c:373-454 | Every run of events that finish things, in whatever order, is at most as long as the work left. |
| `ServerSettles.EverythingIsFreed` | src/rpc_server.c:373-454 | From the end of every such run, and after any events that finished some of it, peers leaving and the finishing of the rest leads there, within a number of events known beforehand. |
| `ServerSettles.CarelessFails` | src/rpc_connection.c:1606-1610 | With users that hold no reference of their own, something freed is used in some interleaving of the whole system. |
| `Objects.EqualReflexive` | src/rpc_object.c:676-784 | Deep equality is reflexive. |
| `Objects.EqualSymmetric` | src/rpc_object.c:676-784 | Deep equality is symmetric; for dictionaries by counting keys. |
| `Objects.EqualTransitive` | src/rpc_object.c:676-784 | Deep equality is transitive. |
| `ObjectMeaning.EqualExactly` | src/rpc_object.c:676-784 | Two objects are equal exactly if they mean the same, with dictionaries as maps; so objects of two types never are. |
| `ObjectHash.HashData` | src/rpc_object.c:92-101 | The loop from the last byte computes the recurrence. |
| `ObjectMeaning.DataHashes` | src/rpc_object.c:92-101 | The hash of data is 33 times that of what follows the first byte, plus the byte, modulo 2^64; 5381 for none. |
| `ObjectMeaning.ScalarHashes` | src/rpc_object.c:786-813 | A number or date hashes to itself modulo 2^64, a truth value to one or zero, null to zero. |
| `ObjectMeaning.ArrayHashes` | src/rpc_object.c:840-846 | The hash of an array is the exclusive or of its items' hashes, in whatever parts it is taken. |
| `ObjectMeaning.DictHashes` | src/rpc_object.c:832-838 | That of a dictionary is the exclusive or over its keys and values. |
| `ObjectHash.EqualHash` | src/rpc_object.c:785-849 | Equal objects have equal hashes, in whatever order their tables iterate. |
| `ObjectHash.OrderIsIrrelevant` | src/rpc_object.c:738-751 | Dictionaries with the same entries in different iteration orders are equal and have one hash. |
| `ObjectHash.CopyEqual` | src/rpc_object.c:583-665 | A copy is equal to its original exactly if no string or error message in it contains a zero byte. |
| `ObjectMeaning.CopyIsCopy` | src/rpc_object.c:583-665 | A copy is the object itself, but for strings and messages, which end before their first zero byte. |
| `ObjectMeaning.CopyIsCut` | src/rpc_object.c:583-665 | A copy has no zero byte in a string, and an object without one is copied as it is. |
| `Query.EvalMeaning` | src/rpc_query.c:65-140 | The short-circuit loops mean what their names say: or is some, and is all, nor is none, all false over no rules; two rules without an operator are both to hold; an unknown operator is false. |
| `Query.OtherForms` | src/rpc_query.c:65-140 | A rule of three parts is what the field operator says; anything else malformed never holds. |
| `Query.Apply` | src/rpc_query.c:240-263 | The loop over the rules, which stops at the first that fails: an object passes exactly if there is an array of rules and all hold. |
| `Query.MatchingParts` | src/rpc_query.c:265-288 | Filtering goes part by part, and of one object gives it if it passes. |
| `Query.ImagesParts` | src/rpc_query.c:611-621 | So do the callback's images. |
| `Query.ReverseApply` | src/rpc_query.c:569-579 | The loop from the end: the result has at each place what the source has at the same place from its end. |
| `Query.Iterator.FindNext` | src/rpc_query.c:265-288 | The next match, or none if the limit is used up; the limit counts only after the offset. |
| `Query.Iterator.Initialize` | src/rpc_query.c:565-588 | Ordering the source and passing the offset leaves what the iterator will yield unchanged. |
| `Query.Iterator.NextImage` | src/rpc_query.c:611-621 | The loop: the first non-null image of the matches ahead that the limit allows, which are passed up to it, or none exactly if there is none. |
| `Query.Iterator.Next` | src/rpc_query.c:553-631 | Yields the head of what is pending and leaves the tail, or reports the end exactly if nothing is. |
| `Query.RunQuery` | src/rpc_query.c:553-631 | Repeated calls yield exactly the callback's non-null images of take(limit, drop(offset, filter(rules, ordered source))), a limit of zero meaning none. |
| `Paths.NonEmptyAll` | src/rpc_query.c:303-324 | strtok and g_strsplit take a path apart alike exactly if it has no empty token. |
| `PathText.SplitJoined` | src/rpc_query.c:347-348 | The tokens of a path have no dots in them and give the path with dots between them. |
| `PathText.SplitUnique` | src/rpc_query.c:347-348 | And no other tokens do. |
| `PathText.NumberRead` | src/rpc_query.c:353-358 | Spaces, a sign or none, and the decimal digits of a number are read as that number, whatever follows. |
| `PathText.NoNumber` | src/rpc_query.c:353-358 | Without a digit after them nothing is read. |
| `PathText.Converted` | src/rpc_query.c:303-358 | What the two conversions make of a number: negative ones are turned around, and g_ascii_strtoull keeps the largest for those too large. |
| `Paths.PlainAgree` | src/rpc_query.c:353-358 | atoi and g_ascii_strtoull agree on unsigned numbers below 2^31. |
| `QuerySet.GrownSucceeds` | src/rpc_query.c:368-389 | A container made for a token takes it, so a set that has made one does not fail any more. |
| `QuerySet.SetFrame` | src/rpc_query.c:334-435 | A set changes one slot of one container that was there before, and nothing else that was. |
| `QueryMade.SetMakes` | src/rpc_query.c:334-435 | All a set does: the slot it comes to gets the value or the first container made; the containers made take the next addresses, each for its token and holding nothing but the next, the last one the value. |
| `QueryMade.MadeFor` | src/rpc_query.c:380-393 | Every container made is an array exactly if its token is a number, and else a dictionary; an array made holds null objects in the slots nobody set. |
| `QueryMade.ArrayStored` | src/rpc_object.c:1686-1710 | Storing in an array: what was there stays, the gap is null objects, (size_t)-1 is the end. |
| `QueryMade.DictStored` | src/rpc_object.c:2077-2086 | Storing in a dictionary: the key has the value and the others theirs. |
| `QuerySet.GetAfterSet` | src/rpc_query.c:334-435 | After a set the path gives the value, unless the path came back to the very slot it changes. |
| `QuerySet.GetAfterSetExactly` | src/rpc_query.c:334-435 | For a value that is not a container it gives the value exactly if the path does not come back to that slot, whatever is shared or cyclic. |
| `QuerySet.OtherPaths` | src/rpc_query.c:290-332 | A path that resolved and does not read the changed slot resolves to the same object, whatever is shared. |
| `QuerySet.OtherPathsExactly` | src/rpc_query.c:290-435 | Setting a value that is not a container, and was not in the slot, leaves a path that resolved exactly if it does not read the changed slot. |
| `QueryStore.Memory.Step` | src/rpc_query.c:347-393 | One turn of the loop: the child at the token, or a new container of the kind the next token asks for, with arrays padded. |
| `QueryStore.Memory.SetPath` | src/rpc_query.c:334-435 | All or nothing: either it fails and memory is as before, or memory is as specified; a token that is -1 appends to an array. |
| `QueryStore.Memory.GetPath` | src/rpc_query.c:290-332 | The object the path resolves to; the default exactly if only the last token finds nothing. |
| `QueryMade.TokenMeans` | src/rpc_query.c:310-324 | A token is the key in a dictionary, in an array the position whose decimal number it is, and nothing in any other object. |
| `QueryMade.PathMeans` | src/rpc_query.c:303-324 | A path resolves part by part. |
| `QueryMade.DefaultExactly` | src/rpc_query.c:303-332 | The default stands in exactly if all tokens but the last lead to a container and the whole path to nothing. |
| `QueryTree.SetKeepsOtherPaths` | src/rpc_query.c:334-435 | In a tree, for tokens that are numbers only if unsigned and below 2^31: after a successful set the path gives the value, and every path that resolved before and does not extend the one set resolves to the same object. |
| `QueryTree.SetThenGet` | src/rpc_query.c:290-435 | The same two halves for dotted paths without empty tokens, taken apart by g_strsplit to set and by strtok to get. |
| `QueryDepth.GotExactlyWithoutEmptyTokens` | src/rpc_query.c:290-435 | In a tree, for a value that nothing refers to yet: the value is got at the dotted path where it was set exactly if the path has no empty token. |
| `QueryTree.EmptyToken` | src/rpc_query.c:347-348 | With an empty token the value set is not got. |
| `QueryTree.SharedContainer` | src/rpc_query.c:395-420 | With a container in two places, a path that does not extend the one set changes. |
| `QueryTree.Cycle` | src/rpc_query.c:395-420 | With a container that contains itself, the path that was set does not give the value. |
| `QueryStore.StealValue` | src/rpc_object.c:1686-1710 | Storing past the end of an array pads it with null objects; storing inside replaces; the index (size_t)-1 appends. |
| `QuerySet.PutLookup` | src/rpc_object.c:1686-1710 | A value stored in a dictionary or an array, padded with null objects, is found there, and what else was found still is. |

## Left out

- Sockets and other transports, main loops, thread pools, activation, the bus, bindings, IDL and typing.
- Allocation failure, file-backed readers and writers, the `skip` callback, read tracking, the size-optimised
  branches, and `mpack_write_object_bytes`, which bypasses what tracking can promise.
- The writers of 8 to 32-bit integers: they choose among the forms of the 64-bit ones.
- Overflow of `size_t` in buffer sizes and of 32-bit `size_t` in node counts.
- Track.WriteDocument: the result of closing the track at destroy is not looked at by the source, so that what was
  opened is closed is a hypothesis of its last clause.
- ServerCall.Call.Start: the wait loop in front of it is in `ProducerWakeup`.
- ServerCall.Call.Yield: the wait loop in front of it is in `ProducerWakeup`.
- ServerCall.Call.End: the wait loop in front of it is in `ProducerWakeup`.
- ServerCall.Call.CloseInbound: the references that it drops are in `Connection`.
- ClientCall.Call.Free: leaving the table and dropping references come after it in the source; in `StreamProtocol`
  emptying the queue and leaving the table are one step, since nobody looks at the queue in between.
- ServerCall.Call.OnAbort: the abort handler of the call is not called.
- ClientCall.Call.Continue: the wait of its synchronous form is not modelled.
- Client-side wake-ups, `rpc_call_timedwait`, asynchronous callbacks, abort handlers, call hooks, and the paused
  call queue of a server.
- Support for old peers that answer a start frame with an error.
- CallTimeout.TerminalHeadStays: a run ends before `rpc_call_free`, which empties the queue.
- Connection.StepInv: dropping the last reference and leaving the table of active connections are one step.
- Connection.QuietIsFreed: a peer that never leaves keeps a connection open; leaving is among the steps that finish
  things.
- Objects of descriptor, shared memory and NaN kind, the backtrace of an error, and type annotations. Doubles are
  real numbers, so that the two zeros are one and conversion to an integer is in range.
- ObjectHash.CopyEqual: data are shorter than 2^32 bytes, the width of `g_memdup`.
- Field operators of a query (comparison, regular expressions, file patterns): any predicate on object and rule.
- The `count` and `single` modes of a query, `rpc_query_delete`, and that sorting changes the array given.
- Reference counts of objects: objects in memory are never freed.
- QueryStore.Memory.GetPath: a null path is not modelled.
- QueryStore.StealValue: the same indices as in the next line.
- QueryStore.Memory.SetPath: array indices from 2^63 on other than (size_t)-1, which the source writes outside the
  array, are not modelled.
