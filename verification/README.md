# Stateplex in Dafny

Stateplex is a C++ actor library for servers. This project models the cores its servers run on, and proves what
they promise. `dafny verify dfyconfig.toml` checks everything.

Objects whose methods change fields are classes with those fields, and a method's contract equates the new state
with a function of the old one. What that function means is proved beside it. Entities that are linked by pointers
in C++ are entries of sequences or maps in one class, with one exception: the intrusive lists (`Rings`,
`RingLists`) are objects with pointers.

| files | what they model |
|---|---|
| `HttpParser`, `HttpTheorems`, `HttpProtocol` | the incremental HTTP request parser that is meant: a byte automaton, chunk independence, what request handlers are told, and the round trip from a request's text |
| `HttpMachine`, `HttpConnection` | the parser as written, turn by turn, with 16-bit pops and a handler pointer that can be null or stale; the connection with its fields, proved to be that machine in all cases |
| `HttpRefinement`, `HttpTokens`, `HttpAsWritten` | exactly when the parser as written is the one that is meant, over one turn, one chunk and all chunks; what becomes of the promises |
| `HttpWide`, `HttpComplete`, `HttpLost`, `HttpExact` | what becomes of a token whose pop is cut, and from that exactly which requests the source reads right |
| `HttpSafety`, `HttpClosed`, `HttpAfterError` | what the parser as written keeps in every run, whatever its pops; a connection that is fed after it has closed |
| `HttpBuffer` | the parser's input as a buffer with one iterator: the buffer operations that the source calls, turn by turn, and those operations on shared blocks |
| `BufferStore`, `BufferKernel`, `BufferCursors`, `BufferStorage`, `BufferAsWritten`, `BufferRuns` | buffers as chains of views on shared, reference-counted byte arrays, with registered iterators |
| `Slabs`, `SlabLedger`, `Allocators`, `AllocatorRuns` | the slab allocator, and histories of a family of allocators that free each other's memory |
| `Rotation` | dispatchers exchanging allocators under a spinlock: every interleaving of atomic steps |
| `SchedulerAccount`, `Scheduler` | one dispatcher, its actors and its messages |
| `Hbdp` | the server's end of a long-poll connection |
| `JsonText`, `JsonRoundTrip`, `JsonExactness`, `JsonNodes`, `JsonMembers`, `JsonItems`, `JsonMeaning`, `JsonRuns` | trees of JSON items changed in place, their memoised text, and reading that text back |
| `Rings`, `RingLists` | the intrusive circular lists everything is built on |
| `Options` | a value that may be missing |

## Where the code departs from its purpose

The purpose is modelled in these places, for the HTTP parser beside the code as written. For each, lemmas tell exactly
when the code as written meets it.

- `popped` (stateplex/core/readbuffer.h:148) takes a 16-bit length, so that longer pops are cut. The parser calls it
  with the length of a token and its delimiter (stateplex/net/httpconnection.cpp:243) and with what there is of a body
  (lines 181 and 188). A turn is right if and only if its token is shorter than 65535 bytes, or fewer than 65536 bytes
  of the body are there or left: `HttpRefinement.TokenSame`, `HttpRefinement.DataSame`, `HttpRefinement.TurnSame`. Runs of the source
  take the turns that are meant if and only if no byte sets off such a pop: `HttpRefinement.SameIffNarrow`,
  `HttpAsWritten.SameAllIffNarrow`. `HttpAsWritten.ChunksAsWritten`, `HttpAsWritten.RequestAsWritten` and
  `HttpAsWritten.RoundTripAsWritten` carry chunk independence and the round trip over; `HttpAsWritten.LongToken` and
  `HttpAsWritten.LongBody` are inputs that show the difference. Which requests are read right all the same is
  `HttpExact.RequestReadsRight`: those whose tokens are shorter than 65535 bytes, but for methods and URIs of which all that
  is kept is blank. Three things do not depend on the pops at all: the order in which handlers are told, the amount of
  data they are told, and that the input buffer is the end of what was received: `HttpSafety.OpenAsWritten`,
  `HttpSafety.HandlersAsWritten`, `HttpSafety.EndedAsWritten`, `HttpSafety.BytesAsWritten`.
- `ensurePush` (stateplex/core/writebuffer.h:105) has its test inverted: `BufferAsWritten.PushAsWritten`,
  `BufferAsWritten.PushAsWrittenDiverges`. In both, `room` (stateplex/core/buffer.h:328) counts to the end of the block size.
- `Block::pushed` (stateplex/core/buffer.h:383-386) does not raise the mark of its byte array:
  `BufferAsWritten.PushedBreaksMarks`, `BufferAsWritten.PushedLosesIsolation`.
- `region` (stateplex/core/buffer.h:732-737) ignores the offset when it crosses blocks: `BufferAsWritten.RegionAsWritten`,
  `BufferAsWritten.RegionTooLong`.
- A parked iterator (stateplex/core/buffer.h:825-840, 920-923) does not hop to a block appended later:
  `BufferAsWritten.HasCurrentWithoutHop`, `BufferAsWritten.ParkedForEver`.
- `JsonObject::unset` (stateplex/jsondb/jsonobject.cpp:207-209) leaves the freed member on the list:
  `JsonMeaning.UnsetAsWrittenIff`.
- `insert` of a text with a length (stateplex/core/writebuffer.h:359-363) measures a terminated text instead:
  `BufferAsWritten.InsertAsWritten`, `BufferAsWritten.InsertTooMuch`.

The code is modelled as it is in these places, and a lemma tells when a promise fails.

- Chunk independence fails exactly when a request ends before the last chunk, because the loop of `receive` stops there:
  `HttpTheorems.ChunkIndependence`, `HttpProtocol.TwoAtOnce`. `HttpTheorems.KeepAliveRun` says what holds all the same.
- `close` (stateplex/net/httpconnection.cpp:26-30) deletes the request but clears neither `mHttpRequest` nor the state,
  and `receive` returns true after the last request (lines 65-74), so that a caller cannot know of it. When more input
  then follows a null or deleted request, for every closed connection: `HttpClosed.ClosedFaults`; in terms of the bytes
  `HttpClosed.AfterLastRequest`, `HttpClosed.AfterLastRun`, `HttpAfterError.BytesAfterError`, and of the automaton
  `HttpClosed.AfterError`; inputs `HttpClosed.OneNewlineMore` and
  `HttpClosed.RequestAfterClosing`. Theorems about runs of chunks are about a reader that stops at closing where they
  do not say otherwise.
- `poppedAll` cuts the size to 16 bits as well: `BufferStorage.Storage.PoppedAll`. Output of 65536 bytes or more that waits
  when an end arrives is sent and then kept (stateplex/net/hbdpconnection.cpp:69-77): `Hbdp.BytesConserved`, `Hbdp.SentTwice`.
- A DELETE deletes the connection after any reply, also for a serial that is out of turn
  (stateplex/net/hbdpserver.cpp:60-63): `Hbdp.StalePost`.
- `addBefore` and `addAfter` break a ring exactly when an item is moved to where it is, or next to itself: `Rings.ListItem.AddBefore`.
- `handleEnd` follows a null pointer exactly when nothing is open and output waits: `Hbdp.FatalIff`, `Hbdp.FatalSeen`,
  `Hbdp.LateEndFaults`.
- `escape` leaves backslashes and control characters alone, and writes `inf` and `nan` for decimals that are not finite:
  `JsonExactness.ReadsBackIff`, `JsonExactness.BackslashIsLost`, `JsonRoundTrip.DecimalIffFixed`.
- Observers of an array are told its new length as the index of an inserted element: `JsonItems.Items.AppendElement`.
- The branches of the allocator that recycle blocks compare a field that is never assigned, and are dead.

Numbers written by `snprintf` and read by `atoi` are abstract or carried as text, except `%ld`. Memory from
`posix_memalign`, events from `epoll_wait`, and what handlers send are parameters, for all values of which the
properties are proved.

## Model

| member | source | states |
|---|---|---|
| HttpParser.RunScan | stateplex/net/httpconnection.cpp:237-260 | a run over bytes that hold no terminator of the token being read only lengthens the token, so a scan can be resumed anywhere |
| HttpParser.RunTakeData | stateplex/net/httpconnection.cpp:178-195 | the body that is meant takes what is left of the declared length from the input and no more, and the request ends when it is complete |
| HttpConnections.HttpConnection.Pop | stateplex/core/readbuffer.h:148-166 | the length is cut to 16 bits, and the cursor shifts with what is popped |
| HttpConnections.HttpConnection.EatSpaces | stateplex/net/httpconnection.cpp:201-211 | removes exactly the leading blanks, one by one, and tells whether anything is left |
| HttpConnections.HttpConnection.LocateChar | stateplex/net/httpconnection.cpp:248-260 | moves the cursor to the first success or fail character behind it, or to the end, examining each byte once |
| HttpConnections.HttpConnection.LocateRegion | stateplex/net/httpconnection.cpp:237-246 | on success gives the bytes before the character, and pops them with it, as many as the 16 bits of their number say |
| HttpConnections.HttpConnection.HandleHeader | stateplex/net/httpconnection.cpp:225-235 | what the two headers with a meaning set, and that no other sets anything |
| HttpConnections.HttpConnection.HandleToken | stateplex/net/httpconnection.cpp:86-163 | what each token does to the state and the request, and that a header for a null or deleted request is a fault |
| HttpConnections.HttpConnection.ProcessToken | stateplex/net/httpconnection.cpp:77-199 | a state that reads a token up to a delimiter takes the turn of the machine, and keeps the cursor where no terminator was passed |
| HttpConnections.HttpConnection.ProcessNewline | stateplex/net/httpconnection.cpp:125-176 | a state that wants a line feed takes the turn of the machine, with the error, the fault and the end of a request |
| HttpConnections.HttpConnection.ProcessData | stateplex/net/httpconnection.cpp:178-195 | hands over what is there and still due, and pops as much of it as 16 bits say |
| HttpConnections.HttpConnection.Process | stateplex/net/httpconnection.cpp:77-199 | one call is one turn of the machine, in every state and for every input |
| HttpConnections.HttpConnection.ReceiveLoop | stateplex/net/httpconnection.cpp:52-75 | the loop ends, even where pops are cut to nothing, and closing or starting over follows |
| HttpConnections.HttpConnection.Close | stateplex/net/httpconnection.cpp:26-30 | deletes the request, again if it has been deleted before, and forgets neither it nor the state |
| HttpConnections.HttpConnection.Receive | stateplex/net/httpconnection.cpp:40-75 | a chunk takes any connection, open or closed, where the machine goes; an open one with narrow pops, where the automaton goes on buffered and new bytes together |
| HttpConnections.HttpConnection.ReceiveEnd | stateplex/net/httpconnection.cpp:26-38 | at the end of input a live handler, and no other, is told one abort and is gone, and the connection is closed without keep-alive; a handler that `close` has deleted is used again |
| HttpConnections.HttpConnection.ReceiveAll | stateplex/net/httpconnection.cpp:40-75 | for any chunks up to closing: the machine's state, leftover input, cursor, events and number of bytes examined |
| HttpRefinement.TurnRefines | stateplex/net/httpconnection.cpp:77-199 | with whole pops one turn goes on with a run of the automaton, byte by byte |
| HttpRefinement.LoopRefines | stateplex/net/httpconnection.cpp:54-59 | with whole pops the loop is one run of the automaton up to the first request end, error or end of input |
| HttpRefinement.FeedRefines | stateplex/net/httpconnection.cpp:40-75 | with whole pops a chunk does what is meant, and what `receive` returns tells of an error |
| HttpRefinement.TokenSame | stateplex/net/httpconnection.cpp:237-246 | a token turn of the source is the one that is meant if and only if the token it finds is shorter than 65535 bytes |
| HttpRefinement.DataSame | stateplex/net/httpconnection.cpp:178-195 | a data turn of the source is the one that is meant if and only if fewer than 65536 bytes are there or due, or the request is gone |
| HttpRefinement.TurnSame | stateplex/net/httpconnection.cpp:77-199 | a turn of the source is the one that is meant if and only if its pop is not cut |
| HttpRefinement.SameIffNarrow | stateplex/net/httpconnection.cpp:54-59 | every turn of a loop is the one that is meant if and only if no byte, in a run of the automaton, sets off a pop that is cut |
| HttpRefinement.NarrowFeed | stateplex/net/httpconnection.cpp:40-75 | then the source takes a chunk as the automaton does, and leaves the connection fit for the next |
| HttpRefinement.LoopLinear | stateplex/net/httpconnection.cpp:248-260 | bytes examined and bytes that may have to be never add up to more than before: with whole pops each byte is examined once |
| HttpAsWritten.SameAllIffNarrow | stateplex/net/httpconnection.cpp:40-75 | over all chunks, every turn is the one that is meant if and only if every run is narrow |
| HttpAsWritten.NarrowChunks | stateplex/net/httpconnection.cpp:40-75 | for narrow chunks the source reaches what the automaton reaches, and examines no more bytes than it received |
| HttpAsWritten.PrefixAsWritten | stateplex/net/httpconnection.cpp:54-70 | for narrow chunks what handlers have been told is a prefix of the reference parse of all bytes, and going on with what is left gives that parse |
| HttpAsWritten.CursorAsWritten | stateplex/net/httpconnection.cpp:248-260 | for narrow chunks no byte before the cursor is the success or fail character of the current state |
| HttpAsWritten.CursorTurn | stateplex/net/httpconnection.cpp:237-260 | one turn leaves the cursor so, and at the front where no token is read, if and only if it does not find a token whose pop is cut |
| HttpAsWritten.ChunksAsWritten | stateplex/net/httpconnection.cpp:54-75 | chunk independence of the source: bytes that are narrow in one piece are so in chunks, which leave the same if and only if no request ends before the last |
| HttpAsWritten.SmallIsNarrow | stateplex/net/httpconnection.cpp:237-246 | as long as fewer than 65536 bytes are at hand every run is narrow |
| HttpAsWritten.FitsInChunks | stateplex/net/httpconnection.cpp:178-246 | in chunks shorter than 65536 bytes a request is narrow if and only if its tokens are shorter than 65535 bytes, however long its body |
| HttpAsWritten.RequestAsWritten | stateplex/net/httpconnection.cpp:77-199 | so for the text of a request: in such chunks the source takes the turns that are meant if and only if method, URI, version, names and values are shorter than 65535 bytes |
| HttpAsWritten.RoundTripAsWritten | stateplex/net/httpconnection.cpp:77-199 | then the source yields the events that describe the request, uses up all input, and closes as version and headers say |
| HttpAsWritten.VersionsDecide | stateplex/net/httpconnection.cpp:213-223 | of two requests written out, one of version 1.1 leaves the connection open and one of version 1.0 closes it, in whatever short chunks they come |
| HttpAsWritten.LongToken | stateplex/net/httpconnection.cpp:237-246 | a method of 65535 bytes is found and stays in the input |
| HttpAsWritten.LongBody | stateplex/net/httpconnection.cpp:178-195 | a body of 65536 bytes stays in the input if it comes at once, and not if it comes in two chunks |
| HttpWide.Together | stateplex/net/httpconnection.cpp:201-246 | after a method or URI whose pop is cut, skipping blanks leads where it should if and only if all that was kept is blank |
| HttpWide.Rejoined | stateplex/net/httpconnection.cpp:54-59 | then the loop goes on as if the pop had been whole |
| HttpWide.UriLost | stateplex/net/httpconnection.cpp:97-123 | after a URI whose pop is cut, of which something is kept that is no blank, the loop ends in an error, and no request is made |
| HttpWide.LineLost | stateplex/net/httpconnection.cpp:107-176 | after a header value whose pop is cut, always, or a version, unless what is kept begins with a newline, the loop ends in an error |
| HttpWide.MeantReaches | stateplex/net/httpconnection.cpp:40-75 | if every chunk has the result that is meant, by whatever turns, the source reaches what the automaton reaches |
| HttpLost.KeyLost | stateplex/net/httpconnection.cpp:130-163 | after a header name whose pop is cut, what is kept of it, with its colon, becomes part of the value, so that handlers are told another header than is meant |
| HttpLost.MethodLost | stateplex/net/httpconnection.cpp:80-123 | after a method whose pop is cut, of which something is kept that is no blank, no request is ever made of it that is meant, however the bytes behind it come |
| HttpLost.VersionLost | stateplex/net/httpconnection.cpp:107-176 | after a version of which what is kept begins with a newline, the request ends early or fails, and is not read right |
| HttpExact.GoodChunk | stateplex/net/httpconnection.cpp:40-75 | a chunk shorter than 65536 bytes whose tokens pass is taken just as is meant |
| HttpExact.BadChunk | stateplex/net/httpconnection.cpp:40-75 | one with a token that does not pass is never made up for by those that follow |
| HttpExact.ReadsRight | stateplex/net/httpconnection.cpp:40-199 | any bytes that the parser that is meant reads as one request, in any chunks shorter than 65536 bytes, are used up and lead to the events that are meant if and only if their tokens pass |
| HttpExact.RequestReadsRight | stateplex/net/httpconnection.cpp:40-199 | so for the text of a request: if and only if version, names and values are shorter than 65535 bytes, and so are method and URI, or all that is kept of them is blank |
| HttpExact.TabsAreRead | stateplex/net/httpconnection.cpp:201-246 | a method of a letter and 65535 tabs is read right, in whatever chunks shorter than that |
| HttpExact.LongIsLost | stateplex/net/httpconnection.cpp:237-246 | a method of 65535 bytes or more without blanks is not |
| HttpSafety.ReceivedAttended | stateplex/net/httpconnection.cpp:77-199 | a connection with a handler just where one is needed, open or closed, goes wrong if and only if a newline is awaited and there is no byte at all, and otherwise is so again or has closed |
| HttpSafety.OpenAsWritten | stateplex/net/httpconnection.cpp:54-195 | for any chunks up to closing, with any pops: each handler sees headers, then data, then one end, and is there exactly in the states inside a request; nothing goes wrong if and only if no empty chunk comes where a newline is awaited and nothing is there |
| HttpSafety.HandlersAsWritten | stateplex/net/httpconnection.cpp:26-199 | for any chunks, fed also after closing: the same order of what handlers are told, until a bad pointer is followed; and at the end of input no handler is left in the middle of a request, unless it has been deleted |
| HttpSafety.EndTold | stateplex/net/httpconnection.cpp:32-40 | the end of input tells a live handler exactly one abort, which completes what it is told, and any other nothing; it goes wrong exactly for a deleted one; a second end changes nothing |
| HttpSafety.EndedAsWritten | stateplex/net/httpconnection.cpp:165-195 | each request that ends in such a run saw exactly as many data bytes as its Content-Length declared |
| HttpSafety.BytesAsWritten | stateplex/net/httpconnection.cpp:42-75 | for any chunks up to closing, with any pops: the input buffer and what was not delivered are the end of all bytes received |
| HttpBuffer.InputIsBuffer | stateplex/net/httpconnection.cpp:40-75 | for any chunks the operations that the source calls are legal, leave just the input and the cursor offset that the parser has, and append nothing but the chunks delivered, in order |
| HttpBuffer.TurnDoes | stateplex/net/httpconnection.cpp:77-260 | the operations of one turn, written out by state, do to a buffer what the turn does to the input |
| HttpBuffer.LoopInner | stateplex/net/httpconnection.cpp:54-59 | they only move the iterator on by one, or pop lengths below 65536 |
| HttpBuffer.CallOne | stateplex/net/httpconnection.cpp:40-260 | each such call, and the append of a text that is not empty, carried out on shared blocks, keeps a buffer that agrees with its bytes and cursor, and its first byte in the first block |
| HttpBuffer.Feed | stateplex/net/httpconnection.cpp:40-75 | so the calls for chunks none of which is empty lead to a buffer on shared blocks that agrees with the parser |
| HttpBuffer.PeekIsFirst | stateplex/core/readbuffer.h:87-91 | then the byte that is read unchecked is the first of the input |
| HttpBuffer.Equals | stateplex/core/buffer.h:595-622 | the prefix test of the parser is that comparing the buffer gives 0 |
| HttpParser.StartsWithIff | stateplex/core/buffer.h:595-622 | a prefix agrees byte by byte |
| HttpClosed.ClosedHow | stateplex/net/httpconnection.cpp:52-75 | whatever the chunk, a connection closes after a request with no handler, or after an error with a deleted one exactly if it was inside a request |
| HttpClosed.AfterLastRequest | stateplex/net/httpconnection.cpp:165-195 | a chunk fed after the last request follows a null pointer if and only if the connection waits for data, or gets the newline it still waits for |
| HttpClosed.AfterLastRun | stateplex/net/httpconnection.cpp:165-176 | chunks fed after the last request without a body follow a null pointer if and only if one of as many bytes is a newline, as each chunk takes one byte |
| HttpClosed.OneByteMore | stateplex/net/httpconnection.cpp:165-195 | one byte after a whole request without keep-alive, in chunks and with tokens that fit, is fatal if and only if the request had a body or the byte is a newline |
| HttpClosed.OneNewlineMore | stateplex/net/httpconnection.cpp:165-176 | such an input |
| HttpClosed.ClosedFaults | stateplex/net/httpconnection.cpp:26-75 | a chunk that is not empty, fed to any closed connection, follows a bad pointer if and only if it closed inside a request, and waits for data, or would, open, use its handler, or fail again where the handler was deleted |
| HttpClosed.ClosedOutside | stateplex/net/httpconnection.cpp:77-123 | one that closed outside a request follows none |
| HttpAfterError.ErrorSticks | stateplex/net/httpconnection.cpp:26-75 | an error inside a request leaves the connection at the byte that failed, or waiting for a newline, with the deleted handler |
| HttpAfterError.BytesAfterError | stateplex/net/httpconnection.cpp:26-260 | then more bytes make the source use the deleted request if and only if a name or a value has failed, or they do not begin with a newline, or that ends the headers, or what is behind it is more than a header that has not ended |
| HttpClosed.VersionAfterClosing | stateplex/net/httpconnection.cpp:107-123 | closed where it read a version, with nothing left over, it takes the next one for the same request, and makes a handler |
| HttpClosed.RequestAfterClosing | stateplex/net/httpconnection.cpp:77-123 | such an input: "GET / X" and a return, then "HTTP/1.1" and a return |
| HttpClosed.AfterError | stateplex/net/httpconnection.cpp:26-75 | for narrow chunks, in terms of the automaton: after an error inside a request the deleted request is used if and only if the parser, still open, would read a header or the end of headers, or meet another error |
| HttpTheorems.RunAppend | stateplex/net/httpconnection.cpp:54-59 | a run on more input is the run on less, continued, unless that stopped for good |
| HttpTheorems.ChunkIndependence | stateplex/net/httpconnection.cpp:54-75 | of the parser that is meant: chunks leave the same state, leftover and events as their concatenation if and only if no request ends before the last chunk |
| HttpTheorems.KeepAliveRun | stateplex/net/httpconnection.cpp:54-70 | of the parser that is meant: however bytes were cut, going on with what is left gives the reference parse of all bytes |
| HttpTheorems.EventsArePrefix | stateplex/net/httpconnection.cpp:54-70 | of the parser that is meant, up to closing: what handlers have been told is always a prefix of the reference parse of all bytes received |
| HttpTheorems.BytesConserved | stateplex/net/httpconnection.cpp:42-75 | of the parser that is meant, up to closing: the input buffer is always the end of all bytes received, none lost, doubled or changed |
| HttpTheorems.CursorPassesNoTerminator | stateplex/net/httpconnection.cpp:248-260 | of the parser that is meant: no byte before the cursor is the success or fail character of the current state |
| HttpProtocol.HandlerProtocol | stateplex/net/httpconnection.cpp:107-195 | of the parser that is meant, for any chunks up to closing: each handler sees headers, then data, then one end or abort, and is there exactly in the states from the request line's end to the data |
| HttpProtocol.EndedRequestIsComplete | stateplex/net/httpconnection.cpp:165-195 | a request that has ended saw exactly as many data bytes as its Content-Length declared |
| HttpProtocol.InsideRequest | stateplex/net/httpconnection.cpp:161-195 | inside a request, the bytes left and those seen add up to the declared length |
| HttpProtocol.AbortEndsProtocol | stateplex/net/httpconnection.cpp:32-40 | an abort comes only to a handler that is still there |
| HttpProtocol.RoundTrip | stateplex/net/httpconnection.cpp:77-199 | of the parser that is meant: the text of a well-formed request, in any chunks, yields the events that describe it, and keeps the connection alive as its version and headers say |
| HttpProtocol.OneRequest | stateplex/net/httpconnection.cpp:54-75 | bytes that one run uses up cannot have ended a request before their last chunk, so a single request is independent of its chunks |
| HttpProtocol.TwoAtOnce | stateplex/net/httpconnection.cpp:54-70 | two requests that keep the connection alive, received at once, leave something else than one after the other |
| HttpProtocol.Pipelining | stateplex/net/httpconnection.cpp:54-75 | the reference parse of requests back to back is the description of each, in order |
| BufferStore.Isolation | stateplex/core/buffer.h:325-357 | whoever views byte arrays reads the same bytes after any change that leaves the bytes below the marks alone |
| BufferKernel.CopyFrom | stateplex/core/buffer.h:353-357 | bytes copied behind a block that ends at its array's mark are seen by it and by no other view |
| BufferKernel.Share | stateplex/core/buffer.h:190-206 | a new view on an array adds one to its count and changes nobody's bytes |
| BufferKernel.Split | stateplex/core/buffer.h:414-420 | cutting a block into two views leaves the text and adds one to the count |
| BufferKernel.DeleteFirst | stateplex/core/buffer.h:213-221 | deleting a block takes one from the count and drops its bytes from one buffer only |
| BufferStorage.Storage.EnsurePush | stateplex/core/writebuffer.h:103-109 | gives a block with room behind the mark: the given one if it has, else a new one, as is meant |
| BufferStorage.Storage.PushToBlock | stateplex/core/writebuffer.h:118-131 | ends, and inserts the whole text behind a block, whatever the room |
| BufferStorage.Storage.AppendText | stateplex/core/writebuffer.h:197-220 | the contents become old contents and text; every other buffer keeps its contents, every iterator its offset; a first byte can be read if one could, or the text goes into the first block |
| BufferStorage.Storage.AppendBuffer | stateplex/core/writebuffer.h:175-188 | appends another buffer's contents by sharing its arrays; all others are isolated |
| BufferStorage.Storage.SplitBlock | stateplex/core/writebuffer.h:138-154 | finds or makes a block boundary at an offset, without changing the contents |
| BufferStorage.Storage.InsertBuffer | stateplex/core/writebuffer.h:288-301 | inserts the other buffer's contents at the offset; an offset past the end means the start |
| BufferStorage.Storage.InsertText | stateplex/core/writebuffer.h:344-363 | inserts the text at the offset, isolating all other buffers |
| BufferStorage.Storage.EnsurePushLength | stateplex/core/writebuffer.h:233-236 | makes room behind the last block for as many bytes as are asked for, up to a block, as is meant, and changes no contents |
| BufferStorage.Storage.Pushed | stateplex/core/writebuffer.h:245-278 | bytes written at the push pointer become the end of the contents, and of nobody else's |
| BufferStorage.Storage.Popped | stateplex/core/readbuffer.h:148-166 | drops that many bytes, or all; each registered iterator's offset falls by as many, not below 0, and stays on its byte; a first block that is left is not empty |
| BufferStorage.Storage.PoppedAll | stateplex/core/readbuffer.h:169-174 | drops as many bytes as the 16 bits of the size say: the buffer ends up empty if and only if it held fewer than 65536 bytes |
| BufferStorage.Storage.Pop | stateplex/core/readbuffer.h:87-104 | gives and removes the first byte |
| BufferStorage.Storage.CharAt | stateplex/core/buffer.h:515-526 | the byte at an offset, 0 past the end |
| BufferStorage.Storage.AsString | stateplex/core/buffer.h:535-546 | all the contents in order |
| BufferStorage.Storage.Compare | stateplex/core/buffer.h:595-622 | 0 exactly if the buffer starts with the text; otherwise the sign of the first place that differs, or 1 for a buffer that is too short |
| BufferStorage.MemcmpSign | stateplex/core/buffer.h:613-614 | the sign is that of the first place that differs |
| BufferStorage.Storage.Region | stateplex/core/buffer.h:704-739 | appends the slice to the target by sharing, whatever blocks it spans |
| BufferStorage.Storage.EnsureBlock | stateplex/core/buffer.h:825-840 | settles an iterator without changing its offset |
| BufferStorage.Storage.IteratorOffset | stateplex/core/buffer.h:869-875 | the sum of blocks before it and its place in its block |
| BufferStorage.Storage.HasCurrent | stateplex/core/buffer.h:920-923 | true exactly if the offset is below the length |
| BufferStorage.Storage.Current | stateplex/core/buffer.h:930-936 | the byte at the iterator's offset |
| BufferStorage.Storage.Advance | stateplex/core/buffer.h:843-860 | the offset becomes old plus n, at most the length |
| BufferCursors.SettledOffset | stateplex/core/buffer.h:825-875 | a settled iterator is on a byte exactly when its offset is below the length |
| BufferCursors.SettledByte | stateplex/core/buffer.h:930-936 | and then it is the byte of the contents at that offset |
| BufferAsWritten.PushAsWritten | stateplex/core/writebuffer.h:102-131 | with the inverted test a push returns if and only if the text is shorter than the room it starts with |
| BufferAsWritten.PushAsWrittenDiverges | stateplex/core/writebuffer.h:102-131 | a block's worth of bytes pushed to an empty buffer never returns |
| BufferAsWritten.PushedBreaksMarks | stateplex/core/buffer.h:383-386 | without raising the mark, views stay at or below marks if and only if nothing is pushed |
| BufferAsWritten.PushedLosesIsolation | stateplex/core/buffer.h:353-386 | then, if a view that ends at the old mark is appended to, what was pushed reads the same if and only if nothing was pushed or the byte is the first of it |
| BufferAsWritten.RegionAsWritten | stateplex/core/buffer.h:719-739 | a region is right if and only if it starts at a block's first byte or fits in one block |
| BufferAsWritten.RegionTooLong | stateplex/core/buffer.h:732-737 | an input for which two bytes are taken of a block that has one left |
| BufferAsWritten.HasCurrentWithoutHop | stateplex/core/buffer.h:825-923 | the answer is right if and only if the iterator is not parked at the end of its block with bytes beyond |
| BufferAsWritten.ParkedForEver | stateplex/core/buffer.h:825-840 | an input for which it is wrong |
| BufferAsWritten.InsertAsWritten | stateplex/core/writebuffer.h:359-363 | the right bytes are inserted if and only if a terminator follows the text directly and none is in it |
| BufferAsWritten.InsertTooMuch | stateplex/core/writebuffer.h:359-363 | an input for which too much is inserted |
| BufferRuns.SameByte | stateplex/core/buffer.h:825-953 | whatever is done, an iterator that is not advanced stays on its byte until that is popped |
| BufferRuns.Run | stateplex/core/writebuffer.h:102-363 | any sequence of appends, insertions, pushes at the push pointer, regions and pops on any number of buffers that share arrays, and of registering and advancing iterators, does to each what it does to a plain byte sequence with offsets |
| Slabs.SizeClass | stateplex/core/allocator.cpp:40-66 | every size up to the limit has a class whose 16-aligned slices hold it and waste under 128 bytes |
| Slabs.ClassOfSliceSize | stateplex/core/allocator.cpp:40-66 | the two mappings between sizes and classes are inverse on slice sizes |
| Slabs.SliceInside | stateplex/core/allocator.cpp:68-105 | a slice lies inside its block behind the header, and its block is found from its address |
| Slabs.NSlices | stateplex/core/allocator.cpp:96 | so many slices fit behind the header of a block, and one more would not |
| Slabs.BlocksYield | stateplex/core/allocator.cpp:96 | 1022 slices of the smallest class, 5 of the largest |
| Slabs.SlicedIsFewest | stateplex/core/allocator.cpp:88-141 | blocks counted as sliced are the fewest that can hold the peak, however blocks are cut |
| SlabLedger.Partition | stateplex/core/allocator.cpp:88-178 | known slices of one account do not overlap and lie aligned inside one sliced block |
| SlabLedger.NoSliceTwice | stateplex/core/allocator.cpp:127-178 | no slice is free twice, live twice, or free and live |
| Allocators.Family.AllocateBlocks | stateplex/core/allocator.cpp:73-86 | puts sixteen consecutive blocks on the tail of the free list |
| Allocators.Family.SliceBlock | stateplex/core/allocator.cpp:88-105 | turns the first free block into the slices of a class on the tail of its list, getting blocks first if there are none |
| Allocators.Family.AllocateSlice | stateplex/core/allocator.cpp:127-141 | hands out the first slice of the list, filled first only if empty, and keeps the account |
| Allocators.Family.Allocate | stateplex/core/allocator.cpp:107-113 | gives a live slice of a class that holds the size, or nothing above the limit |
| Allocators.Family.Deallocate | stateplex/core/allocator.cpp:147-153 | a live slice becomes free in whichever allocator it is given to, and keeps the account |
| Allocators.Family.DeallocateSlice | stateplex/core/allocator.cpp:164-178 | the slice goes to the head of the class's list |
| AllocatorRuns.Execute | stateplex/core/allocator.cpp:107-178 | each call takes a family from one state of a history to a next one |
| AllocatorRuns.LegalProceeds | stateplex/core/allocator.cpp:107-178 | no call that a caller may make gets stuck |
| AllocatorRuns.SlicesPartitionMemory | stateplex/core/allocator.cpp:40-178 | in every history of a family, free and live slices are pairwise disjoint, aligned, inside one block, and each known once |
| AllocatorRuns.PeakIsTracked | stateplex/core/allocator.cpp:127-178 | while there is one allocator, the peak in the account is the most slices of a class ever live at once |
| AllocatorRuns.FootprintBound | stateplex/core/allocator.cpp:88-141 | an allocator that stays alone has sliced for each class the fewest blocks that can hold its peak, however they were cut: the peak divided by the slices of a block, rounded up |
| Rotation.EveryStateSafe | stateplex/core/dispatcher.cpp:44-121 | every schedule of any number of threads keeps the invariant of lock and ownership |
| Rotation.MutualExclusion | stateplex/core/spinlock.h:69-85 | the spinlock has one holder at most, and is locked while it has one |
| Rotation.AllocatorsDistinct | stateplex/core/dispatcher.cpp:51-121 | no two dispatchers ever have the same allocator, and a dispatcher's equals the recycled one exactly between the last two assignments of its swap |
| Rotation.NoneLost | stateplex/core/dispatcher.cpp:51-121 | outside swaps every allocator made is the recycled one or some dispatcher's |
| Rotation.SwapIsAtomic | stateplex/core/dispatcher.cpp:114-121 | whatever other threads do in between, the three steps exchange the two allocators |
| Rotation.FreeLockIsTaken | stateplex/core/spinlock.h:69-85 | a thread that waits goes on exactly if the lock is free, and its test-and-set takes the lock exactly then |
| Rotation.RotationIsDone | stateplex/core/dispatcher.cpp:114-121 | from the test-and-set of a free lock, four turns of the thread exchange its allocator with the recycled one, whatever the others do in between, and one more frees the lock |
| Rotation.ConstructionIsDone | stateplex/core/dispatcher.cpp:54-57 | likewise a construction leaves an allocator to be recycled when it frees the lock: a new one exactly if there was none |
| Rotation.LockIsFreed | stateplex/core/spinlock.h:69-83 | a holder keeps the lock for at most four turns of its own, and the last frees it |
| Rotation.NoDeadlock | stateplex/core/spinlock.h:69-83 | in any state that can come about, a schedule that gives the holder its turns leads to a free lock |
| Rotation.ConstructionAlone | stateplex/core/dispatcher.cpp:44-58 | a thread alone constructs its dispatcher in five turns or six, with a new allocator of its own, and one recycled |
| Rotation.RotationAlone | stateplex/core/dispatcher.cpp:90-121 | an idle thread alone rotates in seven |
| SchedulerAccount.InOnePlace | stateplex/core/dispatcher.h:123-132 | every message sent is in exactly one of outgoing, queued, incoming and handled, once |
| SchedulerAccount.HandledInOrder | stateplex/core/actor.cpp:54-65 | per route and receiver, messages are handled in the order they were sent |
| SchedulerAccount.HandledWasSent | stateplex/core/actor.cpp:54-65 | nothing is handled that was not sent |
| SchedulerAccount.ActiveIfPending | stateplex/core/dispatcher.cpp:86-189 | between cycles, the active and outgoing lists are both empty if and only if every message is handled |
| SchedulerAccount.AllAttended | stateplex/core/dispatcher.cpp:86-111 | once a cycle has gathered its actors, each message not handled is in the mailbox of one of them |
| SchedulerAccount.PlayedFirst | stateplex/core/actor.cpp:58-62 | so many handlings take just the first so many entries of the script, or all of them |
| SchedulerAccount.AnsweredOn | stateplex/core/actor.cpp:58-62 | handlings one after the other run their handlers one after the other |
| Scheduler.Dispatcher.ActivateActor | stateplex/core/dispatcher.cpp:60-66 | an inactive actor moves to the tail of the active list; an active one stays where it is |
| Scheduler.Dispatcher.QueueMessage | stateplex/core/dispatcher.h:123-132 | the message is accounted for by its route, and its receiver will be walked |
| Scheduler.Dispatcher.MakeSends | stateplex/core/dispatcher.h:123-132 | what is sent is one message for each send asked for, with its receiver and route, in order |
| Scheduler.Dispatcher.InvokeHandler | stateplex/core/actor.cpp:60 | a handler sends just what the script has next for it |
| Scheduler.Dispatcher.HandleFirst | stateplex/core/actor.cpp:59-61 | a message counts as handled once its handler has run |
| Scheduler.Dispatcher.HandleMessages | stateplex/core/actor.cpp:54-65 | handles every message that was there, though handlers send more, and loses none of any actor; as many handlers run as messages are handled, and what is sent is what they ask for |
| Scheduler.Dispatcher.DispatchOutgoing | stateplex/core/dispatcher.cpp:89-99 | every outgoing message reaches its receiver's queue, and the receiver is active |
| Scheduler.Dispatcher.GatherActors | stateplex/core/dispatcher.cpp:101-112 | the active actors become the cycle's, and each mailbox has what was queued behind what was incoming |
| Scheduler.Dispatcher.RetireFirst | stateplex/core/dispatcher.cpp:174-184 | an actor goes to the tail of the active list if it has messages, else of the passive one |
| Scheduler.Dispatcher.HandleActive | stateplex/core/dispatcher.cpp:170-187 | every message that was due at the start of the walk is handled by its end, with a handler run for each and nothing else sent |
| Scheduler.Dispatcher.Poll | stateplex/core/dispatcher.cpp:137-149 | what is sent is what the events ask for, in order, and nothing is handled |
| Scheduler.Dispatcher.Cycle | stateplex/core/dispatcher.cpp:84-188 | each actor stays on at most one list; every message sent before the cycle is handled after it; what is sent in it is what its events ask for and then what the handlers run ask for; the poll waits, and the lock stays free, exactly if none was pending |
| Scheduler.Dispatcher.Run | stateplex/core/dispatcher.cpp:77-189 | over any cycles and events: order, at most one handling, no message left behind by a cycle, and nothing sent but what events and handlers ask for, cycle after cycle |
| Hbdp.HbdpConnection.InstantiateHttpRequest | stateplex/net/hbdpconnection.cpp:49-67 | a post in turn ends the open request and opens another, or closes; one out of turn is refused and changes nothing |
| Hbdp.HbdpConnection.HandleEnd | stateplex/net/hbdpconnection.cpp:69-77 | output that waits goes out with the open request, and as much of it is dropped as 16 bits say; the call fails exactly if there is output and no open request |
| Hbdp.HbdpConnection.Receive | stateplex/net/hbdpconnection.cpp:95-119 | output goes out at once with a fully received open request, and waits otherwise |
| Hbdp.BytesConserved | stateplex/net/hbdpconnection.cpp:49-119 | over every run the bodies of ended requests, in order, and what waits are all output if and only if no end finds 65536 bytes or more waiting; nothing waits while a request could be answered |
| Hbdp.SentTwice | stateplex/net/hbdpconnection.cpp:69-77 | a possible run of three events after which 65536 bytes have been sent and still wait |
| Hbdp.PostsCounted | stateplex/net/hbdpconnection.cpp:49-67 | one response for each accepted poll but the open one, and the serial number counts accepted posts modulo 2 to the 32 |
| Hbdp.StalePost | stateplex/net/hbdpserver.cpp:43-63 | a post changes nothing if and only if the connection is gone, or the serial is not the awaited one and it is no DELETE |
| Hbdp.OneResponse | stateplex/net/hbdpconnection.cpp:49-83 | an event makes one response at most, that of the open request, which is open no more unless the event opens another |
| Hbdp.EndedOnce | stateplex/net/hbdpconnection.cpp:79-83 | responses once made never change: later events only add others |
| Hbdp.OrderlyRuns | stateplex/net/hbdpconnection.cpp:49-93 | if every end is that of the open request, no run faults and the flag tells whether the open request has been fully received |
| Hbdp.FatalIff | stateplex/net/hbdpconnection.cpp:69-77 | a run is fatal if and only if an end is received while nothing is open and output waits |
| Hbdp.FatalSeen | stateplex/net/hbdpconnection.cpp:69-77 | an end is such if and only if every accepted poll has been answered and more was written, and kept by wide ends, than the answers hold |
| Hbdp.LateEndFaults | stateplex/net/hbdpconnection.cpp:49-77 | such a run, of two polls and a late end, in which a request is answered before it is received |
| JsonItems.Items.Destroy | stateplex/jsondb/jsonobject.cpp:26-35 | exactly the node and everything below it is gone |
| JsonItems.Items.FreeMemberValue | stateplex/jsondb/jsonobject.cpp:62-74 | a replaced container is destroyed with all below it, other values leave no trace |
| JsonItems.Items.FindMember | stateplex/jsondb/jsonobject.cpp:37-45 | finds the first member of a name |
| JsonItems.Items.SetMember | stateplex/jsondb/jsonobject.cpp:47-60 | replaces in place or appends, frees what was there, forgets its memo, and tells the observers up to the root |
| JsonItems.Items.Unset | stateplex/jsondb/jsonobject.cpp:201-212 | removes the member, as is meant, and tells the observers; a missing name changes nothing |
| JsonItems.Items.AppendElement | stateplex/jsondb/jsonarray.cpp:54-135 | the element is last, and observers are told the new length |
| JsonItems.Items.RemoveElement | stateplex/jsondb/jsonarray.cpp:142-154 | removes one element and destroys it; nothing happens beyond the length |
| JsonItems.Items.Notify | stateplex/jsondb/jsonitem.cpp:38-82 | the observers of the changed node and of each node above it are told, nearest first |
| JsonItems.ToldOnce | stateplex/jsondb/jsonitem.cpp:38-82 | each node at or above the change is told once, and no other |
| JsonItems.Items.EscapeMember | stateplex/jsondb/jsonobject.cpp:76-105 | gives the member's text, from the memo or anew, and keeps all memos coherent |
| JsonItems.Items.Send | stateplex/jsondb/jsonitem.h:110-113 | the text sent is what a printer without memos makes of the tree as it is, and only memos change |
| JsonItems.Items.SendObject | stateplex/jsondb/jsonobject.cpp:214-237 | so for objects at any depth |
| JsonItems.Items.SendArray | stateplex/jsondb/jsonarray.cpp:156-196 | and for arrays |
| JsonNodes.EditKeepsTree | stateplex/jsondb/jsonobject.cpp:47-212 | every change keeps parents and children inverse, names distinct, and no member pointing at a destroyed node |
| JsonNodes.EditFrame | stateplex/jsondb/jsonobject.cpp:47-212 | values of nodes that the changed one is no part of stay as they are |
| JsonNodes.EditAbove | stateplex/jsondb/jsonobject.cpp:47-212 | above the changed node, only the member that leads to it may change its value |
| JsonMembers.LookupWith | stateplex/jsondb/jsonobject.cpp:47-60 | setting a member gives that name that value and no other name another |
| JsonMembers.LookupWithout | stateplex/jsondb/jsonobject.cpp:201-212 | unsetting removes one name only |
| JsonMembers.NamesWith | stateplex/jsondb/jsonobject.cpp:47-60 | names stay in the order of their first insertion |
| JsonMeaning.SetMeans | stateplex/jsondb/jsonobject.cpp:128-194 | a setter sets the member in the object's value, in place or last, and leaves all else |
| JsonMeaning.UnsetMeans | stateplex/jsondb/jsonobject.cpp:201-212 | unset removes the member from the object's value |
| JsonMeaning.AppendMeans | stateplex/jsondb/jsonarray.cpp:54-135 | an append puts the value at the end of the array's value |
| JsonMeaning.RemoveMeans | stateplex/jsondb/jsonarray.cpp:142-154 | a removal drops that element from the array's value |
| JsonMeaning.ViewDistinct | stateplex/jsondb/jsonobject.cpp:37-60 | an object's value has no name twice |
| JsonMeaning.UnsetAsWrittenIff | stateplex/jsondb/jsonobject.cpp:207-212 | as written, unset gives the right value if and only if the name is not there; where it has a container, a listed member points at a node that has been destroyed, and the tree is none |
| JsonRuns.PathMeans | stateplex/jsondb/jsonobject.h:112-128 | an edit in place of the container that a path leads to is that edit at that path of the root's value |
| JsonRuns.ReachedValue | stateplex/jsondb/jsonobject.h:112-128 | a path of names and indices leads as far among the items as in the root's value, and to the same value |
| JsonRuns.EditNode | stateplex/jsondb/jsonobject.cpp:128-212 | an edit changes the root's value at its path only; one of the wrong kind, or of something missing, changes nothing |
| JsonRuns.Run | stateplex/jsondb/jsonobject.cpp:47-237 | after any sequence of edits and sends at any depth, the tree stands for a plain value so edited, and every text sent was the printed value of its moment |
| JsonRoundTrip.IntegerRoundTrip | stateplex/jsondb/jsonitem.cpp:84-89 | every integer's text reads back as that integer |
| JsonRoundTrip.DecimalRoundTrip | stateplex/jsondb/jsonitem.cpp:91-96 | the text of a decimal reads back as that decimal, with what follows left over |
| JsonRoundTrip.DecimalIffFixed | stateplex/jsondb/jsonitem.cpp:91-96 | of the texts that `%lf` makes, those of finite numbers, and no others, are decimals of RFC 8259 |
| JsonRoundTrip.StringRoundTrip | stateplex/jsondb/jsonitem.cpp:98-116 | a string without backslashes and control characters reads back as itself |
| JsonRoundTrip.RoundTrip | stateplex/jsondb/jsonobject.cpp:76-237 | the text of a clean tree, decimals included, reads back, under RFC 8259, as the tree pruned at the depth, whatever follows it |
| JsonExactness.ReadNeeds | stateplex/jsondb/jsonitem.cpp:98-116 | no text shorter than what its strings need when escaped reads as a given tree |
| JsonExactness.ReadsBackIff | stateplex/jsondb/jsonitem.cpp:84-116 | any tree reads back pruned at its depth if and only if no string sent has a backslash or control character, and each decimal sent is a number |
| JsonExactness.BackslashIsLost | stateplex/jsondb/jsonitem.cpp:98-116 | a text of one backslash is sent as something that does not read |
| Rings.ListItem.Remove | stateplex/core/list.h:181-187 | the item is alone and the others are a ring in the same order |
| Rings.ListItem.AddBetween | stateplex/core/list.h:139-145 | the links after the assignments, also if the neighbours are one item or the item itself |
| Rings.ListItem.AddBefore | stateplex/core/list.h:153-160 | from another ring, both are rings afterwards; within one, the links stay inverse if and only if the item is neither the reference nor just before it, or is alone |
| Rings.ListItem.AddAfter | stateplex/core/list.h:168-175 | the mirror image |
| RingLists.List.IsEmpty | stateplex/core/list.h:324-327 | true exactly if there are no items |
| RingLists.List.First | stateplex/core/list.h:204-207 | the first item, or null |
| RingLists.List.Next | stateplex/core/list.h:231-234 | the next item, or null at the end |
| RingLists.List.AddTail | stateplex/core/list.h:286-289 | the item is last here and no longer where it was, where the order of the others is kept |
| RingLists.List.AddHead | stateplex/core/list.h:274-277 | the item is first here and no longer where it was |
| RingLists.List.AddBetween | stateplex/core/list.h:257-265 | all items go between two neighbours of another ring and the list is empty; an empty list leaves that ring a ring |
| RingLists.List.SpliceTail | stateplex/core/list.h:314-317 | concatenates the other list, also an empty one, and empties it |
| RingLists.List.SpliceHead | stateplex/core/list.h:300-303 | puts the other list in front, also an empty one, and empties it |
| RingLists.ListIterator.constructor | stateplex/core/list.h:339-351 | starts at either end with the next item already looked up |
| RingLists.ListIterator.Advance | stateplex/core/list.h:385-392 | goes to the item looked up, and looks up the one behind it as the list is then |
| RingLists.MoveSelected | stateplex/core/dispatcher.cpp:171-187 | a walk that moves any of its items to another list on their turn visits each once, in order, and splits the list in two |

## Left out

- HttpConnections.HttpConnection.Receive: the input buffer is a byte sequence with a cursor, as `HttpBuffer` and `BufferRuns` justify.
- HttpConnections.HttpConnection.ReceiveAll: stops when the connection closes, or follows a bad pointer, where nothing is said of what happens then; runs that go on after closing are in `HttpSafety` and `HttpClosed`.
- HttpAfterError.BytesAfterError: where a newline was wanted, of a connection whose cursor is at the front, as it is if no pop was cut; otherwise `HttpClosed.ClosedFaults` says it.
- HttpConnections.HttpConnection.Process: handlers are an event log; after a parse error the handler is deleted with neither an end nor an abort, as in the code.
- BufferStorage.Storage.Pop: asks for a first block that is not empty, as `peek` reads it unchecked; lengths popped in one call are below 2 to the 16 in the source.
- BufferStorage.Storage.InsertBuffer: asks that no iterators be registered, and `insert` of part of a buffer is not modelled: unfinished in the source.
- BufferStorage.Storage.Compare: `memcmp` is taken to give -1, 0 or 1; comparing two buffers is unfinished in the source.
- BufferStorage.Storage.AppendBuffer: not to itself; a buffer of several blocks appended to itself is walked without end in the source.
- BufferStorage.Storage.Region: not into the buffer it is taken from, which would be walked while it grows.
- BufferStorage.Storage.EnsurePushLength: lengths up to the block size; for longer ones the source makes a block that is too short.
- BufferStorage.Storage.SplitBlock: asks that no iterators be registered, which the source does not move with the block that is cut.
- BufferStorage.Storage.InsertText: so does this, for the same reason.
- Byte arrays, blocks and buffers are entries of the fields of one class, and reference each other by position; freeing an array at count 0 and the identity of block objects are not modelled.
- `offsetOf`, `split` and `asString` of a part: unfinished, by their own TODO marks.
- Allocators.Family.Allocate: sizes above the limit are a stub in the source, and give nothing; the result of `posix_memalign` is a parameter, which must be aligned and new.
- Scheduler.Dispatcher.Cycle: timeouts are left out (the source re-inserts an actor that is still linked), so are actors that die, and messages to another dispatcher, which the source activates on the sender's.
- Scheduler.Dispatcher.HandleMessages: handlers send what a finite script says and nothing after it; a handler that always answers itself keeps the source's loop going for ever.
- Scheduler.Dispatcher.QueueMessage: lists of actors and messages are sequences here; that list items can be moved while a list is walked is proved in `RingLists`.
- Hbdp.HbdpConnection.HandleEnd: requests are byte sequences without their status line and headers; a request's end after its connection was deleted is not modelled.
- RingLists.List.AddTail: of an item of another list; for one that is on this list `Rings.ListItem.AddBefore` has the exact condition.
- RingLists.List.AddHead: likewise, with `Rings.ListItem.AddAfter`.
- JsonItems.Items.SetMember: the setters are one method with the value as a parameter; nodes are entries of a map and memos are kept beside them; observers react in no way, and are not told of a deletion.
- JsonExactness.ReadsBackIff: a decimal is the text that `%lf` makes of it, here any text; what digits that gives a number, and that they fit the 128 bytes of `escape`, is not modelled. The reader does not decode \uXXXX, which the printer never writes of itself.
- Sockets, epoll, sources, TCP, factories, method pointers: plumbing.
- `String` and `Array` length prefixes: text is a plain sequence.
- The older `stateplex/json` tree, filters, `Bitset`, examples: thin or superseded.
