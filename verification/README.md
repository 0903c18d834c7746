# The streaming data path of an HTTP/1.1 server

A request enters this server as a byte stream that `read()` cuts wherever it likes, and may leave it again, before it
is complete, as the standard input of a CGI program whose output streams back to the client. Four parts of that path
are modelled here as state machines. Their meaning is not to depend on how the bytes are cut; the proofs say where
that holds and, where it does not, what depends on the cut:

1. **The incremental request parser** (`RequestSpec`, `HttpRequest`, `RequestLaws`, `HeadLaws`, `RoundTrip`). The
   object `HTTPRequest` parses in place; it is proved to compute a pure machine `Parse`, and that machine is proved
   independent of fragmentation and inverse to printing a request, for Content-Length and for chunked bodies with the
   body limit. `BodyLimit` says how far a body can pass its limit. `HeaderGating` adds the gate in front of the parser,
   which picks the limit before anything is parsed, and what becomes of a request afterwards; `Pipelining` is about
   several requests on one connection, `HeadDecides` about what a head decides, and `LateCheck` about the last checks
   before a request is served.
2. **The second chunked decoder and the handoff to it** (`DecoderSpec`, `ChunkDecoder`, `Handoff`). A chunked request
   bound for a CGI moves, half parsed, from one decoder to a separately written one.
3. **The CGI relay** (`OutputSpec`, `OutputLaws`, `OutputRelay`, `InputSpec`, `InputLaws`, `InputOrder`,
   `InputRelay`, `PendingBuffer`, `CgiResponse`). Both halves of one exchange are transition systems: the poll handlers are methods
   on objects, and safety, memory and delivery are proved over every run. `ChunkedUpload`, `UploadDelivery`,
   `CgiRoundTrip` and `ClientView` put the pieces together: an upload arrives at the CGI under every schedule, and a
   client reads off its connection what the lines a CGI printed mean. `Witnesses` holds streams on which the whole does less than its parts promise.
4. **Algorithms with a specification of their own** (`Routing`, `Paths`).

Every object method is proved equal to a function on values (`ensures Value() == …`); the laws are then proved about
those functions. `Bytes` and `Numbers` hold the string searches and the numerals. What the kernel answers to a
sequence of reads or writes is a script given to the handler, so a theorem over all scripts covers every interleaving
and every fragmentation. Bookkeeping of what was read, sent, accepted and written is a ghost log.

## What the proofs found

- Chunk sizes are computed modulo 2^64 in both decoders (`SizeExactBelow2To64`, `SizeWraps`): the numeral for 2^64 is
  taken for the last chunk.
- The two decoders differ on size fields. `HTTPRequest` trims blanks and rejects an empty field; `Client` rejects
  blanks and reads an empty field as zero. The handoff is faithful exactly on streams that meet no such field
  (`HandoffExact`, `HandoffOverStream`).
- A chunked request that is already complete when it is dispatched is read correctly, but its end is not announced to
  the CGI: over every run, stdin is ended only when the client or the pipe goes, or when a blank line comes after the
  end of the request (`CompleteDispatchEnds`, `CompleteDispatchHangs`). The seeding at `src/Server.cpp:842-869` is
  written for partial parses, but is reached with complete ones.
- New input is written straight to the CGI's pipe even if older bytes are still pending, so bytes can overtake each
  other (`OrderLostOnAStream`). Their number and multiset are always right; their order holds all through a run if and
  only if every write that goes ahead of pending bytes commutes with them (`OrderOverRuns`).
- Content-Length input is not cut at the announced length. Every byte read from dispatch on goes to the CGI, in the read
  that ends the body and in later ones, as long as stdin waits for the pipe (`CgiIsFedTheBody`, `ExtraOnAStream`): just
  the body if and only if nothing came after it. Of a request that is complete at dispatch, what was read behind it
  with its head is dropped, while what is read later is given to the CGI (`CompleteFixedDispatch`).
- An answer throws away what was read behind its request (`DiscardedExactly`), so the number of answers depends on the
  cut: two requests in one read have one answer, in two reads they have two (`CutDecidesOnAnswers`). A stream of requests
  is answered request by request if and only if every request ends where a read ends (`AllAnsweredExactly`).
- The limit on a chunked body is tested only when a chunk ends. A body can pass it by the size of one chunk and no more
  (`OvershootWithinChunk`), and does so whenever the stream is cut there (`MidChunkUnchecked`). After dispatch there is no
  limit: the CGI is given the body the parser would have read without a limit (`CgiIsFedTheBody`, `ChunkedUploadArrives`).
- A failed decode is not sticky. Two calls give what one call gives if and only if the first succeeds or fails where
  CRLF was due after chunk data (`SplitExactly`); after a bad size line the next call can succeed (`FailureForgotten`).
- When a decode fails, what the CGI was given depends on the cut: the failing read is dropped together with the bytes it
  had decoded before the bad one (`FailureDropsLastRead`, and `CutDecidesOnFailure` for a stream that gives nothing or
  "a"). The bytes a failed decoder still holds can be emitted later, past the bound on pending input
  (`BoundIsBroken`); what then bounds them is in `InputBackPressure`.
- POLLHUP makes the server read CGI output even with POLLIN switched off for back-pressure. Delivery is not affected
  (`EveryScheduleDelivers`); memory is, beyond any bound (`HangupsBreakBound`), by no more than those reads
  (`MemoryBoundWithHangups`).
- The plain branch of `handle_poll_output` drops the client on any send that takes nothing, would-block included
  (`FullSocketDrops`). Over every run without failing sends, a client is dropped if and only if that happens, and then
  the CGI had ended without a CRLFCRLF and the reply was built at the end (`DroppedExactly`): an exchange whose CGI
  prints a CRLFCRLF is never cut off (`EveryScheduleDelivers`).
- The Content-Length test of `handle_request` is dead for requests that are not chunked (`LateCheckNeedsChunked`), and
  alive for chunked ones that carry a Content-Length too (`LateCheckFiresOnChunked`).

The hypotheses of the main theorems can be met: `ChunkedIsValid` and `ThreeBytesIsValid` give printed requests,
`BodylessIsWhole`, `FixedIsWhole` and `ChunkedIsWhole` whole ones, and `SomeoneCanPick` and `SomeoneCanChoose` schedulers.

## Model

| member | source | states |
|---|---|---|
| HttpRequest.HTTPRequest.constructor | src/HTTPRequest.cpp:543-552 | a new parser is the fresh machine without a limit |
| HttpRequest.HTTPRequest.SetMaxBodySize | src/HTTPRequest.cpp:520-523 | changes the limit and nothing else |
| HttpRequest.HTTPRequest.Reset | src/HTTPRequest.cpp:526-540 | whatever came before, the parser is as new |
| HttpRequest.HTTPRequest.Parse | src/HTTPRequest.cpp:15-70 | in every field the object becomes what the machine `Parse` makes of it, and true is returned exactly when the request is complete |
| HttpRequest.HTTPRequest.ParseRequestLine | src/HTTPRequest.cpp:73-121 | success is one step of the machine; otherwise the parser is where the machine stops, failed or out of bytes |
| HttpRequest.HTTPRequest.SplitRequestLine | src/HTTPRequest.cpp:89-120 | takes the line apart at its first two spaces; any empty part is an error |
| HttpRequest.HTTPRequest.ParseHeaders | src/HTTPRequest.cpp:123-171 | success leaves the machine's run at the end of the head; otherwise the parser is where the machine stops |
| HttpRequest.HTTPRequest.StoreHeader | src/HTTPRequest.cpp:141-168 | stores the lower-case name with the trimmed value; a line without a colon is an error |
| HttpRequest.HTTPRequest.ParseBody | src/HTTPRequest.cpp:194-236 | true exactly when the run of the machine from here completes, and then with the same fields |
| HttpRequest.HTTPRequest.ParseFixedBody | src/HTTPRequest.cpp:201-235 | the same for Content-Length bodies: limit first, then as many bytes as are still needed |
| HttpRequest.HTTPRequest.ParseChunkedBody | src/HTTPRequest.cpp:246-272 | the same for chunked bodies, through all four chunk states |
| HttpRequest.HTTPRequest.ParseChunkSize | src/HTTPRequest.cpp:307-361 | success is one step of the machine; otherwise the parser is where the machine stops |
| HttpRequest.HTTPRequest.ReadChunkSize | src/HTTPRequest.cpp:318-360 | drops the extension, trims, rejects an empty or non-hex field, and a zero size goes to the trailers |
| HttpRequest.HTTPRequest.ParseChunkData | src/HTTPRequest.cpp:363-391 | takes the rest of the chunk or all there is; the limit is tested at the end of a chunk only |
| HttpRequest.HTTPRequest.ParseChunkDataCrlf | src/HTTPRequest.cpp:393-413 | after chunk data comes CRLF and nothing else |
| HttpRequest.HTTPRequest.ParseChunkTrailers | src/HTTPRequest.cpp:415-442 | trailer lines are dropped, and the empty line completes the request |
| Numbers.ParseHexString | src/HTTPRequest.cpp:274-305 | accepts exactly the strings of hex digits and yields the number they denote modulo 2^64 |
| Numbers.HexDigitExactly | src/HTTPRequest.cpp:274-305 | the sixteen digits in either case have their values, and no other character has one |
| Numbers.AtolOfDec | src/HTTPRequest.cpp:201-204 | a printed length below 2^63 is read back exactly |
| Numbers.AtolReads | src/HTTPRequest.cpp:201-204 | a numeral is read behind white space and a sign up to the first other character, bounded to the range of long |
| RoundTrip.SizeExactBelow2To64 | src/HTTPRequest.cpp:274-361 | a chunk size is taken for what it says if and only if it is below 2^64 |
| RoundTrip.SizeWraps | src/HTTPRequest.cpp:274-361 | the numeral for 2^64 is read as the size of the last chunk |
| RequestLaws.StepCommutes | src/HTTPRequest.cpp:15-70 | a step taken before more bytes arrive is still right after they have |
| RequestLaws.SplitInvariance | src/HTTPRequest.cpp:15-70 | parsing a, then b, is parsing a+b, in every field including error, limit flag and left-over buffer |
| RequestLaws.FragmentationInvariance | src/HTTPRequest.cpp:15-70 | every fragmentation of a byte stream gives the same request |
| RequestLaws.RunSettles | src/HTTPRequest.cpp:15-70 | `parse` leaves nothing undone: running on without new bytes changes nothing |
| RequestLaws.BodyGrows | src/HTTPRequest.cpp:194-236 | bytes once in a body stay there, in order |
| HeadLaws.RunSound | src/HTTPRequest.cpp:57-66 | every reachable request keeps the parser's invariant: coding flag, chunk state, body against length and limit |
| HeadLaws.GateAgreesWithParser | src/Client.cpp:156-159 | unless a head line is malformed, the head is over exactly when the stream holds CRLFCRLF, and what follows its first occurrence is the body |
| HeadLaws.ContentLengthAccounting | src/HTTPRequest.cpp:194-236 | after any fragmentation, body and buffer are together exactly what followed the head; a complete body has its announced length and is within the limit |
| HeadLaws.FixedBodyConserves | src/HTTPRequest.cpp:201-235 | reading a Content-Length body only moves bytes from the buffer to the body |
| HeadLaws.CompleteWithinLimit | src/HTTPRequest.cpp:363-391 | every complete request is within the limit, and so is a chunked body between chunks |
| BodyLimit.OvershootWithinChunk | src/HTTPRequest.cpp:363-391 | after any fragmentation of any beginning of a printed chunked request, the body is a beginning of the data that goes no further than the first chunk past the limit, so it exceeds the limit by at most that chunk |
| BodyLimit.MidChunkUnchecked | src/HTTPRequest.cpp:363-391 | cut inside any chunk that follows chunks within the limit, and all of it that has come is in the body, with no error, whatever the limit |
| RoundTrip.HeadParses | src/HTTPRequest.cpp:73-171 | a printed request line and header fields are read back, names in any letter case and values in any padding, under the lower-case name, leaving what follows to the body |
| RoundTrip.RequestLineExactly | src/HTTPRequest.cpp:89-120 | a request line is good if and only if it is three parts, none empty, the first two without a space |
| RoundTrip.HeaderLineExactly | src/HTTPRequest.cpp:141-153 | a header line is bad if and only if it has no colon |
| RoundTrip.ChunkedExactly | src/HTTPRequest.cpp:173-192 | the coding is chunked if and only if the word chunked stands in the value of transfer-encoding, in any letter case |
| RoundTrip.HasBodyExactly | src/HTTPRequest.cpp:173-192 | a request has a body if and only if it is chunked or has a content-length |
| Bytes.LowerIsSpelling | src/HTTPRequest.cpp:155-157 | a name has a lower-case one as its key if and only if it is that name with some letters capital |
| Bytes.TrimPadded | src/HTTPRequest.cpp:158-166 | blanks and tabs on either side of a value are what is trimmed |
| RoundTrip.ContentLengthRoundTrip | src/HTTPRequest.cpp:73-236 | print then parse, under every fragmentation and limit: the same request, suffix left in the buffer, or the too-large error with no body byte taken, exactly by the limit |
| RoundTrip.BodylessRoundTrip | src/HTTPRequest.cpp:173-192 | a request that announces no body is complete at its blank line, all after it left in the buffer |
| RoundTrip.ChunkedRoundTrip | src/HTTPRequest.cpp:246-442 | chunks in any hex case, with extensions and trailers, under every fragmentation: complete with the concatenated data exactly if it is within the limit, else too large at the first chunk that passes it |
| RoundTrip.Fit | src/HTTPRequest.cpp:382-388 | which chunk is the first to pass the limit: all before it fit, with it they do not |
| RoundTrip.Encode | src/HTTPRequest.cpp:246-442 | every sequence of non-empty parts has a valid coding of their concatenation, so the round trip is about something |
| ChunkDecoder.CgiChunkDecoder.Init | src/Client.cpp:395-419 | the four chunk states by number, anything else as a size line; the buffer is emptied |
| ChunkDecoder.CgiChunkDecoder.ParseSize | src/Client.cpp:445-460 | the fused hex loop accepts exactly hex strings, the empty one included, and agrees with the other decoder's value modulo 2^64 |
| ChunkDecoder.CgiChunkDecoder.Turn | src/Client.cpp:432-508 | one turn of the loop is one move of the decoder machine |
| ChunkDecoder.CgiChunkDecoder.Decode | src/Client.cpp:424-511 | a call leaves the state, output and both flags that the decoder machine gives |
| DecoderSpec.DecodeSplit | src/Client.cpp:424-511 | if the first call succeeds, two calls give what one call on both pieces gives: state, output, result, and `eof` for a non-empty second piece |
| DecoderSpec.SplitExactly | src/Client.cpp:424-511 | two calls give the state, output and result of one call on both pieces if and only if the first succeeds or fails where CRLF was due |
| DecoderSpec.FailureForgotten | src/Client.cpp:441-464 | after the bad size line zz a second call succeeds and emits, where one call on the same bytes fails and emits nothing |
| DecoderSpec.FailureLeaves | src/Client.cpp:424-511 | a first failure leaves the decoder stuck at a missing CRLF, or holding no more than the bytes just read |
| DecoderSpec.EofMeansDone | src/Client.cpp:424-511 | on input, a successful call reports the end exactly when the decoder is done |
| DecoderSpec.DrainIdles | src/Client.cpp:424-511 | a successful call leaves nothing in the buffer that could be taken in |
| DecoderSpec.EmissionBound | src/Client.cpp:424-511 | a call emits no more bytes than it was given, whatever was buffered before |
| Handoff.StepSimulates | src/Client.cpp:430-511 | inside a chunked body a step of the parser is the same step of the decoder |
| Handoff.DisagreementShows | src/Client.cpp:441-464 | an empty or blank-padded size field makes the two decoders part: one fails where the other goes on |
| Witnesses.PaddedSizeParts | src/HTTPRequest.cpp:327-337 | from a stream: a padded last size completes the request in the parser and fails in the decoder |
| Witnesses.EmptySizeParts | src/Client.cpp:441-464 | from a stream: an empty size fails in the parser and ends the body in the decoder |
| Handoff.HandoffExact | src/Server.cpp:842-869 | seeded from the parser, the decoder emits the rest of the body and ends or fails where the parser would, if and only if every size line met is non-empty and not a padded numeral |
| Handoff.DecodeAllJoins | src/Client.cpp:424-511 | decoding call by call until a failure emits what decoding all at once emits, with the same result and, if good, the same state |
| Handoff.HandoffOverStream | src/Server.cpp:842-869 | the same equivalence for a request handed over in mid-body and later reads cut in any way |
| Handoff.ReachableReadsChunks | src/Server.cpp:1193-1220 | every chunked request that can be handed over in mid-body is one the handoff theorems are about |
| Handoff.CompleteHandoff | src/Server.cpp:842-869 | for a request already complete the decoder adds no byte, and reports the end if and only if what follows the request holds a blank line |
| Handoff.CompleteHandoffHangs | src/Server.cpp:842-869 | with nothing after a complete request, the decoding done at dispatch does not report its end |
| HeaderGating.Connection.constructor | src/Client.cpp:3-23 | a new connection has nothing buffered and a fresh request |
| HeaderGating.Connection.ReadLimit | src/Server.cpp:1135-1150 | the limit of the route that the first line's target selects, or the server's |
| HeaderGating.Connection.Feed | src/Server.cpp:1127-1162 | buffers until CRLFCRLF, then sets the limit and parses all of it, then only new bytes; true exactly when the request is complete |
| HeaderGating.Connection.RunsCgi | src/Server.cpp:1193-1220 | true exactly when the best route for the target has a CGI extension that the path ends with, and allows the method |
| HeaderGating.Connection.Clear | src/Client.cpp:161-166 | after an answer the connection is as new |
| HeaderGating.Connection.Read | src/Server.cpp:1108-1265 | a bad request is answered and reading stops, a request for a CGI is handed over at once, a complete one is answered and the next begins |
| HeaderGating.PeekIsTarget | src/Server.cpp:1135-1150 | for a valid request line the URI peeked at in the raw bytes is the target the parser finds, without its query |
| HeaderGating.GatedConnection | src/Server.cpp:1108-1265 | under every fragmentation the stream falls into stretches, one for each answered request and one for the current, one behind the other; each request is one parse of its own stretch, begun exactly when that holds CRLFCRLF and never in its head from then on, under the limit its own target selects |
| RequestLaws.RunWithout | src/HTTPRequest.cpp:15-70 | a complete request is the same without the bytes it left unread |
| Pipelining.DiscardedExactly | src/Client.cpp:161-166 | the stretch of an answered request is that request, whole, and behind it the bytes left in its buffer: just those are thrown away |
| Pipelining.RequestAnswered | src/Server.cpp:1230-1265 | however it is cut, a whole request is answered when its last byte is read, and the connection is as new |
| Pipelining.CutDecidesOnAnswers | src/Server.cpp:1230-1265 | for every whole request: twice in one read it has one answer, in two reads two |
| Pipelining.AllAnsweredExactly | src/Server.cpp:1108-1265 | a stream of whole requests cut in any way: each is answered from its own bytes if and only if each ends where a read ends |
| Pipelining.BodylessIsWhole | src/HTTPRequest.cpp:173-192 | a printed request without a body is a whole one |
| Pipelining.FixedIsWhole | src/HTTPRequest.cpp:201-235 | and so is one with a Content-Length body within the limit |
| Pipelining.ChunkedIsWhole | src/HTTPRequest.cpp:246-442 | and one with a chunked body within the limit |
| HeaderGating.LimitIsOwn | src/Server.cpp:1135-1150 | a request that is not malformed is read under the limit its own target selects |
| HeaderGating.DispatchOnHeadRead | src/Server.cpp:1193-1220 | a connection hands its request over on the read that completes the head, with less of its body than that read |
| HeadDecides.PrintedGate | src/Client.cpp:156-159 | the gate opens just behind a printed head |
| HeadDecides.PrintedHeadDecides | src/Server.cpp:1108-1265 | a printed head decides, whichever read completes it: with `b` the best route for the path asked for, with a query or without, the request is parsed under that route's limit or else the server's; it is refused if bad, handed over if the route has a CGI extension that the path ends with and allows the method, answered if complete, and read on otherwise |
| LateCheck.RefusedExactly | src/HTTPHandler.cpp:103-167 | the answer is the late 413 exactly if the slash redirect, the missing route, the route redirect and the method check let the request through and its Content-Length is over the limit |
| LateCheck.ReplyExactly | src/HTTPHandler.cpp:103-167 | the answer in full for a path with a query or without: slash redirect, 404, the route's redirect, 405, 413 or served, each by the best route and its own data |
| LateCheck.LateCheckNeedsChunked | src/HTTPHandler.cpp:151-167 | on no connection is a complete request that is not chunked answered with the late 413 |
| LateCheck.LateCheckFiresOnChunked | src/HTTPHandler.cpp:103-167 | a printed chunked request within its limit is, however it is cut, the one answered request, read in full, and the answer is 413 exactly if the earlier checks let it through and its Content-Length is above a positive limit |
| HeaderGating.DispatchVolume | src/Server.cpp:1127-1162 | body and buffer of a request whose head has just been completed are shorter than the read that completed it |
| PendingBuffer.Pending.Append | src/Client.cpp:266-269 | appends to the pending bytes |
| PendingBuffer.Pending.Size | src/Client.cpp:281-286 | the number of pending bytes |
| PendingBuffer.Pending.Peek | src/Client.cpp:276-279 | the pending bytes, in order |
| PendingBuffer.Pending.Consume | src/Client.cpp:293-306 | removes bytes from the front, compacting or not |
| PendingBuffer.CompactingIsFifo | src/Client.cpp:348-383 | any allowed run of appends and consumes is a plain queue, with the offset below 1 MiB and storage less than 1 MiB above what is pending |
| CgiResponse.TurnOfLoop | src/HTTPHandler.cpp:655-665 | a turn of either loop takes the line at its position, across CRLF, LF and a missing last line end |
| CgiResponse.ReadStreamedLine | src/HTTPHandler.cpp:742-780 | one line of the streaming loop does to response and reason what the line stands for |
| CgiResponse.ReadBatchLine | src/HTTPHandler.cpp:660-713 | and so does one line of the batch loop, a second text in the source |
| CgiResponse.ParseCgiHeaders | src/HTTPHandler.cpp:726-784 | the streaming loop yields the response the header section stands for |
| CgiResponse.ParseCgiResponse | src/HTTPHandler.cpp:619-722 | splits at the first CRLFCRLF, else the first LF LF, else there is no response but the 500 page; the batch loop yields the response the section stands for |
| CgiResponse.SetGets | src/HTTPResponse.cpp:56-59 | a header that was set is there |
| CgiResponse.SetKeepsOthers | src/HTTPResponse.cpp:56-59 | and setting it disturbs no other |
| CgiResponse.StreamingAgreesWithBatch | src/HTTPHandler.cpp:619-784 | streaming and batch readers give the same status, the same body and the same headers, but for Content-Length, which the batch reader sets to the length of the body |
| CgiRoundTrip.SectionReads | src/HTTPHandler.cpp:655-713 | reading printed CGI lines, ended by CRLF or LF and padded in any way, applies them in order: each name gets its value, a status line its code and its reason or the last one, and a line without a colon does nothing |
| CgiRoundTrip.AtoiWraps | src/HTTPHandler.cpp:697-709 | a status code is the low 32 bits of its numeral, as a signed number |
| CgiRoundTrip.AtoiOfInt | src/HTTPResponse.cpp:49-54 | and it is printed so that reading it gives it back |
| CgiRoundTrip.CgiOutputRoundTrip | src/HTTPHandler.cpp:619-784 | print a header section and a body: both readers find exactly those lines and that body, so the client is owed the header built from them and the body |
| CgiRoundTrip.LfOutputRoundTrip | src/HTTPHandler.cpp:628-641 | print with line feeds only and no CRLFCRLF in it: the batch reader finds exactly those lines and that body |
| ClientView.SetIsUpdate | src/HTTPResponse.cpp:56-59 | setting a header keeps the keys in order, each once, and is the update of a map |
| ClientView.ResponseSeen | src/HTTPResponse.cpp:77-116 | a client that reads the text of a response line by line finds its status, its fields and the body |
| ClientView.StreamedResponse | src/Server.cpp:373-407 | a client sees of a streamed response the last status its lines give, the last value of every field, Connection: close, and the body |
| ClientView.CollectedResponse | src/Server.cpp:471-500 | and of one with line feeds only the same with the length of the body |
| ClientView.NoResponse | src/Server.cpp:471-500 | of output without a blank line: status 500, the page and its length and type, and Connection: close |
| ClientView.StreamedIsSeen | src/Server.cpp:342-527 | under every scheduler a client has received what it sees as that response when the exchange ends |
| ClientView.CollectedIsSeen | src/Server.cpp:471-527 | and one whose CGI prints line feeds only, unless a full socket dropped it |
| CgiRoundTrip.ResponseReachesClient | src/Server.cpp:342-527 | and under every scheduler that is what the client has received when the exchange ends |
| OutputRelay.CgiOutputRelay.constructor | src/Client.cpp:185-204 | an exchange starts with nothing collected, nothing pending and stdout polled |
| OutputRelay.CgiOutputRelay.Receive | src/Server.cpp:370-423 | collect header bytes, or stream body bytes, and poll the client for writing |
| OutputRelay.CgiOutputRelay.SendHeader | src/Server.cpp:379-407 | queue the header and whatever body bytes came with it, in that order |
| OutputRelay.CgiOutputRelay.HandleCgiOutput | src/Server.cpp:342-469 | for any sequence of read results the bounded loop leaves the state `ReadLoop` gives, at once after throttling, would-block or the end |
| OutputRelay.CgiOutputRelay.FinalizeCgi | src/Server.cpp:471-527 | ends the CGI; without a header sent the reply is made from all the output |
| OutputRelay.CgiOutputRelay.HandlePollOutput | src/Server.cpp:1267-1395 | for any sequence of send results, streaming or plain, the state `Writable` gives |
| OutputRelay.CgiOutputRelay.FlushPending | src/Server.cpp:1292-1358 | the bounded send loop, with its rest, disconnect and error exits |
| OutputRelay.CgiOutputRelay.Deliver | src/Server.cpp:1329-1354 | takes sent bytes off the front and polls stdout again once pending is below the limit |
| OutputLaws.CallKeeps | src/Server.cpp:342-527 | every handler call keeps the output invariant: conservation, bounded buffering, no lost wakeup |
| OutputLaws.OutputConservation | src/Server.cpp:360-466 | over every run, cut off or not: sent plus pending is the built header plus all output after the first CRLFCRLF; before the header, no CRLFCRLF was read; a client removed in good order has received exactly the expected reply |
| OutputLaws.FullSocketDrops | src/Server.cpp:1360-1380 | a CGI that ends without a word and a full socket: the client is dropped with nothing sent |
| OutputLaws.DroppedExactly | src/Server.cpp:1360-1380 | over every run without failing sends: the client is dropped if and only if a send of the plain reply takes nothing; then no header had been sent, no CRLFCRLF was read, and a part of the reply is missing |
| OutputLaws.NoLostWakeup | src/Server.cpp:399-433 | over every run: pending bytes or a finished CGI mean POLLOUT is on; an active CGI is polled unless pending is at the limit with POLLOUT on, and a finished one never |
| OutputLaws.MemoryBound | src/Server.cpp:424-434 | over every run without hang-up reads: pending is at most one read above the limit, or what the header-completing read left |
| OutputLaws.MemoryBoundWithHangups | src/Server.cpp:309-320 | over every run: that bound, and what was read on hang-up with POLLIN off; and while POLLIN is on no more than the limit is pending |
| Witnesses.HangupsBreakBound | src/Server.cpp:309-320 | for every amount there is a run with hang-up reads that has that much more pending than the bound without them |
| OutputLaws.FairReading | src/Server.cpp:364-366 | one call reads fewer bytes than the fair share plus one buffer |
| OutputLaws.FairSending | src/Server.cpp:1296-1298 | one call sends less than the fair share plus its largest send |
| OutputLaws.ReadsOn | src/Server.cpp:364-436 | one call reads all there is, unless it has had its share or more than the limit is pending |
| OutputLaws.SendsOn | src/Server.cpp:1296-1358 | and sends on until nothing is pending, it has had its share or the socket takes no more |
| OutputLaws.PausesExactly | src/Server.cpp:424-433 | a call on POLLIN stops the polling of stdout if and only if it leaves more pending than the limit |
| OutputLaws.ResumesExactly | src/Server.cpp:1333-1353 | and sending resumes it if and only if it brings what is pending below the limit |
| OutputLaws.AdvanceProgresses | src/Server.cpp:1298-1355 | every single move, hang-up reads and blocked replies among them, decreases unread output, activity, unsent bytes, write interest and the connection, lexicographically |
| OutputLaws.SomeTick | src/Server.cpp:510-525 | while the client is connected some move is enabled other than a hang-up read or a blocked reply |
| OutputLaws.SomeoneCanPick | src/Server.cpp:510-525 | so there are schedulers |
| OutputLaws.EveryScheduleDelivers | src/Server.cpp:1288-1395 | whatever enabled moves a scheduler picks, an exchange with finite output ends; the client has then received exactly the reply that output stands for, unless it was dropped with a part of it, which only a blocked reply to output without CRLFCRLF can do |
| OutputLaws.ReadLoopIsMoves | src/Server.cpp:342-469 | a handler call on the CGI's output, on POLLIN or on hang-up, is a sequence of those moves |
| OutputLaws.SendLoopIsMoves | src/Server.cpp:1292-1358 | so is a call of the streaming send loop, if no send fails |
| OutputLaws.WritableIsMoves | src/Server.cpp:1267-1395 | and a handler call on the client's socket in either mode, blocked ones included, if its sends do not fail |
| InputRelay.CgiInputRelay.Dispatch | src/Server.cpp:812-928 | seeds the decoder, writes what there is of the body, keeps the rest and ends the input if the body is over |
| InputRelay.CgiInputRelay.DecodeLeftover | src/Server.cpp:842-869 | the parser's left-over bytes go through the seeded decoder |
| InputRelay.CgiInputRelay.Forward | src/Server.cpp:1014-1049 | writes straight to the pipe and keeps what does not fit, polling stdin for it |
| InputRelay.CgiInputRelay.Accept | src/Server.cpp:979-1101 | one read in either mode, with the end-of-body tests of both |
| InputRelay.CgiInputRelay.AcceptRaw | src/Server.cpp:1005-1101 | Content-Length mode: all is forwarded and counted, and the input ends at the announced length |
| InputRelay.CgiInputRelay.AcceptDecoded | src/Server.cpp:986-1077 | chunked mode: failure raises the end flag and forwards nothing of that call |
| InputRelay.CgiInputRelay.HandleClientRead | src/Server.cpp:943-1106 | for any sequence of read results, with any room in the pipe, the state `ClientLoop` gives |
| InputRelay.CgiInputRelay.FlushPending | src/Server.cpp:553-572 | the bounded write loop |
| InputRelay.CgiInputRelay.HandleCgiStdinWritable | src/Server.cpp:531-606 | flush, then close on end of input, or poll the client again below the limit and rest when empty |
| InputLaws.InCallKeeps | src/Server.cpp:531-606 | every handler call keeps the input invariant: accounting, ends, wakeups, bounds |
| InputLaws.DispatchKeeps | src/Server.cpp:812-928 | the invariant holds at dispatch of any request the parser has settled past its head |
| InputLaws.InputAccounting | src/Server.cpp:943-1102 | over every run: written and pending bytes are exactly those accepted, in order unless a write overtook pending bytes; open with the end flagged means bytes are pending; open without it means the body is not over, and the end means it is, but for a failure, a break or the client's end; closed means nothing is left; the client's end and a failed decode flag the end or close, and a broken pipe is closed |
| InputLaws.OrderKeptExactly | src/Server.cpp:1014-1023 | a write ahead of pending bytes keeps the order if and only if the two pieces commute |
| InputOrder.OrderOverRuns | src/Server.cpp:1014-1023 | over a run, order holds at every point if and only if every overtaking write commutes with what was pending |
| InputOrder.RunsInOrder | src/Server.cpp:812-1106 | and so for every run of an exchange from dispatch on |
| InputLaws.OrderCanBeLost | src/Server.cpp:1014-1023 | from a three-byte body with one byte pending, the second byte reaches the CGI before the first |
| Witnesses.OrderLostOnAStream | src/Server.cpp:1014-1023 | and that happens to a request parsed from a stream |
| InputLaws.InputBackPressure | src/Server.cpp:947-957 | over every run: pending is at most one read above the limit (or what dispatch brought), also after a failure at a missing CRLF; after one at a size line, pending and buffered bytes exceed that by no more than was read since; a paused client means pending at the limit with stdin polled |
| InputLaws.InputMemory | src/Server.cpp:947-957 | from the stream on: dispatched on the read that completes the head, pending keeps the limit plus one read, with the same allowance after a bad size line |
| Witnesses.BoundIsBroken | src/Server.cpp:947-1003 | a run from a stream in which a bad size line, with bytes pending, puts more than that pending |
| InputLaws.FlushProgresses | src/Server.cpp:553-583 | a flush that writes anything leaves less pending, and the last one after the end closes stdin |
| InputLaws.CgiIsFedTheBody | src/Server.cpp:943-1102 | over every run after a handoff in mid-body: decoding has failed exactly when the parser would have; if not, the bytes accepted for the CGI are the body it would have read without a limit (by Content-Length, with all that was read after it), and stdin ends exactly when that body does, in either mode |
| InputLaws.CompleteFixedDispatch | src/Server.cpp:827-903 | over every run from a request that is complete at dispatch and not chunked: the CGI is given its body and then what is read later, the end is flagged or stdin closed from the start, and closed with nothing pending |
| Witnesses.ExtraOnAStream | src/Server.cpp:1079-1101 | a run from a stream: three bytes announced and six given to the CGI, the last three by a read after the end was flagged |
| InputLaws.FailureDropsLastRead | src/Server.cpp:986-1003 | over every run in which decoding fails: accepted by then is what the reads before the failing one decoded to, a beginning of the parser's own body, which is that and what the failing read had decoded and dropped; nothing is added later after a failure at a missing CRLF |
| Witnesses.CutDecidesOnFailure | src/Server.cpp:986-1003 | the same bytes from a stream: in one read the CGI is given nothing, in two it is given one byte |
| UploadDelivery.NextMovesOn | src/Server.cpp:531-606 | every productive event decreases bytes to read, stdin open, bytes pending and idle polling, lexicographically |
| UploadDelivery.SomeCall | src/Server.cpp:585-604 | while stdin is open, an event that is polled for gets something done |
| UploadDelivery.SomeoneCanChoose | src/Server.cpp:585-604 | so there are schedulers |
| UploadDelivery.EveryUploadArrives | src/Server.cpp:812-1106 | for every request handed over, in mid-body or complete, whose end is still sent (for a complete chunked one, a blank line): whatever productive events a scheduler picks, stdin is closed with nothing pending, every accepted byte written, and accepted the whole body: just that in chunked mode, that and what was read behind it by Content-Length |
| InputLaws.FairTaking | src/Server.cpp:946-948 | one call takes fewer bytes from the client than the fair share plus one buffer |
| InputLaws.FairWriting | src/Server.cpp:556-558 | one call writes less than the fair share plus its largest write |
| InputLaws.TakesOn | src/Server.cpp:946-1102 | one call reads all there is, unless it has had its share, more than the limit is pending or the end is seen |
| InputLaws.WritesOn | src/Server.cpp:553-572 | and writes on until nothing is pending, it has had its share or the pipe takes no more |
| InputLaws.PausesAbove | src/Server.cpp:953-957 | a call on the client pauses it only with more pending than the limit |
| InputLaws.WakesOnlyForMore | src/Server.cpp:1019-1048 | and polls the pipe for writing only if it leaves more pending than it found |
| InputLaws.FlushDecides | src/Server.cpp:574-605 | a flush closes stdin exactly if the end is flagged and nothing is pending; else it resumes the client exactly below the limit, and polls the pipe on exactly while bytes are pending |
| InputLaws.EndStopsReading | src/Server.cpp:1055-1101 | the read that ends the input is the last of its call |
| ChunkedUpload.CodingAgrees | src/Server.cpp:842-869 | every size line of a printed chunked body is one both decoders treat alike |
| ChunkedUpload.AgreeAlong | src/Server.cpp:842-869 | size lines agreed on a whole stream are agreed on each beginning of it, and on what is left after any part has been parsed |
| ChunkedUpload.UploadHandsOver | src/Server.cpp:1193-1220 | what is handed over is the printed request read so far, as it would be without a limit |
| ChunkedUpload.ChunkedUploadArrives | src/Server.cpp:812-1106 | any printed chunked upload, handed over after any part of its body and relayed in any run: decoding never fails, the CGI gets a beginning of the concatenated chunks, all of them once all is read, and its input ends then and not before unless the client or the pipe has gone |
| InputLaws.CompleteDispatchEnds | src/Server.cpp:827-868 | over every run from a complete chunked request: the CGI is given its body and no more, and unless the client or the pipe goes its input is ended if and only if a blank line follows the request |
| Witnesses.CompleteDispatchHangs | src/Server.cpp:827-868 | a printed chunked upload that has all arrived at dispatch: over every run the CGI is given all of it, and as long as no blank line, end or break comes, stdin stays open with no end flagged |
| Routing.MatchRoute | src/Server.cpp:1542-1567 | the first among the longest routes that are a prefix of the URI ending at a segment boundary, or none |
| Routing.MatchesExactly | src/Server.cpp:1548-1556 | a path matches if and only if the URI is it, lies under it, or begins with it where it ends in a slash |
| Routing.BestIsUnique | src/Server.cpp:1542-1567 | there is only one such route |
| Routing.OrderIndependent | src/Server.cpp:1542-1567 | the selected path depends on the set of route paths only |
| Routing.RedirectExactly | src/Server.cpp:1244-1258 | the redirect is sent exactly when some route path is the URI with a slash after it |
| Routing.SlashIsEnough | src/Server.cpp:1244-1258 | the empty URI and one that ends in a slash are never redirected |
| Paths.ProcessPathSegment | src/HTTPHandler.cpp:40-54 | ".." drops a segment if there is one, "." nothing, any other is added |
| Paths.SanitizePath | src/HTTPHandler.cpp:56-89 | the rooted rendering of the segments left after walking the path |
| Paths.WalkIsClean | src/HTTPHandler.cpp:56-89 | no segment left is empty, "." or "..", or holds a slash |
| Paths.Compositional | src/HTTPHandler.cpp:56-89 | normalising p/q continues the walk for q where p led |
| Paths.SanitizeIsCanonical | src/HTTPHandler.cpp:56-89 | the result is rooted, has clean segments only, means the same path, and is its own normal form |
| Paths.DotDotUndoes | src/HTTPHandler.cpp:40-54 | going into a directory and out again, or staying put, changes nothing |
| Paths.BySegments | src/HTTPHandler.cpp:40-89 | one segment more after any path: an empty one and "." change nothing, ".." leads to the parent and never above the root, any other is appended |
| Paths.Rooted | src/HTTPHandler.cpp:56-89 | the empty path is the root, and a leading slash changes nothing |
| Paths.SlashesCollapse | src/HTTPHandler.cpp:56-89 | doubled and trailing slashes mean nothing, and there is no way above the root |

## Left out

- InputLaws.InputAccounting: does not claim the order of input once a write has gone ahead of pending bytes, because the server does not keep it (`OrderLostOnAStream`).
- InputLaws.InputBackPressure: says nothing about polling the client once stdin is closed, where the source may leave a paused client paused.
- OutputLaws.EveryScheduleDelivers: leaves out failed sends and the hang-up of a client, which end an exchange as an abort.
- UploadDelivery.EveryUploadArrives: leaves out the client's end and a broken pipe, which end the input early, and does not claim order once a write has overtaken pending bytes.
- Kernel calls: a read or write is an entry of a script (bytes moved, would-block, end or failure), an exhausted script is would-block, and a failed read is an end. A send that returns zero is not modelled.
- Descriptor tables and poll-vector indices: the poll interest of the descriptors of one exchange is kept as flags.
- A second dispatch on the same connection, which would clear unsent output: the relays are about one exchange, and a connection is followed up to its first dispatch or bad request. The answers themselves, and that a later one replaces an earlier one still unsent, are not part of this model.
- Teardown: time-outs and a client's hang-up appear at most as `Abort`, a broken stdin pipe as `StdinBroken`. `finish_cgi` also closes stdin when the CGI's output ends; for the input half that is the same event.
- `cgi_body_bytes_forwarded_`: counted without wrap-around at 2^64.
- `atol`: white space, sign and digits as in the C standard, which leaves overflow open; clamping to `long` is assumed there.
- Routes with an empty path: the source reads before the start of such a path.
- Finding a line and cutting it off the buffer are one operation, and the parsing of that line is a method of its own.
- Taking one CGI header line apart is a method of its own in each of the two readers, where the source has it inside the loop.
- The fields of `Client` are spread over `Connection`, `Pending`, `CgiChunkDecoder` and the two relay objects.
- The error page text is a parameter, since it is read from a file.
- Bytes are characters of a string; `std::map` of response headers is a list sorted by key.
- CGI start-up and environment, static files, directory listings, uploads, URL decoding, configuration parsing, and signals.
