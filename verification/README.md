# A verified model of the PSC driver

The driver speaks a framed protocol: `P` `S`, a 16-bit id, a 32-bit big-endian
length, then the body. This project models its stateful cores in Dafny and
proves what they are for. Code that changes objects in place is a class here,
with the source's fields and loops; each of its methods is proved against a
function on values or a stated property, and the theorems are about those
functions, over all inputs and all runs.

| file | models |
|---|---|
| `Framing.dfy` | byte orders, the frame, a reference parser and encoder |
| `Chunks.dfy` | a byte sequence held in pieces, and writing over part of one |
| `DBuffer.dfy` | `dbuffer` and its stride cursor |
| `PscDecoder.dfy` | `PSC::recvdata`'s decoding, as a value |
| `PscSession.dfy`, `PscRuns.dfy`, `PscDriver.dfy` | `PSC`: the session machine and the send queue, their runs of events, and the object |
| `ScanRequest.dfy` | `Block::requestScan`, `Block::scanned` |
| `UdpFastModel.dfy`, `UdpFastDriver.dfy` | `UDPFast` and record support, as interleaved steps of two workers, and the object |
| `UdpFastBuffers.dfy`, `UdpFastDelivery.dfy`, `UdpFastShort.dfy`, `UdpFastSignals.dfy`, `UdpFastProgress.dfy`, `UdpFastDeadlock.dfy` | buffer conservation, delivery, the short buffer, events and counters, deadlock freedom and its exact limits |
| `Recorder.dfy` | the batched file writer and its format |
| `PscUdp.dfy` | `PSCUDP`'s three packet lists |
| `PscMsg.dfy` | the blocking message library of the target |
| `HostOrder.dfy`, `Waveform.dfy`, `Register.dfy` | `hton`, waveforms, masked registers |
| `WfStats.dfy` | windowed statistics |

Every method of `UdpFastDriver` is one step of `UdpFastModel`, done in place.
The table lists those with a loop or a choice in them; the others are one or two
assignments (signals, waits, swaps, the steps of `stop()` and of record
support), each proved equal to its case of `Next`. In the same way the methods
of `PscDriver` that connect, reconnect and look up a block are each proved equal
to the function of `PscSession` with their name, and only the others are listed.

Assumptions on the surroundings. Sizes and counters are unbounded integers
except where the source stores them in 16 or 32 bits on the wire. The host is
little-endian. Events are sticky and binary. Only a live bufferevent has
callbacks, it reports `CONNECTED` once, and has data only after that, in
pieces of any size. A region
between taking a lock and giving it back is one step, since nothing else it
uses is shared. Socket and file calls, allocation failures, and the extents
libevent breaks a buffer into are parameters that may take any value.

Where the code does not do what one would expect of it, the model follows the
code, and a lemma says exactly when the expectation holds:

- `queueSend` without a connection appends a body with no header
  (`QueueKeepsFramingIff`, `DisconnectedQueueLosesFraming`). `PSC Ctrl Send`
  reaches it through `PSCBase::send`, which does not look at the connection.
- `flushSend` empties the queue when it cannot move it, but leaves the blocks
  flagged, so that they are refused as queued with nothing queued
  (`FailedMoveStrands`; exactly then, `FlaggedIff` and `OnlyFailedMovesStrand`).
- The two workers of `UDPFast` can both end up waiting for ever. Without Clear
  Short that is so exactly if the pool has no more buffers than one batch and
  `shortLimit` together (`DeadlockIffPoolTooSmall`); over all runs, exactly if
  `shortLimit` may be above 0 or the pool is no larger than one batch
  (`ClearDeadlockIff`), because Clear Short refills the pool without a signal
  (`ClearCanDeadlock`). Which of the states where both wait can be left again
  is settled by `ResumesIff`.
- `PSCUDP::senddata` sends datagrams twice once the free list is full
  (`SentOnceIff` for a call, `RunSendsOnceIff` for a run,
  `MoreThan64Duplicates`).
- A received packet is reported as truncated when it has more body than it
  declares, and accepted when it has less (`AcceptedCarriesDatagram`); the file
  writer then needs the declared length to be within the buffer
  (`AcceptedIsSizedIff`).
- The documentation of the data file (documentation/udpfast.rst:131-141) labels
  the fields with the offsets 0, 4, C, 10 and 14. Their order and sizes are
  right, but the seconds are written at 8, the nanoseconds at C and the body at
  10 (hex), so that the last three labels are wrong (`OffsetLabels`).
- `storewrote` counts the bytes of a failed `writev` too (`WriteBatch`).
- `connect` leaves neither a session nor a timer if allocating the bufferevent
  fails, and nothing will start it again (`ExactlyOneAlive`).
- A write to a register that lies partly outside its block reports failure, but
  an unmasked one has by then overwritten the part inside
  (`FailedWriteKeepsBlockIff`).
- `psc_recvskip` asks for all that is left, into 128 bytes, after a pass that
  failed. A receive timeout, which targetApp/listener.c:100-104 sets
  (targetApp/lwipopts.h:421 enables it), fails once and not for good: if more
  than 128 bytes come behind it the scratch buffer is overrun, and
  `psc_recvmsg` may report success with its place in the stream lost
  (`TimeoutOverruns`). Exactly which schedules do that, and which room rules it
  out, is in `ScratchIsEnoughIff` and `RoomIsSafeIff`.
- `psc_sendmsgsingle` adds 4 to the length in 32 bits (`SingleReadsBackIff`).
- `PSCUDP::queueHeader` adds 8 in 32 bits, and so does the assert of the
  overload that takes a pointer: a frame is queued whole, and nothing written
  behind its buffer, exactly if header and body fit 32 bits
  (`QueuedWholeIff`). The other overload's assert stops the program instead
  (`QueueBuffer`).
- The default window of `wf_stats`, described as the entire range, leaves out
  the last sample (`DefaultWindowDropsLast`, `DefaultWindowTakesAllIff`,
  `DefaultIndexWindowTakesAllIff`).

## Model

| member | source | states |
|---|---|---|
| UdpFastDeadlock.DeadlockIffPoolTooSmall | udpApp/src/udpdrv.cpp:240-250 | For every pool size, batch size and short limit: some run without Clear Short leaves both workers waiting on unset events, and some leaves them so for ever, if and only if the pool has at most batch size plus limit buffers. |
| UdpFastDeadlock.ClearDeadlockIff | udpApp/src/devudp.cpp:219-239 | Over all runs, Clear Short included, both workers can end up waiting, and also for ever, if and only if the short limit may be above 0 or the pool is no larger than one batch. |
| UdpFastDeadlock.ResumesIff | udpApp/src/udpdrv.cpp:464-489 | When both workers wait, some steps other than stop()'s get the receive worker going again if and only if the pool is empty and more packets are pending than fit into the short buffer. |
| UdpFastDeadlock.ClearCanDeadlock | udpApp/src/devudp.cpp:219-239 | For every pool above that bound and every limit above 0 there is a run in which Clear Short refills the pool during a stall, and then both workers wait with buffers free and nothing but stop() ends that. |
| UdpFastProgress.DeadlockFree | udpApp/src/udpdrv.cpp:464-502 | In every reachable state with more buffers than a batch and the short limit, and nothing held or given back during the stall by Clear Short, some worker can go on. |
| UdpFastProgress.DeadlockNeeds | udpApp/src/udpdrv.cpp:300-307 | In every reachable state where both workers wait, all buffers but one batch are in the short buffer, with Clear Short, or in a pool refilled behind the stalled worker's back. |
| UdpFastProgress.RunKeepsWakeups | udpApp/src/udpdrv.cpp:408-409 | Over every run: pending packets mean the cache worker has been or will be told; an untold notice is about the last batch only; a stalled worker has an empty pool or a signal coming. |
| UdpFastProgress.NoClearNoPoke | udpApp/src/devudp.cpp:219-239 | A run that never processes Clear Short meets the two side conditions of deadlock freedom throughout. |
| UdpFastProgress.StopWakesBoth | udpApp/src/udpdrv.cpp:701-715 | In every reachable state after stop() raised both events, a waiting worker's event is set. |
| UdpFastProgress.StopEndsBoth | udpApp/src/udpdrv.cpp:701-715 | After stop() raised both events, in any run and whatever else happens, the receive worker takes at most 2 more steps and the cache worker at most 8, and at every moment each has finished or can take its next one. |
| UdpFastBuffers.EachBufferInOnePlace | udpApp/src/udpdrv.h:34-42 | In every state of every run until the receive worker exits, each pooled buffer is held exactly once over all places, overlapping Clear Shorts included; the short buffer is within its limit; no step finds an empty slot it takes for filled. |
| UdpFastBuffers.RunKeepsBuffers | udpApp/src/udpdrv.cpp:252-286 | Every run conserves the buffers, counted all together or one by one, and the shapes of all places; after the receive worker exits none is duplicated. |
| UdpFastBuffers.NextKeepsBuffers | udpApp/src/udpdrv.cpp:466-483 | Every single step from a well-shaped state is safe, keeps the shapes and conserves every buffer. |
| UdpFastBuffers.AssignKeeps | udpApp/src/udpdrv.cpp:252-286 | Assigning buffers moves them from the pool to slots, fills a prefix of the slots, and loses none. |
| UdpFastBuffers.ShortenKeeps | udpApp/src/udpdrv.cpp:668-679 | Swapping packets into the short buffer keeps it within its limit and moves each buffer exactly once. |
| UdpFastBuffers.ReturnKeeps | udpApp/src/udpdrv.cpp:466-483 | Returning consumed packets puts each buffer they still hold back into the pool, and only those. |
| UdpFastBuffers.ClearReturnKeeps | udpApp/src/devudp.cpp:227-234 | Any of the overlapping Clear Shorts returns every buffer it took, none of them empty, as the source asserts. |
| UdpFastDelivery.DeliveredOnceInOrder | udpApp/src/udpdrv.cpp:341-416 | In every state of every run the accepted packets are the dispatched ones, then those to be dispatched, then those pending, in arrival order; rxcnt is nignore plus ukncount plus all block counts plus packets in flight; each block was shown exactly its dispatched packets, ukncount is those for no block, and no block appears or goes. |
| UdpFastDelivery.DispatchedBlock | udpApp/src/udpdrv.cpp:515-532 | After dispatching any packets a block has counted, and asked for a scan for, each of its own, its listeners saw each one's whole buffer in order, and it keeps the time and data of the last one. |
| UdpFastDelivery.DispatchedTotal | udpApp/src/udpdrv.cpp:515-532 | Dispatching n packets raises the sum of all block counters and the unknown counter by exactly n. |
| UdpFastDelivery.DispatchedUnknown | udpApp/src/udpdrv.cpp:518-521 | Dispatching makes no block and counts as unknown exactly the packets for none. |
| UdpFastDelivery.AcceptedCarriesDatagram | udpApp/src/udpdrv.cpp:372-415 | Exactly which datagrams are ignored, and that an accepted packet has the datagram's id, declared length and received body bytes at the front of its buffer. |
| UdpFastDelivery.BatchCarries | udpApp/src/udpdrv.cpp:341-416 | What a batch adds to the accepted packets is one packet, in slot order, for exactly those datagrams that are the peer's, have a header that begins with P S, and no more body than they declare: with the id and length of its header, the batch's time, its slot's buffer, and the received bytes in front; those slots are emptied and the others keep their buffers. |
| UdpFastDelivery.AcceptedIsWhatArrived | udpApp/src/udpdrv.cpp:341-416 | In every state of every run the accepted packets are those that the proper datagrams of all batches so far carry, in order. |
| UdpFastDelivery.ReceiveAllAppends | udpApp/src/udpdrv.cpp:345-416 | Receiving a batch appends the same packets to the history and to pending, and every slot is either taken or ignored. |
| UdpFastShort.ShortHoldsDispatched | udpApp/src/udpdrv.cpp:668-679 | In every state of every run the short buffer holds dispatched packets, unchanged and in order: the fronts of the batches since the last Clear Short, as many as there was room for; an empty batch is neither written nor put there. |
| UdpFastSignals.StepsDecideSignals | udpApp/src/udpdrv.cpp:302-307 | In every state of every run each event is set if and only if it was raised since its worker last woke up, rxcnt is the datagrams received, and noom the times the pool was found empty. |
| UdpFastSignals.AssignedInOrder | udpApp/src/udpdrv.cpp:254-268 | Slot after slot, leftovers stay and empty slots get the last buffer of the pool, until one stays empty because the pool is. |
| UdpFastDriver.UdpFast.constructor | udpApp/src/udpdrv.cpp:176-184 | The pool starts with all its distinct buffers, each of at least 8 bytes, and everything else empty. |
| UdpFastDriver.UdpFast.LoopHead | udpApp/src/udpdrv.cpp:240-286 | The loop head exits, stalls, or assigns, as the step function of the model says. |
| UdpFastDriver.UdpFast.AssignBuffers | udpApp/src/udpdrv.cpp:252-286 | The assignment loop with its break computes the model's recursive assignment. |
| UdpFastDriver.UdpFast.ReceiveBatch | udpApp/src/udpdrv.cpp:337-416 | Processing a batch in place is the model's receive step. |
| UdpFastDriver.UdpFast.TakeOrIgnore | udpApp/src/udpdrv.cpp:372-415 | One slot is judged in the source's order and taken or ignored as the model says. |
| UdpFastDriver.UdpFast.Judge | udpApp/src/udpdrv.cpp:372-400 | The chain of tests accepts exactly the datagrams the model accepts. |
| UdpFastDriver.UdpFast.ReturnConsumed | udpApp/src/udpdrv.cpp:464-489 | Returning consumed buffers in place is the model's step, with the stall signal only when the pool was empty and is not any more. |
| UdpFastDriver.UdpFast.DispatchToBlocks | udpApp/src/udpdrv.cpp:515-536 | The dispatch loop is the model's dispatch step, in order. |
| UdpFastDriver.UdpFast.DispatchEach | udpApp/src/udpdrv.cpp:515-532 | The loop over the batch, field by field of the block, is the recursive dispatch. |
| UdpFastDriver.UdpFast.MoveToShort | udpApp/src/udpdrv.cpp:668-679 | Resizing and swapping ranges is the model's step. |
| UdpFastDriver.UdpFast.SwapRanges | udpApp/src/udpdrv.cpp:675-677 | Swaps the two ranges and nothing else. |
| UdpFastDriver.UdpFast.ReturnShort | udpApp/src/devudp.cpp:227-234 | The second half of any of the Clear Shorts under way refills the pool and signals nobody. |
| Recorder.DataFile.WriteBatch | udpApp/src/udpdrv.cpp:595-639 | Whatever the limit on pieces and however the writev calls go: the file grows by a prefix of the records in order, and by all of them, staying open, if and only if every call that comes about is whole; storewrote is exact if and only if so; no call has more pieces than allowed, and it terminates. |
| Recorder.DataFile.FillIovecs | udpApp/src/udpdrv.cpp:598-617 | The inner loop gathers as many packets as fit, header and body piece each, and counts their bytes. |
| Recorder.FileReadsBack | udpApp/src/udpdrv.cpp:439-446 | Reading the format as it is written returns every packet's id, time and exactly its declared bytes. |
| Recorder.CutFileReadsBack | udpApp/src/udpdrv.cpp:439-446 | A file cut at any byte reads back, in the format as it is written, as the records that are whole, and what is left is the beginning of the next one. |
| Recorder.RecordingReadsBack | udpApp/src/udpdrv.cpp:595-636 | A file written by successive batches reads back as their packets in order: all of them if and only if it is still open, else those in front of the one that a failed or short writev cut. |
| Recorder.RecordLayout | udpApp/src/udpdrv.cpp:607-610 | Each field of a record, in the documented order and sizes, at the offset where the code writes it, big-endian, with POSIX seconds computed in 32 bits. |
| Recorder.OffsetLabels | documentation/udpfast.rst:131-141 | The labelled offsets of magic, id and length are right; the seconds are at C exactly if they equal the nanoseconds, these are at 10 exactly if the body starts with them, and from 14 on four bytes of the body are missing. |
| Recorder.AcceptedIsSizedIff | udpApp/src/udpdrv.cpp:394-400 | An accepted packet meets the writer's need exactly if its declared length is within its buffer, and some accepted packet does not. |
| PscDecoder.ChunkingIndependence | coreApp/src/psc.cpp:243-340 | However a stream is cut into arrivals, the decoder state and the deliveries are those of one call on the whole stream. |
| PscDecoder.DrainIsParse | coreApp/src/psc.cpp:249-332 | The decoding loop equals the recursive reference parser on every byte string, down to the unfinished tail or the bad header. |
| PscDecoder.RoundTrip | coreApp/src/psc.cpp:243-426 | Encoded frames, cut anywhere, are decoded to the same ids and bodies in order with nothing left over. |
| PscDecoder.ThroughAllBlock | coreApp/src/psc.cpp:275-297 | A block counts all its frames, empty ones too, and holds the last body that was not empty. |
| PscDecoder.ThroughAllLog | coreApp/src/psc.cpp:275-323 | Deliveries are exactly the frames with a known id and a body; unknown ids are counted; no block appears or goes. |
| PscDecoder.StepHeader | coreApp/src/psc.cpp:256-297 | A header pass shrinks the input and keeps the decoder invariant: expect is 8 or the body's length, and never 0. |
| PscDecoder.StepBody | coreApp/src/psc.cpp:303-331 | A body pass shrinks the input and keeps the decoder invariant. |
| PscRuns.RunsAreSafe | coreApp/src/psc.cpp:95-241 | Over every run of connects, timers, errors, data, forced reconnects, queueing and flushing, the invariant holds and no assert of the source fails. |
| PscRuns.ExactlyOneAlive | coreApp/src/psc.cpp:152-175 | After the first connect exactly one of session and timer is there, if and only if no allocation of a session failed. |
| PscRuns.SessionIsolation | coreApp/src/psc.cpp:101-105 | At any time since the first connect, also after a session has ended, the blocks, the counters and what was delivered are what the reference parser makes of the bytes received since the last connect, as the events of the run give them. |
| PscRuns.NoReceiveStall | coreApp/src/psc.cpp:334-339 | In every reachable state with a session: bytes kept, low watermark, high watermark, strictly in this order; the low one is what the decoder needs next, and the high one is 1 MiB or, if that is not above it, one more than the low one. |
| PscRuns.PeerDecodesFlushed | coreApp/src/psc.cpp:59-83 | In every run: unless a stray body went into this very session, the bytes given to it are the frames of the messages queued with a connection, taken, and flushed since its connect, and decode, however cut, to these frames in order. |
| PscRuns.SentIsWhatWasQueued | coreApp/src/psc.cpp:59-83 | In every state of every run the queue and the session hold, byte for byte, what the events of the run put there: header and body of each message taken, the body alone without a connection, all of the queue at each flush. |
| PscRuns.SessionsEndAndBegin | coreApp/src/psc.cpp:195-241 | In every run exactly an error, the operator's request while connected, and bytes that do not go on as frames end a session; the timer is then armed and can fire, and the driver is not connected. Only connecting begins a session, and the timer, the connected flag and the connection count change at exactly the events they should. |
| PscRuns.HistoryIsPast | coreApp/src/psc.cpp:59-83 | What the model remembers of a run is what its events say. |
| PscRuns.TakenAreCounted | coreApp/src/psc.cpp:416-426 | A send block counts the messages of its own that were taken. |
| PscRuns.QueueStaysBounded | coreApp/src/psc.cpp:367-383 | With a limit, and every message queued with a connection, the queue exceeds the limit by less than one message. |
| PscSession.RefusedFor | coreApp/src/psc.cpp:367-383 | When a message is refused, and for which reason, on the limit and the bytes queued. |
| PscSession.FlushRefusedFor | coreApp/src/psc.cpp:68-76 | When a flush is refused, on the limit and the backlog, and when it fails. |
| PscSession.NextKeepsSendInv | coreApp/src/psc.cpp:362-426 | Waiting ids are distinct, their blocks are flagged; the queue is whole frames unless a stray body is in it, and so is what a session was given, across refusals, flushes, failed moves and reconnects. |
| PscSession.RefusedQueueChangesNothing | coreApp/src/psc.cpp:367-383 | A message changes nothing if and only if it is refused. |
| PscRuns.FlaggedIff | coreApp/src/psc.cpp:59-83 | In every reachable state a block is flagged if and only if it has a message in the queue or lost one to a failed move since the last flush. |
| PscSession.OnlyFailedMovesStrand | coreApp/src/psc.cpp:73-76 | An event breaks 'flagged means queued' if and only if it is a flush whose move fails while a block is flagged. |
| PscSession.FailedMoveStrands | coreApp/src/psc.cpp:73-76 | After one message and one failed move the queue is empty and its block is refused as queued. |
| PscSession.QueueKeepsFramingIff | coreApp/src/psc.cpp:364-365 | A framed queue stays framed exactly with a connection, or if the body is framed itself. |
| PscSession.DisconnectedQueueLosesFraming | coreApp/src/psc.cpp:411-421 | One byte queued without a connection breaks the framing. |
| PscSession.ClearQueued | coreApp/src/psc.cpp:78-82 | The loop clears every block's flag and nothing else. |
| PscDriver.Psc.RecvData | coreApp/src/psc.cpp:243-340 | The data callback equals the decoder function, sets the watermarks, and reconnects on a bad header. |
| PscDriver.Psc.DecodeAll | coreApp/src/psc.cpp:249-332 | The draining loop in place is the recursive decoder, every pass makes progress, and it stops at a bad header. |
| PscDriver.Psc.DecodeHeader | coreApp/src/psc.cpp:272-297 | Decoding a header in place is the decoder's header step. |
| PscDriver.Psc.DecodeBody | coreApp/src/psc.cpp:309-327 | Moving a body in place is the decoder's body step. |
| PscDriver.Psc.QueueHeader | coreApp/src/psc.cpp:362-389 | Writes the header exactly when connected and not refused, with the refusals in order. |
| PscDriver.Psc.QueueBytes | coreApp/src/psc.cpp:411-426 | Queueing bytes is the model's queue step. |
| PscDriver.Psc.QueueBuffer | coreApp/src/psc.cpp:398-409 | Queueing a dbuffer is the same step on its contents, however fragmented. |
| PscDriver.Psc.FlushSend | coreApp/src/psc.cpp:59-83 | Moves the whole queue to the session and clears all flags, or refuses, or loses the queue when the move fails. |
| Framing.ParseSound | README:24-36 | Parsing loses nothing: frames encoded again and the tail are the input. |
| Framing.ParseEncoded | README:24-36 | Parsing undoes encoding, whatever follows. |
| Framing.HeaderLayout | coreApp/src/psc.cpp:373-376 | The eight header bytes. |
| Framing.FramedIffFits | coreApp/src/psc.cpp:400-401 | A frame parses back exactly if its length fits 32 bits. |
| DBuffers.StridePtr.Skip | coreApp/src/evbase.cpp:208-247 | Moves the logical position by exactly min(n, remaining), empty strides included. |
| DBuffers.StridePtr.Read | coreApp/src/evbase.cpp:208-247 | The same, and copies out that slice of the flat contents. |
| DBuffers.StridePtr.Write | coreApp/src/evbase.cpp:208-247 | The same, and overwrites that slice, changing no stride's length. |
| DBuffers.DBuffer.CopyIn | coreApp/src/evbase.cpp:255-261 | Overwrites what fits of the flat contents; for some bytes, returns true if and only if all fit. |
| DBuffers.DBuffer.CopyOutShape | coreApp/src/evbase.cpp:263-290 | Returns the largest number of elements that fit and gathers exactly those slices. |
| DBuffers.DBuffer.CopyElements | coreApp/src/evbase.cpp:281-287 | The loop over the elements, across strides, gathers exactly their slices. |
| DBuffers.DBuffer.CopyOut | coreApp/src/psc/evbase.h:96-98 | Copies a slice of at least a byte if and only if all of it is there, and otherwise nothing. |
| DBuffers.DBuffer.CopyOutAll | coreApp/src/evbase.cpp:292-298 | Appends the flat contents. |
| DBuffers.DBuffer.Resize | coreApp/src/evbase.cpp:132-152 | The zero-padded prefix, from either kind of backing. |
| DBuffers.DBuffer.Assign | coreApp/src/evbase.cpp:154-168 | Replaces the contents. |
| DBuffers.DBuffer.Consume | coreApp/src/evbase.cpp:170-199 | Splits a queue: its first bytes become the contents, in whatever extents, the rest stays. |
| DBuffers.DBuffer.Swap | coreApp/src/psc/evbase.h:73-80 | Exchanges two buffers, also with itself. |
| DBuffers.DBuffer.constructor | coreApp/src/evbase.cpp:100-107 | n zero bytes in one stride. |
| DBuffers.QuotientIsLargestShape | coreApp/src/evbase.cpp:272-276 | The floor division is the largest number of whole elements that fit. |
| DBuffers.ShapeFitsIff | coreApp/src/evbase.cpp:270-274 | A number of elements fits if and only if the slice of each, at offset + e*(esize+eskip), ends within the buffer. |
| DBuffers.NothingFitsPastEnd | coreApp/src/evbase.cpp:267-268 | The early return loses no element. |
| DBuffers.GatherElement | coreApp/src/evbase.cpp:281-287 | Output element e is the slice at offset + e*(esize+eskip). |
| Chunks.BlitPiece | coreApp/src/evbase.cpp:217-227 | Writing into one stride writes the same slice of the flat contents. |
| ScanRequest.NoLostUpdate | coreApp/src/pscbase.cpp:47-78 | In every run with an update, when no scan is in progress: a scan with a listener began at or after the last update if and only if the last scanIoRequest found a listener. |
| ScanRequest.BurstHasOneFollowUp | coreApp/src/pscbase.cpp:66-73 | Any number of requests during a scan, with its completions in any order between them, cause exactly one further scan, of the listeners there are then, and none cause none. |
| ScanRequest.BeginsAfterUpdate | coreApp/src/pscbase.cpp:47-78 | Between two begins of scans, or at the second, there is an update. |
| ScanRequest.RunsFollowEvents | coreApp/src/pscbase.cpp:47-78 | In every run: busy is the listeners found when the last scan was asked for on an idle block, less the priorities completed since; a request is queued if and only if an update came since, and then a scan is in progress; every begin and every update is counted once. |
| ScanRequest.ScannedBlock.RequestScan | coreApp/src/pscbase.cpp:47-58 | On an idle block sets the scan mask to the listeners there are; else remembers and counts the request. |
| ScanRequest.ScannedBlock.DataReceived | coreApp/src/psc.cpp:313-315 | New data asks for a scan. |
| ScanRequest.ScannedBlock.Scanned | coreApp/src/pscbase.cpp:60-78 | Clears the priority and, when it was the last, issues the remembered request. |
| PscUdp.EachSentOnceInOrder | coreApp/src/pscudp.cpp:122-174 | Every run with at most 64 datagrams outstanding sends each once, in queue order. |
| PscUdp.RunSendsOnceIff | coreApp/src/pscudp.cpp:122-174 | Every run sends each datagram once, in queue order, if and only if each of its calls found room in the free list for what it took. |
| PscUdp.SentOnce | coreApp/src/pscudp.cpp:132-163 | With at most 64 buffers in both lists, what was sent and what is left is what there was, however the calls go. |
| PscUdp.SentOnceIff | coreApp/src/pscudp.cpp:154-162 | A call sends each datagram once, keeping the rest, if and only if the free list has room for what is taken, and does so for every schedule if and only if both lists fit in 64. |
| PscUdp.SendsUntilStopped | coreApp/src/pscudp.cpp:132-152 | With room, a call sends exactly the datagrams before the first sendto that would block or fails, whole or truncated, leaves the others, and counts what went wrong. |
| PscUdp.FlushedIsSent | coreApp/src/pscudp.cpp:293-316 | After any run that has found room, a flush that is not refused and a socket that takes everything, all that was ever queued has been sent. |
| PscUdp.SentWhenAllTaken | coreApp/src/pscudp.cpp:154-162 | Exactly which datagrams are sent once and which twice. |
| PscUdp.MoreThan64Duplicates | coreApp/src/pscudp.cpp:301-305 | A run of queueing, flushing and sending that sends more datagrams than were queued. |
| PscUdp.QueuesStayBounded | coreApp/src/pscudp.cpp:301-332 | In every run sendbuf has at most 64, txbuf at most 127 and readybuf at most 64 buffers. |
| PscUdp.Udp.QueueHeader | coreApp/src/pscudp.cpp:318-342 | Refuses at 64, else takes a free or new buffer, resized in 32 bits, with as much of the header as it has room for, and says how much is written behind it. |
| PscUdp.Udp.QueueSend | coreApp/src/pscudp.cpp:367-382 | Queues the encoded frame as far as the buffer reaches, whatever the reused buffer held, and says how much is written behind it. |
| PscUdp.Udp.QueueBuffer | coreApp/src/pscudp.cpp:350-365 | Queues exactly the encoded frame of a fragmented body, or is refused, and stops at the assert if and only if header and body do not fit 32 bits. |
| PscUdp.QueuedWholeIff | coreApp/src/pscudp.cpp:336-374 | The pointer overload queues a whole frame, one that parses back, if and only if header and body fit 32 bits. |
| PscUdp.Udp.FlushSend | coreApp/src/pscudp.cpp:293-316 | Moves the queue behind txbuf and clears the flags, or refuses. |
| PscUdp.Udp.SendData | coreApp/src/pscudp.cpp:122-174 | The sending loop is the transmit function, for every schedule of outcomes, counts its faults, and terminates. |
| PscMsg.ScratchIsEnoughIff | targetApp/pscmsg.c:72-81 | For every schedule: skipping stays within its scratch buffer, whatever is sent and is to be skipped, if and only if the first call that brings nothing is not a passing fault with more than 128 bytes behind it. |
| PscMsg.RoomIsSafeIff | targetApp/pscmsg.c:175-176 | A given room is safe against every peer and schedule if and only if no message can be longer by more than 128 bytes. |
| PscMsg.NoPauseIsSafe | targetApp/pscmsg.c:154-181 | On a schedule without such a pause, as when all faults last, receiving a message never overruns the scratch buffer. |
| PscMsg.TimeoutOverruns | targetApp/listener.c:100-104 | One receive timeout while 128 bytes are left to skip: success is reported, the scratch buffer was overrun, and a byte of the next message is gone. |
| PscMsg.SuccessReadsMessage | targetApp/pscmsg.c:154-181 | For every schedule of short reads and faults: success without an overrun takes exactly the whole message off the stream and stores its first bytes. |
| PscMsg.SmoothReadsMessage | targetApp/pscmsg.c:154-181 | An intact message is received under every schedule of short reads. |
| PscMsg.WrongHeaderIsEIO | targetApp/pscmsg.c:146-147 | A header that does not begin with P S is taken off the stream and reported as EIO. |
| PscMsg.ReportedIff | targetApp/pscmsg.c:166-181 | Id, length and body are reported exactly when header and body were taken, also if skipping the rest then fails. |
| PscMsg.FailsAsACallDid | targetApp/pscmsg.c:54-70 | A transfer fails with the error of the call that failed, or with ENOTCONN at the end of the stream. |
| PscMsg.StaysInSync | targetApp/pscmsg.c:154-181 | Under every schedule of short reads a sequence of encoded messages is received one by one, each cut to the room given, with what follows untouched. |
| PscMsg.RecvMsg | targetApp/pscmsg.c:154-181 | Receiving in place is the function the above is about: result, id and length, what the buffer holds, and how much an overrun writes behind the scratch buffer. |
| PscMsg.RecvAll | targetApp/pscmsg.c:54-70 | The loop is the recursive transfer: what was received lies in the buffer from the given place on, and what falls behind its end is counted. |
| PscMsg.RecvSkip | targetApp/pscmsg.c:72-81 | The loop with its last call is the recursive skip, overrun and all. |
| PscMsg.RecvHead | targetApp/pscmsg.c:134-152 | Takes a header and decodes it; a whole bad one gives EIO and is taken too. |
| PscMsg.SendAll | targetApp/pscmsg.c:36-52 | Sends all of it exactly if it returns 0, else a prefix; without faults it returns 0, however short the writes. |
| PscMsg.SendHead | targetApp/pscmsg.c:83-95 | Sends the header exactly if it returns 0, else a prefix of it. |
| PscMsg.SendMsg | targetApp/pscmsg.c:97-110 | Sends the encoded frame exactly if it returns 0, else a prefix of it. |
| PscMsg.SendMsgSingle | targetApp/pscmsg.c:112-132 | Sends the frame of register id and data, with the length wrapped to 32 bits, exactly if it returns 0, else a prefix. |
| PscMsg.SingleReadsBackIff | targetApp/pscmsg.c:121-121 | That frame parses back exactly if the length with the id fits. |
| HostOrder.SwapReversesImage | coreApp/src/psc/devcommon.h:134-157 | nswap reverses the bytes of its type, for 8 bytes through two 32-bit swaps. |
| HostOrder.HtonReverses | coreApp/src/psc/devcommon.h:166-179 | hton puts the highest byte first and ntoh(hton(x)) is x. |
| HostOrder.NetworkWords | coreApp/src/psc/devcommon.h:166-179 | The header's big-endian words are what hton makes of the host's memory, both ways. |
| Waveform.ReadWf | coreApp/src/devPSCWf.cpp:85-100 | The gather and the backward widening in one buffer give, element by element, the conversion of the bytes at offset + e * step, turned round (a step shorter than an element is an element), for as many elements as there are, and touch nothing behind them. |
| Waveform.WidenOne | coreApp/src/devPSCWf.cpp:93-98 | Widening one element in place clobbers no element still packed and no double already there. |
| Waveform.WriteWf | coreApp/src/devPSCWf.cpp:141-150 | For any element type: element e of what is sent is the conversion of double e, turned round. |
| Waveform.SentReadsBack | coreApp/src/devPSCWf.cpp:133-163 | For any element type: what write_wf sent reads back unchanged, as many elements as the reading record has room for. |
| Waveform.SentIntegersReadBack | coreApp/src/devPSCWf.cpp:133-163 | Integers in the range of their type keep their values. |
| Register.ReadToField | coreApp/src/devPSCReg.cpp:117-134 | For a field of any size: succeeds exactly if it lies in the block, with its bytes in the host's order. |
| Register.ReadBinary | coreApp/src/devPSCReg.cpp:137-155 | The 32-bit register under its mask, if it lies in the block. |
| Register.WriteFromField | coreApp/src/devPSCReg.cpp:212-227 | For a field of any size: writes it in network order, or fails having copied in what fits. |
| Register.FieldIsWritten | coreApp/src/devPSCReg.cpp:222-226 | For a field of any size: a write that fits replaces exactly its bytes, one that begins inside those up to the end, any other none. |
| Register.WordsOnWire | coreApp/src/psc/devcommon.h:146-179 | A register's bytes are its word's, highest first, and word and bytes determine each other. |
| Register.WriteBinary | coreApp/src/devPSCReg.cpp:230-253 | The in-place update is the write function, across strides. |
| Register.MaskedWriteTouchesOnlyMask | coreApp/src/devPSCReg.cpp:241-244 | A masked write that fits changes only the masked bits of the register and no other byte. |
| Register.UnmaskedWriteSets | coreApp/src/devPSCReg.cpp:246-249 | An unmasked write that fits sets the whole register and no other byte. |
| Register.DisjointMasksCommute | coreApp/src/devPSCReg.cpp:241-244 | Writes under disjoint masks commute. |
| Register.FailedWriteKeepsBlockIff | coreApp/src/devPSCReg.cpp:222-226 | A failed write leaves the block alone for every value exactly if it was masked or began outside. |
| WfStats.Compute | sigApp/src/asubwf.c:112-155 | The pass with its early exit computes the statistics of the samples in the window when keys do not decrease, and of those before the break always. |
| WfStats.SummaryBounds | sigApp/src/asubwf.c:143-153 | The mean lies between minimum and maximum, and the variance between 0 and (max-mean)(mean-min). |
| WfStats.SummaryIsMeanAndVariance | sigApp/src/asubwf.c:143-153 | The distances from the mean cancel, and the variance is the mean of their squares. |
| WfStats.WindowTakes | sigApp/src/asubwf.c:66-123 | For any start and width: which samples the pass is about, by their times or indices, in order. |
| WfStats.BreakLosesNothing | sigApp/src/asubwf.c:113-123 | With keys that do not decrease nothing behind the break is in the window. |
| WfStats.IndexKeysNonDecreasing | sigApp/src/asubwf.c:118-123 | Without times the keys do not decrease, so the pass always has the whole window. |
| WfStats.DefaultWindowTakesAllIff | sigApp/src/asubwf.c:73-80 | With times, the default window takes in everything exactly if all times are at least 0 and before the last one given. |
| WfStats.DefaultWindowDropsLast | sigApp/src/asubwf.c:73-80 | With no more times than samples it never takes in everything. |
| WfStats.DefaultIndexWindowTakesAllIff | sigApp/src/asubwf.c:73-80 | Without times it takes in everything exactly if there are no more samples than times. |

## Left out

- libevent, sockets, DNS, EPICS scan threads, timers and error logging: their answers are parameters or events.
- DBuffers.StridePtr.Read: the source's one `copy` is three methods, one for each way it is called; memory under a stride is held in the stride, so two pointers to the same memory are not modelled.
- DBuffers.DBuffer.CopyOutShape: sizes are unbounded, so a wrap of `total - offset + eskip` is not modelled.
- PscDriver.Psc.RecvData: blocks are values in a map under their code, not objects shared through pointers, and a block's data is its flat contents; timestamps and listeners other than the delivery log are left out.
- PscDriver.Psc.EventCb: the scans and records processed on connect run outside code and are left out.
- UdpFastDriver.UdpFast.DispatchEach: a call of the listeners is an entry in a log of what they were shown.
- ScanRequest.ScannedBlock.RequestScan: the bit mask of priorities is a set.
- PscUdp.Udp.SendData: the socket error texts and the re-armed event are only a counter and a flag; the receive side of `PSCUDP` is left out.
- PscUdp.Udp.QueueSend: bytes written behind a buffer are counted, and what they overwrite is not modelled.
- PscMsg.RecvSkip: the same for the scratch buffer; the model goes on as if the program survived.
- UdpFastDriver.UdpFast.ReceiveBatch: the drop, timeout and byte counters are left out.
- UdpFastDriver.UdpFast.LoopHead: `msgs` is a sequence of buffers.
- Recorder.DataFile.WriteBatch: opening, rotating and syncing files, and their names, are left out.
- Waveform.ReadWf: the conversion to double is a parameter that turns an element's bytes into eight; the connection check and alarms are left out.
- WfStats.Compute: exact reals instead of floating point, and the variance instead of its root.
- `stopinloop`, which leaves `connected` set, ends what the session machine models.
- The resync path of `devPSCSingle.cpp`, `read_wf_bytes`, the client list of `listener.c`, unit conversion, link parsing, FFT records, and the reporting functions.
