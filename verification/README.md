# Verified model of the Bluetooth client library

The library under `src/libgatt/src` talks to a Bluetooth peer in two protocols. This project models the parts
of it in which something can go wrong across function and file boundaries, and proves what they keep.

**The attribute protocol** (`gattrib.c`, `gatt.c`, `att.c`; sections 3.3.2, 3.3.3 and 3.4 of Bluetooth Core 4.0
Vol 3 Part F and chapter 4 of Part G).

* `Engine` is the transaction engine as a state machine over its event handlers: two queues, the `sent` flag and
  the function pointer of each command, the write watch, the timeout watch and the `stale` flag, plus a log of what
  its users and the peer can see. `EngineSafety` proves one invariant for every step, `EngineRuns` turns it into
  statements about the log of whole runs: one outstanding request, a sequential protocol on the wire, no lost
  wake-up, and the life of every command. `EngineOrder` says what one command meets: a fresh id, its turn, the status
  of its answer by the numbers of the opcodes, and the end. `EngineReading` adds the read watch and the registered
  events, and says when the engine stops reading and what is left of it then. `GAttrib` has the same engine as a class
  whose methods update queues of command objects in place; each method is proved equal to the step of the state machine.
* `LongRead` and `IncludedDiscovery` (with `IncludedListing` and `IncludedOutcome`) run a reference-counted procedure
  on that engine among any other users. Their worlds step whenever the engine steps: other users send, cancel and
  complete commands at will between ours. `Holding` counts the commands a procedure has queued and says what the steps
  of others leave alone. Each procedure has a class with the source's fields that works on a `GAttrib.Attrib` object.
* `LongWrite`, `PrimaryDiscovery` and `CharDiscovery` are the procedures that need no counting; `Paging` has what the
  paged ones share: a server's pages, chosen freely, and the termination argument.
* `AttCodec` has the list codecs and the request encoders, `AttDefs` the opcodes and the two tables of the engine.
  `AttRequests` reads a request the way a peer does, from the bytes of its PDU; `AttUuid` has the number that a UUID
  stands for. Wherever a peer answers in a theorem below, it goes by those bytes alone and keeps its values by handle,
  so that the theorem also says that the requests ask for the right thing.

**The service discovery protocol** (`sdp.c`; sections 3.1 to 3.3 and 4.3 of Bluetooth Core 4.0 Vol 3 Part B).

* `SdpElements` has data elements, their wire image in one pass, and the promotion of sequences that outgrow a
  one-byte length. `SdpEncoder` is the encoder that writes in place, retypes `dtd` and starts over; `SdpSize` the
  size estimator; `SdpDecoder` the recursive decoder; `SdpFraming` the append buffer with its `memmove`.
* `SdpList` is the linked list with its pointer surgery, `SdpRecord` the attribute list as a finite map, `SdpUuid`
  the UUID forms and the search pattern, `SdpRecordPdu` whole records, `SdpContinuation` continuation reassembly.

Functions are the specification; methods with loops, arrays, objects and pointers are the source's form and are
proved equal to them; lemmas say what the specification achieves.

What the read from the socket hands to the engine is part of the model: `received_data` reads into 512 bytes
(`src/libgatt/src/gattrib.c:391`) and the socket drops the rest of a longer PDU. Two procedures depend on seeing
whole responses, so for them this is where the exact condition lies:

* a long read, once it is over, has delivered the value if and only if it has at most 65534 bytes, either the MTU is
  at most 512 or the value fits the first 512 bytes, and no request for bytes of the value was answered by an error or
  timed out (`LongRead.LongReadDelivers`, `LongRead.LargeMtuCutsValue`);
* the parts of a long write tile the value if and only if the MTU is at most 512, and the procedure ends if and only
  if the value has at most 65535 bytes (`LongWrite.LongWriteTiles`, `LongWrite.ExecutesIff`). Above 512 they overlap,
  but a server that writes them in their order ends up with the value all the same (`LongWrite.WriteDelivers`).

Other places where the code does less than its comments or names suggest, each with its exact condition:

* A response that arrives while no request is queued and nobody has registered for events makes the engine give up its
  read watch. From then on at most one more request is written, and whatever completes is completed by the timeout
  (`EngineReading.WatchLostIff`, `EngineReading.NothingAnswered`, `EngineReading.StrayResponseDeafens`).
* `read_blob_helper` reports any error after the first part as success with what has been read so far
  (`LongRead.ErrorTruncates` for one response, `LongRead.FailureReported` for whole runs).
* Characteristic discovery reports no error once it has found something: a part of the characteristics is passed off as
  all of them if and only if the first request to fail has wanted characteristics both below and from its start handle
  on. The primary discoveries do so only for the error that says there are no more services
  (`CharDiscovery.CharFailureReported`, `PrimaryDiscovery.AllFailureReported`,
  `PrimaryDiscovery.MatchingFailureReported`).
* Included-service discovery gives its user the whole list if and only if no request of it failed, no read of a UUID was
  cancelled, and its search was neither refused nor cancelled before the end of the table. A search that was gives a part
  of the list, without an error (`IncludedOutcome.IncludesOutcome`).
* The user of included-service discovery has been called once no command is left, if and only if the engine was not
  stale at the start and no read of a UUID was cancelled; otherwise some reference is never dropped, because neither a
  refused request nor a cancelled read has anything that would drop it (`IncludedDiscovery.CalledOnceAtZero`,
  `IncludedDiscovery.RefusedStartLeaks`). Such a reference also keeps the engine for good, because the procedure holds one
  on the engine until its own last one goes (`IncludedDiscovery.EngineOutlives`).
* A sequence header that is cut short can make the decoder loop forever. It does so if and only if a flat pass over the
  packet, which steps over sequence headers instead of descending, comes to such a header (`SdpDecoder.HangIff`; for a
  whole record `SdpRecordPdu.RecordHangsIff`).
* An element for a 32-bit string is allocated without its string. It is encoded, as five bytes of header, and never read
  back, nor is any tree that holds one (`SdpDecoder.LongStrNeverReadBack`). Apart from that, a tree comes back if and only
  if the lengths of its strings fit their fields and every length of a sequence, as far as its field keeps it, reaches
  into the last member (`SdpDecoder.RoundTripIff`; for a whole record `SdpRecordPdu.RecordRoundTripIff`).
* The storage computed for a record does not count the header of the record. It has room for it if and only if some
  attribute has a member, or a leading NIL and empty one-byte sequences behind the first 255 bytes leave enough to
  spare; a record of leaves has room only if it starts with a NIL and has at most 253 bytes
  (`SdpRecordPdu.RecordRoomIff`, `SdpRecordPdu.FlatRecordEstimate`).
* The blocking attribute request does not notice the last fragment if all fragments before it were empty, and sends
  one request too many (`SdpContinuation.BlockingStopsIff`).
* The long write takes the length of a prepare response for the length of the part. It reads past the value if and only
  if the 16-bit sum of those lengths, less five for each response, comes to lie behind the end before it has met it. A
  response longer than the last part does that, and so does one shorter than five bytes to the first part; responses with
  a whole header that are not longer than the part they answer never do (`LongWrite.OverreadIff` for one response,
  `LongWrite.OverreadsIff` for whole runs, `LongWrite.ShortResponseOverreads`, `LongWrite.FittingNeverOverreads`).

## Model

| member | source | states |
|---|---|---|
| AttDefs.RequestsAreNotResponses | src/libgatt/src/gattrib.c:84-147 | no opcode both expects a response and is one, and what completes a request is a response; every response but the error completes some request |
| AttDefs.OpcodeTables | src/libgatt/src/gattrib.c:84-147 | by number: the twelve opcodes of requests expect the opcode above theirs and no other opcode expects anything; the responses are those and the error, 0x01 |
| EngineSafety.SendInv | src/libgatt/src/gattrib.c:499-551 | accepting a command, at either end of a queue, keeps the engine's invariant; a push to the front is only made from inside a result function |
| EngineSafety.WriteInv | src/libgatt/src/gattrib.c:284-349 | so does a write event in each of its outcomes, including a hang-up, a failed write and a command that expects no response |
| EngineSafety.ReceiveInv | src/libgatt/src/gattrib.c:386-446 | so does a read event up to the call of the result function |
| EngineSafety.EndReceiveInv | src/libgatt/src/gattrib.c:450-455 | so does the destruction of the completed command |
| EngineSafety.TimeoutInv | src/libgatt/src/gattrib.c:254-282 | so does the timeout, which runs and destroys every queued request and makes the engine stale |
| EngineSafety.CancelInv | src/libgatt/src/gattrib.c:561-595 | so does a cancellation: a sent head only loses its function, anything else is destroyed |
| EngineSafety.CancelAllInv | src/libgatt/src/gattrib.c:597-636 | so does cancelling both queues |
| EngineSafety.StepInv | src/libgatt/src/gattrib.c:254-636 | every enabled step keeps the invariant |
| EngineSafety.RunInv | src/libgatt/src/gattrib.c:254-636 | every state of every run satisfies it |
| EngineRuns.OneOutstanding | src/libgatt/src/gattrib.c:284-341 | whatever is marked sent is the head of `requests`; nothing in `responses` ever is; while not stale the timeout is armed exactly when such a head exists |
| EngineRuns.NoLostWakeUp | src/libgatt/src/gattrib.c:343-360 | while not stale and no write has failed, a queued response or an unsent head of `requests` has a write watch, in every run |
| EngineRuns.SequentialOnWire | src/libgatt/src/gattrib.c:297-341 | from the PDU of a request until that request is popped, only response PDUs are written |
| EngineRuns.CommandOrder | src/libgatt/src/gattrib.c:422-455 | nothing happens to a command after its destruction; its function runs at most once, only after it was popped, never after a cancellation silenced it |
| EngineRuns.CancelSilences | src/libgatt/src/gattrib.c:561-595 | a cancellation succeeds exactly when a queued command has the id, and then the function of the first such command is not run any more, however the run goes on |
| EngineRuns.CommandsConserved | src/libgatt/src/gattrib.c:159-217 | every accepted command is in exactly one queue, in its completion step, or destroyed exactly once |
| EngineRuns.DestroyFinishes | src/libgatt/src/gattrib.c:176-217 | after `attrib_destroy` every command ever accepted has been destroyed exactly once |
| EngineOrder.ResponseStatus | src/libgatt/src/gattrib.c:426-448 | what completes a request completes the head of the queue, with the status 0 if its opcode is the one above the request's, the fifth byte of an error response, and 0x80 for any other response |
| EngineOrder.WrittenThenWaits | src/libgatt/src/gattrib.c:297-341 | responses are written before requests; exactly the opcodes of requests wait at the head with the timer on, and anything else is gone once it is written |
| EngineOrder.WriteFails | src/libgatt/src/gattrib.c:284-349 | a write event that fails or finds the channel broken leaves both queues, the timer and the log as they are and takes the write watch |
| EngineOrder.ReadWakes | src/libgatt/src/gattrib.c:404-436 | a failed read, and a response that completes a request, get writing going again even after a failed write; only the failed read leaves the timer on |
| EngineOrder.TimeoutStatuses | src/libgatt/src/gattrib.c:254-282 | the timeout tells the head 0x81 and everything behind it 0x82, and runs nothing else |
| EngineOrder.FreshIds | src/libgatt/src/gattrib.c:499-551 | in every run of less than 2^32 steps a new command gets an id that no queued command has, so that a cancellation by it means this command; the id is 0, as for a refusal, if and only if the counter stood at its end |
| EngineOrder.FirstComeFirstServed | src/libgatt/src/gattrib.c:520-540 | in every state of every run responses are queued in the order they were sent, and so are requests but for those pushed in front from inside a result function |
| EngineOrder.CancelAllSilences | src/libgatt/src/gattrib.c:597-636 | after everything has been cancelled only a request that is out is left, without its function; no function of a command that was queued is run any more in any run |
| EngineOrder.DestroyStops | src/libgatt/src/gattrib.c:176-217 | a destroyed engine has no write watch and no timer left, nothing queued, and has destroyed every accepted command exactly once |
| EngineReading.WatchLostIff | src/libgatt/src/gattrib.c:386-430 | in every run the read watch is gone if and only if some read event found the engine stale, the channel broken, or a response with no request queued and no event registered |
| EngineReading.NothingAnswered | src/libgatt/src/gattrib.c:386-455 | from then on, in every run, no result function is run by a response any more; at most one request is out or written, and it stays at the head of the queue until the timeout |
| EngineReading.StrayResponseDeafens | src/libgatt/src/gattrib.c:426-430 | a response that no request waits for is enough for that, if nobody has registered for events |
| GAttrib.Attrib.constructor | src/libgatt/src/gattrib.c:460-497 | a new engine is the initial state |
| GAttrib.Attrib.Send | src/libgatt/src/gattrib.c:499-551 | the class's queues after a send, and the returned id, are those of the state machine |
| GAttrib.Attrib.Enqueue | src/libgatt/src/gattrib.c:520-540 | responses go to the back of their queue, requests with an id to the front of theirs, others to the back |
| GAttrib.Attrib.CanWriteData | src/libgatt/src/gattrib.c:284-341 | a write event on the objects is the step of the state machine |
| GAttrib.Attrib.ReceivedData | src/libgatt/src/gattrib.c:386-446 | so is a read event, with the status for the result function |
| GAttrib.Attrib.EndReceivedData | src/libgatt/src/gattrib.c:450-455 | so is its end |
| GAttrib.Attrib.DisconnectTimeout | src/libgatt/src/gattrib.c:254-282 | so is the timeout |
| GAttrib.Attrib.CancelCommand | src/libgatt/src/gattrib.c:561-595 | so is a cancellation, with its result |
| GAttrib.Attrib.CancelAllPerQueue | src/libgatt/src/gattrib.c:597-623 | what is kept of a queue is its sent head, without function, and the rest is destroyed in order |
| GAttrib.Attrib.CancelEverything | src/libgatt/src/gattrib.c:625-636 | so is cancelling everything |
| GAttrib.Attrib.AttribDestroy | src/libgatt/src/gattrib.c:176-217 | so is the destruction of the engine |
| LongRead.AskInv | src/libgatt/src/gatt.c:619-628 | the blob request is pushed in front of the queue where the engine allows it, so its invariant holds throughout |
| LongRead.WorldStepHeld | src/libgatt/src/gatt.c:578-672 | whatever step the engine makes, references, calls and the place of our commands stay in agreement |
| LongRead.SharedStateFreedOnce | src/libgatt/src/gatt.c:578-705 | in every run the reference count is the number of queued commands of the procedure, the shared state is freed exactly once, at zero, the user is called at most once, and every part has the id of the first request |
| LongRead.PartsAreNotSplit | src/libgatt/src/gatt.c:619-628 | while a blob request is queued it is the head, and nothing but responses and blob requests of this read has been written since the first of them |
| LongRead.DestroyFrees | src/libgatt/src/gattrib.c:176-217 | destroying the engine in any state of any run leaves no command queued, drops the references that are left so that the shared state has been freed exactly once, and does not call the user |
| LongRead.FirstRead | src/libgatt/src/gatt.c:638-672 | the first response either is all there is to deliver, or fills the buffer and the next bytes are asked for |
| LongRead.PartRead | src/libgatt/src/gatt.c:591-636 | a further response goes behind the buffer, and only a full one is followed by another request |
| LongRead.LastRead | src/libgatt/src/gatt.c:601-604 | a response without bytes, or an error, at the end of the value delivers it as success |
| LongRead.ErrorTruncates | src/libgatt/src/gatt.c:601-604 | an error before the end of the value gives the user status 0 and the bytes read so far, which are not the value |
| LongRead.LongReadDelivers | src/libgatt/src/gatt.c:578-705 | against a peer that keeps a value for each handle and goes by the PDU: whatever our requests are answered and whether or not they time out, once no command is left the user was given the opcode and exactly the value of the handle asked for, if and only if the condition above holds; the offsets asked for strictly increase |
| LongRead.FailureReported | src/libgatt/src/gatt.c:578-672 | against the same peer, in every run in which a request for bytes of the value failed, the user got either the error of the first request or a success with the bytes of that handle's value in front of the offset asked for last |
| LongRead.BlobRequestCount | src/libgatt/src/gatt.c:615-628 | a value that was delivered took exactly as many blob requests as full responses go into it |
| LongRead.LargeMtuCutsValue | src/libgatt/src/gattrib.c:391-407 | a 600-byte value read with an MTU of 672 is delivered as its first 511 bytes |
| LongRead.ReadLong.ReadChar | src/libgatt/src/gatt.c:674-705 | starting the read queues one request, which names the handle, and holds one reference; a refused one has id 0 |
| LongRead.ReadLong.Destroy | src/libgatt/src/gatt.c:578-589 | the object after a dropped reference is that of the specification |
| LongRead.ReadLong.ReadCharHelper | src/libgatt/src/gatt.c:638-672 | object and engine after the first result function are those of the specification |
| LongRead.ReadLong.ReadBlobHelper | src/libgatt/src/gatt.c:591-636 | the same for the result function of the parts |
| IncludedDiscovery.ServedCounts | src/libgatt/src/gatt.c:288-427 | a result function and the destruction of its command leave references and commands in agreement, whatever it queued |
| IncludedDiscovery.AbortCounts | src/libgatt/src/gattrib.c:265-274 | the timeout drops the reference of every queued command that can drop one; if none was cancelled the last of them calls the user with an error and no list |
| IncludedDiscovery.WorldStepCounts | src/libgatt/src/gatt.c:79-99 | every step, cancellations of our own commands included, keeps references, commands and leaks in balance, and leaks one exactly when it cancels a read of a UUID that still has its function |
| IncludedDiscovery.CalledOnceAtZero | src/libgatt/src/gatt.c:79-99 | in every run, whoever cancels what, the user is called exactly once, when the last reference goes and not before; references are those of queued commands that will drop them, and the user has been called when no command is left, if and only if the engine was not stale at the start and no read of a UUID was cancelled |
| IncludedListing.ResolveLists | src/libgatt/src/gatt.c:288-322 | a UUID that has been read belongs to the first include waiting for one, and completes it |
| IncludedListing.PageLists | src/libgatt/src/gatt.c:377-427 | a page goes on the list or is asked for entry by entry, and what is listed, followed by what is being resolved in queue order, is what has been found |
| IncludedListing.ServesConforms | src/libgatt/src/gatt.c:324-375 | what a peer makes of the bytes of a queued request is what the request is for: the search covers the rest of the range for declarations of type 0x2802, and a read names the service whose UUID is wanted |
| IncludedListing.IncludesDiscovered | src/libgatt/src/gatt.c:288-441 | against a peer that answers searches and reads by their PDUs alone, for any pages and any mixture of UUID widths, the user gets exactly the includes of the range in handle order, within two responses for each and one more |
| IncludedDiscovery.RefusedStartLeaks | src/libgatt/src/gatt.c:362-375 | in every state of every run from a stale engine the first reference is still held, the state not freed and the user not called |
| IncludedDiscovery.EngineOutlives | src/libgatt/src/gatt.c:86-99 | in every run the procedure keeps the engine until its last reference goes; the engine can only be destroyed after the user has been called, which then changes nothing for the procedure, and never once a reference has leaked |
| IncludedDiscovery.DestroyEnds | src/libgatt/src/gattrib.c:176-217 | were the engine destroyed in some state of a run, which the procedure's own reference on it rules out as long as references are left, the user would have been called exactly once if and only if nothing had leaked and no UUID was being read |
| IncludedOutcome.ListingStep | src/libgatt/src/gatt.c:288-427 | a step while the search is on keeps the list complete up to the search, ends the search where it stands, or records an error |
| IncludedOutcome.DrainingStep | src/libgatt/src/gatt.c:288-322 | a step after the end of the search keeps what was found before it, or records an error |
| IncludedOutcome.IncludesOutcome | src/libgatt/src/gatt.c:288-441 | in every run against that peer, whatever is refused, times out or is cancelled: once no command is left the user was given exactly the includes of the range if and only if nothing failed, no search was cut and no read cancelled; otherwise no call, an error without a list, or a proper part of them with error 0, each exactly when |
| IncludedDiscovery.DiscoverIncluded.FindIncluded | src/libgatt/src/gatt.c:429-441 | the object and the engine after the start are those of the specification |
| IncludedDiscovery.DiscoverIncluded.IsdUnref | src/libgatt/src/gatt.c:86-99 | the last reference calls the user, with the list only if there was no error |
| IncludedDiscovery.DiscoverIncluded.Request | src/libgatt/src/gatt.c:324-375 | a reference and a request at the back of the queue, with the PDU that `ServesConforms` is about |
| IncludedDiscovery.UuidTaken | src/libgatt/src/gatt.c:297-316 | a UUID is taken from a read response of exactly 16 bytes, and a response of another length is an I/O error unless one was noted before |
| IncludedDiscovery.DiscoverIncluded.ResolveIncludedUuidCb | src/libgatt/src/gatt.c:288-322 | the object after a resolved UUID, an error or a value of another length |
| IncludedDiscovery.DiscoverIncluded.TakeAll | src/libgatt/src/gatt.c:404-416 | the loop over the entries appends or queues each of them in order |
| IncludedDiscovery.DiscoverIncluded.FindIncludedCb | src/libgatt/src/gatt.c:377-427 | object and engine after a response to a find request are those of the specification |
| LongWrite.WriteLong.constructor | src/libgatt/src/gatt.c:782-820 | a value that fits is written in one request that carries it, any other starts with its first part; `WriteDelivers` says what a peer holds then |
| LongWrite.WriteLong.PrepareWriteCb | src/libgatt/src/gatt.c:736-761 | the object after any response: error reported, next part, execute, or a read past the value |
| LongWrite.OverreadIff | src/libgatt/src/gatt.c:746-761 | after any response to any part the code reads past the value if and only if the response ends behind it, or wraps the 16-bit offset below zero to behind it |
| LongWrite.ShortResponseOverreads | src/libgatt/src/gatt.c:746-747 | a response of one byte to the first part does so, for any value shorter than 65532 bytes |
| LongWrite.LongResponseSkips | src/libgatt/src/gatt.c:746-761 | a response one byte longer than the first part does not, but then a byte of the value is in no part |
| LongWrite.OverreadsIff | src/libgatt/src/gatt.c:736-780 | for any responses of status 0 their lengths alone decide: the first that puts the offset at the end has the value executed, the first that puts it behind has the code read past it |
| LongWrite.FittingNeverOverreads | src/libgatt/src/gatt.c:736-780 | in no run does a response with a whole header, no longer than the part it answers, lead to that |
| LongWrite.PrepareShape | src/libgatt/src/att.c:996-1021 | a prepare request names the offset and carries as many bytes from there as the MTU or the value allows |
| LongWrite.RunPrepares | src/libgatt/src/gatt.c:736-780 | between the echoes nothing but parts is sent and no status reported; the offset grows with every echo, within 16 bits |
| LongWrite.LongWriteTiles | src/libgatt/src/gatt.c:736-820 | when every part has been echoed, the parts are contiguous, non-empty, concatenate to the value and are followed by one execute, if and only if the MTU is at most 512 |
| LongWrite.LargeMtuOverlaps | src/libgatt/src/gatt.c:747-749 | with a larger MTU the second part starts inside the first |
| LongWrite.WriteDelivers | src/libgatt/src/gatt.c:736-820 | for every length: once the procedure is over, a peer that keeps a value for each handle and goes by the opcode, handle, offset and payload of each PDU holds the value at the handle (of a longer one it held before, the rest stays if the write came in parts), all other values as they were, and an empty queue |
| LongWrite.ExecutesIff | src/libgatt/src/gatt.c:751-759 | the execute request is reached, within as many echoes as there are bytes, if and only if the length fits 16 bits |
| LongWrite.ErrorStopsWrite | src/libgatt/src/gatt.c:741-744 | an error after any number of parts is reported once and no execute follows |
| PrimaryDiscovery.PrimaryAllCb | src/libgatt/src/gatt.c:189-256 | the loop over the group entries and the three exits, as in the specification |
| PrimaryDiscovery.PrimaryByUuidCb | src/libgatt/src/gatt.c:145-187 | the same for ranges by UUID |
| PrimaryDiscovery.AskAllMeans | src/libgatt/src/gatt.c:109-143 | what a peer makes of the bytes of a request for all services is the services from the next start handle on |
| PrimaryDiscovery.AskUuidMeans | src/libgatt/src/gatt.c:109-143 | and of one for a UUID, those of them with that UUID |
| PrimaryDiscovery.DiscoverPrimary.Ask | src/libgatt/src/gatt.c:162-178 | the request that `AskAllMeans` and `AskUuidMeans` are about is sent, from past the last service |
| PrimaryDiscovery.AllProceeds | src/libgatt/src/gatt.c:203-247 | an exchange either ends the procedure with all services listed, or leaves exactly those below the next start handle, which is higher |
| PrimaryDiscovery.AllServicesDiscovered | src/libgatt/src/gatt.c:189-286 | for any sorted disjoint service table and any pages of a peer that goes by the PDU: error 0 and exactly the services, in order, each with the number its UUID stands for, within 65535 responses |
| PrimaryDiscovery.MatchingMembers | src/libgatt/src/gatt.c:145-187 | the services asked for by UUID are those of the table that have it, each once and in handle order |
| PrimaryDiscovery.MatchingServicesDiscovered | src/libgatt/src/gatt.c:145-187 | the same for the services with a given UUID |
| PrimaryDiscovery.AllFailureReported | src/libgatt/src/gatt.c:198-201 | whichever requests fail, the outcome is what lies below the first that does, with its error; it is a part with error 0 if and only if that error says there is no more and services are left |
| PrimaryDiscovery.MatchingFailureReported | src/libgatt/src/gatt.c:157-160 | the same for the services with a given UUID |
| CharDiscovery.DiscoverChar.Collect | src/libgatt/src/gatt.c:466-494 | the loop keeps exactly the entries that match the filter, in order |
| CharDiscovery.DiscoverChar.CharDiscoveredCb | src/libgatt/src/gatt.c:443-520 | the object after a response is that of the specification |
| CharDiscovery.AskCharsMeans | src/libgatt/src/gatt.c:496-513 | what a peer makes of the bytes of a request is the declarations of the range from the next handle on, wherever else it has some |
| CharDiscovery.AfterPage | src/libgatt/src/gatt.c:498-513 | the early stop loses nothing: a declaration left over would have its value outside the range |
| CharDiscovery.CharsDiscovered | src/libgatt/src/gatt.c:443-550 | for any peer with values above their declarations, and in range for those asked for, and any pages: exactly the characteristics of the range that match, in order, each with the number its UUID stands for, with error 0 if and only if there is one |
| CharDiscovery.CharFailureReported | src/libgatt/src/gatt.c:455-516 | whichever requests fail, the outcome is what lies below the first that does, with its error only if that is nothing; so it is a part with error 0 if and only if something wanted lies on either side |
| AttUuid.WidenIsWide | src/libgatt/src/uuid.c:50-62 | the widened UUID is, from its lowest byte up, the number n * 2^96 + 00000000-0000-1000-8000-00805F9B34FB; a UUID of 16 bytes is kept |
| Bytes.ByteOrders | src/libgatt/src/att.h:126-155 | little endian is the low byte first, network order the high byte |
| AttRequests.ReadParsed | src/libgatt/src/att.c:582-596 | what a peer reads of a read request is the handle asked for |
| AttRequests.ReadBlobParsed | src/libgatt/src/att.c:598-615 | of a blob request, handle and offset |
| AttRequests.ReadByTypeParsed | src/libgatt/src/att.c:353-379 | of a read by type, the range and the type |
| AttRequests.ReadByGroupParsed | src/libgatt/src/att.c:122-148 | of a read by group, the same |
| AttRequests.FindByTypeParsed | src/libgatt/src/att.c:230-263 | of a find by type, the same with the value |
| AttRequests.WriteParsed | src/libgatt/src/att.c:511-534 | of a write, the handle and the value, cut only if it does not fit |
| AttRequests.PrepareParsed | src/libgatt/src/att.c:996-1021 | of a prepared write, handle, offset and the part, cut in the same way |
| AttCodec.RoomIsLongest | src/libgatt/src/att.c:177-202 | the number of packed entries is the largest that fits |
| AttCodec.ListLayout | src/libgatt/src/att.c:177-202 | where in a list PDU each byte of each entry is |
| AttCodec.RangesLayout | src/libgatt/src/att.c:306-326 | where in a list of ranges each handle is, low byte first |
| AttCodec.EncReadByGrpResp | src/libgatt/src/att.c:177-202 | the array holds the header and the longest prefix of entries that fits, or nothing if none does |
| AttCodec.EncReadByTypeResp | src/libgatt/src/att.c:409-434 | the same with every entry cut to what a PDU can hold |
| AttCodec.EncFindInfoResp | src/libgatt/src/att.c:778-804 | the same for handle and UUID pairs |
| AttCodec.EncFindByTypeResp | src/libgatt/src/att.c:306-326 | the same for handle ranges |
| AttCodec.DecReadByGrpResp | src/libgatt/src/att.c:204-228 | the decoder's copy loop yields the whole entries of the PDU |
| AttCodec.DecReadByTypeResp | src/libgatt/src/att.c:436-460 | the same |
| AttCodec.DecFindInfoResp | src/libgatt/src/att.c:806-844 | the same, with the entry length that the format implies |
| AttCodec.DecFindByTypeResp | src/libgatt/src/att.c:328-351 | the same for handle ranges |
| AttCodec.ListCodec | src/libgatt/src/att.c:177-228 | decoding an encoded list gives the longest prefix that fits; one more entry would not |
| AttCodec.ReadByTypeCodec | src/libgatt/src/att.c:409-460 | the same, with over-long entries cut uniformly: the longest prefix that fits comes back, and one more entry would not fit |
| AttCodec.DecFindInfoOfListPdu | src/libgatt/src/att.c:778-844 | handle and UUID pairs are read back if the format matches their length; any other format is taken for handles alone |
| AttCodec.RangeCodec | src/libgatt/src/att.c:306-351 | the same for handle ranges, with one more range not fitting |
| AttCodec.DecSeenListPdu | src/libgatt/src/gattrib.c:391-407 | of a list longer than the read buffer the whole entries in front are read back, at least one |
| AttCodec.DecSeenRanges | src/libgatt/src/gattrib.c:391-407 | the same for handle ranges |
| SdpElements.DescriptorRule | src/libgatt/src/sdp.c:636-760 | the descriptors are the ones of section 3.1: type times eight plus the size index, and the sizes and length fields follow from the index |
| SdpElements.PromoteIdempotent | src/libgatt/src/sdp.c:796-807 | promoting a promoted tree changes nothing, so generating again yields the same bytes |
| SdpElements.PromoteKeepsShape | src/libgatt/src/sdp.c:803-806 | all that promotion ever changes in a tree is SEQ8 to SEQ16 |
| SdpElements.PromoteUnchangedIff | src/libgatt/src/sdp.c:796-807 | the encoder leaves a tree as it is if and only if no sequence anywhere in it has outgrown a one-byte length, and what it leaves is always such a tree |
| SdpEncoder.GenPdu | src/libgatt/src/sdp.c:787-901 | the buffer gains exactly the single-pass image of the promoted tree, the tree in memory is the promoted one, and the returned size is the advance |
| SdpEncoder.OnePass | src/libgatt/src/sdp.c:798-806 | one pass from `recalculate` reserves the header and writes the payload with its members promoted |
| SdpEncoder.GetDataSize | src/libgatt/src/sdp.c:675-688 | the members of a sequence are generated one behind the other |
| SdpEncoder.Finish | src/libgatt/src/sdp.c:809-900 | descriptor and length go in front of the payload already written; a leaf's bytes follow |
| SdpSize.GenBuffer | src/libgatt/src/sdp.c:763-785 | the estimator's running total, under either order of evaluation |
| SdpSize.ChainSize | src/libgatt/src/sdp.c:675-688 | the same along the members of a sequence |
| SdpSize.EstimateCoversImage | src/libgatt/src/sdp.c:763-785 | for every tree and either order of evaluation the estimate is at least 3 plus the final image, promotions included |
| SdpSize.MemberlessEstimate | src/libgatt/src/sdp.c:763-785 | for an element without members it is exactly that, plus two bytes for a leading NIL and one for an empty SEQ8 beyond 255 bytes |
| SdpSize.EarlyEstimate | src/libgatt/src/sdp.c:763-785 | where the old running total is read before the call, the estimate is the image and three bytes for each element, with two more for a leading NIL and at most one more for each one-byte sequence |
| SdpDecoder.RoundTripIff | src/libgatt/src/sdp.c:1029-1369 | decoding the image of any tree, followed by anything, returns the tree if and only if its lengths tell its elements apart, and then consumes exactly the image |
| SdpDecoder.RoundTrip | src/libgatt/src/sdp.c:1029-1369 | so every such tree comes back |
| SdpDecoder.LongStrNeverReadBack | src/libgatt/src/sdp.c:1170-1190 | the element of a 32-bit string is encoded as its header alone and decoded by no continuation, nor is any tree that holds one |
| SdpDecoder.LegibleWithoutFitting | src/libgatt/src/sdp.c:1290-1306 | a tree can come back although a length does not fit its field: a 300-byte ALT8 that announces 44 |
| SdpDecoder.PromotedRoundTrip | src/libgatt/src/sdp.c:787-901 | what is decoded from the encoder's output is the tree the encoder left in memory |
| SdpDecoder.EncodeInjective | src/libgatt/src/sdp.c:1312-1369 | two such trees with the same image are the same |
| SdpDecoder.HangIff | src/libgatt/src/sdp.c:1263-1369 | for every packet the decoder never ends if and only if the flat pass meets a sequence header that is cut short, fails if and only if the pass finds no element, and otherwise consumes as many bytes as the pass |
| SdpDecoder.ItemsHangIff | src/libgatt/src/sdp.c:1290-1306 | the same for the loop of `extract_seq`, whatever length was announced |
| SdpDecoder.TerminatesWithoutTruncatedHeader | src/libgatt/src/sdp.c:1263-1310 | so on a packet that nowhere ends inside a sequence header the decoder ends, and every element it returns consumed a byte |
| SdpDecoder.TruncatedTailHangs | src/libgatt/src/sdp.c:1275-1279 | and behind any complete members, a header cut short with more bytes announced is read forever |
| SdpDecoder.TruncatedHeaderHangs | src/libgatt/src/sdp.c:1275-1279 | the shortest such packet has three bytes |
| SdpDecoder.DecodeItems | src/libgatt/src/sdp.c:1290-1306 | the loop links the elements the specification lists |
| SdpDecoder.DecodeAttr | src/libgatt/src/sdp.c:1312-1369 | the recursive decoder returns what the specification says |
| SdpFraming.AppendToBuf | src/libgatt/src/sdp.c:2820-2860 | appending to a buffer that frames a payload makes it frame the longer payload, across the switch to a two-byte length |
| SdpFraming.MakeRoom | src/libgatt/src/sdp.c:2839-2846 | the `memmove` shifts the body by one byte and changes none of it |
| SdpRecordPdu.FramedAnnouncesIff | src/libgatt/src/sdp.c:2820-2860 | the header in front of a payload is read back as its length in 16 bits, so it announces all of it if and only if it has at most 65535 bytes |
| SdpList.List.InsertSorted | src/libgatt/src/sdp.c:1773-1792 | the linked list after an insertion holds the sequence with the element in its place: the old nodes in their order around one new one |
| SdpList.List.Remove | src/libgatt/src/sdp.c:1756-1771 | the list without the first such element |
| SdpList.List.Find | src/libgatt/src/sdp.c:1664-1676 | the first element that compares equal |
| SdpList.SortedInsert | src/libgatt/src/sdp.c:1773-1792 | an insertion in place keeps a list strictly sorted |
| SdpList.SortedUnique | src/libgatt/src/sdp.c:1773-1792 | a strictly sorted list is determined by its elements |
| SdpRecord.InsertAttr | src/libgatt/src/sdp.c:583-597 | inserting a new id keeps the attribute list sorted and is an update of the map |
| SdpRecord.FindAttr | src/libgatt/src/sdp.c:1664-1676 | lookup agrees with the map |
| SdpRecord.RemoveAttr | src/libgatt/src/sdp.c:599-608 | removing an entry is removal from the map |
| SdpRecord.Record.Get | src/libgatt/src/sdp.c:1664-1676 | the entry of the map, or none |
| SdpRecord.Record.Add | src/libgatt/src/sdp.c:583-597 | adds to the map; refuses an id that is present and then changes nothing |
| SdpRecord.Record.Replace | src/libgatt/src/sdp.c:929-943 | updates the map |
| SdpRecord.Record.Remove | src/libgatt/src/sdp.c:599-608 | removes from the map |
| SdpRecordPdu.AppendToPdu | src/libgatt/src/sdp.c:2862-2876 | the element goes through a buffer that is always large enough, and the record's buffer then frames it too |
| SdpRecordPdu.GenRecordPdu | src/libgatt/src/sdp.c:913-927 | a record with room for its header ends up promoted, and the buffer frames its attributes in order as they now are |
| SdpRecordPdu.RecordRoomIff | src/libgatt/src/sdp.c:913-927 | for every record and either order of evaluation the computed storage has room for the framed record if and only if some attribute has a member or the attributes leave enough to spare |
| SdpRecordPdu.RecordEstimate | src/libgatt/src/sdp.c:913-927 | it always holds the attributes, and three bytes more if one of them has a member |
| SdpRecordPdu.FlatRecordEstimate | src/libgatt/src/sdp.c:763-785 | for leaves it is exact but for a leading NIL, and has room for the header if and only if there is one and the record has at most 253 bytes |
| SdpRecordPdu.RecordIsSequence | src/libgatt/src/sdp.c:913-927 | the framed record is the image of one sequence of its ids and values in turn |
| SdpRecordPdu.RecordDecodes | src/libgatt/src/sdp.c:1290-1369 | so the element decoder, which knows nothing of records, reads it as that sequence |
| SdpRecordPdu.RecordRoundTripIff | src/libgatt/src/sdp.c:1394-1455 | a framed record, whatever follows, gives its attributes back if and only if they can be told apart and the 16 bits kept of its length reach into the last of them |
| SdpRecordPdu.RecordRoundTrip | src/libgatt/src/sdp.c:1394-1455 | so one of at most 65535 payload bytes does, and is scanned to its end |
| SdpRecordPdu.RecordMapRoundTrip | src/libgatt/src/sdp.c:1394-1455 | entering them one by one rebuilds the attribute map |
| SdpRecordPdu.GeneratedMapReturns | src/libgatt/src/sdp.c:913-927 | what is extracted from a generated record is the attribute map it was generated from, every element as the encoder promoted it |
| SdpRecordPdu.RecordHangsIff | src/libgatt/src/sdp.c:1394-1455 | for every packet extracting a record never ends if and only if the flat pass along its attributes meets a sequence header that is cut short |
| SdpRecordPdu.ExtractPdu | src/libgatt/src/sdp.c:1394-1455 | the extracted record holds what the scan finds, each attribute replacing an earlier one of its id, and the scanned length is the announced one |
| SdpUuid.WidenDenotes | src/libgatt/src/sdp.c:2701-2765 | widening a UUID of any form yields the number it denotes |
| SdpUuid.UuidCmpDenotes | src/libgatt/src/sdp.c:2660-2672 | comparison is 0 if and only if the denoted UUIDs are equal, and otherwise orders them |
| SdpUuid.NarrowKeepsUuid | src/libgatt/src/sdp.c:2771-2795 | narrowing denotes the same UUID |
| SdpUuid.NarrowIsShortest | src/libgatt/src/sdp.c:2771-2795 | widening and then narrowing gives the shortest equivalent form |
| SdpUuid.PatternAdd | src/libgatt/src/sdp.c:3212-3225 | the pattern stays strictly sorted on the 128-bit form and gains exactly this UUID |
| SdpUuid.PatternAddAll | src/libgatt/src/sdp.c:3227-3233 | the same for any sequence of UUIDs of any forms |
| SdpUuid.CanonicalPatternUnique | src/libgatt/src/sdp.c:3212-3233 | two patterns with the same UUIDs are the same list |
| SdpUuid.BaseNumber | src/libgatt/src/sdp.c:63-66 | the base UUID is the number 00000000-0000-1000-8000-00805F9B34FB |
| SdpContinuation.ServiceAttrReq | src/libgatt/src/sdp.c:3600-3690 | the blocking loop on any replies is its specification |
| SdpContinuation.BlockingDelivers | src/libgatt/src/sdp.c:3613-3690 | for fragments of which one before the last is non-empty, the concatenation in order, each request with the latest state, and no request after the last |
| SdpContinuation.BlockingStopsIff | src/libgatt/src/sdp.c:3653-3676 | the loop stops with the last fragment if and only if there was only one or one before it carried a byte |
| SdpContinuation.ReassembledRecord | src/libgatt/src/sdp.c:3613-3690 | however the response is split into non-empty fragments, the record extracted at the end is the one the server framed |
| SdpContinuation.RoundRejects | src/libgatt/src/sdp.c:1712-1730 | a reply of another transaction, like one that is lost, an error or too short, ends the request, and nothing of it is joined; all that is ever joined is the payload of a usable one |
| SdpContinuation.BlockingRejects | src/libgatt/src/sdp.c:3613-3650 | so the first such reply of a whole request leaves it without a record, unless it was answered before |
| SdpContinuation.Session.Process | src/libgatt/src/sdp.c:4141-4333 | one step on the transaction's fields, in each of its exits, as in the specification |
| SdpContinuation.StepRejects | src/libgatt/src/sdp.c:4141-4333 | a step joins exactly the announced part of a reply of its own transaction; any other ends the transaction with one notice, for an error response with the status it carries, and joins nothing |
| SdpContinuation.StateCopied | src/libgatt/src/sdp.c:3346-3360 | a request carries the continuation state as received, or as much of it as there is room for |
| SdpContinuation.AsyncDelivers | src/libgatt/src/sdp.c:4241-4333 | one step for each fragment, each follow-up with the latest state, and a single callback, after the last, with the concatenation |

## Left out

- Sockets, polling and the GLib main loop: read and write outcomes are inputs of the steps; a write that blocks, and
  a read that is not a normal one, are among them.
- Allocation failures, the reference counts of `GAttrib` and `GIOChannel` (but for the reference of included discovery
  in `IncludedDiscovery.EngineOutlives`), logging and debug hooks.
- What the functions of registered events do, and which PDUs they match: only how many are registered matters here
  (`EngineReading`).
- GAttrib.Attrib.ReceivedData: the object has no read watch; `EngineReading` says when a run loses it.
- Result functions that send while the timeout aborts the queue; those of `gatt.c` do not.
- Nested completions: no handler of the engine runs while a result function is running.
- A change of the MTU in the middle of a procedure.
- The wrap of the 32-bit command counter to 0, which `g_attrib_send` reports as a refusal (`EngineOrder.FreshIds`):
  `LongRead.Ready` excludes it at the start of a read.
- Responses that make a list decoder divide by a zero length byte, or read handles outside an entry: `Readable` excludes them.
- AttCodec.DecReadByGrpResp: takes a PDU with a non-zero length byte, because the C code divides by it.
- AttCodec.DecReadByTypeResp: the same.
- LongWrite.WriteLong.PrepareWriteCb: says nothing about what is sent after a read past the value. Its requests are
  recorded in order but not run among those of other users.
- PrimaryDiscovery.PrimaryAllCb: the requests of this and the characteristic procedure are not run among those of other
  users; each waits for its response.
- IncludedDiscovery.CalledOnceAtZero: runs in which a response to a find request has a zero length byte are outside, as above.
- CharDiscovery.CharsDiscovered: values at or below their declarations or outside the range are outside the statement,
  and so is a range that starts at 0 or behind its end, which a peer refuses.
- IncludedListing.IncludesDiscovered: the same holds for such a range, and a peer has the same UUID in a service's
  declaration as in the declarations that include it.
- `dec_prep_write_resp`, which tests the request opcode, and the remaining request and response codecs of `att.c`:
  easy members.
- GATT write without response, MTU exchange, descriptor discovery: one request each.
- SdpRecordPdu.GenRecordPdu: takes room for the record's own header (`HasRoom`) as a condition, because the code does not
  reserve it and writes behind the storage otherwise; `RecordRoomIff` proves that this is exactly when the computed
  storage is large enough.
- SdpSize.GenBuffer: 32-bit overflow of the sizes, which are unbounded integers here.
- SdpEncoder.GenPdu: the links between the nodes of a tree do not change while it is encoded; only `dtd` does.
- SdpRecordPdu.ExtractPdu: the shortcut fields that `sdp_extract_pdu` fills beside the attribute list (`handle`,
  `svclass`, the pattern), and the 32-bit overflow of the scanned length.
- SdpContinuation.Session.Process: search responses, whose running record count is added without byte swapping.
- UUID, address and name tables in text form, BD address conversion, HCI and L2CAP options, the samples.
