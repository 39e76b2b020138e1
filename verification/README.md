# duetto, modelled

Duetto is a WebSocket library in Free Pascal: a protocol machine that touches
no socket, a server session layer over it, and one transport per platform.
This project models its core and proves what that core is for: that a
connection's several fast routes are one route, that close frames and
callbacks come in the order RFC 6455 allows, that no queued byte is sent
twice or out of order and none is thrown away while the socket lives, but for
a peer over the pending cap, out of time or lost, and that every connection is
released once.

## The files

- `Bytes.dfy`, `Frame.dfy`, `Mask.dfy`, `Utf8.dfy`: bytes and exclusive or,
  the frame header codec, the masking kernels, the UTF-8 automaton.
- `Machine.dfy`: the protocol machine (`TWSProtocol`) as functions on values:
  what a read, a send, a close does to the inbound state, the close state, the
  out queue and the events reported. `Segmentation.dfy`, `Safety.dfy`,
  `Peers.dfy` and `Connection.dfy` prove its laws: independence of how a
  stream is cut into reads, safety of every run, and two machines wired
  together; `Echo.dfy` applies them to the echo server of `source/apps`.
  `Policing.dfy`, `Fragments.dfy`, `Replies.dfy` and `Xorshift.dfy` say in
  terms of the wire what those functions compute: which headers pass, that a
  message is its fragments joined, which frame answers what, and the mask
  keys bit by bit.
- `Protocol.dfy`: the class itself, with its carry, assembly and out buffers
  as arrays, the read buffer unmasked in place and callbacks that send and
  flush from inside, proved to compute the functions of `Machine.dfy`.
- `Epoll.dfy`, `Session.dfy`, `Reads.dfy`, `Registry.dfy`: the plaintext epoll
  send path, a server connection over it with its deferred drops, contained
  handlers and clocks, the link between what the session is handed for a read
  and the machine's parse, and the registry.
- `Iocp.dfy`, `Outlet.dfy`: the plaintext lifetime and send path of the
  completion-port transport, and the sending half of a session over it.
- `Inflater.dfy`: the capped inflate loop over a decoding function.
- `Handshake.dfy`, `Text.dfy`, `Upgrade.dfy`, `HandshakeTrip.dfy`: the search
  for the end of the request, the string builder and parsers, and the request
  and response round trips. `Offers.dfy` and `Judgement.dfy` say in terms of
  the text what is granted, upgraded and accepted.

## How the outside enters

- Callbacks of a machine are a function from the events so far to the sends
  they make; every deterministic handler is one. What the transport takes
  while they run is a script. In the session a handler is a script of sends
  and closes that may end in an exception, and ignores every result it is
  given. It sends text, binary and closes: `Proto` is published
  (source/units/WS.Server.pas:174), so it may also call `Proto.SendPing`, which
  leaves a frame queued with EPOLLOUT unarmed until something else flushes;
  that is not modelled.
- A system call's result is read off a script: short counts, interruption, a
  full socket, an error. The kernel's completions, the transport's events and
  calls from outside arrive in any order.
- Reading the clock lets any time pass.
- zlib is a decoding function and the contract of one inflate call; SHA-1 and
  integer parsing of the run-time library are functions with the laws that are
  needed (an accept value has no blanks; a decimal numeral of a 32-bit integer
  reads as itself, a larger one and the empty text as no integer).
- The seed of the mask keys is a parameter.

## Where the code and its documentation differ

- The comment on `Ingest` (source/units/WS.Protocol.pas) promises False once
  on failure; the code answers False on every later call as well
  (line 677), and the model follows the code.
- A close reason is cut at 123 bytes whether or not that splits a character
  (lines 430-432). `Connection.CutReasonFails` gives a well-formed reason that
  so fails the peer with 1007, and `Connection.CloseAccepted` says exactly
  when: the code travels and the cut reason is not well-formed. The
  two-machine theorems ask of an owner no more than that its reasons are
  well-formed as cut, behind a code that travels; `Safety.CloseSafety` asks
  nothing.
- A draining connection is meant to have output pending, with EPOLLOUT to
  finish it. The code does not always keep that: a send or close made while a
  still open connection drains flushes the queue, and when the socket takes
  all of it EPOLLOUT is withdrawn and nobody drops the connection.
  `Session.OwnerStrands` is such a run, and `Session.Conn.Take` says exactly
  which events lead there and which lead out again. The connection then waits
  for its close deadline, or for its peer, and with CloseTimeoutMs at 0 or
  below there is no deadline: it may stay for ever.
- In `HandleSendReady` the second test, on a closed machine that is not
  draining, is never met between events: `Session.Conn.Quiet` implies that
  such a connection drains.

## Model

| member | source | states |
|---|---|---|
| `Segmentation.SegmentationInvariance` | source/units/WS.Protocol.pas:658-831 | From every state the machine can rest in, reading a and then b gives the same events, the same queued bytes and mask keys, and the same state as reading a + b |
| `Segmentation.AnyPartition` | source/units/WS.Protocol.pas:658-831 | Every partition of a byte stream into reads ends in the state of one read of the whole |
| `Segmentation.InPlaceIsAssembly` | source/units/WS.Protocol.pas:718-749 | Unmasking and delivering a whole final frame where it lies reports and leaves exactly what the route through the assembly buffer does |
| `Segmentation.AssembleJoin` | source/units/WS.Protocol.pas:730-748 | A payload chunk taken in two parts, mask phase and UTF-8 state carried between them, is the chunk taken at once |
| `Segmentation.LoopAppend` | source/units/WS.Protocol.pas:703-831 | The frame loop on a buffer with more bytes behind it goes on from where the loop on the buffer alone stopped, carry included |
| `Segmentation.LoopSettles` | source/units/WS.Protocol.pas:703-831 | The frame loop ends in a state that holds a bounded carry of one unfinished header or control frame, or a payload under way and no carry |
| `Segmentation.IngestSettles` | source/units/WS.Protocol.pas:658-831 | Every read ends in such a resting state again, so the theorems apply from every reachable state |
| `Segmentation.PoliceStable` | source/units/WS.Protocol.pas:753-792 | A verdict on the head of the buffer, frame or failure, does not change when more bytes follow |
| `Safety.CloseSafety` | source/units/WS.Protocol.pas:401-506 | In every run of reads, sends, closes and draining: the wire is the logged frames in order, at most one close frame and no frame behind it, every frame legal, OnClose at most once and last, and exactly when the machine failed or took a close, which it then answered |
| `Safety.ReassemblyBounds` | source/units/WS.Protocol.pas:564-594 | In every run no delivered message exceeds the cap and every delivered text is well-formed UTF-8; what is assembled plus what still streams stays within the cap; the carry is at most 130 bytes and empty while a payload streams |
| `Safety.ShutForGood` | source/units/WS.Protocol.pas:341-506 | Once a machine failed or took the peer's close, no later run of reads, sends, closes and draining changes its inbound state, its failure, code and reason, reports an event or frames anything |
| `Safety.DoInv` | source/units/WS.Protocol.pas:367-445 | A send or close of the owner keeps the log legal and the close frame last, and is without effect once a close was sent |
| `Safety.QueueCloseInv` | source/units/WS.Protocol.pas:413-435 | Queueing a close keeps the log legal and marks the close sent without touching the inbound side |
| `Safety.ClosePayloadLegal` | source/units/WS.Protocol.pas:413-435 | A close payload is empty, or a code that may travel and at most 123 bytes of reason |
| `Safety.FailSound` | source/units/WS.Protocol.pas:447-456 | Failing keeps every run invariant: one close frame at most, OnClose fired last |
| `Safety.PeerCloseSound` | source/units/WS.Protocol.pas:486-505 | Taking the peer's close keeps every run invariant, the echo queued only when no close was |
| `Safety.ControlSound` | source/units/WS.Protocol.pas:463-506 | Every control frame, well-formed or not, keeps the run invariants |
| `Safety.StepSound` | source/units/WS.Protocol.pas:704-816 | A round of the frame loop keeps the run invariants |
| `Safety.ApplySound` | source/units/WS.Protocol.pas:341-506 | Every call of the owner keeps the run invariants and the resting state |
| `Safety.CarryBound` | source/units/WS.Protocol.pas:753-792 | What waits for more bytes is at most a header of 14 bytes short of one, or a control frame: 130 bytes |
| `Peers.HandlersDoNotSteerInput` | source/units/WS.Protocol.pas:463-515 | Whatever the handlers send, the same bytes give the same events and the same inbound state |
| `Peers.IngestGrows` | source/units/WS.Protocol.pas:658-831 | Events reported stay reported, and a machine that has not failed after a read had not failed before it |
| `Peers.OneFrame` | source/units/WS.Protocol.pas:341-363 | The bytes of any conforming frame one role sends make the other role, at rest, report exactly that frame and come to rest, or shut on a close without failing |
| `Peers.ControlFrame` | source/units/WS.Protocol.pas:463-506 | A control frame goes through the sender's encoding and the receiver's parse, unmasking and handling unchanged, between the fragments of a message too, and leaves the message as it was |
| `Connection.RoundTrip` | source/units/WS.Protocol.pas:341-411 | Under every schedule of sends and partial deliveries between a client and a server, neither side fails, each has reported a prefix of what the other queued, frame for frame, and all of it once nothing is in flight that way. Asked of an owner, whenever its machine may have reported what it was told: texts well-formed, messages within the peer's cap, close reasons well-formed as far as they travel |
| `Connection.CloseAccepted` | source/units/WS.Protocol.pas:413-435 | For every code and reason a machine fails over the close frame its peer makes of them exactly when the code travels and the reason, cut at 123 bytes, is not well-formed UTF-8, and then with 1007 |
| `Connection.CutReasonFails` | source/units/WS.Protocol.pas:430-432 | A well-formed reason of 122 letters and a two-byte character fails the peer with 1007, the cut taking half the character |
| `Connection.CloseAcceptedOnWire` | source/units/WS.Protocol.pas:413-506 | The same of the frame on the wire, either way round and within a message as well: a machine between frames fails over the bytes of its peer's close frame exactly then, and with 1007 |
| `Connection.CutReasonFailsOnWire` | source/units/WS.Protocol.pas:413-506 | The bytes of the close frame made of that reason fail any machine between frames |
| `Connection.ScheduleLinked` | source/units/WS.Protocol.pas:341-506 | Under every schedule the bytes a side has received are a prefix of those its peer framed, and its state is what they parse to |
| `Connection.ReceivedLog` | source/units/WS.Protocol.pas:658-831 | The encoded log of a conforming sender, read whole, is reported frame by frame and ends at rest or at its close |
| `Connection.ReceivedPrefix` | source/units/WS.Protocol.pas:658-831 | Any prefix of such a stream makes no failure and a prefix of its events |
| `Connection.QuietWireIsClosed` | source/units/WS.Protocol.pas:458-506 | Once a side has sent a close, a wire empty both ways means both sides are done and neither failed |
| `Connection.TransfersShrink` | source/units/WS.Protocol.pas:437-506 | Once a side has sent its close, every transfer that moves a byte shrinks the pair of bytes in flight from it and towards it, so pumping ends however it is scheduled |
| `Connection.CloseHandshakeEnds` | source/units/WS.Protocol.pas:437-506 | Two transfers finish any close: both sides done, neither failed, nothing in flight |
| `Echo.EchoConforms` | source/apps/wsecho.pas:88-94 | An echo server of a cap below 2^63 never sends what a peer of no smaller cap must refuse, because its machine tells it only well-formed texts within its cap |
| `Echo.StepEchoed` | source/units/WS.Protocol.pas:704-816 | A round of the frame loop under an echo handler keeps what was sent equal to what was told, the round that takes the peer's close included, unless it fails the connection; and only a shut machine has sent a close |
| `Echo.IngestEchoed` | source/units/WS.Protocol.pas:658-831 | So does every read |
| `Echo.EchoRoundTrip` | source/apps/wsecho.pas:88-94 | However a client's sends and the bytes both ways are scheduled, neither side fails, and once nothing is in flight the client has been told exactly the messages it sent, in order, whether or not the connection was closed |
| `Fragments.FragmentsJoined` | source/units/WS.Protocol.pas:562-831 | From rest, a message in any number of fragments, each under its own key, with pings and pongs between them, is told as one message of the payloads joined, exactly when they are within the cap and, of a text, well-formed UTF-8, the asides told where they came; otherwise the connection fails, with 1009 only for size and 1007 only for text |
| `Fragments.FragmentsOpen` | source/units/WS.Protocol.pas:562-831 | While no fragment is final nothing but the asides is told, and the joined payloads so far are kept |
| `Fragments.PiecesLand` | source/units/WS.Protocol.pas:703-831 | Exactly what is told of each piece of a message, failures included, whatever the handlers send meanwhile |
| `Fragments.PartLands` | source/units/WS.Protocol.pas:562-831 | One fragment adds its unmasked payload to what was assembled, ends the message, or fails it for size or text |
| `Replies.CommandFramed` | source/units/WS.Protocol.pas:341-445 | A command makes one frame of its opcode and payload under the next key, behind all others in history and queue; none when a ping or pong would exceed 125 bytes; a close records its code and reason |
| `Replies.CommandsFramed` | source/units/WS.Protocol.pas:341-445 | Commands in a row make their frames in order, up to the first close |
| `Replies.PingAnswered` | source/units/WS.Protocol.pas:463-477 | On either side, within a message too, a ping is told and, unless a close went out, answered with its own payload ahead of all the handler sends |
| `Replies.CloseJudged` | source/units/WS.Protocol.pas:478-505 | Any payload in a close frame: none is 1005, one byte or a code that may not travel fails with 1002, a reason that is not UTF-8 with 1007, and anything else is told as it came; unless a close went out, the answer is the code's two bytes, or the failure's code and reason |
| `Replies.FailFramed` | source/units/WS.Protocol.pas:447-456 | The close frame of a failure carries the code and reason it failed with |
| `Replies.PeerCloseFramed` | source/units/WS.Protocol.pas:486-505 | A close is answered with its code and no reason, and both recorded, unless a close went out |
| `Replies.KeysInTurn` | source/units/WS.Protocol.pas:244-363 | In every run the keys of a client's frames are the generator's outputs from its seed, one for each frame, in order |
| `Replies.EveryPingAnswered` | source/units/WS.Protocol.pas:407-506 | In every run of an owner that sends no pong or close itself, the pongs sent carry the payloads of the pings reported, in order, and the one close frame is sent exactly when the inbound side shuts, with the code told then |
| `Policing.HeaderRefused` | source/units/WS.Protocol.pas:753-775 | Bit by bit on the wire: an unknown opcode, a control frame fragmented or over 125 bytes, a reserved bit, the wrong masking direction or a length not in its shortest form fails the connection with 1002, told and on the wire, whatever follows |
| `Policing.FrameTooBig` | source/units/WS.Protocol.pas:777-786 | A lawful data frame announced longer than the cap fails it with 1009 ahead of its payload |
| `Policing.FrameMisplaced` | source/units/WS.Protocol.pas:568-577 | A continuation outside a message, or a new message inside one, fails with 1002 |
| `Policing.MessageTooBig` | source/units/WS.Protocol.pas:586-593 | A continuation that takes the message past the cap fails with 1009 ahead of its payload |
| `Policing.Policed` | source/units/WS.Frame.pas:90-165 | A complete header is read off its bits: flags, opcode, mask bit, big-endian length, key; a control frame waits to be whole |
| `Xorshift.KeyBits` | source/units/WS.Protocol.pas:244-256 | Bit i of a key is the exclusive or of bits i, i-11 and, below 24, i+8 and i-3 of the generator's last word with bits i and i+19 of its first, where they exist; the key moves in as the first word and the last drops out |
| `Xorshift.NextInjective` | source/units/WS.Protocol.pas:244-256 | No two states of the generator have the same successor |
| `Xorshift.KeysDiffer` | source/units/WS.Protocol.pas:244-256 | With the other words alike, another last word gives another key |
| `Xorshift.NeverStuck` | source/units/WS.Protocol.pas:230-256 | Seeded with anything but zeros, as the constructor sees to, the generator never reaches the zero state |
| `Protocol.WSProtocol.constructor` | source/units/WS.Protocol.pas:197-235 | A fresh object is the initial machine with an empty queue |
| `Protocol.WSProtocol.Ingest` | source/units/WS.Protocol.pas:658-831 | Computes the machine's read on the object's buffers, the caller's array unmasked in place where the code does so, whatever handlers send, flush or write directly from inside the callbacks; the result is False exactly on a failed connection, on every later call too |
| `Protocol.WSProtocol.Consume` | source/units/WS.Protocol.pas:703-816 | The frame loop over a work buffer computes the loop of the machine, the unread rest handed back |
| `Protocol.WSProtocol.ReadOn` | source/units/WS.Protocol.pas:704-816 | One round, streaming or header, is one step of the machine and consumes at least a byte unless it waits |
| `Protocol.WSProtocol.StreamChunk` | source/units/WS.Protocol.pas:709-749 | A chunk through the in-place, the masked or the plain route is the machine's chunk; bytes behind it stay as they were |
| `Protocol.WSProtocol.InPlaceChunk` | source/units/WS.Protocol.pas:715-729 | The in-place route computes the machine's in-place step and touches no byte behind the chunk |
| `Protocol.WSProtocol.AssembleMaskedChunk` | source/units/WS.Protocol.pas:644-656 | A masked chunk is unmasked into the assembly buffer, validated there, and counted only when accepted |
| `Protocol.WSProtocol.DataChunk` | source/units/WS.Protocol.pas:619-626 | An unmasked chunk is validated before it is assembled |
| `Protocol.WSProtocol.MsgReserve` | source/units/WS.Protocol.pas:631-639 | Room for the chunk, the assembled bytes kept |
| `Protocol.WSProtocol.BeginDataFrame` | source/units/WS.Protocol.pas:564-594 | Refuses a misplaced continuation, a misplaced opcode and a message over the cap as the machine does; otherwise a continuation keeps the bytes and UTF-8 state assembled, and a first fragment starts afresh |
| `Protocol.WSProtocol.NextFrame` | source/units/WS.Protocol.pas:751-815 | A header at the head of the buffer, or its absence, is handled as the machine's step says |
| `Protocol.WSProtocol.Splice` | source/units/WS.Protocol.pas:682-695 | The carry becomes the leftover followed by the whole read |
| `Protocol.WSProtocol.Stash` | source/units/WS.Protocol.pas:666-673 | The unread end of a read is kept for the next |
| `Protocol.WSProtocol.FinishMessage` | source/units/WS.Protocol.pas:549-562 | A message ending inside a character fails the connection; any other is delivered from the assembly buffer |
| `Protocol.WSProtocol.FinishInPlace` | source/units/WS.Protocol.pas:520-525 | The same judgement for a message delivered from the buffer it lies in |
| `Protocol.WSProtocol.DeliverMessage` | source/units/WS.Protocol.pas:509-515 | The message state is cleared before the callback, whose own sends re-enter the machine |
| `Protocol.WSProtocol.HandleControl` | source/units/WS.Protocol.pas:463-506 | Ping is answered before it is reported, pong reported, close judged, as the machine does |
| `Protocol.WSProtocol.HandleClose` | source/units/WS.Protocol.pas:475-505 | A close frame is answered, or fails the connection with the code its payload earns |
| `Protocol.ReadClose` | source/units/WS.Protocol.pas:475-491 | The loops over a close payload in the buffer read it as the machine does: code and reason, or what the connection is failed for |
| `Protocol.WSProtocol.Fail` | source/units/WS.Protocol.pas:447-456 | Marks, queues the close and fires OnClose, in the machine's order |
| `Protocol.WSProtocol.Emit` | source/units/WS.Protocol.pas:465-515 | A callback's sends, in order, are the machine's, however much of the queue or of a message the transport takes in between |
| `Protocol.WSProtocol.Act` | source/units/WS.Server.pas:706-740 | A handler's send, queued and flushed or written in one gather write, is the machine's command whatever the transport takes |
| `Protocol.WSProtocol.QueueClose` | source/units/WS.Protocol.pas:413-435 | Queues one close frame, and only the first time |
| `Protocol.WSProtocol.CloseFrame` | source/units/WS.Protocol.pas:418-434 | The close buffer holds the code big-endian and the reason cut at 123 bytes, or nothing |
| `Protocol.WSProtocol.SendClose` | source/units/WS.Protocol.pas:437-445 | Records code and reason and queues the close unless one was sent |
| `Protocol.WSProtocol.SendText` | source/units/WS.Protocol.pas:391-394 | A text frame is queued unless a close was |
| `Protocol.WSProtocol.SendBinary` | source/units/WS.Protocol.pas:396-399 | A binary frame is queued unless a close was |
| `Protocol.WSProtocol.SendPing` | source/units/WS.Protocol.pas:401-405 | A ping over 125 bytes, or behind a close, is dropped; any other is queued |
| `Protocol.WSProtocol.SendPong` | source/units/WS.Protocol.pas:407-411 | A pong over 125 bytes, or behind a close, is dropped; any other is queued as the machine does, which `Replies.CommandFramed` spells out |
| `Protocol.WSProtocol.SendFrame` | source/units/WS.Protocol.pas:341-363 | The queue grows by the frame's encoding under the next mask key, and the history by the frame |
| `Protocol.WSProtocol.NextMaskKey` | source/units/WS.Protocol.pas:244-256 | The key and the generator's next state are those of the machine, and so those of `Xorshift.KeyBits` |
| `Protocol.WSProtocol.Compact` | source/units/WS.Protocol.pas:319-326 | Dropping the dead prefix leaves the pending bytes as they are and the dead prefix no longer than what is pending |
| `Protocol.WSProtocol.OutReserve` | source/units/WS.Protocol.pas:316-333 | Claims bytes behind the pending ones, which stay as they are through compaction and growth; the buffer stays within three times the most bytes ever pending and 256 |
| `Protocol.WSProtocol.OutAppend` | source/units/WS.Protocol.pas:335-339 | The queue is a byte FIFO: append adds at the tail |
| `Protocol.WSProtocol.OutConsume` | source/units/WS.Protocol.pas:299-307 | The queue is a byte FIFO: consume takes from the head, the bytes taken are kept in order, and the machine, all that was framed, is as it was |
| `Protocol.WSProtocol.QueueRaw` | source/units/WS.Protocol.pas:309-312 | Raw bytes join the queue and the history |
| `Protocol.WSProtocol.DirectHeader` | source/units/WS.Protocol.pas:271-281 | A header is offered exactly to a server that has sent no close and has nothing queued, and is the queued send's header |
| `Protocol.WSProtocol.DirectSent` | source/units/WS.Protocol.pas:283-297 | After a gather write that took some bytes the machine is as if the message had been queued whole; those bytes count as handed over and exactly the rest is queued |
| `Protocol.WSProtocol.Perform` | source/units/WS.Protocol.pas:367-445 | Any command from a callback is the machine's command |
| `Protocol.WSProtocol.Issue` | source/units/WS.Protocol.pas:383-445 | A send or close from outside is the machine's command on the resting state, the carry untouched |
| `Frame.ParseInvertsWrite` | source/units/WS.Frame.pas:90-215 | Parsing what was written gives back every header with a payload below 2^63, whatever follows it |
| `Frame.WriteReproducesParsed` | source/units/WS.Frame.pas:90-215 | Writing an accepted header with RSV2 and RSV3 clear reproduces the bytes it was parsed from: encodings are canonical |
| `Frame.VerdictStable` | source/units/WS.Frame.pas:90-165 | An accepted or refused header stays so when more bytes follow, and lies within the bytes seen |
| `Frame.HeaderBounds` | source/units/WS.Frame.pas:90-165 | An unfinished header is shorter than 14 bytes; an accepted control frame is final, its header at most 6 bytes and its payload at most 125 |
| `Frame.LenRoundTrip` | source/units/WS.Frame.pas:124-151 | Every length below 2^63 survives its encoding |
| `Frame.LenCanonical` | source/units/WS.Frame.pas:132-151 | An accepted length encoding is the only one of its value |
| `Frame.WriteLength` | source/units/WS.Frame.pas:177-201 | The bytes written are the length code and its big-endian extension |
| `Frame.WriteKey` | source/units/WS.Frame.pas:203-211 | The key is written low byte first behind the header |
| `Frame.WriteFrameHeader` | source/units/WS.Frame.pas:167-215 | The buffer holds the header's encoding and the result is its length |
| `Mask.MaskInvolution` | source/units/WS.Frame.pas:425-463 | Masking twice with one key and phase restores the payload |
| `Mask.MaskSplit` | source/units/WS.Frame.pas:425-463 | Masking in two parts, the phase carried, is masking whole |
| `Mask.RotMasked` | source/units/WS.Frame.pas:425-463 | A phase is a rotation of the key |
| `Mask.WireMask` | source/units/WS.Frame.pas:233-252 | Payload byte i on the wire is masked with byte i mod 4 of the key field |
| `Mask.WordMask` | source/units/WS.Frame.pas:254-283 | A 64-bit exclusive or with the doubled key masks eight bytes |
| `Mask.UnmaskNaive` | source/units/WS.Frame.pas:233-252 | The byte loop masks its span from phase 0 and leaves the rest of the buffer |
| `Mask.UnmaskU64` | source/units/WS.Frame.pas:254-283 | The 64-byte, 8-byte and tail loops together mask as the byte loop does, for every length |
| `Mask.MaskBlocks` | source/units/WS.Frame.pas:262-273 | Eight words at a time mask 64 bytes a round |
| `Mask.MaskWords` | source/units/WS.Frame.pas:274-280 | Single words mask what is left down to seven bytes |
| `Mask.UnmaskCopyU64` | source/units/WS.Frame.pas:285-325 | The copying loops write the masked source and leave the source and the rest of the target |
| `Mask.ApplyMask` | source/units/WS.Frame.pas:425-443 | Masks a span in place for every key and phase |
| `Mask.ApplyMaskCopy` | source/units/WS.Frame.pas:445-463 | Writes the masked source into the target for every key and phase |
| `Utf8.AcceptsWellFormed` | source/units/WS.Utf8.pas:38-64 | The automaton ends in ACCEPT exactly on well-formed UTF-8 as RFC 3629 defines it |
| `Utf8.RejectsExactlyHopeless` | source/units/WS.Utf8.pas:50-64 | The automaton rejects exactly the byte strings no continuation can complete |
| `Utf8.RejectAbsorbs` | source/units/WS.Utf8.pas:55-57 | REJECT is kept for good |
| `Utf8.AdvanceSplit` | source/units/WS.Utf8.pas:66-84 | Validation over chunks is validation of the whole |
| `Utf8.SkipAscii` | source/units/WS.Utf8.pas:86-120 | Skipping eight ASCII bytes at a time keeps the automaton in ACCEPT |
| `Utf8.Utf8Advance` | source/units/WS.Utf8.pas:86-120 | The fast path ends in the automaton's state and answers False exactly when it is REJECT |
| `Session.Conn.constructor` | source/units/WS.Server.pas:1295-1324 | An accepted connection starts in silence, its handshake deadline the configured time away, or off, and scheduled; no check is on its way |
| `Session.Conn.Run` | source/units/WS.Server.pas:907-1440 | Under any run of transport events, posted procedures, clock checks and owner calls, handlers sending, closing or raising: a live connection keeps every invariant, what is on the wire and queued is all that was framed, in order, and pending output has EPOLLOUT armed; a released one was told nothing or OnOpen, its messages and one OnClientClose, is never touched again, and has every byte framed on the wire if its socket lives, unless it went over the cap, ran past its deadline or lost its peer; a connection that drains with nothing queued has EPOLLOUT withdrawn, and no deadline when CloseTimeoutMs is off |
| `Session.Conn.HandleData` | source/units/WS.Server.pas:1326-1387 | A read extends the story by OnOpen and messages only: exactly the messages of its frames, or OnOpen and, unless that handler closes, the messages pipelined behind the request, whenever no handler raises, the socket lives and the cap holds. The frames made are then those the machine makes of the upgrade, the handlers' sends and the frames read. A request that opens nothing has its answer drained or its refusal offered once; no read moves the deadline of a draining connection, and the connection is left quiet or released |
| `Session.Conn.HandleRequest` | source/units/WS.Server.pas:1338-1378 | An accepted upgrade is told OnOpen and then, unless that handler closes, exactly the messages pipelined behind the request, when nothing goes wrong, and the frames made are those of the machine under the same handlers; a request that opens nothing is dismissed, and an oversized one answered once and the connection released |
| `Session.Conn.FinishHandshake` | source/units/WS.Server.pas:1142-1252 | OnOpen is told exactly when an accepted upgrade's 101 is flushed without losing the connection; a plain answer or 403 never opens, and the connection is released exactly when the socket dies over it or takes all of it, which is then on the wire, and drains otherwise; a bare refusal is offered once and the connection released |
| `Session.Conn.Accept` | source/units/WS.Server.pas:1221-1251 | The 101 goes out ahead of OnOpen, which a peer lost over that flush never sees; on success the frames made are the 101 and those of the open handler's sends |
| `Session.Conn.IngestAndFlush` | source/units/WS.Server.pas:1254-1293 | A read on an open connection tells its messages in order, a prefix of them when a handler raises or the connection is lost, all of them when nothing goes wrong, the frames made then being those of the machine with the handlers' sends played; it settles: dropped, draining with output pending, or open |
| `Session.Conn.AfterIngest` | source/units/WS.Server.pas:1278-1292 | A failed machine has its close frame offered and is dropped exactly when the socket dies or takes all that is queued, draining the rest otherwise; a finished close is dropped exactly when its answer went out whole and drains otherwise, with output pending |
| `Session.Conn.Ingest` | source/units/WS.Server.pas:1254-1272 | The messages of a read are told in order up to the frame that ends it, up to a raising handler, up to a lost connection; without either of those the frames made and the close state are those of the machine with the handlers' sends played at each message |
| `Session.Conn.ProtoMessage` | source/units/WS.Server.pas:696-704 | A message is told unless an earlier one of the same read lost the connection |
| `Session.HeardNext` | source/units/WS.Server.pas:696-704 | What a turn adds to the story accounts for the rest of the read |
| `Session.Conn.SendData` | source/units/WS.Server.pas:706-740 | An open connection frames the message exactly once by either route; a standing connection's send answers False exactly when it finds the transport dead, loses it, or leaves more than the cap queued, and is then dropped or marked |
| `Session.Conn.SendQueued` | source/units/WS.Server.pas:723-730 | The queued route logs the frame and leaves pending output with a wake-up |
| `Session.Conn.SendDirect` | source/units/WS.Server.pas:731-739 | The gather route logs the same frame, queues only what the transport left, and leaves pending output with a wake-up |
| `Session.DirectFramed` | source/units/WS.Server.pas:731-739 | Header and payload written together, cut anywhere, keep bytes handed over and queued equal to the framed ones |
| `Session.Conn.Close` | source/units/WS.Server.pas:757-769 | An open connection says goodbye once, stops pinging and waits the close budget; any other is left exactly as it is |
| `Session.Conn.StartClose` | source/units/WS.Server.pas:757-769 | The close frame joins the log, the state closes and the wait is armed once |
| `Session.Conn.FlushConn` | source/units/WS.Server.pas:1122-1140 | True leaves pending output within the cap and with EPOLLOUT armed; False means released, or marked to drop under a delivery, over a dead socket, the cap or an earlier such reason; the bytes taken leave the queue from its head |
| `Session.Conn.Submit` | source/units/WS.Server.pas:1128-1130 | One offer of the whole queue: what the socket takes leaves the queue from its head and joins the wire, negative exactly when the socket is dead |
| `Session.Conn.Overflow` | source/units/WS.Server.pas:1131-1139 | A queue over the cap drops or marks the connection, with its length as the reason kept |
| `Session.Conn.DropConn` | source/units/WS.Server.pas:1092-1120 | Under a delivery a drop is only marked and nothing else changes; otherwise the connection is released with its story ended. Asked of the caller: with no delivery on the stack, that nothing is queued on a live socket without a reason |
| `Session.Conn.ReleaseConn` | source/units/WS.Server.pas:946-958 | OnClientClose is told exactly to a connection that opened, its own sends are refused, and the object is released once, every byte framed on the wire unless its socket died or one of the three reasons holds |
| `Session.Conn.HandlerRaised` | source/units/WS.Server.pas:960-992 | A raising handler faults the connection, queues 1011 on an open one and nothing on any other |
| `Session.Conn.DeliverContained` | source/units/WS.Server.pas:1017-1028 | A handler run under the guard makes, when it returns normally and loses nothing, exactly the frames of its sends, and ends with the connection quiet or released, its exception contained; it strands a draining connection exactly when it returns normally and its sends push the whole queue out |
| `Session.Conn.RunActs` | source/units/WS.Server.pas:706-769 | What a handler's sends and closes do to an open, draining connection: its queue is out at the end exactly when the offers one by one take all of it without losing the transport; on a connection kept, the frames made are those the machine makes of the handler's commands in order |
| `Session.Conn.SettleDelivery` | source/units/WS.Server.pas:1030-1042 | A marked drop is performed at once; a faulted connection is released exactly when one offer of its queue, the 1011 at its end, loses the socket or goes out whole, and drains the rest otherwise; only an untouched connection goes on |
| `Session.Conn.DrainThenDrop` | source/units/WS.Server.pas:994-1015 | The queue is offered once. The connection is released exactly when the socket dies over it or takes all of it; otherwise the rest stays queued in order, the connection drains and a wake-up is due. Nothing framed is thrown away on a live socket |
| `Session.Conn.HandleSendReady` | source/units/WS.Server.pas:1389-1407 | The queue is offered once. The connection is released exactly when that fails, or takes everything and the connection drains or is closed both ways; otherwise the untaken rest stays queued |
| `Session.Conn.Writable` | source/units/WS.Transport.Epoll.pas:1365-1377 | EPOLLOUT withdrawn and the session told, with the same exact outcome: what the socket left has it armed again, or the connection is released |
| `Session.Conn.HandleClosed` | source/units/WS.Server.pas:1409-1422 | A lost peer releases the connection with its story ended, its queue as it was and the loss the reason |
| `Session.Conn.Take` | source/units/WS.Server.pas:1254-1442 | The exact fate of a drain: an event leaves a draining connection with nothing to drain exactly when it is a send or close of its owner, or a posted procedure of them that does not raise, on an open one whose whole queue the socket takes; from there it is released exactly by a read, a send-ready event, the loss of the peer, a raising procedure or a check past the deadline; no read moves the deadline of a drain; a check once posted is not lost, and leaves no clock lapsed; and only the loss of the peer or a check lets a connection go for that reason |
| `Session.OwnerStrands` | source/units/WS.Server.pas:706-740 | A run that gets there: the peer's close is answered into a full socket, the owner then sends, and the connection drains with an empty queue, EPOLLOUT withdrawn and, CloseTimeoutMs off, no deadline |
| `Session.Conn.DeliverCheck` | source/units/WS.Server.pas:1424-1442 | A check leaves the connection quiet or released, no clock of a survivor lapsed, and gives up a connection whose drain is done exactly past its deadline |
| `Session.Conn.OwnerCall` | source/units/WS.Server.pas:742-769 | A call from outside any callback makes exactly its frame and leaves the connection quiet, or releases it, False exactly in the latter case; it strands a draining connection exactly when that is open and the call pushes its whole queue out |
| `Session.Conn.Reschedule` | source/units/WS.Server.pas:575-581 | The sweep time is the earlier of the armed clocks |
| `Session.Conn.ArmDeadline` | source/units/WS.Server.pas:583-590 | The deadline is the given time from now, or off, and scheduled |
| `Session.Conn.BeginDrain` | source/units/WS.Server.pas:596-602 | The close budget is armed once per connection, pings stop, and a second call changes nothing |
| `Session.Conn.NoteActivity` | source/units/WS.Server.pas:608-637 | Peer bytes restart idle and ping clocks of an open connection and never those of one that waits or drains |
| `Session.Conn.CheckClock` | source/units/WS.Server.pas:641-694 | However late it runs: a ping is queued exactly when one is due, the connection open and its deadline, the answer time granted, not past; an open connection is idle-closed only if a ping was queued IdleTimeoutMs - PingIntervalMs earlier and no peer byte came since; a survivor has no lapsed clock; a draining connection is given up exactly past its deadline |
| `Session.Conn.Judge` | source/units/WS.Server.pas:645-694 | The ping, then the deadline, at one reading of the clock: the ping is queued exactly when due in time, and a draining connection is given up exactly past its deadline |
| `Session.Conn.ExtendAnswer` | source/units/WS.Server.pas:648-667 | A ping falling due leaves the peer its answer time |
| `Session.Conn.SendKeepalive` | source/units/WS.Server.pas:668-673 | The ping is really queued and its time kept |
| `Session.Conn.Lapse` | source/units/WS.Server.pas:675-693 | A lapsed deadline always ends in a drop: silent for a connection that never opened, behind a 1001 close frame for an open one that had sent none |
| `Session.Conn.CheckPing` | source/units/WS.Server.pas:648-674 | A ping is queued exactly when one is due on an open connection whose deadline, its answer time granted, is not past; otherwise nothing but the clocks has changed. Either way no ping is due afterwards |
| `Session.Conn.CheckDeadline` | source/units/WS.Server.pas:675-693 | The connection is given up exactly when its deadline has run out, and is otherwise as it was |
| `Session.Conn.Sweep` | source/units/WS.Server.pas:882-905 | After the sweep a connection with a lapsed clock has exactly one check on its way, and FSweepPosted is up exactly while one is |
| `Reads.ReadIsTurns` | source/units/WS.Protocol.pas:658-831 | What a session plays for a read, its message handler's sends at each message included, is what the machine with that handler makes of the bytes: same queue, same close state, and pings answered, messages, close or failure reported in the order of the turns |
| `Reads.ReadIsTurnsForAny` | source/units/WS.Protocol.pas:463-515 | Whatever callbacks of any kind do and send meanwhile, a read reports the events of those turns in their order and shuts exactly when they do |
| `Reads.ReadAsMachine` | source/units/WS.Server.pas:1254-1272 | A session that plays the turns of a read, flushing inside its handlers, and loses neither its peer nor its calm has made exactly the frames the machine makes of the bytes, and the same byte stream of them |
| `Reads.StepPlayed` | source/units/WS.Protocol.pas:704-816 | One round of the frame loop, with the handler run inside it, is at most one turn |
| `Registry.Registry.Add` | source/units/WS.Server.pas:907-919 | The new member gets its own slot; slots and indices stay a bijection |
| `Registry.Registry.Remove` | source/units/WS.Server.pas:921-942 | Swap-removal takes exactly that member out, tells the moved one its slot, ignores a member not registered, and keeps the bijection |
| `Registry.Registry.IsLive` | source/units/WS.Server.pas:1079-1087 | One indexed compare answers membership even with a stale index |
| `Epoll.EpollConn.RawSend` | source/units/WS.Transport.Epoll.pas:295-313 | For any sequence of short writes and interrupts the bytes taken are a prefix of the offer and on the wire in order; a cut offer leaves EPOLLOUT armed; -1 exactly when dead |
| `Epoll.EpollConn.SubmitSend` | source/units/WS.Transport.Epoll.pas:421-427 | As RawSend, and a whole offer disarms EPOLLOUT |
| `Epoll.EpollConn.SubmitSendV` | source/units/WS.Transport.Epoll.pas:375-415 | The gather write offers the stream what a plain send of both buffers would |
| `Epoll.EpollConn.SendFailed` | source/units/WS.Transport.Epoll.pas:319-332 | A socket that is full leaves EPOLLOUT armed and the bytes taken so far counted; any other error kills the connection |
| `Epoll.EpollConn.ApplyInterest` | source/units/WS.Transport.Epoll.pas:270-280 | What is registered is what is wanted |
| `Epoll.OfferEnds` | source/units/WS.Transport.Epoll.pas:295-313 | An offer is the system calls up to the one that took the last of it, found the socket full or broke it, and takes what those took |
| `Iocp.IocpConn.Run` | source/units/WS.Transport.Iocp.pas:312-534 | In every run of completions, deadlines and outside calls, with any callbacks: the outstanding count is the armed receive, the send in flight and the pins; accepted bytes are done or in flight in order; the object is freed once, with nothing outstanding, and the session told at most once; a connection freed without telling it had been handed back, or had answered -1 to one of its sends, or was refused the tail of a short send; the session hears every successful non-empty receive, in order, until the connection is lost or handed back, and none after |
| `Iocp.IocpConn.TryFinalize` | source/units/WS.Transport.Iocp.pas:312-317 | Freed exactly when dead with nothing outstanding, so never under a pin or an armed operation |
| `Iocp.IocpConn.RawSend` | source/units/WS.Transport.Iocp.pas:373-403 | While a send owns the buffer nothing is taken and the buffer is untouched; otherwise a prefix is accepted and in flight; -1 exactly when dead |
| `Iocp.IocpConn.PostSend` | source/units/WS.Transport.Iocp.pas:387-402 | A refused post kills the connection with nothing accepted; an accepted one owns the buffer |
| `Iocp.IocpConn.ResumeSend` | source/units/WS.Transport.Iocp.pas:350-366 | The tail is posted again with the same books, or the connection is dead |
| `Iocp.IocpConn.HandleSent` | source/units/WS.Transport.Iocp.pas:1091-1137 | A short completion puts exactly the rest in flight again, or, refused, leaves the connection dead and the session untold; a whole one calls OnSendReady exactly when the connection lives and its session has it, and behind a deferred close sends the FIN; the connection is quiet or freed |
| `Iocp.IocpConn.Completed` | source/units/WS.Transport.Iocp.pas:1091-1137 | OnSendReady is due, under a pin, exactly for a whole completion on a connection the session keeps |
| `Iocp.IocpConn.Advance` | source/units/WS.Transport.Iocp.pas:1093-1105 | The completed bytes are done in order; all of them when nothing is posted again |
| `Iocp.IocpConn.HandleReceived` | source/units/WS.Transport.Iocp.pas:1053-1090 | OnData is called with the bytes exactly when the receive brought some to a live connection its session still has, and does its acts up to a close; the pin outlives the callback; afterwards the receive is armed again, or the connection waits for what is outstanding, or is freed; nothing is told to a session that let go |
| `Iocp.IocpConn.OnReceived` | source/units/WS.Transport.Iocp.pas:1056-1073 | A receive that failed or brought nothing tells the end, one that brought bytes calls OnData, and one on a dead or draining connection does neither |
| `Iocp.IocpConn.Data` | source/units/WS.Transport.Iocp.pas:1072-1073 | What OnData was called with grows by exactly the bytes |
| `Iocp.IocpConn.SendReady` | source/units/WS.Transport.Iocp.pas:1129-1130 | OnSendReady is called once and its acts done |
| `Iocp.IocpConn.TellClosed` | source/units/WS.Transport.Iocp.pas:868-900 | OnClosed is called once, under a pin, and its acts done |
| `Iocp.IocpConn.ArmReceive` | source/units/WS.Transport.Iocp.pas:319-346 | A receive is armed, or the failure reaps the connection |
| `Iocp.IocpConn.RemoteClosed` | source/units/WS.Transport.Iocp.pas:868-900 | The session is told under a pin, once, and not at all once it handed the connection back |
| `Iocp.IocpConn.SubmitClose` | source/units/WS.Transport.Iocp.pas:488-530 | With a send in flight the close waits for it, on the clock; a peer that was sent something gets the FIN, on the clock; any other is reset at once |
| `Iocp.IocpConn.HardClose` | source/units/WS.Transport.Iocp.pas:414-425 | The connection is dead and freed exactly when nothing is outstanding |
| `Iocp.IocpConn.Callback` | source/units/WS.Transport.Iocp.pas:1071-1073 | A callback does its acts in order up to its first close; whatever they are the books hold, nothing is freed under it, and what was accepted or done stays |
| `Iocp.IocpConn.HandleAccept` | source/units/WS.Transport.Iocp.pas:1006-1026 | OnAccept is called once and may close: the connection is freed, waits, or is being read |
| `Iocp.IocpConn.HandleExpired` | source/units/WS.Transport.Iocp.pas:473-486 | A close still draining at its deadline is aborted; anything else is left as it is |
| `Outlet.Outlet.Flush` | source/units/WS.Server.pas:1122-1140 | Over completion ports too: the bytes consumed from the queue are those the transport accepted, and what is left has a send in flight |
| `Outlet.Outlet.Send` | source/units/WS.Server.pas:706-769 | A send or close keeps every byte framed done, in flight or queued, in that order |
| `Outlet.Outlet.Completed` | source/units/WS.Server.pas:1389-1407 | A completed send flushes the queue behind it or goes on with its own tail; nothing is lost or sent twice |
| `Outlet.Outlet.Run` | source/units/WS.Server.pas:1122-1140 | In every run of sends, closes and completions a live connection's framed bytes are done, in flight or queued, in order, and what is queued has a completion due |
| `Iocp.LiveTable.Track` | source/units/WS.Transport.Iocp.pas:846-852 | The table gains exactly the connection |
| `Iocp.LiveTable.Untrack` | source/units/WS.Transport.Iocp.pas:854-866 | The search and swap take exactly that connection out, and nothing when it is absent |
| `Inflater.Inflater.Pump` | source/units/WS.Deflate.pas:209-242 | The loop ends, and succeeds exactly when the stream is sound and the output fits the cap; then all input is consumed and the buffer holds the whole decoded message, shorter than the buffer, which stays within the cap plus one or 4096 |
| `Inflater.Inflater.Feed` | source/units/WS.Deflate.pas:244-249 | A fragment chunk is accepted under the same condition |
| `Inflater.Inflater.Finish` | source/units/WS.Deflate.pas:251-263 | With the tail appended the message is whole; without takeover the context starts afresh |
| `Inflater.Inflater.Message` | source/units/WS.Deflate.pas:204-263 | A message fed in any chunks is accepted exactly when its stream is sound and decodes within the cap, and is then held whole |
| `Inflater.Inflater.Grow` | source/units/WS.Deflate.pas:216-223 | The buffer doubles, the limit at most, and keeps its bytes; the bomb guard answers exactly at the limit |
| `Inflater.Inflater.constructor` | source/units/WS.Deflate.pas:156-180 | The limit is the cap and one byte more, where the width allows it |
| `Inflater.Inflater.BeginMessage` | source/units/WS.Deflate.pas:204-207 | A message starts empty on the context as it stands |
| `Handshake.HandshakeFindEnd` | source/units/WS.Handshake.pas:248-257 | Finds the end of the header block from a start, trying no more places than bytes lie behind it |
| `Handshake.HandshakeFindEndFrom` | source/units/WS.Handshake.pas:265-274 | The resumed search finds what a full one would, trying at most three places more than there are new bytes |
| `Handshake.EndFromIsFirst` | source/units/WS.Handshake.pas:248-257 | The end reported is that of the first blank line, and none is reported exactly when there is none |
| `Handshake.DecisionStands` | source/units/WS.Server.pas:1343-1380 | Later bytes do not change a decision: they are frames, or fall on deaf ears |
| `Handshake.Accumulator.HandleData` | source/units/WS.Server.pas:1343-1380 | One read decides as the bytes accumulated so far do |
| `Handshake.Accumulator.ReadAll` | source/units/WS.Server.pas:1343-1380 | Any cut of a stream into reads gives the decision, 101 or 431 or wait, and the replayed frames of the stream; the places all searches tried are at most its length and three a read |
| `Text.StrBuilder.App` | source/units/WS.Handshake.pas:190-203 | The text grows by exactly what is appended, in the fixed buffer or on the heap |
| `Text.StrBuilder.Grow` | source/units/WS.Handshake.pas:205-225 | Moving to a bigger buffer keeps the text |
| `Text.StrBuilder.Done` | source/units/WS.Handshake.pas:227-237 | The text comes out whole |
| `Text.NameIsCI` | source/units/WS.Handshake.pas:537-552 | Names are compared without regard to ASCII case |
| `Text.CaseBlind` | source/units/WS.Handshake.pas:537-552 | Texts compare equal exactly when they differ by nothing but the case of ASCII letters |
| `Text.Stripped` | source/units/WS.Handshake.pas:286-290 | Trimming takes blanks off both ends and nothing else |
| `Text.DecimalValue` | source/units/WS.Handshake.pas:745-746 | A number is written as its decimal numeral, without leading zeros |
| `Upgrade.HasToken` | source/units/WS.Handshake.pas:292-313 | The loop over a token list finds what the list holds |
| `Upgrade.HeaderValue` | source/units/WS.Handshake.pas:319-348 | The lookup gathers every value of the name from the terminated lines up to the empty one |
| `Upgrade.ParseDeflateParams` | source/units/WS.Handshake.pas:363-445 | The loop accepts and reads a parameter list as its recursive reading does |
| `Upgrade.FirstOffer` | source/units/WS.Handshake.pas:449-490 | A negotiated window is one both ends can honour, and nothing is set when nothing is negotiated |
| `Upgrade.NegotiateDeflate` | source/units/WS.Handshake.pas:449-490 | The loop takes the first acceptable offer; `Offers.OffersGranted` says which that is and what it grants |
| `Upgrade.CollectServerHeaders` | source/units/WS.Handshake.pas:559-618 | The single walk fills the slots from the lines up to the empty one |
| `Upgrade.ClientBuildRequest` | source/units/WS.Handshake.pas:823-842 | The request is its request line, its fields and the empty line |
| `Upgrade.ServerBuildResponse` | source/units/WS.Handshake.pas:723-752 | The 101 is its status line, its fields and the empty line, the window named only when held below 15 |
| `HandshakeTrip.CollectFields` | source/units/WS.Handshake.pas:559-618 | Written fields are collected each in its slot, and the walk stops at the empty line |
| `HandshakeTrip.ValuesOfFields` | source/units/WS.Handshake.pas:319-348 | Looking a name up in written fields gives the values written under it |
| `HandshakeTrip.RequestRoundTrip` | source/units/WS.Handshake.pas:620-842 | From every request a client can send the server recovers host, path and key and negotiates the offer it makes |
| `HandshakeTrip.AnswerRead` | source/units/WS.Handshake.pas:723-912 | The client reads back from the 101 exactly the parameters the server was granted, or refuses an extension it did not ask for |
| `HandshakeTrip.ResponseRoundTrip` | source/units/WS.Handshake.pas:449-912 | For every extension list the server may have been offered, the client accepts its answer unless it offered none, and agrees on both takeover flags and the server's window |
| `HandshakeTrip.ReadAll` | source/units/WS.Handshake.pas:363-445 | A written parameter list is read item by item |
| `HandshakeTrip.ItemsApplied` | source/units/WS.Handshake.pas:723-752 | The server's parameters, read as a response, give back its flags and window |
| `Offers.OffersGranted` | source/units/WS.Handshake.pas:449-490 | Of any extension list the first permessage-deflate offer whose parameters are known, named once, in any case, and within bounds is granted: each flag exactly when it is named, each window as asked, quoted or not, 15 where none is; without such an offer nothing is |
| `Offers.WishRead` | source/units/WS.Handshake.pas:363-445 | A parameter list is accepted exactly when every name in it is known and stands once, a flag without a value, a window between 9 and 15 or, in an offer, the client's without one; and it says what it says |
| `Offers.GrantAnswered` | source/units/WS.Handshake.pas:449-912 | What was granted of a list is what the client reads back of the answer |
| `Judgement.TokensRead` | source/units/WS.Handshake.pas:292-313 | A list has exactly the tokens it was written with, in any case |
| `Judgement.RequestJudged` | source/units/WS.Handshake.pas:620-721 | A request is upgraded exactly when it is a GET that lists websocket and the Upgrade connection, with version 13 and a key of 24 characters; another version is refused as such; key and extensions come out as written, and a GET or HEAD without websocket is plain HTTP |
| `Judgement.AnswerJudged` | source/units/WS.Handshake.pas:844-912 | An answer is accepted exactly when its first line has the 101, it lists websocket and the Upgrade connection, its accept value is the key's, and any extension is the one offered, with parameters an answer may have; those are taken as written |

## Left out

- permessage-deflate inside the protocol machine: it is modelled with deflate not negotiated, since in the compressed route the choice between 1009 and 1007 depends on how output is chunked (source/units/WS.Protocol.pas:605-617).
- The deflater, zlib's internals and `ClearWindow`.
- The SSE2 kernels: they have the contract of the 64-bit ones.
- TLS on every transport, the Network.framework backend, listeners, accept back-off, name resolution, `WS.Client`.
- The post queue and the threads: a posted procedure is an event that comes at any time, a check one that comes at any time after the sweeper posted it.
- `Session.Conn.HandleData`: what a request parses to and what the hooks answer are inputs; the parsers themselves are in `Upgrade.dfy` and the accumulation of the request in `Handshake.dfy`.
- `Session.Conn.Ingest`: plays a list of turns rather than bytes; `Reads.ReadIsTurns` shows that every read is such a list and `Reads.ReadAsMachine` that the frames made are the machine's.
- `Outlet.Outlet.Run`: the sending half of a session only; deliveries, drops and clocks are modelled over the epoll transport, in `Session.dfy`.
- `Session.Conn.Run`: one connection; a handler's calls on other connections are their owner calls. The connection limit and server shutdown are not modelled.
- `Registry.Registry.Remove`: the registry is modelled beside the connection, not inside its release.
- `Iocp.IocpConn.HandleSent`: a connection whose re-post fails is not announced to the session by this transport (source/units/WS.Transport.Iocp.pas:358-365), and the model does the same; `Iocp.IocpConn.Run` says that nothing else goes unannounced.
- `Iocp.IocpConn.Run`: the drain loop of the transport's shutdown, which depends on the kernel cancelling what is outstanding, is not modelled.
- `Inflater.Inflater.Pump`: the decoding function is asked to be monotone in its input; that zlib's is so is not proved.
- `HandshakeTrip.RequestRoundTrip`: header text is ASCII characters; no other encoding is modelled.
- `ServerBuildReject`, base64 and the random bytes of the client key.
- 32-bit and 64-bit widths of lengths and clocks: they are unbounded here; the caps proved keep every length sum of the machine within the message cap, and mask keys, code words and the header's length field have their real widths.
