# HDC host and daemon: a verified model

HDC connects a host tool (`hdc`, client and server in one binary) to a daemon
on a device (`hdcd`). Commands, files and forwarded connections share one
session as task messages; the messages are packed into frames and travel over
TCP, optionally sealed, or over USB bulk transfers. This project models the
parts in which something can go wrong across functions or across tasks, and
proves what they keep.

* **Wire codec.** `Bytes`, `Varint`, `Tlv`, `Records`, `Frames`: base-128
  varints, the five tag-length-value records, the frame around a message, and
  four unpackers. `Streams` reads frames from a socket that delivers arbitrary
  chunks; `Usb` writes and reads bulk transfers.
* **File transfer.** `FileTransfer`: the host's sender and receiver loops with
  their 64-byte zero-padded chunk header, and exactly which files survive it.
* **Reverse port forwarding.** `RportConnection` is one connection seen from
  both ends, `Rport` the whole step system of listener, dispatchers, connection
  tasks, bridges and queues, `ForwardWire` the messages on the wire,
  `RportWire` the same system over byte streams, `ForwardState` the daemon's map
  of listeners. `RportProgress` and `RportEnding` say what the tasks get done
  when they get their turns: set-up, delivery, draining and every way to end.
* **Sessions.** `TextTlv` is the textual handshake buffer, `Negotiation` the
  switch from plain to sealed frames in mid-stream, `DaemonSessions` several such
  sessions over one map of ciphers, `Cipher` the sealed channel
  with its counters and nonces, `Authentication` the host's authentication
  loops and the device map.
* **USB devices.** `UsbMonitor`: adoption, session end and reconnect backoff in
  any interleaving. `Teardown`: what the end of a session removes from the
  shared maps, alone and interleaved with the inserts of other tasks.
* **Command line.** `Text`, `CommandLine`, `CommandTable`, `ChannelHandshake`:
  splitting a command line, the client's join and the server's second parse,
  and the handshake that carries the device key.

Conventions. Objects that the program updates in place are classes; loops that
update variables are methods with invariants, proved against a function on
values. Tasks that interleave are step systems: a state, a datatype of actions
and a total function `Next`, in which an action that is not enabled changes
nothing; `Run` folds it over any list of actions, and the theorems quantify
over all such lists. Randomly chosen identifiers are fresh; timeouts, socket
errors and failed sends are actions or outcome flags; AES-GCM is a parameter
that opens what it has sealed.

Seven promises turn out to be false of the code as it stands, and each is
stated with the exact condition under which it holds:

* a record comes back from its own encoding exactly when its one-byte fields
  are below 128 and its strings shorter than 2^32 (`Records`);
* a file arrives exactly when every chunk offset is 0 or takes an odd number of
  varint bytes, so with full reads exactly up to 2,616,000 bytes
  (`FileTransfer`);
* a frame is read through the cipher exactly as it was sealed unless it is sent
  in an encrypted session after the daemon's session loop has ended and removed
  the cipher, while a forwarded connection still sends (`Negotiation`);
* sessions of one daemon do not disturb each other as long as none has id 0,
  under which every new connection reads its first frame (`DaemonSessions`);
* the first command on a line is the one that is run unless it is a bare fport
  or rport and a later token is itself a two-word forward command
  (`CommandLine`);
* a connection of a reverse forward ends exactly when a write to one of its
  sockets fails or the listener is drained: an end of file at a socket is not
  passed on, since each end finishes only after the other (`RportEnding`);
* the end of a USB session leaves nothing of it in a shared map except what
  another task inserts after the step that clears that map (`Teardown`).

## Model

| member | source | states |
|---|---|---|
| `Bytes.FromBeToBe` | crates/hdc-protocol/src/serializer.rs:285-310 | big-endian integers of k bytes read back whatever fits them |
| `Varint.RoundTrip` | crates/hdc-protocol/src/serializer.rs:18-86 | decoding undoes encoding at 32 and at 64 bits, whatever bytes follow |
| `Varint.Minimal` | crates/hdc-protocol/src/serializer.rs:48-86 | any byte string that decodes to a value is at least as long as the value's encoding |
| `Varint.LengthBound` | crates/hdc-protocol/src/serializer.rs:18-46 | an encoding takes at most k bytes exactly for values below 2 to the 7k |
| `Varint.LengthMonotone` | crates/hdc-protocol/src/serializer.rs:18-46 | a larger value never has a shorter encoding |
| `Varint.Write` | crates/hdc-protocol/src/serializer.rs:18-46 | the writer loop appends exactly the encoding |
| `Varint.Read` | crates/hdc-protocol/src/serializer.rs:48-86 | the reader loop with its shift and overflow checks returns the decoded value and leaves the offset behind it, or the decoder's error |
| `Tlv.EntryReadsBack` | crates/hdc-protocol/src/serializer.rs:97-183 | the bytes written for one field are read back as that field and that value |
| `Tlv.OverlayLaw` | crates/hdc-protocol/src/serializer.rs:389-431 | decoding serialize(y) onto x gives x overwritten by exactly the fields y wrote |
| `Tlv.DecodeConcatenation` | crates/hdc-protocol/src/serializer.rs:389-431 | decoding serialize(x) followed by serialize(y) gives x overlaid with y |
| `Tlv.RoundTrip` | crates/hdc-protocol/src/serializer.rs:97-183 | for every schema, a record with small one-byte fields and short strings decodes to itself |
| `Tlv.DecodePaysCost` | crates/hdc-protocol/src/serializer.rs:142-183 | a decoded record never needs more bytes than were read, which is why no other input can repair a lost field |
| `Tlv.DeserializedFits` | crates/hdc-protocol/src/serializer.rs:389-431 | whatever is decoded has values of the field's own width |
| `Tlv.RoundTripIff` | crates/hdc-protocol/src/serializer.rs:372-685 | decode(serialize(x)) = x if and only if every one-byte field is below 128 and every string length fits 32 bits |
| `Tlv.ZeroPadding` | crates/hdc-protocol/src/serializer.rs:643-685 | decoding with k zero bytes appended succeeds unchanged for even k and fails with a truncated varint for odd k |
| `Tlv.Write` | crates/hdc-protocol/src/serializer.rs:625-641 | the field-by-field writer produces exactly the serialization |
| `Tlv.Read` | crates/hdc-protocol/src/serializer.rs:643-685 | the offset-driven reader loop refines the decoder, errors included |
| `Records.HandshakeRoundTrip` | crates/hdc-protocol/src/serializer.rs:372-431 | SessionHandShake round-trips exactly when auth_type is below 128 and its strings are short enough |
| `Records.ProtectRoundTrip` | crates/hdc-protocol/src/serializer.rs:433-498 | PayloadProtect round-trips exactly when check_sum and v_code are below 128 |
| `Records.ConfigRoundTrip` | crates/hdc-protocol/src/serializer.rs:500-574 | TransferConfig round-trips exactly when compress_type is below 128 and its strings are short enough |
| `Records.FileModeRoundTrip` | crates/hdc-protocol/src/serializer.rs:576-623 | FileMode round-trips exactly when its strings are short enough |
| `Records.PayloadRoundTrip` | crates/hdc-protocol/src/serializer.rs:625-685 | TransferPayload round-trips exactly when compress_type is below 128 |
| `Frames.HeadReadsBack` | crates/hdc-protocol/src/serializer.rs:285-310 | the 11-byte head gives back both sizes, the data size up to its 32 bits |
| `Frames.UnpackPack` | crates/hdc-protocol/src/serializer.rs:695-784 | unpacking a packed message returns it exactly when its sizes pass the size check |
| `Frames.StreamsReadPack` | hdcd/src/transfer/tcp.rs:57-89 | on a packed legal message the host's, the daemon's and the buffer reader agree, whatever bytes follow |
| `Frames.UnpackIff` | crates/hdc-protocol/src/serializer.rs:726-784 | on any bytes, the buffer unpacker accepts a message if and only if they start with a frame of it: flag, sizes not both zero and within the limit, a record with a known command and the right version code |
| `Frames.HostReadIff` | hdc/src/transfer/tcp.rs:34-60 | on any bytes, the host's streaming unpacker accepts exactly the same frames, but under any version code |
| `Frames.FrameReadIff` | hdcd/src/transfer/tcp.rs:57-89 | on any bytes, reading a raw frame, with or without its own size check, and unpacking it accepts exactly the frames of the buffer unpacker |
| `Streams.ByteStream.Read` | hdc/src/transfer/tcp.rs:11-31 | one socket read takes at most one chunk and returns 0 only at the end |
| `Streams.ReadFrame` | hdc/src/transfer/tcp.rs:11-31 | exactly the requested bytes are returned and consumed, or the stream ends |
| `Streams.HostUnpack` | hdc/src/transfer/tcp.rs:34-60 | the host's streaming unpacker refines its reading of the pending bytes, error cases included |
| `Streams.RecvRawFrame` | hdcd/src/transfer/tcp.rs:57-75 | the raw frame readers of daemon (with size check) and host (without) return exactly one frame |
| `Streams.Receive` | hdc/src/server.rs:1800-1828 | each of the three readers does to the stream what it does to the pending bytes |
| `Streams.ReceiveAll` | hdcd/src/transfer/tcp.rs:35-89 | for every list of legal messages, every chunking and every reader: exactly that list is returned and exactly those bytes are consumed |
| `Usb.LastTransferShort` | hdc/src/transfer/usb.rs:81-114 | the last transfer of a message ends in a short packet if and only if the payload does not fill its last packet or the header does not |
| `Usb.Endpoint.SendRaw` | hdc/src/transfer/usb.rs:81-114 | header, payload and dummy header go out as the transfers of that message |
| `Usb.RecvMessage` | hdc/src/transfer/usb.rs:129-190 | one receive returns the message, skips a nop packet or fails, for every input |
| `Usb.ReadLoop` | hdc/src/server.rs:4724-4810 | the session loop returns every message up to the error that ends it, nop packets skipped |
| `Usb.ParsesPack` | hdc/src/transfer/usb.rs:129-190 | on every legal message the USB parser agrees with the buffer unpacker |
| `Usb.ParsePayloadIff` | hdc/src/transfer/usb.rs:163-190 | on any bytes, the USB parser accepts exactly a frame, whatever its version code and its sizes |
| `Usb.RecvIff` | hdc/src/transfer/usb.rs:129-190 | on any bytes, a message is received under a session id if and only if a header with its option bit, of any flag, announces that id and data within the limit that parse to it |
| `Usb.RecvHeader` | hdc/src/transfer/usb.rs:129-190 | a legal message is read under its session id if its whole frame is within the limit, and refused by its size alone if not, where the other readers accept it; a dummy header is skipped |
| `Usb.OneMessage` | hdc/src/transfer/usb.rs:81-190 | the bytes of one sent legal message, dummy header included, are read as that message, or end the session if its frame exceeds the limit |
| `Usb.SessionReadsSent` | hdc/src/transfer/usb.rs:81-190 | any sequence of legal messages sent raw is read back unchanged, nop packets skipped, up to the first whose frame exceeds the limit, which ends the session |
| `FileTransfer.HeaderFits` | hdc/src/server.rs:2571-2580 | a TransferPayload header never exceeds the 64 bytes reserved for it |
| `FileTransfer.PaddedHeaderDecodes` | hdc/src/server.rs:2742-2751 | the zero-padded header decodes to itself when its encoding has even length and gives a truncated-varint error when odd |
| `FileTransfer.SenderHeaderParity` | hdc/src/server.rs:2571-2580 | a sender's header has even length if and only if its offset is 0 or takes an odd number of varint bytes |
| `FileTransfer.SendFile` | hdc/src/server.rs:2561-2590 | for any read sizes, chunk k carries the offset of the bytes before it and its slice of the file, within MAX_SIZE_IOBUF |
| `FileTransfer.ChunksConcatenate` | hdc/src/server.rs:2561-2590 | the chunks concatenate to the file |
| `FileTransfer.ReceiveFile` | hdc/src/server.rs:2732-2800 | for every message sequence: the file is what the FileData messages before the end of the loop add, FileFinish[1] goes out exactly when one of them has a header that decodes and brings the file to file_size, and [0] follows exactly when the loop ends on a FileFinish whose first byte is 1 |
| `FileTransfer.ReceiverConsistent` | hdc/src/server.rs:2732-2800 | after every message sequence total_received is the number of bytes written, and FileFinish[1] was sent at most once and only once file_size was reached |
| `FileTransfer.ReceivesExactly` | hdc/src/server.rs:2732-2800 | the same of the specification the loop refines |
| `FileTransfer.ReceiveChunk` | hdc/src/server.rs:2742-2757 | a chunk with an even header adds its data; with an odd one it adds its 64 header bytes as well |
| `FileTransfer.FileArrivesIff` | hdc/src/server.rs:2732-2769 | the received file equals the sent one if and only if every chunk header has even length |
| `FileTransfer.ArrivalAcknowledged` | hdc/src/server.rs:2758-2768 | a sent file whose chunk headers all survive is acknowledged with exactly one FileFinish[1] if it is not empty, and with none if it is |
| `FileTransfer.FullReadsArriveIff` | hdc/src/server.rs:2561-2590 | with full reads, if and only if the file has at most five chunks' worth of bytes |
| `RportConnection.FirstIsMaster` | hdcd/src/forward.rs:538-550 | while a daemon connection waits for its activation, nothing else can be first in its queue |
| `RportConnection.DaemonKeeps` | hdcd/src/forward.rs:513-614 | every step of a daemon connection task keeps the invariant of both ends and both lanes |
| `RportConnection.HostKeeps` | hdc/src/server.rs:4147-4249 | every step of a host bridge keeps it |
| `RportConnection.AcceptKeeps` | hdcd/src/forward.rs:474-491 | inserting a fresh connection before its task starts keeps it |
| `RportConnection.RouteDownKeeps` | hdcd/src/forward.rs:103-151 | passing a message on to the listener, or dropping it, keeps it |
| `RportConnection.RouteUpKeeps` | hdc/src/server.rs:428-436 | the host's routing to a response channel keeps it |
| `RportConnection.DaemonDispatchKeeps` | hdcd/src/forward.rs:444-471 | the daemon's dispatcher handing over or dropping a message keeps it |
| `RportConnection.HostDispatchKeeps` | hdc/src/server.rs:4100-4137 | the host's dispatcher spawning a bridge, handing over or dropping a message keeps it (that an announced connection gets its bridge is `RportProgress.Opens`) |
| `RportConnection.ShutKeeps` | hdcd/src/forward.rs:500-508 | draining the connection map keeps it |
| `RportConnection.HostFirst` | hdc/src/server.rs:4181-4198 | the daemon has sent data only if the host had inserted its sender |
| `RportConnection.WrittenIsPrefix` | hdcd/src/forward.rs:569-604 | under the invariant, what one socket got is a prefix of what the other gave |
| `RportConnection.Conserved` | hdcd/src/forward.rs:444-471 | under the invariant, every byte sent to a receiving connection is consumed, queued or in transit, in order |
| `RportConnection.FreedComplete` | hdcd/src/forward.rs:606-613 | under the invariant, a connection freed while receiving was handed everything |
| `Rport.NextGood` | hdcd/src/forward.rs:385-614 | every step of the whole system keeps the invariant of every connection and of the set-up exchange |
| `Rport.RunGood` | hdcd/src/forward.rs:385-614 | every state of every run satisfies it |
| `Rport.StreamsArePrefixes` | hdc/src/server.rs:4058-4249 | in every interleaving, for each connection and in both directions, the bytes written to one socket are a prefix of the bytes read from the other |
| `Rport.NothingLost` | hdcd/src/forward.rs:444-614 | in every interleaving, while a channel is routed and dispatched and the connection receives, every byte read from one socket is written, queued, in transit or in the reader's hand, in order |
| `Rport.FreedAfterAll` | hdcd/src/forward.rs:606-613 | in every interleaving, a connection freed by its peer while receiving has been handed everything the peer ever sent |
| `Rport.DataAfterActivation` | hdc/src/server.rs:4181-4198 | in every interleaving, the daemon sends data only after taking the activation, and the host sent that only after inserting its sender |
| `Rport.EntryIsEarned` | hdc/src/server.rs:3941-4049 | in every interleaving, a Reverse entry exists only if the listener received a positive check result carrying its own id, which the host sent after reaching the port |
| `RportProgress.SetsUp` | hdc/src/server.rs:3941-4049 | from every start, behind whatever is left over from an earlier forward, with a reachable port the set-up exchange completes and the entry exists |
| `RportProgress.ChecksAnswered` | hdc/src/server.rs:4062-4099 | a check is answered under its own id, during set-up and later |
| `RportProgress.Opens` | hdc/src/server.rs:4100-4117 | on an idle forward any fresh connection opens: the announcement spawns the host's bridge, which dials and activates the daemon's end |
| `RportProgress.TrafficCarried` | hdcd/src/forward.rs:569-604 | over an open connection, any interleaving of chunks in both directions is carried: each socket is written exactly what was read from the other |
| `RportProgress.Delivers` | hdc/src/server.rs:3941-4249 | from every start an explicit run sets up the forward, opens a connection under any id and carries any list of chunks of at most 4096 bytes in both directions |
| `RportProgress.Drains` | hdcd/src/forward.rs:449-604 | from every reachable state with both bridges running and the forward routed and dispatched on both sides, routing, dispatching and writing what is pending writes to each socket everything the other end has sent |
| `RportProgress.LostBehindClose` | hdcd/src/forward.rs:77-94 | why no close may be on its way for that: what is sent behind one never reaches the connection |
| `RportEnding.StaysOpenIff` | hdcd/src/forward.rs:569-613 | once both bridges of a connection run, they run on if and only if no write to a socket fails and the listener is not drained; an end of file at either or both sockets never ends them |
| `RportEnding.Finishes` | hdc/src/server.rs:4236-4249 | after a write that fails half way, both ends finish, and the streams stop exactly there |
| `RportEnding.Refuses` | hdc/src/server.rs:4165-4179 | a connection whose local port is refused is finished at both ends without a byte read or written |
| `RportEnding.TasksFinish` | hdcd/src/forward.rs:513-614 | from every state, a connection task that was freed or drained, or does not bridge yet, can run to its end on its own, with everything queued for it written |
| `RportEnding.CheckFails` | hdcd/src/forward.rs:414-434 | from every start, when the host cannot reach its port, both sides take the forward down again and no entry is left |
| `RportEnding.ListenerLeaves` | hdcd/src/forward.rs:502-511 | when the accept loop ends, every connection is shut, the dispatcher is stopped and the listener leaves the map |
| `RportEnding.ListenerEnds` | hdcd/src/forward.rs:385-511 | from every stage the listener comes to its end, even if every send it still tries fails |
| `RportEnding.SetupLeft` | hdc/src/server.rs:4026-4037 | from every state of the set-up the host can leave it without an entry, and nothing reaches it afterwards |
| `RportEnding.SessionEndCuts` | hdc/src/server.rs:428-436 | once the session's response channels are dropped, nothing more reaches the dispatcher |
| `RportEnding.RemovalEnds` | hdcd/src/forward.rs:77-94 | from every state with an entry and a registered listener, removing the entry takes channel, listener and dispatcher away |
| `ForwardWire.HostReadsDaemon` | hdc/src/server.rs:4058-4142 | the host reads back every message the daemon writes, and the local specification exactly when that does not end in a zero byte |
| `ForwardWire.DaemonReadsHost` | hdcd/src/forward.rs:103-151 | the daemon reads back every message the host writes |
| `RportWire.TakesFrame` | hdcd/src/transfer/tcp.rs:78-105 | plain or sealed, a legal message written on a socket is read back with what follows it |
| `RportWire.ByteStep` | hdcd/src/transfer/tcp.rs:78-105 | with messages framed by the sender, plain or sealed, among the frames of any other channels, and read and parsed by the receiver: each step on bytes is that step on messages, except that writing or reading another channel's frame is none, and a read takes exactly the first frame |
| `RportWire.ByteRunIs` | hdcd/src/transfer/tcp.rs:78-105 | every run on bytes is a run on messages |
| `RportWire.SocketsArePrefixes` | hdc/src/server.rs:4058-4249 | in every run on bytes, for each connection and in both directions, the bytes written to one socket are a prefix of the bytes read from the other, and a connection freed while receiving was handed everything |
| `RportWire.SocketsLoseNothing` | hdcd/src/forward.rs:444-614 | in every run on bytes, the frames in transit carry queues in which nothing is lost on the way to a connection that is still receiving |
| `RportWire.OwnRunIs` | hdcd/src/transfer/tcp.rs:78-105 | with no other channel in the way, every run on messages happens on bytes, step for step |
| `RportWire.SocketsDeliver` | hdc/src/server.rs:3941-4249 | on fresh sockets, plain or sealed, the run that sets up the forward, opens a connection and carries any traffic writes to each socket exactly what was read from the other |
| `ForwardState.State.Register` | hdcd/src/forward.rs:363-382 | a listener is entered for its channel and nothing else changes |
| `ForwardState.State.Route` | hdcd/src/forward.rs:103-151 | a message reaches the listener of its own channel and no other |
| `ForwardState.State.Close` | hdcd/src/forward.rs:77-94 | exactly that channel's listener and connections go, the listener is told to stop and aborted, and the answer is true exactly when something went |
| `ForwardState.Shrinks` | hdcd/src/forward.rs:88-92 | comparing the map's length around the removal detects exactly a removal |
| `Cipher.PskCipher.constructor` | crates/hdc-protocol/src/encrypt.rs:37-53 | the key is the host's sending half followed by the daemon's: each side sends with its own half and receives with the other's, from counters 0 |
| `Cipher.PskCipher.Encrypt` | crates/hdc-protocol/src/encrypt.rs:63-76 | the sealed frame, and a counter that wraps at 64 bits and moves only on success |
| `Cipher.PskCipher.Decrypt` | crates/hdc-protocol/src/encrypt.rs:79-92 | the opened plaintext or the error, and a receive counter one past the frame's |
| `Cipher.OpensSealed` | crates/hdc-protocol/src/encrypt.rs:63-92 | opening undoes sealing, and the frame carries the counter it was sealed under |
| `Cipher.SentCounters` | crates/hdc-protocol/src/encrypt.rs:63-76 | in every run of attempts, frame i carries the start counter plus i modulo 2^64 and opens to its plaintext |
| `Cipher.NonceInjective` | crates/hdc-protocol/src/encrypt.rs:95-99 | the nonce layout of section 3.2 of RFC 5116 maps distinct counters to distinct nonces |
| `Cipher.SentNonces` | crates/hdc-protocol/src/encrypt.rs:63-76 | in every run of attempts, the ciphertext of frame i is the plaintext sealed under the nonce that the frame itself names, which is that of the start counter plus i |
| `Cipher.RunNoncesDistinctIff` | crates/hdc-protocol/src/encrypt.rs:95-99 | the nonces of the frames of a run are pairwise distinct (section 8 of NIST SP 800-38D) if and only if it has at most 2^64 frames |
| `Cipher.SessionNoncesDistinctIff` | crates/hdc-protocol/src/encrypt.rs:37-53 | over both directions of a session from counter 0, no key and nonce are used together twice if and only if neither side seals more than 2^64 frames and the two halves of the key differ, or one side sends nothing |
| `Cipher.OpensAnyTime` | crates/hdc-protocol/src/encrypt.rs:79-92 | the receive counter is never compared: any frame of a run opens at every receive counter and sets it to one past the frame's own |
| `Cipher.SendAll` | hdc/src/server.rs:259-279 | sending a list in order produces exactly that run and advances the counter by its length |
| `Cipher.ReceiveSealed` | hdc/src/server.rs:1815-1828 | on any bytes: one length-prefixed frame is read and opened and nothing behind it is touched; a stream that ends early, a short frame or one that does not open gives that error and leaves the counter alone |
| `Cipher.FrameReads` | hdc/src/server.rs:259-279 | the length prefix written before a sealed frame gives exactly that frame back |
| `Cipher.Exchange` | hdcd/src/transfer/tcp.rs:78-105 | in either direction, whatever one side sends in order, cut into any chunks, the other side's cipher recovers completely, and both counters equal the number of frames |
| `TextTlv.ParseDecimal` | hdcd/src/main.rs:32-35 | printing and parsing a length are inverse below 2^64 |
| `TextTlv.FrontOfMake` | hdc/src/server.rs:1782-1784 | the first record of a buffer is read back with what follows it |
| `TextTlv.ParseMakeAll` | hdc/src/server.rs:1188-1210 | parsing a concatenation of records gives their last-wins map |
| `TextTlv.RecordRoundTripIff` | hdc/src/server.rs:1782-1784 | a record comes back if and only if its tag has at most sixteen characters and ends in no white space |
| `TextTlv.HostParse` | hdc/src/server.rs:1188-1210 | the host's loop computes the same map as the daemon's, on every ASCII string |
| `TextTlv.DaemonParse` | hdcd/src/main.rs:23-44 | the daemon's loop computes the same map as the host's, on every ASCII string |
| `TextTlv.HostAuthBufReads` | hdc/src/server.rs:1786-1798 | from the host's buffer the daemon reads exactly the encryption feature and the public key that were put in |
| `Negotiation.AnswerIs` | hdcd/src/main.rs:152-188 | the daemon offers a key exactly when both flags are set and the host sent its public key |
| `Negotiation.NextKeeps` | hdcd/src/main.rs:130-256 | every step of either end keeps the invariant of plain and of switching sessions |
| `Negotiation.FramesMatchIff` | hdc/src/server.rs:1863-1984 | for all settings and every run, each frame read by either side was read through the cipher as it was sealed, under the counter due, if and only if it is not a late frame of an encrypted session; a ready session is sealed exactly when both flags are set and the key was sent (that every session does become ready is `Negotiation.Completes`) |
| `Negotiation.PendingMatchIff` | hdc/src/server.rs:2100-2111 | the same of every frame still on its way to the host |
| `Negotiation.SentLateIff` | hdcd/src/main.rs:226-256 | after every run, a frame the daemon's side sends is late exactly when the session loop has ended, and it is what the host will expect if and only if it is not late or the session is not encrypted |
| `Negotiation.SwitchingRun` | hdcd/src/main.rs:189-224 | the run in which both ends switch at the same frame |
| `Negotiation.Completes` | hdc/src/server.rs:1919-1984 | for every configuration the handshake completes: the host is ready, with a cipher exactly when both flags are set and the key was sent, and the daemon serves, unless both flags are set without a key |
| `Negotiation.SentIsRead` | hdcd/src/main.rs:226-256 | in every reachable state with both sides in session, a message either side sends next is read by the other once the frames before it are, and both stay in session |
| `Negotiation.StrayRun` | hdcd/src/main.rs:253-254 | after the loop has removed the cipher, a lingering connection's plain frame is read through the cipher, and ends the host's session |
| `Negotiation.NoKeyNoSession` | hdcd/src/main.rs:204-224 | with both flags set and no public key, no run reaches the daemon's session loop unless the host sends a handshake of its own |
| `DaemonSessions.SessionsMatchIff` | hdcd/src/main.rs:130-256 | for any number of sessions of one daemon, interleaved in any way under distinct ids of which none is 0, every frame of every session is read as it was sealed exactly unless it is a late frame of an encrypted session |
| `DaemonSessions.SessionIsOwnRun` | hdcd/src/main.rs:130-256 | for any number of sessions interleaved under distinct ids of which none is 0, each is in exactly the state its own actions lead to when it is alone |
| `DaemonSessions.FirstReadIff` | hdcd/src/main.rs:135-135 | a plain first frame is read as it was written if and only if no cipher is kept under id 0 |
| `DaemonSessions.ZeroIdKeepsCipher` | hdcd/src/main.rs:198-202 | a run in which an encrypted session under id 0 keeps its cipher there |
| `Authentication.UsbAuth` | hdc/src/server.rs:4567-4681 | accepts if and only if within ten messages an AuthType::Ok follows messages that all continue the exchange, and consumes at most ten |
| `Authentication.TcpAuth` | hdc/src/server.rs:1870-2045 | the same on TCP, where a pre-shared-key handshake with a 32-byte key accepts too if the host's flag is set |
| `Authentication.ConnectedIff` | hdc/src/server.rs:2045-2068 | in every history of discovery, adoption, sessions and removals, an entry is Connected with a session id and transport if and only if an attempt under that key with that id was accepted and no later event replaced it |
| `Authentication.ListedIff` | hdc/src/server.rs:62-70 | in every history a device is listed if and only if an event entered it that no removal followed |
| `Authentication.StatusIff` | hdc/src/server.rs:72-77 | in every history a device is Connected, Offline or Ready if and only if the last event that set its status gave it that one: an accepted attempt; a failed attempt over USB while listed; adoption, or discovery while not listed |
| `Authentication.Devices.Discover` | hdc/src/server.rs:1257-1275 | new addresses become Ready, existing entries are untouched, the count is the number of new ones, and each address enters the history |
| `Authentication.Devices.UsbSession` | hdc/src/server.rs:4684-4700 | the attempt enters the history with its key, session id and messages, the map stays the replay of the history, and the answer is whether the exchange was accepted |
| `Authentication.Devices.TcpSession` | hdc/src/server.rs:2045-2068 | the same on TCP, with the host's encryption flag |
| `UsbMonitor.DelayBounds` | hdc/src/server.rs:4397-4400 | the delay is between 1 and 30 seconds and never shrinks with further failures |
| `UsbMonitor.DelayValues` | hdc/src/server.rs:4397-4400 | the delay is 1, 2, 4, 8 and 16 seconds after the first five failures in a row, and 30 after every further one |
| `UsbMonitor.NextKeeps` | hdc/src/server.rs:4290-4371 | every step keeps: a serial is known exactly while one session of it runs or has finished without being removed |
| `UsbMonitor.OneSession` | hdc/src/server.rs:4322-4370 | in every interleaving at most one session per serial runs, and the known set is exactly the running or finished, not yet removed ones |
| `UsbMonitor.FailuresAreStreak` | hdc/src/server.rs:4376-4414 | the failure count is the number of failures recorded since the last arrival or ended session |
| `UsbMonitor.HeldRun` | hdc/src/server.rs:4376-4414 | a backoff persists through every run that does not cancel it, later failures included |
| `UsbMonitor.NotBeforeBackoff` | hdc/src/server.rs:4302-4338 | after the k-th failure in a row is recorded and until it is cancelled, no enumeration adopts the serial before the recording time plus min(2^min(k-1,5), 30) seconds (the exact condition is `UsbMonitor.AdoptsIff`) |
| `UsbMonitor.AdoptsIff` | hdc/src/server.rs:4322-4338 | in every run, a turn of the adoption loop on a serial starts a session if and only if none is running or finished without being removed, and either no failure is counted or the enumeration was taken at least the delay after the last failure was recorded |
| `UsbMonitor.SnapshotIsLastList` | hdc/src/server.rs:4302-4320 | in every run the snapshot is the device list last compared with it, and an enumeration works on its own list |
| `UsbMonitor.LoopAdopts` | hdc/src/server.rs:4322-4371 | the adoption loop takes every listed device that is due and not known, and no other |
| `UsbMonitor.StayingUncancelled` | hdc/src/server.rs:4302-4320 | for a serial every enumeration sees, only an ended session cancels |
| `UsbMonitor.AdoptedBeforeRecord` | hdc/src/server.rs:4363-4369 | a run from the start in which a device whose session failed is adopted again at once, because it leaves the known set before its failure is recorded |
| `Teardown.Channels.End` | hdc/src/server.rs:240-247 | writer and keep-alive mark go, the association with the session stays |
| `Teardown.Channels.CloseSession` | hdc/src/server.rs:317-332 | exactly the session's channels lose association and writer; keep-alive marks stay |
| `Teardown.Sessions.EndWithCleanup` | hdc/src/server.rs:395-401 | exactly the session's sender and response channels go |
| `Teardown.SelectsOwnIff` | hdc/src/server.rs:1719-1728 | the device filter selects exactly that device's entries if and only if it is neither empty nor "any" |
| `Teardown.Forwards.RemoveAll` | hdc/src/server.rs:1719-1746 | exactly the selected entries go, and exactly one close message for each of them is sent, to its own session and channel |
| `Teardown.Forwards.RemoveOne` | hdc/src/server.rs:1748-1780 | the exact key if there is one, else one selected key that the specification begins or ends; found exactly when there is one |
| `Teardown.NamesIff` | hdc/src/server.rs:1748-1765 | a specification names a key if and only if it is the key, its first part or its last part |
| `Teardown.EitherHalfNames` | hdc/src/server.rs:1748-1765 | removing by either half of a forward finds it |
| `Teardown.EndUsbSession` | hdc/src/server.rs:4812-4823 | without interference the teardown is its five steps, after which nothing of the session or its device is in any map, the writers of its channels are shut, and every other place is as it was |
| `Teardown.StepsTearDown` | hdc/src/server.rs:4812-4823 | from every state the five steps leave nothing of the session or its device, no writer of a channel that served it, and every other place as it was unless the device is called "" or "any" |
| `Teardown.RemainsIff` | hdc/src/server.rs:4812-4823 | in every interleaving with the inserts and removals of all other tasks, a device entry, sender, response channel, channel association or forward entry of the session or its device is left if and only if it was inserted after the step that clears that map and not displaced since |
| `Teardown.WriterRemainsIff` | hdc/src/server.rs:317-332 | in every interleaving, the writer of a channel that served the session when its channels were closed is open in the end if and only if the channel was started again after that and not shut since |
| `Teardown.OthersUntouched` | hdc/src/server.rs:4812-4823 | in every interleaving, a place that holds nothing of the session or its device whenever the teardown takes a step ends up as if the teardown had not happened |
| `Teardown.LateInsertRemains` | hdc/src/server.rs:4039-4049 | a forward entry inserted once the teardown is through outlives its device |
| `Text.SplitJoin` | hdc/src/client.rs:157-160 | splitting undoes joining when no part contains the separator |
| `Text.JoinSplit` | hdc/src/server.rs:606-612 | joining undoes splitting, and no part contains the separator |
| `CommandLine.LookupIs` | hdc/src/parser.rs:23-66 | the command table finds a forward command exactly when the words of the key spell one |
| `CommandLine.InnerIs` | hdc/src/parser.rs:136-160 | the scan at one position finds the shortest command there, fport and rport taking in an immediately following ls or rm |
| `CommandLine.InnerSettled` | hdc/src/parser.rs:143-152 | once fport or rport is found, a later position changes nothing unless its token is itself a two-word forward command |
| `CommandLine.InnerOverridden` | hdc/src/parser.rs:143-152 | and such a token replaces it |
| `CommandLine.ScanAt` | hdc/src/parser.rs:136-160 | the inner loop, with its two exits and its continue, refines the scan |
| `CommandLine.SplitOptAndCmd` | hdc/src/parser.rs:131-174 | for any tokens, options and parameters concatenate to the input, and the result is the first command, shortest match, ls and rm taken in, if and only if that is not a bare fport or rport with a later token that is itself a two-word forward command; then the first such token is |
| `CommandLine.PhraseOverrides` | hdc/src/parser.rs:143-152 | the smallest such line |
| `CommandLine.FirstFound` | hdc/src/parser.rs:131-174 | the reference finds a command at the first position where one starts and nowhere before |
| `CommandLine.ServerSeesIff` | hdc/src/server.rs:606-612 | the server gets the client's tokens back if and only if none contains a space or ends in NUL |
| `CommandLine.ReparseSame` | hdc/src/parser.rs:131-174 | parsing the parameters again gives the same command, the same parameters and no options |
| `CommandLine.ServerParsesSame` | hdc/src/server.rs:606-612 | from the client's tokens to the server's dispatch: same command, same parameters, no options |
| `CommandTable.SplitLine` | hdc/src/parser.rs:23-66 | the same with the tool's own table |
| `ChannelHandshake.Build` | hdc/src/client.rs:57-61 | the client's buffer is banner, padding, key and padding, 44 bytes in all |
| `ChannelHandshake.KeyReturnsIff` | hdc/src/server.rs:1171-1185 | the server recovers the client's key if and only if it contains no zero byte |
| `ChannelHandshake.UnpackIs` | hdc/src/server.rs:1171-1185 | on any buffer the banner is required, and then the key is what stands between the leading zero bytes and the next, if it is UTF-8 |

## Left out

- RSA keys, signatures, OAEP, base64 and AES-GCM themselves: foreign primitives, represented by outcomes and by an ideal seal/open pair.
- libusb, WinUSB and hotplug events: the USB endpoint is a list of transfers and an enumeration is an arbitrary device list.
- Interactive shell, PTY, process spawning, reboot, mount and console handling: operating-system plumbing.
- fport as a joint model of both ends: the two ends disagree on the check-result layout and data may precede activation, so no stream law holds to prove.
- The daemon's own file, app and flashd handlers: they do not use the host's 64-byte header.
- UDP discovery, listen-address parsing and IP parsing: they rest on library parsing not shown in the repository.
- Wall-clock timeouts: a timeout is an action that may happen at any time; nothing is claimed about when a step happens, only about what happens if it does.
- Fairness: progress is stated as runs that exist from every state of a kind, not as something a scheduler must bring about.
- Random identifiers that collide: connection, session and listener ids are fresh (session ids other than 0 in `DaemonSessions`).
- The UART head, zip extraction, path handling and logging: fixed layouts, library calls and text, with no law across functions to state.
- The special first messages of an integrated development environment client: only the handshake with a banner is modelled.
- The rest of the server's command dispatch: each command is one call to a handler named above or left out above.
- TextTlv.HostParse: ASCII strings only; a slice inside a multi-byte character aborts the program.
- TextTlv.DaemonParse: ASCII strings only, for the same reason.
- FileTransfer.SendFile: files shorter than 2^64 bytes; the 64-bit offset does not wrap in the model.
- UsbMonitor.NotBeforeBackoff: the 32-bit failure counter does not wrap in the model.
- Cipher.FrameReads: frames shorter than 2^32 bytes, since the length prefix truncates longer ones.
- Cipher.Exchange: plaintexts that stay below 2^32 bytes once sealed, for the same reason.
- RportWire.SocketsArePrefixes: specifications of the two ports below 2^28 bytes together, 32-bit identifiers as in the program's own types, and a cipher that never refuses to seal; a session over TCP, not over USB.
- RportWire.SocketsLoseNothing: the same.
- RportWire.SocketsDeliver: the same.
- RportProgress.Drains: only while no close of the forward is on its way to the daemon; `RportProgress.LostBehindClose` shows why.
- ChannelHandshake.Build: keys of at most 32 bytes; the program aborts on longer ones.
- Streams.ReceiveAll: takes the number of frames to read as an argument, where the program's loops read until an error.
