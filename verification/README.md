# nethernet-rs: verified model

This Dafny project models three parts of the NetherNet protocol implementation and proves properties of them.

- **The segmented byte stream.** A write becomes one message, cut into at most 255 chunks of 10000 bytes under a
  falling counter, pushed over an ordered channel, reassembled by a stateful accumulator, queued in a bounded channel
  and read back as bytes. `Segments` and `Reassembly` cover the accumulator, `Sessions` and `Streams` the futures and
  poll methods, `Pipeline` the whole path under every interleaving, `Tearing` which calls break it, and `Corruption`
  what can be read afterwards.
- **The discovery datagram codec.** `Primitives` (cursor, growing buffer, little-endian integers), `Crypto` (ECB and
  padding), `Hex`, `ServerDatas` and `Packets`.
- **LAN signalling and offers.** `Utf8`, `Decimal`, `Signals` and `Negotiation` (the text forms), `Tables`, `Lan`,
  `TwoNodes` and `Network` (one node, its history, two nodes talking, and runs of any number of nodes), `Connect`,
  `Ready` and `Listener` (the client's candidate buffering and the listener's tasks).

Check everything with `dafny verify dfyconfig.toml`.

## How the model is built

- Objects whose methods update fields are classes (`Segments.Message`, `Sessions.Session`, `Streams.NethernetStream`,
  `Streams.SessionStream`, `Primitives.Cursor`, `Primitives.ByteVec`, `Lan.LanSignaling`). Each method is proved equal
  to a function of the old state, and the properties are proved of those functions and of the transition systems that
  use them.
- An async function is a future that each poll drives forward. How its await points resolve during one poll is a
  parameter (`Sessions.Answer`); running out of answers leaves the poll pending. An `Answer` of `Refused` is an error
  from the WebRTC library.
- Concurrent tasks are steps of a transition system: `Pipeline` (writer, channel, callback, queue, reader, and the
  reader's session closing), `Ready` (data-channel handlers at every lock they take), `Listener` (signal loop, candidate
  tasks up to and from the notifiers' lock, enqueue tasks) and `Network` (nodes, and datagrams that may be lost,
  repeated, reordered and delivered to anyone).
- The reliable channel is ordered and loses nothing (section 6.4 of RFC 8831), and its message callbacks run one at a
  time. `Pipeline` follows one direction of a stream. The reader at its end belongs to the other side's session, which
  that side may close at any time; what closing does to the channel is covered by steps that need not happen.
- The block cipher is any pair of mutually inverse functions on 16-byte blocks, and the keyed hash any function to 32
  bytes. Nothing is claimed about secrecy or forgery.
- Strings are their bytes, restricted to well-formed UTF-8; lengths are byte lengths.
- Time, the socket, the JSON parser, and what the WebRTC library accepts are parameters.
- Integer widths are explicit. `remaining_segments + 1` in `add_segment` is taken modulo 256, as a release build
  computes it; a debug build panics there instead.
- Errors keep their kind and lose their text.

## Findings

- A first segment with counter 255 wraps the accumulator's counter to 0. If any segment but one with counter 254
  follows, the code does not report the broken sequence and the data leaks into the next message
  (`Reassembly.Counter255Leaks`). `Reassembly.RunSpecificationHoldsIff` shows that on all other inputs every answer is
  the specified one. The splitter never produces that counter.
- A send that fails after its buffer was accepted, or after part of it was pushed, loses or adds bytes unless it
  carried none: `Tearing.TornIffUnaccounted`, with the guards in `Pipeline.Tears`. While both sessions are open, the
  first such failure can always be followed by a run in which no call reports an error, the peer refuses no packet, and
  the peer reads bytes that are no prefix of what was written: `Corruption.CorruptsIff` and
  `Corruption.CorruptionIsReachable`; `Corruption.TornStreamCanCorrupt` is one such run.
- A side that shuts its stream down while messages wait in its queue does not get to read them: a new `recv` answers
  None first. `Pipeline.ClosedReaderLeavesUnread` is such a run, `Pipeline.RestMeansAllReadIff` says when it happens,
  and `Pipeline.ClosedReaderTakesAtMostOne` that at most one more message is taken.
- `poll_write` answers Ready(Ok(len)) for a buffer that is too large to split exactly when its send stops before the
  split in that poll: `Streams.OversizedAcceptedIff`. Nothing of it goes out, and a later poll reports the error:
  `Streams.OversizedReportedLater`, over whole runs `Streams.OversizedWriteIsReported`.
- The documentation of `from_string` speaks of exactly three space-separated tokens; the code keeps everything after
  the second space as data, spaces included. The model follows the code.
- `NegotiationMessage::parse` refuses blank payloads, `Signal::from_string` keeps them: `Negotiation.ParsersAgree`.

## Model

Rows that begin with **Main.** are the main results; the others support them.

| member | source | states |
|---|---|---|
| `Segments.DecodeEncode` | src/protocol/message.rs:25-51 | a segment survives the wire exactly when it carries data; otherwise decoding reports a parse error |
| `Segments.SplitShape` | src/protocol/message.rs:121-161 | the chunks are the data in order, at most 255 of them, counters falling to 0, all but the last full, none empty unless the message is |
| `Segments.SplitIntoSegments` | src/protocol/message.rs:121-161 | fails exactly above 255 * 10000 bytes with the length as error, otherwise returns those chunks, all but the last of 10000 bytes; the u8 counter never underflows |
| `Segments.Message.AddSegment` | src/protocol/message.rs:76-111 | one call takes the accumulator to the state and answer of the step function |
| `Reassembly.AddToOpen` | src/protocol/message.rs:76-111 | the next segment extends, completes or breaks an open run, and which of these it is, with the resulting state and answer; only a run just opened by counter 255 is never seen to break |
| `Reassembly.Decompose` | src/protocol/message.rs:76-111 | every input can be cut into delivered blocks, broken runs and an open tail |
| `Reassembly.DecompositionIsUnique` | src/protocol/message.rs:76-111 | **Main.** in only one way |
| `Reassembly.FeedFollowsDecomposition` | src/protocol/message.rs:76-111 | the cut predicts every answer and the final buffer, unless a run is broken right after counter 255 opened it |
| `Reassembly.RunSpecificationHoldsIff` | src/protocol/message.rs:76-111 | **Main.** on every input the answers are the predicted ones exactly when no run is broken right after counter 255 opened it |
| `Reassembly.Counter255Leaks` | src/protocol/message.rs:79 | concrete input on which a first counter of 255 makes data leak into the next message |
| `Reassembly.IdleIsEmptyIff` | src/protocol/message.rs:76-111 | an idle accumulator stays free of data except in exactly that step |
| `Reassembly.ReserveSuffices` | src/protocol/message.rs:79-82 | with segments of at most 10000 bytes an open message, plus a full segment for each one expected, fits the size reserved when its counter was set |
| `Reassembly.ChunksAreABlock` | src/protocol/message.rs:121-161 | a split message is one block, and feeding it gives nothing until the last segment, which gives the message |
| `Reassembly.ConversationRoundTrip` | src/protocol/message.rs:25-161 | **Main.** any list of non-empty messages, split, encoded, decoded and fed to one accumulator, comes out as that list with no error |
| `Sessions.SendLedger` | src/session/mod.rs:109-132 | any poll of a send moves packets from owed to wire in order; success means all, failure a proper prefix or an oversized message |
| `Sessions.PushesExactly` | src/session/mod.rs:122-129 | a poll pushes exactly as many packets as are granted; all means success, a refusal first means failure, otherwise it waits with the rest |
| `Sessions.SendAnswers` | src/session/mod.rs:109-132 | a closed session, a missing channel and an oversized message are each refused with their error and nothing pushed; otherwise packets go out as granted |
| `Sessions.SendOutcomeIff` | src/session/mod.rs:109-132 | **Main.** a poll fails, and succeeds, exactly under guards on the session, the message and the order of refusals, all known before the poll |
| `Sessions.SendErrorIs` | src/session/mod.rs:109-132 | a failed send reports ConnectionClosed, MessageTooLarge with the length, or DataChannel, by guards known before the poll |
| `Sessions.CloseLedger` | src/session/mod.rs:152-177 | a close, however polled, shuts down each attached channel and the peer connection once in order, and leaves a closed session alone |
| `Sessions.CloseOutcomeIff` | src/session/mod.rs:152-177 | **Main.** what a close answers, told before the poll: a second close Ok at once, any other waits for its await points and then answers Ok or the peer connection's error |
| `Sessions.Session.PollSend` | src/session/mod.rs:109-132 | refines the send function; only the wire changes |
| `Sessions.Session.PollClose` | src/session/mod.rs:152-177 | one poll takes the session and the future to what the close function says, whose answer is `Sessions.CloseOutcomeIff` |
| `Sessions.Session.OnMessage` | src/session/mod.rs:51-86 | decode, accumulate and hand on a complete message; any error changes at most the accumulator |
| `Sessions.Session.PollEnqueue` | src/session/mod.rs:64-68 | the bounded queue takes the message at its end, or the callback waits exactly while it is full |
| `Sessions.Session.PollRecv` | src/session/mod.rs:139-147 | a recv begun after close answers None; otherwise the oldest message, or it waits |
| `Streams.NethernetStream.PollWrite` | src/transport/stream.rs:399-441 | Ok(n) means the buffer's packets, n bytes, joined what is committed; Pending means nothing did; the whole new state is that of the write function |
| `Streams.NethernetStream.PollFlush` | src/transport/stream.rs:443-456 | Ready(Ok) means no send in flight and everything committed on the wire; Pending changes nothing committed; the whole new state is that of the flush function |
| `Streams.NethernetStream.PollShutdown` | src/transport/stream.rs:458-484 | closes the session only with no send in flight and everything committed on the wire; the whole new state is that of the shutdown function |
| `Streams.SessionStream.PollNext` | src/transport/stream.rs:35-48 | yields the queue's messages in order, ends only if its recv began on a closed session, keeps a waiting recv and replaces a finished one |
| `Streams.FlushLedger` | src/transport/stream.rs:443-456 | a flush keeps what is committed unless it reports an error; success means it is all on the wire |
| `Streams.StartLedger` | src/transport/stream.rs:421-440 | an accepted buffer adds exactly its packets to what is committed; a refused one leaves no send behind, and it is refused exactly under the guards of a failing send |
| `Streams.WriteLedger` | src/transport/stream.rs:399-441 | a write answered Ok(n) has n the buffer's length and commits exactly its packets; one answered Pending commits nothing |
| `Streams.WriteGoesOutAtOnce` | src/transport/stream.rs:421-440 | on an idle open stream whose channel accepts everything the accepting poll itself puts the whole buffer on the wire |
| `Streams.WriteOutcomeIff` | src/transport/stream.rs:399-441 | a buffer is accepted exactly when the send before it finishes and its own does not fail at once; Pending exactly when the send before it does neither; all by guards known before the poll |
| `Streams.WriteErrorIs` | src/transport/stream.rs:399-441 | the error of a failed write is that of the send before it if that fails, otherwise of its own send |
| `Streams.ShutdownOutcomeIff` | src/transport/stream.rs:458-484 | **Main.** a shutdown answers the error of the send in flight, or Pending, until its flush has finished, and then exactly what the close answers |
| `Streams.RepliesAsTold` | src/transport/stream.rs:399-484 | what every call of a run answers, told before the call |
| `Streams.OversizedAcceptedIff` | src/transport/stream.rs:421-440 | **Main.** a buffer too large to split is accepted exactly when its send gets no further than the closed check, or the channel lock of an open session |
| `Streams.OversizedReportedLater` | src/transport/stream.rs:443-456 | after that the session is unchanged, and a flush with two answers reports MessageTooLarge, or the closed session or missing channel |
| `Streams.OversizedWriteIsReported` | src/transport/stream.rs:399-484 | **Main.** in any sequence of calls the first one after such a write that is not told to wait reports that write's failure |
| `Streams.SendErrorsAreReportedOnce` | src/transport/stream.rs:399-484 | **Main.** over any sequence of polls no send's error is reported twice, and always by the first poll to see it |
| `Streams.WritesAreSerialised` | src/transport/stream.rs:399-441 | **Main.** until a send fails, packets pushed and owed are those of the accepted buffers, one buffer after another; a waiting call adds nothing |
| `Streams.ShutdownClosesDrained` | src/transport/stream.rs:458-484 | **Main.** polls close the session only in a shutdown poll and with every accepted write fully on the wire |
| `Streams.ShutdownEndsEverything` | src/transport/stream.rs:458-484 | **Main.** however calls are interleaved and polled, a shutdown answered Ok has closed every attached channel and the peer connection, once each and in order |
| `Pipeline.ReceiveBuffer` | src/session/mod.rs:51-86 | the packets of an accepted buffer reach an idle receiver as that buffer; an empty buffer leaves no trace |
| `Pipeline.ReceiveConservesBytes` | src/protocol/message.rs:76-111 | a receiver that refuses nothing conserves bytes |
| `Pipeline.ReachableInv` | src/transport/stream.rs:399-484 | the invariant of every interleaving: messages accepted equal those taken, queued, blocked, and the ones the committed packets will become |
| `Pipeline.EveryByteAccountedFor` | src/transport/stream.rs:399-441 | **Main.** in every reachable state that is not torn, accepted bytes equal read, fetched, queued, blocked, accumulated, on the wire and owed, in order |
| `Pipeline.ReadIsAPrefix` | src/transport/stream.rs:399-441 | **Main.** in every such state the bytes read are a prefix of the bytes accepted |
| `Pipeline.ChunksAreAcceptedBuffers` | src/transport/stream.rs:399-441 | message boundaries survive: what leaves the queue is the accepted non-empty buffers, one by one |
| `Pipeline.QueueStaysBounded` | src/session/mod.rs:64-68 | in every reachable state the receiver's queue is within its capacity |
| `Pipeline.RestMeansAllReadIff` | src/transport/stream.rs:32-49 | **Main.** with no send in flight and no step of channel, receiver or reader changing anything, everything accepted has been read exactly when no message is queued or blocked; so it is if the reader's session is open or its recv is still waiting |
| `Pipeline.ClosedReaderTakesAtMostOne` | src/session/mod.rs:139-147 | **Main.** in any run after the reader's session closes at most one more message is taken, and only by a recv that was waiting |
| `Pipeline.ClosedReaderLeavesUnread` | src/session/mod.rs:139-147 | a run at rest in which the reader is told that the stream has ended while an accepted, delivered message is unread |
| `Pipeline.StartTearsIff` | src/transport/stream.rs:421-437 | the guard of a partial push, against what the poll does: a new send fails with packets pushed exactly under it |
| `Tearing.TornIffUnaccounted` | src/transport/stream.rs:405-437 | **Main.** a writer call breaks the accounting exactly when, told before the call, a refusal meets a send that carries data and was accepted or has got part of it out |
| `Tearing.AccountedThroughoutIff` | src/transport/stream.rs:399-484 | **Main.** a run keeps the accounting in every state exactly when none of its calls meets those guards |
| `Corruption.QuietStepKeepsAccounted` | src/transport/stream.rs:399-484 | from any accounted state, torn before or not, a step that tears nothing and refuses no packet keeps the accounting |
| `Corruption.Drain` | src/session/mod.rs:51-86 | without an error the reader can always get everything that it still takes and that is not behind a packet the receiver refuses, in order |
| `Corruption.CanCorruptIff` | src/session/mod.rs:122-129 | **Main.** while the writer can send, a wrong prefix can be read with no call reporting an error and no packet refused exactly from the corruptible states: not accounted for, if what is written next reaches the reader; else, with what is on its way to the reader no prefix. From the others not even failing calls bring one unless they tear |
| `Corruption.CorruptsIff` | src/session/mod.rs:109-132 | **Main.** after any call on a stream that is not torn, a wrong prefix can be read without another tear only if that call tears the stream and the session is open; then, with the reader's session open, also without any error |
| `Corruption.CorruptionIsReachable` | src/session/mod.rs:109-132 | every such tear begins a run from the connected stream that ends in a wrong read |
| `Corruption.TornStreamCanCorrupt` | src/session/mod.rs:122-129 | for any 10001-byte write that fails between its segments and a following byte that differs, a run without another error after which what is read is no prefix of what was accepted |
| `Primitives.LeRoundTrip` | src/protocol/types/ints.rs:11-56 | little-endian integers in range are read back |
| `Primitives.LeInverse` | src/protocol/types/ints.rs:11-56 | any bytes read as an integer are written back the same, and the integer is in range |
| `Primitives.LeDigit` | src/protocol/types/ints.rs:11-56 | byte i of a written integer is its base-256 digit of weight 256 to the i: least significant first |
| `Primitives.TwosComplement` | src/protocol/types/primitives.rs:17-21 | a signed integer and its unsigned form agree modulo 2 to the 32, and are undone by each other |
| `Primitives.ShortReadsFail` | src/protocol/types/primitives.rs:29-55 | reads fail exactly for missing bytes or a length above 16 MiB, with an I/O error |
| `Primitives.TakeBytes32Written` | src/protocol/types/primitives.rs:63-111 | a u32-prefixed byte string within the limit is read back, whatever follows |
| `Primitives.TakeBytes8Written` | src/protocol/types/primitives.rs:58-105 | the same for the u8 prefix |
| `Primitives.Cursor.ReadExact` | src/protocol/types/primitives.rs:29-55 | the cursor advances by exactly what it returns, or reports an I/O error |
| `Primitives.Cursor.ReadBytesU32` | src/protocol/types/primitives.rs:63-70 | length, limit check and data of a u32-prefixed string |
| `Primitives.Cursor.ReadI32Le` | src/protocol/types/primitives.rs:17-21 | two's complement of four little-endian bytes |
| `Primitives.ByteVec.WriteBytesU8` | src/protocol/types/primitives.rs:73-105 | prefix and data appended exactly when at most 255 bytes; otherwise nothing is written |
| `Primitives.ByteVec.WriteBytesU32` | src/protocol/types/primitives.rs:73-111 | prefix and data appended exactly when within the 16 MiB limit |
| `Crypto.TransformBlocks` | src/protocol/packet/discovery/crypto.rs:48-56 | the in-place block loop maps every 16-byte block and nothing else |
| `Crypto.EncryptionIsABijection` | src/protocol/packet/discovery/crypto.rs:41-98 | **Main.** a buffer decrypts to x exactly when it is the encryption of x |
| `Crypto.PadShape` | src/protocol/packet/discovery/crypto.rs:41-47 | padding keeps the data, adds 1 to 16 bytes up to a multiple of 16, each of the value of their number |
| `Crypto.EncryptedBlock` | src/protocol/packet/discovery/crypto.rs:48-56 | every 16-byte block of the padded buffer is encrypted on its own, in its place |
| `Crypto.Mismatches` | src/protocol/packet/discovery/crypto.rs:83-89 | the OR-of-XOR loop gives zero exactly when every byte equals the pad length |
| `Crypto.XorIsZeroIff` | src/protocol/packet/discovery/crypto.rs:87 | XOR is zero exactly on equal values |
| `Crypto.Encrypt` | src/protocol/packet/discovery/crypto.rs:41-59 | the buffer becomes its padded, block-mapped form |
| `Crypto.Decrypt` | src/protocol/packet/discovery/crypto.rs:64-98 | succeeds exactly when length and padding are right, and then leaves the unpadded plaintext |
| `Hex.UnhexIff` | src/protocol/packet/discovery/response.rs:33-42 | decoding gives the data exactly when the text, in lower case, is its Base16 form |
| `Hex.HexAt` | src/protocol/packet/discovery/response.rs:54-62 | each byte is written as the two digits of 0123456789abcdef for its halves, high half first |
| `Hex.WriteHex` | src/protocol/packet/discovery/response.rs:54-62 | **Main.** the 512-byte chunk loop through the reused buffer writes exactly the Base16 form, all slices in bounds |
| `Hex.WriteResponse` | src/protocol/packet/discovery/response.rs:45-64 | length prefix cast to 32 bits, then the Base16 form |
| `ServerDatas.LayoutRoundTrip` | src/protocol/packet/discovery/server_data.rs:71-182 | every encodable value is read back from its layout |
| `ServerDatas.LayoutShape` | src/protocol/packet/discovery/server_data.rs:71-119 | the written bytes by their places: 4, the counted names, server first, doubled bytes, little-endian counts, 1 for true and 0 for false |
| `ServerDatas.VersionIsChecked` | src/protocol/packet/discovery/server_data.rs:128-139 | a first byte other than 4 is refused, and no byte at all is an I/O error |
| `ServerDatas.AcceptedNormalForm` | src/protocol/packet/discovery/server_data.rs:128-182 | every value unmarshal accepts is encodable and decodes to itself again |
| `ServerDatas.UnmarshalIff` | src/protocol/packet/discovery/server_data.rs:128-182 | **Main.** bytes read as a value exactly when they are its layout up to the low bit of shifted bytes and the spelling of true |
| `ServerDatas.Marshal` | src/protocol/packet/discovery/server_data.rs:71-119 | succeeds exactly when the shifted fields are below 128 and the names at most 255 bytes, with the layout or the right error kind |
| `ServerDatas.Unmarshal` | src/protocol/packet/discovery/server_data.rs:128-182 | the cursor reads accept exactly what the parse function accepts |
| `ServerDatas.LayoutSize` | src/protocol/packet/discovery/server_data.rs:71-119 | 16 bytes and the two names, at most 526 |
| `Packets.HeaderRoundTrip` | src/protocol/packet/discovery/packet.rs:39-60 | a header is read back, whatever follows |
| `Packets.ResponseRoundTrip` | src/protocol/packet/discovery/response.rs:33-64 | a response body is read back: hex and length prefix undo each other |
| `Packets.ResponseLengthExact` | src/protocol/packet/discovery/response.rs:47-52 | within the size limits the unchecked 32-bit cast of the length is exact |
| `Packets.MessageRoundTrip` | src/protocol/packet/discovery/message.rs:43-59 | a message body is read back |
| `Packets.DatagramRoundTrip` | src/protocol/packet/discovery/packet.rs:73-189 | **Main.** every packet that marshals is unmarshalled to itself and its sender |
| `Packets.DatagramShape` | src/protocol/packet/discovery/packet.rs:73-123 | **Main.** what a receiver finds by place: checksum, length of what follows it, packet id 0, 1 or 2, sender, eight zeros, and the body with its prefixes |
| `Packets.RefusalKinds` | src/protocol/packet/discovery/packet.rs:136-189 | which refusals are I/O errors and which are not: size, decryption, checksum, short plaintext, unknown id, trailing bytes |
| `Packets.DatagramInjective` | src/protocol/packet/discovery/packet.rs:73-123 | different packets or senders give different datagrams |
| `Packets.AcceptedNormalForm` | src/protocol/packet/discovery/packet.rs:136-189 | whatever is accepted can be marshalled again exactly when its plaintext fits 16 bits, and then decodes to itself |
| `Packets.PlaintextIff` | src/protocol/packet/discovery/packet.rs:153-188 | **Main.** a plaintext reads as a packet and sender exactly when id, sender and body are theirs; length field, header padding and hex case are free, nothing may follow |
| `Packets.UnmarshalIff` | src/protocol/packet/discovery/packet.rs:136-189 | **Main.** a datagram is accepted exactly when it is checksum and encryption of one such plaintext |
| `Packets.MessageFitsReceiveBufferIff` | src/signaling/lan.rs:151 | a message datagram fits the 4096-byte buffer exactly when its text is at most 4031 bytes |
| `Packets.Marshal` | src/protocol/packet/discovery/packet.rs:73-123 | placeholders, length back-patch, checksum and encryption give exactly the datagram whose places `Packets.DatagramShape` tells, or the right error exactly when it does not fit |
| `Packets.Unmarshal` | src/protocol/packet/discovery/packet.rs:136-189 | decryption, checksum and cursor reads accept exactly what the parse function accepts, trailing bytes refused |
| `Decimal.ParseMeaning` | src/protocol/signal.rs:126-128 | **Main.** parse accepts exactly an optional plus and digits whose value fits, leading zeros allowed, and returns the value |
| `Decimal.DecimalRoundTrip` | src/protocol/signal.rs:126-147 | printing then parsing is the identity on the type's range |
| `Decimal.DecimalDigit` | src/protocol/signal.rs:140-147 | the printed digit k places before the last is the numeral of weight 10 to the k |
| `Decimal.SignMeaning` | src/protocol/signal.rs:126-128 | one plus sign is allowed in front, and no more |
| `Decimal.PrintParsedIff` | src/protocol/signal.rs:126-147 | parsing then printing is the identity exactly on canonical text |
| `Utf8.Utf8Iff` | src/protocol/packet/discovery/message.rs:46-47 | **Main.** the strings that from_utf8 accepts are exactly the encodings of sequences of Unicode scalar values |
| `Signals.SplitJoins` | src/protocol/signal.rs:117 | splitn only cuts: the parts joined by spaces are the input, all but the last free of spaces |
| `Signals.FromTextIff` | src/protocol/signal.rs:116-137 | **Main.** from_string accepts exactly type, space, id text, space, any data, and returns what they say; the words of the types are those of `Signals.WordsRead` |
| `Signals.WordsRead` | src/protocol/signal.rs:28-47 | CONNECTREQUEST, CONNECTRESPONSE, CANDIDATEADD and CONNECTERROR read as offer, answer, candidate and error, with any id text that parses and any data |
| `Signals.WordsWritten` | src/protocol/signal.rs:18-27 | and each is written as its word, the id in decimal and the data, separated by single spaces |
| `Signals.SignalRoundTrip` | src/protocol/signal.rs:116-150 | **Main.** every signal survives its text form |
| `Signals.PrintIsNormalForm` | src/protocol/signal.rs:116-150 | **Main.** printing an accepted text parses to the same signal, and is the same text exactly when the id is canonical |
| `Signals.NeverPing` | src/signaling/lan.rs:317 | no signal text equals the ping token |
| `Negotiation.ParseRefinesFromText` | src/protocol/webrtc/negotiation.rs:44-109 | parse is from_string followed by the payload checks |
| `Negotiation.WordsParse` | src/protocol/webrtc/negotiation.rs:44-109 | the four words make request, response, candidate and error messages of a payload that is not blank, or is a defined code |
| `Negotiation.ParsersAgree` | src/protocol/webrtc/negotiation.rs:67-87 | on the three text kinds both parsers accept the same, blank payloads apart |
| `Negotiation.ParsersAgreeOnErrors` | src/protocol/webrtc/negotiation.rs:88-102 | an error text is accepted exactly when from_string accepts it and its data is a defined code |
| `Negotiation.NegotiationRoundTripIff` | src/protocol/webrtc/negotiation.rs:44-160 | **Main.** a message survives print and parse exactly when its payload is not blank |
| `Negotiation.BlankIff` | src/protocol/webrtc/negotiation.rs:60-62 | a payload is blank exactly when it encodes white space characters only |
| `Tables.AddressKeepsAgreeing` | src/signaling/lan.rs:252-262 | one more event keeps an id's entry in agreement with the history |
| `Tables.TickKeepsIff` | src/signaling/lan.rs:352-355 | a tick keeps an entry exactly if it was seen less than 15 seconds before |
| `Tables.TablesRefineHistory` | src/signaling/lan.rs:247-355 | **Main.** after any run an address is present exactly when heard and not expired by a later tick, with its last address; a server exactly when advertised, with its last advert |
| `Lan.LanSignaling.HandlePacket` | src/signaling/lan.rs:216-346 | tables, replies and broadcasts are exactly those of the datagram, as `Lan.ObserveIff`, `Lan.RepliesIff` and `Lan.EmittedIff` tell them; the tables still agree with the history, and it never fails |
| `Lan.EmittedIff` | src/signaling/lan.rs:306-340 | for any bytes: a signal is broadcast exactly for a message to this node from another one whose text reads as that signal |
| `Lan.RepliesIff` | src/signaling/lan.rs:265-289 | **Main.** for any bytes: a reply is sent exactly for a request of another node while server data is set, one, to its source, with that data |
| `Lan.ObserveIff` | src/signaling/lan.rs:223-305 | for any bytes: an address is learned exactly from another node's datagram, a server exactly from a well-formed response |
| `Lan.LanSignaling.Respond` | src/signaling/lan.rs:272-289 | one response to the asker exactly when server data is set; an error exactly when it cannot be marshalled |
| `Lan.LanSignaling.CleanupAddresses` | src/signaling/lan.rs:352-355 | evicting by age keeps the table in agreement with the history |
| `Lan.LanSignaling.OnTick` | src/signaling/lan.rs:179-186 | cleanup, then one discovery request if the node broadcasts |
| `Lan.LanSignaling.SetPongData` | src/signaling/lan.rs:428-431 | stores what unmarshals, which can always be marshalled; anything else clears it |
| `Lan.LanSignaling.GetAddress` | src/signaling/lan.rs:128-134 | **Main.** the address of the id's live entry in the history, None if there is none, never one for the node itself |
| `Lan.LanSignaling.Discover` | src/signaling/lan.rs:123-125 | the latest advert of every id in the history, never the node's own |
| `Lan.LanSignaling.SendSignal` | src/signaling/lan.rs:377-399 | parse, look up, marshal and send, with each error, the socket's included |
| `Lan.OutgoingIff` | src/signaling/lan.rs:377-399 | a signal goes out exactly if its id parses, that node is live in the history, and the text is at most 65503 bytes; the error otherwise, in that order |
| `TwoNodes.SignalIsSent` | src/signaling/lan.rs:377-399 | a signal goes to the table's address, and fits the receive buffer exactly when its text is at most 4031 bytes |
| `TwoNodes.SignalArrives` | src/signaling/lan.rs:216-346 | the recipient broadcasts exactly that signal under the sender's id, any other node nothing, and all learn the sender's address |
| `TwoNodes.SignalAndReply` | src/signaling/lan.rs:216-399 | **Main.** signal and reply end to end: received whole, broadcast once, and the reply goes back to the datagram's source |
| `TwoNodes.ResponseSize` | src/signaling/lan.rs:278-282 | a discovery response is at most 1120 bytes |
| `TwoNodes.DiscoveryFindsServer` | src/signaling/lan.rs:265-305 | a request makes a configured server answer once, and the client learns exactly its description |
| `Network.DeliveryIsMeant` | src/signaling/lan.rs:216-346 | a delivered datagram makes a node broadcast and learn exactly what its sender meant for it |
| `Network.BroadcastsAreDeliveredSignals` | src/signaling/lan.rs:216-346 | **Main.** in every run of any nodes over a network that loses, repeats and reorders, a node's broadcasts are exactly the signals others sent to it, under their ids, once for each delivery and in that order |
| `Network.BroadcastSignalWasSent` | src/signaling/lan.rs:216-399 | every signal broadcast under an id was sent to this node by that id, with the same kind, connection and data |
| `Network.AnswersAreToRequests` | src/signaling/lan.rs:265-289 | **Main.** in every run the answers are exactly one for each delivery of a request to another node that had server data then, with that data and in that order |
| `Network.StepAdds` | src/signaling/lan.rs:179-399 | a step sends a signal that can go out, a request, or an answer that is due, and nothing else |
| `Network.TablesAreOfWhatWasSeen` | src/signaling/lan.rs:247-355 | **Main.** in every run each node's tables agree with its ticks and the datagrams delivered to it, each as its sender meant it |
| `Network.DiscoveredWasAnswered` | src/signaling/lan.rs:265-305 | every server a node has discovered under an id is one that this other node answered with |
| `Connect.WaitForAnswer` | src/transport/stream.rs:186-218 | stops at the connection's first answer with all its earlier candidates buffered in order; times out exactly if there is none |
| `Connect.ProcessCandidates` | src/transport/stream.rs:240-285 | later candidates are added in order, each once |
| `Connect.Negotiate` | src/transport/stream.rs:186-285 | **Main.** nothing is added before the remote answer is set; then every candidate consumed is attempted once and in order, as the JSON its data parses to, or else as the data itself |
| `Connect.AttemptsAreAPrefix` | src/transport/stream.rs:186-285 | the attempts are always a prefix of the connection's candidates |
| `Connect.CandidatesAre` | src/transport/stream.rs:186-285 | the candidates are the candidate signals with this connection id, in order, none left out |
| `Ready.StepKeepsInv` | src/transport/listener.rs:276-305 | every lock-granular step keeps the invariant: once both channels are attached the notification has fired or a handler that will see both is underway |
| `Ready.FiresAtMostOnceAndNotEarly` | src/transport/listener.rs:276-305 | **Main.** it fires at most once and never before both labelled channels are attached |
| `Ready.FiredWhenAllFinishedIff` | src/transport/listener.rs:276-305 | **Main.** with all handlers finished it has fired exactly if both labels occurred |
| `Ready.OtherLabelsTakeNoPart` | src/transport/listener.rs:274-305 | a handler of any other label neither checks nor notifies |
| `Listener.CandidatesAreRouted` | src/transport/listener.rs:96-102 | **Main.** candidates attempted are a prefix of those received for the connection after its offer, all of them once its inbox is empty while dispatching |
| `Listener.EnqueuedExactlyOnce` | src/transport/listener.rs:307-338 | **Main.** a session is in the incoming queue once if its waiter has finished, otherwise never |
| `Listener.WaiterStartedIff` | src/transport/listener.rs:83-338 | **Main.** the task that enqueues a session runs exactly for the offers whose handling finished well; an offer whose handling failed is never enqueued |
| `Listener.FinishOfferStarts` | src/transport/listener.rs:307-338 | finishing an offer well starts its waiter, finishing it badly starts none |
| `Listener.HandledOfferIsEnqueued` | src/transport/listener.rs:307-338 | from the end of its handling, at most four steps, none a timeout, take a well handled offer with candidates settled and both channels ready into the queue once |
| `Listener.TimeoutEnqueues` | src/transport/listener.rs:312-337 | a timeout takes a waiting session into the queue from either oneshot |
| `Listener.DispatchingIff` | src/transport/listener.rs:174-262 | a connection is dispatching exactly from its offer until its peer is gone |
| `Listener.ReceivedAndQueued` | src/transport/listener.rs:75-338 | the signals received are those of the run, and sessions are queued in the order of the steps that queue them |
| `Listener.AddedIffAccepted` | src/transport/listener.rs:182-226 | a candidate counts as added exactly if the peer connection accepted one taken from the inbox |
| `Listener.TaskEndsIff` | src/transport/listener.rs:186-240 | a candidate task leaves its loop and cleans up in two separate steps |
| `Listener.EnqueuedWhenReady` | src/transport/listener.rs:182-338 | without a timeout it is enqueued only with both channels attached and a candidate added or its task ended |
| `Listener.CandidateNoticedIff` | src/transport/listener.rs:182-323 | the candidate oneshot is not lost: a waiter can pass it exactly when a candidate has been added and its task is past the notifiers' lock, or the task is done; from that lock one step of the task lets it pass |
| `Listener.ReadyNoticedIff` | src/transport/listener.rs:276-337 | the ready oneshot is not lost: with all handlers finished a waiter can pass it exactly when both labels were among them |
| `Listener.WaiterNeedsNoTimeout` | src/transport/listener.rs:182-338 | **Main.** once a candidate is added or the candidate loop has ended and the handlers have finished with both labels, at most three steps, none a timeout, take a waiting session into the queue once |

## Left out

- WebRTC, ICE, DTLS and SCTP, the sockets and the tokio runtime: steps, answers and parameters stand for them.
- The arithmetic of AES, SHA-256 and HMAC: any inverse block functions and any 32-byte hash.
- The raw `send` and `recv` of a stream beside its AsyncWrite and AsyncRead halves: concurrent sends are not serialised by the code.
- A `recv` that is already waiting when the session closes: the session keeps its own sender, so it is not woken.
- Reuse of a live connection id by a second offer, and cleanup after an offer that fails once registered: the code gives no clean guarantee there.
- The broadcast ring of signal subscribers, which may skip signals for a slow one: `Connect` starts from what its stream yields.
- Spare capacity of buffers: `reserve` appears only as the bound of `Reassembly.ReserveSuffices`.
- Wakers: which poll is scheduled when is left open, so progress is stated only as steps that are possible.
- Truncation of a datagram longer than the 4096-byte receive buffer: what is delivered then depends on the hash, and `Network` delivers none.
- `Primitives.Cursor.ReadExact`: the position after an error is not specified; Rust's `Read::read_exact` leaves it open and no caller uses it.
- `Listener` and `Ready` are values with steps, not classes, because their tasks interleave; memory sharing between them is not modelled.
- `NethernetMotd`, the error-code enums, `wait_for_connection`, and the timeouts of `connect`: only easy members.
