# Verification of an S7 client, PLC simulator and partner

A Dafny model of the parts of this repository where the behaviour is hardest to see from one function: the client's
batched reads and writes against the simulator's store, the wire codecs between them, block transfer and comparison,
the clock and its two calendars, the connection pool, the partner protocol and the datagram stream.

## What is modelled

- `Bytes`, `Framing`, `S7Header`, `VarCodec`: byte buffers and the TPKT, COTP and S7 encodings. Encoders and decoders
  are methods over a buffer that is filled or consumed in place; each is proved against a pure function, and the
  theorems are about the functions.
- `Formats`: the bytes of every message spelled out, and exactly which bytes are taken for one.
- `Store`, `Plc`, `DispatchRuns`, `Szl`: the simulator, from its byte map to whole runs of a connection over any stream.
- `Batching`, `MultiVar`, `Client`, `Exactness`, `PduSizes`: the client. `ReadMultiVars` and `WriteMultiVars` drive the
  simulator through every layer, and their contracts speak only of the items and the store.
- `Clock`, `Calendar`: BCD dates, the loop that finds a date by subtraction, and the closed form.
- `Crc`, `Blocks`, `Transfer`: checksums, block comparison, upload and download.
- `Vlq`, `Integrity`: variable-length integers and integrity tails of S7CommPlus.
- `Pool`, `PartnerWire`, `Partner`, `PartnerRuns`, `PartnerCrossing`, `PartnerLosses`, `Udp`: the pool as a protocol of
  many tasks, two partners over two byte channels, and the datagram stream.

Integers are those of a release build: `u8`, `u16` and `u32` wrap where the code lets them. A read past the end of a
buffer or an impossible allocation, which aborts the call, is the error `Panic`. The 32-bit words of the checksum are
lists of bits, lowest first. Protocols are state machines whose steps are what the code does between two suspension
points.

## Where code and promise differ

- A batched read or write is exact only below 2 MiB and 8 KiB, because addresses keep 24 bits and lengths sixteen bits,
  both counted in bits. `Exactness` has the exact conditions.
- The reply to a batched read can exceed the PDU size for two reasons. The budget counts a ten-byte header where replies
  have twelve, so a batch of several items can exceed it by up to two bytes. And a single item is never refused, so its
  reply, like the request of a single written item, can exceed it by any amount. `PduSizes` has the exact conditions.
- Timer and counter addresses are written as element numbers and read as bit addresses.
- The calendar loop and the closed form part after the year 65535; the BCD clock keeps the years 1990 to 2089.
- An upload aborts on a start answer of eight or nine bytes, which passes the length test and then runs out of bytes. A
  connect aborts on a frame whose length is below 4.
- An upload strips four bytes from a block that comes without an envelope if its first byte is 0x00 or 0xFF. At a PDU
  size of 50 its loop has no bound, and it can strip two envelopes. At a PDU size of 50 or less a download sends empty
  chunks for as long as the PLC answers.
- A partner's send call accepts any frame as an acknowledgement, so crossed sends are never delivered, whatever follows.
  Messages of one fragment are lost although both send calls succeed; of longer ones the rest can arrive as a message,
  again without an error, or the receive call fails and the send call waits for ever. `PartnerCrossing` shows that the
  rule not to cross is exact.
- A partner with a PDU size above 65528 cannot send messages above 65492 bytes.
- An empty datagram reads as the end of the stream.

## Model

| member | source | states |
|---|---|---|
| Framing.EncodeTpkt | crates/snap7-client/src/proto/tpkt.rs:14-26 | writes exactly the frame bytes, or fails and writes nothing; fails exactly when the frame would exceed 65535 bytes |
| Framing.DecodeTpkt | crates/snap7-client/src/proto/tpkt.rs:28-58 | the cursor loop result and the bytes left over are those of the parse function, on every input |
| Framing.TpktRoundTrip | crates/snap7-client/src/proto/tpkt.rs:14-58 | every payload that can be framed is parsed back, leaving exactly what followed it |
| Framing.EncodeCotp | crates/snap7-client/src/proto/cotp.rs:34-93 | appends the bytes of the PDU, for each of the four kinds |
| Framing.DecodeCotp | crates/snap7-client/src/proto/cotp.rs:95-188 | the decoder agrees with the parse function on every byte string, errors included |
| Framing.CotpRoundTrip | crates/snap7-client/src/proto/cotp.rs:34-188 | decoding an encoded PDU returns it as it fits the wire: the sequence number keeps seven bits, rack and slot share a byte, nothing else changes |
| Formats.CodeTables | crates/snap7-client/src/proto/s7/header.rs:15-103 | the codes of PDU types, areas and transport sizes |
| Formats.OrIsBitwise | crates/snap7-client/src/proto/s7/read_var.rs:49-53 | the bitwise or of a start and a bit offset, bit by bit |
| Formats.DataFrame | crates/snap7-client/src/proto/tpkt.rs:14-26 | a payload of up to 65528 bytes goes out behind seven bytes: version 3, the whole length, and a data header |
| Formats.ConnectFrames | crates/snap7-client/src/proto/cotp.rs:34-93 | the bytes of the connect request, confirmation and rejection |
| Formats.NegotiateFrames | crates/snap7-client/src/proto/s7/negotiate.rs:14-82 | the bytes of the negotiation, with the answer capped at 480 |
| Formats.AddressFormat | crates/snap7-client/src/proto/s7/read_var.rs:41-57 | the twelve bytes of an address, timers and counters by element and all else by bit |
| Formats.ReadFormat | crates/snap7-client/src/client.rs:404-425 | every byte of the request for one item, for every data block, start and length |
| Formats.WriteFormat | crates/snap7-client/src/client.rs:494-520 | every byte of the request that writes one item: the address carries the number of bytes, the data item eight times that, and odd data a zero |
| Formats.AddressesComeFirst | crates/snap7-client/src/proto/s7/write_var.rs:115-147 | in a request of any size the addresses come first, address k at byte 2 + 12k |
| Formats.AnswerFormats | crates/snap7-server/src/dispatch.rs:336-393 | every byte of the error, acknowledgement, control, data and clock answers |
| Formats.ReadItemFormat | crates/snap7-server/src/dispatch.rs:110-128 | an item of an answer carries 0xFF, the transport code 4, its bits, and what the store holds |
| Formats.UnreadableIsRefused | crates/snap7-server/src/dispatch.rs:30-45 | a payload without a readable header gets error 0x81, 0x04 under reference 0 |
| Formats.UserDataAnswers | crates/snap7-server/src/dispatch.rs:165-218 | only method 0x11 is served; group 7 is the clock, its sub-function 2 sets the clock from bytes 12 to 19, and all other groups are status lists |
| Formats.SzlFormat | crates/snap7-server/src/dispatch.rs:220-256 | the answer to a status list request repeats twelve bytes of it and then holds the list |
| Formats.FramesTaken | crates/snap7-client/src/proto/tpkt.rs:28-58 | exactly which bytes are taken for a frame, refused, or waited for |
| Formats.CotpTaken | crates/snap7-client/src/proto/cotp.rs:95-188 | exactly which bytes are taken for a transport PDU, and its fields |
| Formats.HeadersTaken | crates/snap7-client/src/proto/s7/header.rs:130-164 | exactly which bytes are taken for a header, its fields, and when two error bytes belong to it |
| Formats.AddressesTaken | crates/snap7-client/src/proto/s7/read_var.rs:70-113 | exactly which bytes are taken for an address, and its fields |
| Formats.RequestsTaken | crates/snap7-client/src/proto/s7/write_var.rs:26-42 | which read, write and negotiation requests are refused, and how many items a read request yields |
| Formats.ChunksTaken | crates/snap7-client/src/proto/s7/read_var.rs:134-161 | exactly which bytes are taken for a data item, and what is left after its padding |
| Formats.HandshakeSteps | crates/snap7-server/src/handshake.rs:28-76 | the handshake goes on exactly with a connect request and then a job that negotiates; all else closes the connection |
| Formats.DateDigits | crates/snap7-client/src/proto/s7/clock.rs:17-37 | each byte of a date shows two decimal digits of its field, the last one a digit and the weekday |
| Formats.VlqFormat | crates/snap7-client/src/proto/s7commplus/vlq.rs:20-38 | seven bits to a byte, high bits first, the top bit set on all but the last |
| Formats.TailFormat | crates/snap7-client/src/proto/s7commplus/integrity.rs:22-32 | identifier, marker 0x20 and a digest of 32 bytes |
| Formats.PartnerFormats | crates/snap7-partner/src/proto.rs:26-84 | every byte of a fragment and of an acknowledgement |
| Formats.PartnerFraming | crates/snap7-partner/src/transport.rs:113-144 | the framing around both, with a length that wraps at sixteen bits |
| S7Header.PduTypeOf | crates/snap7-client/src/proto/s7/header.rs:17-25 | a code is accepted exactly if it is the code of some PDU type, and yields that type |
| S7Header.AreaOf | crates/snap7-client/src/proto/s7/header.rs:43-59 | inverse of the area codes in both directions |
| S7Header.TransportOf | crates/snap7-client/src/proto/s7/header.rs:81-103 | inverse of the transport-size codes in both directions |
| S7Header.EncodeHeader | crates/snap7-client/src/proto/s7/header.rs:117-128 | appends the header bytes |
| S7Header.DecodeHeader | crates/snap7-client/src/proto/s7/header.rs:130-164 | decodes as the parse function does and leaves its rest |
| S7Header.HeaderRoundTrip | crates/snap7-client/src/proto/s7/header.rs:117-164 | a header followed by a body is read back unchanged if and only if its error bytes are there for exactly the types that carry them, or a body too short to be mistaken for them follows |
| VarCodec.EncodeAddress | crates/snap7-client/src/proto/s7/read_var.rs:41-57 | appends the twelve address bytes |
| VarCodec.DecodeAddresses | crates/snap7-client/src/proto/s7/write_var.rs:43-83 | the address loop returns the parsed addresses and leaves the rest |
| VarCodec.AddressRoundTrip | crates/snap7-client/src/proto/s7/read_var.rs:41-113 | every address arrives as its wire address, in front of any further bytes |
| VarCodec.WireAddressIsExact | crates/snap7-client/src/proto/s7/read_var.rs:41-113 | an address arrives unchanged if and only if its start is below 2 MiB and its bit offset below 8, or, for timers and counters, both are 0: the encoder writes element numbers where the decoder reads bits |
| VarCodec.WireStart | crates/snap7-client/src/proto/s7/read_var.rs:49-104 | where every address arrives: a start wraps at 2 MiB, bit offsets from 8 on spill into it, and the element number of a timer or counter is taken for a bit address |
| VarCodec.AddressesRoundTrip | crates/snap7-client/src/proto/s7/read_var.rs:60-115 | lists of addresses of any length arrive in order |
| VarCodec.EncodeReadRequest | crates/snap7-client/src/proto/s7/read_var.rs:38-58 | appends the request bytes |
| VarCodec.DecodeReadRequest | crates/snap7-client/src/proto/s7/read_var.rs:60-115 | agrees with the parse function on every input |
| VarCodec.ReadRequestRoundTrip | crates/snap7-client/src/proto/s7/read_var.rs:38-115 | for any item list, the receiver sees the wire addresses of the first (count mod 256) items |
| VarCodec.EncodeReadResponse | crates/snap7-client/src/proto/s7/read_var.rs:119-132 | appends the padded items |
| VarCodec.DecodeReadResponse | crates/snap7-client/src/proto/s7/read_var.rs:134-161 | agrees with the parse function on every input and count |
| VarCodec.ChunkRoundTrip | crates/snap7-client/src/proto/s7/read_var.rs:119-161 | an item below 8 KiB is read back with its padding consumed, in front of any further bytes |
| VarCodec.ChunkCut | crates/snap7-client/src/proto/s7/read_var.rs:119-161 | an item of any size is read back cut to its length modulo 8192: the bit length is sixteen bits |
| VarCodec.ReadResponseRoundTrip | crates/snap7-client/src/proto/s7/read_var.rs:119-161 | whole responses are read back item by item, the last one of any size and cut, those before it below 8 KiB |
| VarCodec.OversizedLosesPlace | crates/snap7-client/src/proto/s7/read_var.rs:119-161 | past an item of 8 KiB that is not the last, the decoder takes the data of that item for the next header |
| VarCodec.EncodeWriteRequest | crates/snap7-client/src/proto/s7/write_var.rs:115-147 | the two passes append the request bytes |
| VarCodec.DecodeWriteRequest | crates/snap7-client/src/proto/s7/write_var.rs:26-113 | agrees with the parse function, or fails as a whole |
| VarCodec.DecodeWriteData | crates/snap7-client/src/proto/s7/write_var.rs:85-112 | the second pass pairs the addresses with the parsed data items in order |
| VarCodec.WriteRequestRoundTrip | crates/snap7-client/src/proto/s7/write_var.rs:26-147 | addresses and data, sent in two passes, are paired up again as they were; the last item may have any size and is cut |
| VarCodec.CountWraps | crates/snap7-client/src/proto/s7/write_var.rs:26-147 | a request whose number of items is a multiple of 256 is decoded as an empty one |
| VarCodec.DecodeWriteResponse | crates/snap7-client/src/proto/s7/write_var.rs:151-160 | returns the first `count` codes or fails if there are fewer |
| Store.DataStore.Read | crates/snap7-server/src/store.rs:258-275 | returns one byte per address up to the last offset, 0 where nothing was written |
| Store.DataStore.Write | crates/snap7-server/src/store.rs:280-299 | the new state is the area write of the old one; a locked area and addresses past the end are left alone |
| Store.DataStore.LockArea | crates/snap7-server/src/store.rs:142-145 | adds the area to the locked ones and changes nothing else |
| Store.DataStore.UnlockArea | crates/snap7-server/src/store.rs:147-150 | removes it and changes nothing else |
| Store.DataStore.SetClock | crates/snap7-server/src/store.rs:242-244 | replaces the clock and nothing else |
| Store.WriteIsPointwise | crates/snap7-server/src/store.rs:280-290 | after a write an address holds the new byte if it is covered, and what it held before otherwise |
| Store.WriteThenRead | crates/snap7-server/src/store.rs:258-290 | reading back a write returns its bytes, cut at the last address |
| Store.LastWriteWins | crates/snap7-server/src/store.rs:280-290 | after any list of writes each address holds the byte of the last write that touches it, else its old value; locked areas touch nothing |
| Store.WriteRespectsLocks | crates/snap7-server/src/store.rs:280-290 | a write changes exactly the bytes it covers, nothing in a locked area, and neither locks nor clock |
| Store.ReadSaturates | crates/snap7-server/src/store.rs:258-263 | a read has the wished length, cut before the last offset; each byte is the stored one or 0 |
| Plc.Connection.HandleRead | crates/snap7-server/src/dispatch.rs:110-128 | the reply to a read, with the plant unchanged |
| Plc.Connection.HandleWrite | crates/snap7-server/src/dispatch.rs:130-144 | the reply to a write and the plant after it; a request that fails to decode changes nothing |
| Plc.Connection.HandleClock | crates/snap7-server/src/dispatch.rs:165-218 | the reply to a clock request and the plant after it |
| Plc.Connection.Answer | crates/snap7-server/src/dispatch.rs:30-105 | the reply to any payload and the plant after it |
| Plc.Connection.ReceiveNegotiate | crates/snap7-server/src/handshake.rs:40-76 | the negotiation step: the next phase and the bytes sent |
| Plc.Connection.Receive | crates/snap7-server/src/handshake.rs:28-76 | one frame in any phase of the handshake or the loop: next phase, plant and output |
| Plc.Connection.Serve | crates/snap7-server/src/dispatch.rs:24-105 | the loop over all frames that have arrived computes the run function, with what it leaves unread |
| DispatchRuns.OnlyEffects | crates/snap7-server/src/dispatch.rs:30-105 | a reply changes the plant by a fully decoded write or a full set-clock request, and by nothing else |
| DispatchRuns.EchoesReference | crates/snap7-server/src/dispatch.rs:30-105 | every reply carries the reference of its request, or 0 if the header cannot be decoded |
| DispatchRuns.RefusalsAreMarked | crates/snap7-server/src/dispatch.rs:30-105 | an answer carries error 0x81, 0x04 if and only if the request has no readable header, carries nothing, is an acknowledgement, or is a job with another function than the eight served ones or a read or write that does not decode; every other answer carries no error |
| DispatchRuns.AnswerFits | crates/snap7-server/src/handshake.rs:108-134 | a reply can be framed if and only if the request is not a read of more than a frame holds |
| DispatchRuns.ServedRun | crates/snap7-server/src/dispatch.rs:24-105 | for every byte stream: one framed answer per data frame, in order, each echoing its reference; the plants of successive exchanges join up; service stops exactly at the first frame that is no data frame or asks for too much |
| DispatchRuns.AnySegmentation | crates/snap7-server/src/handshake.rs:79-94 | however the stream is cut in two, serving the parts is serving the whole |
| Batching.GreedyIsCut | crates/snap7-client/src/client.rs:382-402 | the greedy batches are non-empty, consecutive, cover the items, and obey the rule |
| Batching.GreedyReaches | crates/snap7-client/src/client.rs:388-402 | a greedy batch reaches at least as far as any batch that starts no later |
| Batching.GreedyIsOptimal | crates/snap7-client/src/client.rs:382-402 | no way to cut the items into consecutive batches that obey the rule uses fewer batches |
| Client.NextReadBatch | crates/snap7-client/src/client.rs:384-402 | the inner loop finds the greedy batch of the read rule |
| Client.NextWriteBatch | crates/snap7-client/src/client.rs:480-493 | the inner loop finds the greedy batch of the write rule |
| Client.ReadPdusAreBatches | crates/snap7-client/src/client.rs:382-452 | a batched read sends one request per greedy batch, and no way to cut its items by the rule has fewer batches |
| Client.WritePdusAreBatches | crates/snap7-client/src/client.rs:479-542 | the same for a batched write |
| MultiVar.ReadBatchSize | crates/snap7-client/src/client.rs:365-402 | a read batch has 1 to 20 items, its request 12 bytes and 12 per item, its reply 14 bytes and its items; with two or more items the request is within the PDU size, the reply data within the PDU size less 12, and the reply within the PDU size plus 2 |
| MultiVar.ReadAnswerExceedsPdu | crates/snap7-client/src/client.rs:365-402 | the two extra bytes do occur: two items of 230 bytes make a reply of 482 bytes on a 480-byte PDU |
| MultiVar.WriteBatchSize | crates/snap7-client/src/client.rs:467-493 | the exact size of a write request; with two or more items it is within the PDU size |
| PduSizes.AnswerWithinPdu | crates/snap7-client/src/client.rs:382-402 | the reply to a batch fits the PDU if and only if each of its items fits one alone and, with two or more items, the batch leaves two bytes of its budget |
| PduSizes.ReadAnswersFit | crates/snap7-client/src/client.rs:360-455 | every reply of a batched read fits the PDU if and only if every item fits one alone and no batch of several items fills its budget |
| PduSizes.ReadRequestsFit | crates/snap7-client/src/client.rs:360-455 | every request of a batched read fits the PDU if and only if there is nothing to read or the PDU size is at least 24 |
| PduSizes.WriteRequestsFit | crates/snap7-client/src/client.rs:462-545 | every request of a batched write fits the PDU if and only if every item fits one alone |
| PduSizes.FewestReads | crates/snap7-client/src/client.rs:365-402 | a batched read is a cut of its items into runs of at most 20 items, each a single item or with a request within the PDU size and an answer within two bytes of it, and no such cut has fewer runs |
| PduSizes.FewestWrites | crates/snap7-client/src/client.rs:467-493 | a batched write is a cut into runs of at most 20 items, each a single item or with a request within the PDU size, and no such cut has fewer runs |
| PduSizes.ReadsAreNumbered | crates/snap7-client/src/client.rs:166-169 | the requests of a call carry consecutive references, modulo 65536 |
| MultiVar.ReadAnswer | crates/snap7-server/src/dispatch.rs:110-128 | the simulator answers a batch request with exactly the items read at their wire addresses |
| MultiVar.WriteAnswer | crates/snap7-server/src/dispatch.rs:130-144 | the simulator applies a batch request as the list of its wire writes and acknowledges every item |
| MultiVar.ReplyDecodes | crates/snap7-client/src/client.rs:436-449 | the client decodes that answer to the wire reads of the batch |
| Client.ReceiveFrame | crates/snap7-client/src/client.rs:209-245 | takes exactly one frame from what has arrived, or reports why not |
| Client.ReceiveConnectFrame | crates/snap7-client/src/connection.rs:105-114 | the same while connecting, where a length below 4 is not refused |
| Client.ParseConnectReply | crates/snap7-client/src/connection.rs:105-114 | aborts if and only if the header has arrived with a length below 4 |
| Client.CheckConfirm | crates/snap7-client/src/connection.rs:34-38 | accepts exactly a connection confirm, and otherwise returns the error that fits |
| Client.CheckNegotiated | crates/snap7-client/src/connection.rs:60-78 | returns the size in a good negotiation answer, or the matching error |
| Client.AwaitConfirm | crates/snap7-client/src/connection.rs:34-38 | waits for the confirmation: its outcome for any bytes, and the bytes it leaves |
| Client.AwaitNegotiated | crates/snap7-client/src/connection.rs:60-78 | waits for the negotiation answer in the same way |
| Client.ConnectTo | crates/snap7-client/src/connection.rs:21-79 | a connect to a peer that may send anything: its outcome, and exactly the bytes it sends |
| Client.ConnectPanics | crates/snap7-client/src/connection.rs:21-114 | a connect aborts if and only if the first frame of the peer has a length below 4, or the first confirms and the second has one |
| Client.S7Client.Connect | crates/snap7-client/src/connection.rs:21-79 | against the simulator a connect always succeeds; both ends then hold the wished PDU size capped at 480, and the plant is unchanged |
| Client.S7Client.Exchange | crates/snap7-client/src/client.rs:171-251 | one request and its answer through encoding, framing, dispatch and decoding; which errors occur and what is then left of the connection |
| Client.Collect | crates/snap7-client/src/client.rs:441-449 | puts the items of a batch in their places, and fails exactly if one has an error code |
| Client.CheckCodes | crates/snap7-client/src/client.rs:533-540 | fails exactly if some code is not 0xFF, with the first such code |
| Client.ErrorRepliesFail | crates/snap7-client/src/client.rs:2435-2446 | a reply with an error pair that is not zero fails a read, a write and a clock call with both bytes |
| Client.S7Client.ReadBatch | crates/snap7-client/src/client.rs:404-439 | one batch: the decoded answer is the wire reads of its items, or the connection is lost exactly if the answer cannot be framed |
| Client.S7Client.WriteBatch | crates/snap7-client/src/client.rs:494-531 | one batch: every item is applied in order and acknowledged, or nothing is sent exactly if the request cannot be framed |
| Client.S7Client.ReadMultiVars | crates/snap7-client/src/client.rs:360-455 | for every item list and every store, result i is the read of item i at its wire address, in input order, and for exact items the direct store read; it fails if and only if an item is longer than 65510 bytes; the store is unchanged and the requests are those of the greedy batches |
| Client.S7Client.WriteMultiVars | crates/snap7-client/src/client.rs:462-545 | the store afterwards is the left-to-right fold of the writes of all items before the first one above 65500 bytes, and for exact items of the direct writes; the call fails if and only if there is such an item |
| Exactness.ReadIsExact | crates/snap7-client/src/client.rs:360-455 | a batched read of an item equals the direct store read in every memory if and only if its start is below 2 MiB and its length below 8 KiB, or there is nothing to read |
| Exactness.WriteIsExact | crates/snap7-client/src/client.rs:462-545 | a batched write of an item equals the direct store write in every plant if and only if its start is below 2 MiB and its data below 8 KiB, or there is no data |
| Exactness.ExactReads | crates/snap7-client/src/client.rs:360-455 | for lists of such items every batched read is a direct read |
| Exactness.ExactWrites | crates/snap7-client/src/client.rs:462-545 | for lists of such items the batched write is the sequence of direct writes |
| Clock.EncodeDate | crates/snap7-client/src/proto/s7/clock.rs:25-37 | appends the eight date bytes |
| Clock.DecodeDate | crates/snap7-client/src/proto/s7/clock.rs:39-68 | agrees with the parse function on every input |
| Clock.BcdRoundTrip | crates/snap7-client/src/proto/s7/clock.rs:17-23 | a byte survives BCD if and only if it is below 160 |
| Clock.DateRoundTrip | crates/snap7-client/src/proto/s7/clock.rs:25-68 | a date-time survives the codec if and only if its year is 1990 to 2089, its other fields below 160, its milliseconds below 1600 and its weekday below 16 |
| Client.ClockReply | crates/snap7-client/src/client.rs:843-848 | takes the last eight bytes of parameters and data together |
| Client.ClockArrives | crates/snap7-server/src/dispatch.rs:197-217 | the simulator splits the eight bytes over parameters and data, and the client puts them together again |
| Client.S7Client.SetClock | crates/snap7-client/src/client.rs:852-873 | sets the clock bytes of the simulator and nothing else |
| Client.S7Client.ReadClock | crates/snap7-client/src/client.rs:823-849 | returns the date those bytes stand for, and changes nothing |
| Client.S7Client.SetThenReadClock | crates/snap7-client/src/client.rs:823-873 | a clock that is set and read back shows the same value if and only if the value is representable |
| Client.S7Client.SetClockToNow | crates/snap7-client/src/client.rs:879-924 | sets the clock bytes to the loop date of the given second |
| Client.ClockShowsNow | crates/snap7-client/src/client.rs:879-924 | a clock set to a Unix second shows that second, on the true calendar, if and only if the year is 1990 to 2089 |
| Calendar.DatesAreUnique | crates/snap7-client/src/client.rs:885-912 | the day number of the proleptic Gregorian calendar determines the date |
| Calendar.TakeYears | crates/snap7-client/src/client.rs:892-902 | the year loop computes the year function, with the year wrapping at sixteen bits |
| Calendar.TakeMonths | crates/snap7-client/src/client.rs:903-912 | the month loop computes the month function |
| Calendar.DateByLoops | crates/snap7-client/src/client.rs:892-916 | the two subtracting loops compute the loop date, with the year wrapping at sixteen bits |
| Calendar.LoopDateIsValid | crates/snap7-client/src/client.rs:892-916 | the loops end in a valid date for every day count |
| Calendar.LoopsInvertDayNumber | crates/snap7-client/src/client.rs:892-916 | up to the end of year 65535 the loop date has the given day number |
| Calendar.ClosedFormInvertsDayNumber | snap7-cli/src/cmd/watch.rs:64-77 | the closed form finds the valid date of every day from 1970 on, without an upper bound |
| Calendar.SameDate | snap7-cli/src/cmd/watch.rs:64-77 | loops and closed form agree on a day if and only if it is within year 65535 |
| Calendar.SameTime | snap7-cli/src/cmd/watch.rs:56-78 | the same for the date and time of every Unix second |
| Calendar.TimeOfDay | crates/snap7-client/src/client.rs:885-890 | loops and closed form both give the hour, minute and second that the seconds of the day add up to |
| Vlq.EncodeVlq | crates/snap7-client/src/proto/s7commplus/vlq.rs:20-38 | collecting groups and emitting them backwards appends the encoding |
| Vlq.DecodeVlq | crates/snap7-client/src/proto/s7commplus/vlq.rs:56-78 | the decoding loop agrees with the parse function, including what it leaves |
| Vlq.VlqLength | crates/snap7-client/src/proto/s7commplus/vlq.rs:20-38 | no encoding is longer than five bytes |
| Vlq.VlqRoundTrip | crates/snap7-client/src/proto/s7commplus/vlq.rs:20-78 | every u32 followed by anything decodes to itself and leaves exactly what followed |
| Vlq.Canonical | crates/snap7-client/src/proto/s7commplus/vlq.rs:56-78 | the encoding is the shortest byte string that decodes to the value; the bytes a decode used are the encoding if and only if the first is not 0x80 |
| Integrity.AppendIntegrity | crates/snap7-client/src/proto/s7commplus/integrity.rs:22-32 | appends identifier, marker and digest |
| Integrity.DecodeTail | crates/snap7-client/src/proto/s7commplus/integrity.rs:35-54 | decodes a tail as the parse function does |
| Integrity.TailRoundTrip | crates/snap7-client/src/proto/s7commplus/integrity.rs:22-54 | a tail followed by anything decodes to its identifier and digest |
| Integrity.Verify | crates/snap7-client/src/proto/s7commplus/integrity.rs:59-78 | the loop over identifier widths returns the first width that matches |
| Integrity.AcceptedSplits | crates/snap7-client/src/proto/s7commplus/integrity.rs:59-78 | whatever is accepted splits into data, an identifier of one to five bytes, the marker and the digest of that data, and the identifier decodes to the result |
| Integrity.IntegrityRoundTrip | crates/snap7-client/src/proto/s7commplus/integrity.rs:22-78 | a protected frame verifies with its own identifier if and only if the digest of the data differs from that of the data extended by any proper non-empty prefix of the identifier bytes; the digest is any function |
| Crc.ComputeCrc32 | crates/snap7-client/src/types.rs:340-353 | the byte and bit loops compute the checksum function |
| Crc.FeedIsBitwise | crates/snap7-client/src/types.rs:340-353 | mixing in a byte and shifting eight times is feeding its bits one at a time |
| Crc.FeedInjective | crates/snap7-client/src/types.rs:340-353 | after the same input, different registers stay different |
| Crc.BurstsAreNoticed | crates/snap7-client/src/types.rs:340-353 | two inputs of equal length that differ only inside 32 consecutive bits have the same checksum if and only if they are equal |
| Crc.ThirtyThreeBits | crates/snap7-client/src/types.rs:340-353 | over 33 bits this stops exactly at the generator polynomial: the registers meet if and only if the inputs are equal or differ by it |
| Crc.BitOrder | crates/snap7-client/src/types.rs:340-353 | the bits of a byte are fed lowest first |
| Crc.PolynomialIsGenerator | crates/snap7-client/src/types.rs:340-353 | the constant is the generator of IEEE 802.3 |
| Crc.FeedDivides | crates/snap7-client/src/types.rs:340-353 | feeding bits to the register is long division of the bits and 32 zeros by the generator |
| Crc.CrcIsRemainder | crates/snap7-client/src/types.rs:340-353 | the checksum is the complement of the remainder of the message, with its first 32 bits complemented and 32 zeros behind it |
| Blocks.Serialize | crates/snap7-client/src/types.rs:228-240 | writes the block bytes |
| Blocks.ParseThenWrite | crates/snap7-client/src/types.rs:202-240 | parsing a block and writing it out clears the four reserved bytes and changes nothing else |
| Blocks.WriteThenParse | crates/snap7-client/src/types.rs:202-240 | a block that is written out is parsed back to itself |
| Blocks.BlockLayout | crates/snap7-client/src/types.rs:202-240 | where the fields of a block are |
| Blocks.ChecksumOf | crates/snap7-client/src/types.rs:269-272 | the checksum of the normalised bytes, if they parse |
| Blocks.CompareLocal | crates/snap7-client/src/client.rs:2211-2232 | one verdict per local block that parses, in order, whatever each upload brings |
| Blocks.FindUnknown | crates/snap7-client/src/client.rs:2238-2242 | the listed numbers without a parsable local block, in order |
| Blocks.CompareBlocks | crates/snap7-client/src/client.rs:2192-2247 | the whole comparison: the verdicts on the local blocks, then, if asked for, the blocks only the PLC has; it fails exactly if a listing that is asked for fails |
| Blocks.ReportsPlcOnly | crates/snap7-client/src/client.rs:2233-2244 | a block is reported as only on the PLC if and only if that is asked for, it is of one of the four kinds and listed, and no local block of that kind and number has 20 bytes or more |
| Blocks.ReportsLocal | crates/snap7-client/src/client.rs:2205-2232 | the report begins with one verdict for each local block of 20 bytes or more, in order: only local exactly if the upload failed, else match or mismatch with the local checksum first |
| Blocks.OneListingFails | crates/snap7-client/src/client.rs:2235-2244 | one failed listing fails the whole report |
| Blocks.BurstVerdict | crates/snap7-client/src/client.rs:2211-2226 | blocks of equal length that differ, apart from the reserved bytes, only inside 32 consecutive bits are reported as a match if and only if they are equal there |
| Blocks.FourByteVerdict | crates/snap7-client/src/client.rs:2211-2226 | the same for a window of four bytes |
| Transfer.PlcLink.Exchange | crates/snap7-client/src/client.rs:171-251 | one job: what is sent, and the body of the next answer or its error |
| Transfer.UploadData | crates/snap7-client/src/client.rs:1942-1984 | the data loop: its result, its requests and the answers it leaves, whatever the answers are |
| Transfer.Upload | crates/snap7-client/src/client.rs:1911-2003 | the whole upload (and full upload, which differs in the function code): its result and exactly the requests it makes, for any answers |
| Transfer.UploadPanics | crates/snap7-client/src/client.rs:1929-1938 | an upload aborts if and only if the answer to its start request is good and has eight or nine bytes |
| Transfer.UploadIsBounded | crates/snap7-client/src/client.rs:1942-1984 | for any answers, unless the PDU size is 50, the requests and the block are bounded by 4 MiB; below 50 there is one request |
| Transfer.UploadNeverEnds | crates/snap7-client/src/client.rs:1976-1984 | at a PDU size of exactly 50 the loop goes on for as long as empty envelopes come |
| Transfer.UploadIsConcatenation | crates/snap7-client/src/client.rs:1942-1984 | a successful upload is the concatenation of the bodies it took, with the envelope stripped from the first only, if and only if the PDU size is not 50, or the first body is empty or more than an envelope, or the second has no envelope to lose |
| Transfer.EnvelopedUpload | crates/snap7-client/src/client.rs:1965-1983 | a PLC that wraps its first chunk in an envelope is read exactly if and only if the full chunks of the block stay within 4 MiB |
| Transfer.FullPartIsMultiple | crates/snap7-client/src/client.rs:1976-1983 | the full chunks of a block are the largest multiple of the chunk size that it has |
| Transfer.BareUpload | crates/snap7-client/src/client.rs:1965-1983 | a PLC that sends no envelope is read exactly if and only if, besides, the block or the chunks have fewer than 4 bytes, or the first byte is neither 0xFF nor 0x00 |
| Transfer.BareBlockIsCut | crates/snap7-client/src/client.rs:1965-1979 | so without an envelope every block in upload format whose type is below 256 loses its first four bytes |
| Transfer.SendChunks | crates/snap7-client/src/client.rs:2125-2147 | the chunk loop: its result and exactly the requests it makes, for any answers and any room |
| Transfer.LoopSendsChunks | crates/snap7-client/src/client.rs:2125-2147 | with room for chunks these are the chunks in order with the identifier, all if it succeeds and else an initial part |
| Transfer.DownloadNeverEnds | crates/snap7-client/src/client.rs:2125-2147 | with no room the loop sends empty chunks for as long as the PLC answers, and one more |
| Transfer.Download | crates/snap7-client/src/client.rs:2086-2165 | the whole download: its result and exactly the requests it makes, for any answers |
| Transfer.DownloadFollowsPlan | crates/snap7-client/src/client.rs:2086-2165 | these are the plan (start with the first chunk, the others with the identifier from the start answer, the end), all of it if the download succeeds and else an initial part; with no room it succeeds only for an empty input |
| Transfer.ChunksJoin | crates/snap7-client/src/client.rs:2101-2147 | the chunks concatenate to the input, none exceeds the room, and there are no more than needed |
| Transfer.PlanFits | crates/snap7-client/src/client.rs:2086-2165 | every message of a download is at most the PDU size less 30 |
| Transfer.DownloadCarriesId | crates/snap7-client/src/client.rs:2086-2165 | every later message of a download repeats the four bytes behind the first two of the start answer, whatever they are |
| Transfer.UploadCarriesId | crates/snap7-client/src/client.rs:1911-2003 | so does every later request of an upload |
| Transfer.ShortStartFails | crates/snap7-client/src/client.rs:1930-1932 | a start answer of fewer than six bytes fails a download at once, one of fewer than eight an upload |
| Udp.UdpTransport.PollRead | crates/snap7-client/src/udp.rs:31-68 | one poll: what it puts into the caller's buffer, what it keeps, and what it takes from the socket |
| Udp.UdpTransport.PollAll | crates/snap7-client/src/udp.rs:31-68 | a sequence of polls computes the run function |
| Udp.NothingLostOrRepeated | crates/snap7-client/src/udp.rs:31-68 | over any polls with any buffer sizes, what was delivered followed by what is still owed is all that the datagrams held, through pending and failed polls |
| Udp.BufferIsBounded | crates/snap7-client/src/udp.rs:46-57 | at most one datagram is held back |
| Udp.EndOfStream | crates/snap7-client/src/udp.rs:49-58 | a reader with room sees an end of stream if and only if the next datagram is empty |
| Udp.PollFills | crates/snap7-client/src/udp.rs:31-68 | a poll puts as much as is there and as fits; a datagram is whole up to 65535 bytes |
| Pool.S7Pool.constructor | crates/snap7-client/src/pool.rs:73-84 | starts with all permits and no connections |
| Pool.S7Pool.Acquire | crates/snap7-client/src/pool.rs:88-94 | a task begins to wait |
| Pool.S7Pool.TakePermit | crates/snap7-client/src/pool.rs:89-94 | takes a permit if there is one |
| Pool.S7Pool.TakeIdle | crates/snap7-client/src/pool.rs:97-108 | takes the oldest idle connection, or goes on to connect |
| Pool.S7Pool.Connected | crates/snap7-client/src/pool.rs:120-136 | a connect ends with a lent connection, or gives its permit back |
| Pool.S7Pool.Drop | crates/snap7-client/src/pool.rs:61-68 | a guard returns its connection to the back of the queue |
| Pool.S7Pool.DropPermit | crates/snap7-client/src/pool.rs:45-49 | and its permit only after that |
| Pool.PoolIsSafe | crates/snap7-client/src/pool.rs:60-137 | in every interleaving of any number of tasks: free and held permits add up to the maximum; every connection ever opened is idle once or lent to one task; connections never outnumber the most permits ever held at once, hence the maximum; with no tasks left all permits are back |
| Pool.SomeoneMoves | crates/snap7-client/src/pool.rs:88-137 | while a task waits, it or a task with a permit can take a step |
| Pool.BoundIsMet | crates/snap7-client/src/pool.rs:88-137 | the bound is reached: n overlapping tasks open n connections |
| Pool.FirstBackFirstOut | crates/snap7-client/src/pool.rs:61-108 | in every run, what came back is what was lent again followed by what is idle, in the same order |
| PartnerWire.FrameArrives | crates/snap7-partner/src/transport.rs:113-144 | a frame survives the length framing, in front of anything, if and only if it has at most 65528 bytes |
| PartnerWire.FragmentArrives | crates/snap7-partner/src/proto.rs:26-84 | a receiver that agrees on `first` takes from a fragment exactly its slice, its id and its end mark |
| PartnerWire.AckArrives | crates/snap7-partner/src/proto.rs:26-51 | an acknowledgement is taken with its sequence number |
| PartnerWire.FragmentPassesForAck | crates/snap7-partner/src/partner.rs:207-219 | a sender takes any fragment for an acknowledgement |
| PartnerWire.FragmentMisread | crates/snap7-partner/src/partner.rs:257-272 | a receiver that takes a later fragment for a first one drops its first two bytes, or fails if it has one byte |
| PartnerWire.FragmentFitsPdu | crates/snap7-partner/src/partner.rs:157-198 | with a PDU size of at least 37 no fragment exceeds it |
| PartnerWire.FirstFragmentArrives | crates/snap7-partner/src/partner.rs:157-200 | the first fragment of a message arrives if and only if the PDU size is at most 65528 or the message at most 65492 bytes; otherwise receiving fails |
| PartnerWire.SliceIsLargest | crates/snap7-partner/src/partner.rs:157-160 | the slice is the largest that fits: a first fragment with one byte more exceeds a PDU of 37 bytes or more |
| Partner.S7Partner.BSend | crates/snap7-partner/src/partner.rs:150-204 | a send call up to its first wait |
| Partner.S7Partner.SendFragment | crates/snap7-partner/src/partner.rs:168-204 | one turn of the send loop: the frame on the wire and the counter |
| Partner.S7Partner.TakeAcknowledgement | crates/snap7-partner/src/partner.rs:207-226 | the send loop from an acknowledgement to the next wait or to its end, with every error |
| Partner.S7Partner.BRecv | crates/snap7-partner/src/partner.rs:233-241 | a receive call up to its first wait |
| Partner.S7Partner.TakeFragment | crates/snap7-partner/src/partner.rs:242-304 | one turn of the receive loop, with every error |
| Partner.Numbering | crates/snap7-partner/src/partner.rs:92-98 | references and sequence numbers: which counter each call takes, how both wrap, and that a later fragment repeats the number of the acknowledgement |
| PartnerRuns.SendKeeps | crates/snap7-partner/src/partner.rs:150-204 | starting to send keeps the step invariant and the books |
| PartnerRuns.AckKeeps | crates/snap7-partner/src/partner.rs:207-226 | so does an acknowledgement, which is always the one the sender waits for |
| PartnerRuns.FragmentKeeps | crates/snap7-partner/src/partner.rs:242-304 | so does a fragment: the receiver's buffer stays a prefix of the message cut at a fragment boundary |
| PartnerRuns.Delivery | crates/snap7-partner/src/partner.rs:150-305 | in every run in which no partner starts to send before it has received what the other started to send: what one received is a prefix of the non-empty messages given to the other, all of them once the other's send calls have returned, and the only errors are refused messages |
| PartnerRuns.Conservation | crates/snap7-partner/src/partner.rs:157-297 | in such a run, with no send call open, a message of n bytes in k fragments has cost n + 2 + 34k bytes, sent and received, and 26k bytes of acknowledgements |
| PartnerRuns.FramesIsCeiling | crates/snap7-partner/src/partner.rs:157-223 | k is n divided by the slice size, rounded up |
| PartnerRuns.OneMessageCosts | crates/snap7-partner/src/partner.rs:157-297 | a message of n bytes that is all that was sent, with a PDU size s of at least 37, has cost n + 2 + 34k bytes one way and 26k the other, where (k - 1)(s - 36) < n <= k(s - 36) |
| PartnerRuns.NoDeadlock | crates/snap7-partner/src/partner.rs:150-305 | while a send call is open, some step other than a new send is possible |
| PartnerRuns.SendsReturn | crates/snap7-partner/src/partner.rs:150-305 | unless a partner starts to send again there are at most four steps for every fragment left and two more, and when none is left every send call has returned and everything is delivered |
| PartnerCrossing.BreakingCrosses | crates/snap7-partner/src/partner.rs:150-226 | in every state that such a run reaches, a partner that starts to send too early meets the first fragment of the other: each then has only the other's fragment to take for its acknowledgement |
| PartnerLosses.CrossedNeverDeliver | crates/snap7-partner/src/partner.rs:150-305 | from there, for messages of any length and however the two go on without a new send, neither partner ever has what the other was given |
| PartnerCrossing.CrossedFails | crates/snap7-partner/src/partner.rs:207-223 | and one send call can return without an error all the same |
| PartnerCrossing.CrossingIsReachable | crates/snap7-partner/src/partner.rs:150-204 | any two messages that can be sent can cross |
| PartnerCrossing.NonCrossingIsExact | crates/snap7-partner/src/partner.rs:150-305 | in every state that such a run reaches, a partner that starts to send has its message and the other's delivered however the two go on if and only if it has received all that the other started to send |
| PartnerCrossing.CrossedSendsAreLost | crates/snap7-partner/src/partner.rs:207-223 | crossed messages of one fragment each: both calls succeed, nothing is received and nothing is left on the wire |
| PartnerCrossing.CrossedSendCorrupts | crates/snap7-partner/src/partner.rs:207-272 | a crossed message of several fragments against one of a single fragment can arrive without its first fragment and two more bytes, and no call returns an error |
| PartnerCrossing.CrossedSendHangs | crates/snap7-partner/src/partner.rs:207-273 | if the second fragment has one byte, the receive call ends in an error and acknowledges nothing |
| PartnerCrossing.HungStays | crates/snap7-partner/src/partner.rs:207-213 | the send call then does not return unless the other partner sends something itself |

## Left out

- Sockets, TLS, time-outs and scheduling: transports are byte channels in order; a connect that fails, times out or is
  cancelled is one step of the pool.
- Clients that share one connection or one simulator at the same time: a client call runs alone.
- Store callbacks, the event queue, area registration and CPU state: they do not touch the bytes that are read and
  written.
- The heuristics that read CPU information out of system status lists; nothing is proved of what the lists contain.
- Listing blocks: its end depends on the PLC alone; in a comparison it is a function that may fail.
- Force operations, block attributes, block information and new data blocks.
- Single reads and writes, tag parsing and typed access: easier forms of the batched calls.
- The rest of S7CommPlus; the keyed digest is any function of the data.
- The OPC-UA gateway, the command-line tool apart from its calendar, and the demonstration programs.
- Partner handshakes: a partner starts connected, with any PDU size on either side. Its byte counters do not wrap at 64
  bits.
- A poisoned pool mutex: no code panics while it holds the lock.
- Transfer.PlcLink.Exchange: answers come as headers and bodies; framing and references are those of
  `Client.S7Client.Exchange`.
- VarCodec.WriteRequestRoundTrip: fewer than 256 items, and items of 8 KiB or more only at the end; past a cut item, or
  past a count that wrapped, the decoder reads data as headers. The client sends at most 20 items at once.
- VarCodec.ReadResponseRoundTrip: items of 8 KiB or more only at the end, for the same reason.
