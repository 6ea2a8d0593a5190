# lwmqtt client core in Dafny

This project models two parts of lwmqtt, a small MQTT 3.1.1 client library
written in C, and proves properties of the model.

- **The byte-cursor codec** (`src/helpers.c`, module `Helpers` in
  `helpers.dfy`). It has bounds-checked readers and writers for these field
  kinds:
  - single bytes;
  - big-endian 16-bit numbers (section 1.5.2 of the MQTT 3.1.1 standard);
  - raw byte runs;
  - length-prefixed strings (section 1.5.3);
  - the variable-length "Remaining Length" integer, called a varnum
    (section 2.2.3).

  A cursor is an index `pos` and an end bound `end`. Readers are functions
  that return the status, the value and the new position. Writers are methods
  on an `array<uint8>`. Their effect is described by `Splice`, which gives the
  buffer with a run of bytes overwritten. The encoders `EncodeNum`,
  `EncodeString` and `EncodeVarnum` are the reference definitions, and the
  round-trip lemmas connect each reader to its writer.
- **The client session** (`src/client.c`, module `Client` in `client.dfy`).
  The class `Client.Session` holds the connection and ping flags, the
  packet-id counter, the keep-alive interval and the read buffer. Its methods
  model these C functions:
  - the send loop that retries partial writes;
  - `keep_alive`;
  - `decode_packet` and `read_packet`;
  - the one-packet dispatch `cycle`, plus `yield` and `cycle_until`;
  - the public `connect`, `subscribe`, `unsubscribe`, `publish` and
    `disconnect`.

The network and the two timers are the caller's callbacks in C. Here they are
the class `Ports.Ports` in `ports.dfy`, which reads from finite scripts:
- the inbound byte stream;
- one tape of outcomes for read calls and one for write calls;
- a clock tape of elapsed milliseconds per timer query.

Once the clock tape runs out, every timer reads as expired. That is what
bounds every loop of the session. Each write call, read call, timer query and
timer arming is logged. This lets the contracts say exactly what was handed
to the network and which timers were armed to what. It also lets them say
that each loop kept working while time remained: every query that found the
network timer running was followed by a read or write call
(`Ports.Followed`), and a loop that gave up did so at a query that found the
timer expired (`Ports.EndsExpired`).

What the session reads is stated against the stream it started from:
- `Client.DecodeLength` is `decode_packet` as a function of the read side.
- `Client.ReadFrame` is `read_packet` as a function of the read side.
- `Client.FrameChain` says that successive cycles took successive frames off
  the stream, each returning what `cycle` gives for its frame.

What the session sends is stated through `Client.SendCalls`, the shape of
the write calls of one `send_packet`, and `Client.SendOutcome`, which gives
the outcome such a run of calls ends in.

The two waiting loops are stated round by round. A `Client.Round` records one
cycle: the timer query of the loop that goes with it, what `read_packet`
returned, the answer, the keep-alive rule, the ping state and deliveries
before and after, and the write calls, queries and armings each part made.
- `Client.Session.Rounds` says that the rounds ran one after another, each
  doing what `cycle` does for the frame it found.
- `Client.UntilLogged` and `Client.YieldLogged` say that the logs grew by
  exactly the calls, queries and armings of those rounds, in the order each
  loop makes them, and by nothing else.
- `Client.Session.Waited` is where `cycle_until` ends and
  `Client.Session.Yielded` where `client_yield` ends. Both are stated between
  a snapshot of the ports at the start (`Ports.Snapshot`) and one at the end.
- `Client.Session.Exchanged` is a request followed, once it is sent whole,
  by a wait for its acknowledgement, as `Waited` describes.

Several odd behaviours of the C code are kept as written:
- The first packet id handed out is 2.
- Every write call of `send_packet` asks for the whole packet length, however
  much is already sent.
- `read_packet` returns 1 when the body comes up short. This is the value of
  the comparison it assigns.
- A PUBLISH that fails to decode makes `cycle` return the PUBLISH type without
  running the keep-alive rule.
- A read error equal to FAILURE comes out of `cycle` as SUCCESS.
- `keep_alive` returns FAILURE when it has nothing to do.
- A SUBACK or UNSUBACK that arrives but does not decode still counts as
  success.

## Model

| member | source | states |
|---|---|---|
| Helpers.Str | src/helpers.c:6 | wraps a string whose length fits 16 bits; the length field equals the byte count |
| Helpers.Strncmp | src/helpers.c:18 | the comparison returns -1, 0 or 1; for a NUL-free right operand it is 0 exactly when the two runs are equal |
| Helpers.StrCmp | src/helpers.c:8-19 | a length mismatch gives -1; the result is 0 exactly when the lengths agree and the bytes are equal |
| Helpers.StrCmpStr | src/helpers.c:6-19 | a string built by `lwmqtt_str` compares equal to its source |
| Helpers.ReadByte | src/helpers.c:130-144 | succeeds exactly when one byte remains; it then yields that byte and advances by 1; otherwise it yields 0 and leaves the cursor |
| Helpers.WriteByte | src/helpers.c:146-159 | succeeds exactly when one byte of room remains; the buffer then gets the byte at `pos`; otherwise nothing changes |
| Helpers.ByteRoundTrip | src/helpers.c:130-159 | reading back a written byte yields that byte and the same next position |
| Helpers.EncodeNum | src/helpers.c:84-86 | two bytes, high byte first, whose big-endian value is the number |
| Helpers.ReadNum | src/helpers.c:62-76 | succeeds exactly when two bytes remain; the two bytes read are the big-endian encoding of the value; on failure the value is 0 and the cursor stays |
| Helpers.WriteNum | src/helpers.c:78-92 | succeeds exactly when two bytes of room remain; it then stores `EncodeNum(n)` at `pos`; otherwise the buffer is unchanged |
| Helpers.NumRoundTrip | src/helpers.c:62-92 | `read_num` of what `write_num` stored gives back the number |
| Helpers.ReadData | src/helpers.c:21-40 | length 0 gives success with a null view; otherwise it succeeds exactly when `len` bytes remain and then views them in place; on failure the prior view and the cursor are kept |
| Helpers.WriteData | src/helpers.c:42-60 | length 0 changes nothing; otherwise it succeeds exactly when the data fits and then stores it at `pos`; on failure the buffer is unchanged |
| Helpers.DataRoundTrip | src/helpers.c:21-60 | data written then read back is viewed at the same place with the same bytes |
| Helpers.EncodeString | src/helpers.c:114-128 | the 16-bit length prefix followed by the string's bytes |
| Helpers.ReadString | src/helpers.c:94-112 | without room for the prefix, it fails and keeps the prior string; otherwise it reads the prefix and then the data; a data failure leaves the cursor after the prefix and keeps the prior string |
| Helpers.WriteString | src/helpers.c:114-128 | succeeds exactly when prefix and data fit and then stores `EncodeString(s)`; when only the prefix fits, it stays written and the cursor ends after it |
| Helpers.StringRoundTrip | src/helpers.c:94-128 | `read_string` of what `write_string` stored gives back the string |
| Helpers.EncodeVarnumLength | src/helpers.c:219-254 | the encoding has 1, 2, 3 or 4 bytes below 128, 16384, 2097152 or 268435456 |
| Helpers.VarnumFits | src/helpers.c:219-254 | the encoding fits in 4 bytes exactly when the value is below 268435456 |
| Helpers.EncodeVarnum | src/helpers.c:219-254 | the bytes `write_varnum` emits for a value: at least one; their number and digits are stated by `EncodeVarnumLength` and `EncodeVarnumDigits` |
| Helpers.EncodeVarnumDigits | src/helpers.c:235-247 | byte i carries base-128 digit i of the value; its top bit is set exactly when more bytes follow |
| Helpers.VarnumLength | src/helpers.c:161-173 | as written: -1 exactly for values of 268435455 and above, otherwise 1 to 4 |
| Helpers.EncodedLengthExact | src/helpers.c:161-173 | the corrected length equals the size of the encoding `write_varnum` emits, and is -1 exactly when that would exceed 4 bytes |
| Helpers.VarnumLengthMismatch | src/helpers.c:166-168 | the as-written length agrees with the corrected one except at 2097151 and 268435455; at those values it disagrees with the emitted size |
| Helpers.VarnumStep | src/helpers.c:189-211 | one pass of the decoding loop onwards: a failure leaves the cursor where the loop started; a success moves it past the bytes already counted and no further than `end` |
| Helpers.VarnumStepResult | src/helpers.c:189-211 | from any pass of the decoding loop: on success the value is below 2^28, the cursor ends within four bytes after a final byte preceded only by continuation bytes; a failure keeps the cursor; overflow happens exactly when five bytes are available and the first four all have the continuation bit |
| Helpers.ReadVarnum | src/helpers.c:175-217 | what the loop yields from the start: success bounds the value below 2^28; overflow exactly when four continuation bytes are followed by a fifth byte; the space check comes first |
| Helpers.VarnumStepDecodes | src/helpers.c:189-211 | the loop, started in the middle of a valid encoding, decodes the remaining digits |
| Helpers.VarnumRoundTrip | src/helpers.c:175-254 | reading a written varnum below 2^28 gives back the value and moves past exactly its encoding |
| Helpers.DigitValue | src/helpers.c:207 | the base-128 value of a digit run is below 128^(number of digits) |
| Helpers.ReadVarnumDigits | src/helpers.c:175-217 | a well-formed run of 1 to 4 digits decodes to its base-128 value |
| Helpers.WriteVarnum | src/helpers.c:219-254 | stores the encoding up to the first of: the end of the encoding, the 4-byte limit, the end of room; succeeds only when all of it fits; VarnumOverflow or BufferTooShort otherwise, and the cursor moves only on success |
| Client.NextId | src/client.c:23-25 | the id after 65535 is 1, otherwise the next integer; ids stay within 1..65535 |
| Client.IdAfterClosedForm | src/client.c:23-25 | starting from 1, the id after k allocations is k mod 65535 + 1, and is never 0 |
| Client.SendCallsCounts | src/client.c:27-35 | every write call of one send asks for the full length at the offset delivered so far; only the last call may report an error |
| Client.PairedRounds | src/client.c:30-31 | the timer queries of a send come two per write call: before call k, query 2k found the network timer running and query 2k+1 gave the call its timeout |
| Client.SendLoopOutcome | src/client.c:30-42 | a send loop that stopped has one of three causes: the counts reached the length, the timer expired, or a write failed; its outcome is SUCCESS exactly when the counts add up to the length; otherwise one of the three failure causes holds |
| Client.PacketType | src/client.c:128-130 | the packet type is the upper four bits of the header byte |
| Client.DecodeLength | src/client.c:80-102 | `decode_packet` as a function of the read side: it never consumes more than 4 bytes nor fewer than it started with; its result is READ_ERROR or a count of read calls from 1 to 4 |
| Client.DecodeLengthShape | src/client.c:80-102 | `decode_packet` consumes a prefix of the stream: continuation bytes and possibly one final byte, at most four bytes; READ_ERROR exactly after four continuation bytes; a closed field returns its byte count; an open field returns the read calls made, one more than the bytes |
| Client.DecodeLengthCalls | src/client.c:86-95 | each consumed length byte came from a read call that was granted a byte; a field left open without READ_ERROR ended at a read call that was granted nothing |
| Client.DecodeLengthReads | src/client.c:86-101 | a closed length field whose bytes are each granted by a read call is consumed exactly; the stream moves past it |
| Client.DecodeLengthOfEncoding | src/client.c:80-102 | a remaining length written in its standard encoding is read back as the same value, consuming exactly the encoding's bytes |
| Client.ReadBody | src/client.c:115-131 | after a header byte and `decode_packet`: the header is kept and the remaining length is the value of the length bytes, below 2^28 and re-encodable in at most 4 bytes; a whole body (at most the remaining length) returns the header's packet type, a short body returns 1 |
| Client.ReadFrame | src/client.c:104-131 | `read_packet` as a function of the read side: once a header byte arrived, the remaining length is below 2^28, re-encodes in at most 4 bytes, and no more body bytes than it are delivered |
| Client.CycleResult | src/client.c:161-226 | what `cycle` may return for what `read_packet` gave: always FAILURE, SUCCESS or the packet type; for a packet type other than 0, FAILURE, PUBLISH and PUBREC, exactly the packet type |
| Helpers.DigitValueOfEncoding | src/helpers.c:219-254 | the base-128 digits that `write_varnum` emits are worth the encoded value |
| Client.ReadFrameOfPacket | src/client.c:104-131 | a whole frame on the stream, with every read call granted in full, is read exactly: the header's packet type is returned, the body is delivered and the stream moves past the frame; this takes 1 + (length bytes) + (1 if the body is non-empty) read calls |
| Client.Session.constructor | src/client.c:46-64 | disconnected, no ping outstanding, no callback, packet id 1, nothing delivered |
| Client.Session.SetTimers | src/client.c:66-75 | both timers are armed to 0 ms, keep-alive first, and logged in that order; both then read as expired; only the two deadlines and the arm log change on the ports |
| Client.Session.SetCallback | src/client.c:77 | records whether a callback is present |
| Client.Session.NextPacketId | src/client.c:23-25 | advances the counter by `NextId` and returns the new value |
| Client.Session.SendPacket | src/client.c:27-44 | SUCCESS or FAILURE; the new write calls and timer queries are those of the loop (`SendOutcome`): the calls follow the send shape; SUCCESS exactly when their reported counts add up to the length; a failure has one of three causes: the last write reported an error, the counts overshot, or a query found the network timer expired; every query that found the timer running was followed by a write call; only SUCCESS re-arms the keep-alive timer, to interval × 1000; the network timer is left as it was |
| Client.Session.WriteLoop | src/client.c:30-35 | the write calls and timer queries are appended to the logs in order; the calls follow the send shape; before each call, one query found the network timer running and one gave the call its timeout, and at most one more query comes last, which found it expired; the loop stopped only when the counts reached the length, a write reported an error, or that last query; the count returned is the sum of the reported counts |
| Client.Session.SendRound | src/client.c:30-31 | one pass of the loop: a query of the network timer; only if it found the timer running, a second query whose value is the timeout and a write call of the whole length from the offset reached; both queries are logged with the I/O count before the call |
| Client.Session.KeepAlive | src/client.c:133-157 | as `KeptAlive`: a zero interval succeeds with no port activity; otherwise the keep-alive timer is queried first; with no ping due (timer running, or a ping outstanding), FAILURE with nothing written and nothing armed; when a ping is due the network timer is armed to 1000 ms; a PINGREQ that does not serialize gives FAILURE with nothing written; otherwise it is sent as `SendOutcome` describes, and the ping becomes outstanding, the keep-alive timer is re-armed and the result is SUCCESS exactly when that send delivered it whole |
| Client.Session.Ping | src/client.c:143-152 | for a ping that is due: the network timer is armed to 1000 ms; a PINGREQ that does not serialize writes nothing; otherwise it is sent, and the ping is outstanding and the result SUCCESS exactly when the send succeeded; the whole is the due case of `KeptAlive` |
| Client.Session.DecodePacket | src/client.c:80-102 | the result, the value and the stream left behind are those of `DecodeLength` on the starting stream; the value is the base-128 value of the bytes consumed; the result is READ_ERROR or 1 to 4, and it counts the read calls made (four for READ_ERROR) |
| Client.Session.StoreRemainingLength | src/client.c:117-120 | the remaining length is the value `DecodeLength` finds on the stream; the stream moves past the length field; its standard encoding (1 to 4 bytes) follows the untouched header byte in `read_buf` |
| Client.Session.ReadPacket | src/client.c:104-131 | the result and the stream left behind are those of `ReadFrame` on the starting stream; `read_buf` then holds the header byte, the re-encoded remaining length and the body bytes delivered |
| Client.Session.ReadRemainder | src/client.c:115-130 | once the header byte is stored, the result, the stream left and `read_buf` are as `ReadBody` gives after `DecodeLength` |
| Client.Session.ReadInto | src/client.c:123-126 | makes one read call for the body; the bytes delivered land at the given index; the header and length bytes before it are kept |
| Client.Session.HandlePublish | src/client.c:175-201 | a PUBLISH that fails to decode leaves early with SUCCESS, nothing delivered, nothing written; a decoded one reaches the callback exactly when one is set; QoS 0: SUCCESS with nothing written; QoS 1 and 2: the PUBACK or PUBREC write calls end in the send outcome; a QoS outside 0..2 or an acknowledgement that does not serialize: FAILURE with nothing written; it leaves early exactly on FAILURE |
| Client.Session.HandlePubrec | src/client.c:202-213 | a PUBREC that fails to decode, or a PUBREL that does not serialize: FAILURE with nothing written; otherwise the PUBREL write calls end in the send outcome, and the result is SUCCESS exactly when the PUBREL is delivered whole |
| Client.Session.Answer | src/client.c:170-219 | the write calls of the answer are exactly those appended to the log; PUBLISH and PUBREC as in the two handlers; PINGRESP clears the outstanding ping; any other type succeeds, writes nothing and does not leave early |
| Client.Session.Dispatch | src/client.c:168-225 | as `Dispatched`: the answer is as `Answered` says; unless the cycle left early, the keep-alive rule then runs as `KeptAlive` says, starting from the ping state the PINGRESP left, and its result is dropped; leaving early adds no write, query or arming; the result is the packet type unless the answer failed, and a type equal to FAILURE gives SUCCESS; every timer query that found the network timer running was followed by a write call |
| Client.Session.Cycle | src/client.c:161-226 | the value `read_packet` returned and the stream left are those of `ReadFrame` on the starting stream, after as many network-timer queries as read steps; the result is one `cycle` can give for that frame; a `read_packet` result of 0: FAILURE, nothing written, flags and deliveries untouched; any other: the answer and the keep-alive rule as `Dispatched` says; every network-timer query that found the timer running was followed by a read or write call |
| Client.Session.Turn | src/client.c:233-238 | one cycle inside a waiting loop, recorded as a round: it takes the next frame off the stream and extends `Rounds` by the round; the logs grow by exactly the round's write calls, queries, armings and read calls; it makes at least one read call, and every query it made that found the network timer running was followed by a read or write call |
| Client.Session.RoundsStep | src/client.c:233-238 | one more cycle, taking up the read side, ping state and deliveries where the rounds before it left them, extends `Rounds` |
| Client.Session.UntilExpired | src/client.c:246 | a query that finds the network timer expired ends `cycle_until` as `Waited` describes, the result being the last cycle's or FAILURE |
| Client.Session.UntilCycled | src/client.c:245-248 | a query that found the network timer running, then a cycle, extend `Pending`, or end `cycle_until` as `Waited` describes when the cycle returned the awaited type |
| Client.Session.UntilPass | src/client.c:245-248 | one pass of the loop of `cycle_until`: a cycle runs exactly when the query found the network timer running; the loop is then over as `Waited` describes, or `Pending` again, with the result the last cycle's |
| Client.Session.YieldFailed | src/client.c:233-236 | a cycle that failed ends `client_yield` as `Yielded` describes, with FAILURE and no query after it |
| Client.Session.YieldPolled | src/client.c:233-238 | a cycle that did not fail, then its query, extend `YieldPending` when the query found the network timer running, and end `client_yield` with SUCCESS as `Yielded` describes when it found it expired |
| Client.Session.YieldPass | src/client.c:233-238 | one pass of the loop of `client_yield`: a cycle and, unless it failed, one network-timer query; the loop is then over as `Yielded` describes, or `YieldPending` again |
| Client.Session.Yield | src/client.c:228-241 | `Yielded`, from the ports just after the network timer was armed to the given timeout: at least one cycle runs; the cycles took consecutive frames off the stream, each doing what `cycle` does for its frame; no cycle but the last failed; each cycle that did not fail was followed by one network-timer query, and all but the last of those found it running; the logs grew by exactly those cycles and queries; FAILURE exactly when the last cycle failed, SUCCESS meaning the last query found the timer expired |
| Client.Session.CycleUntil | src/client.c:243-251 | no cycle runs exactly when the network timer had already expired; `Waited`: each cycle followed a query that found the timer running; the cycles took consecutive frames off the stream, each doing what `cycle` does for its frame; none but the last returned the awaited type; the result is the last cycle's, or FAILURE when none ran; the logs grew by exactly those queries and cycles, plus one last query that found the timer expired unless the last cycle returned the awaited type |
| Client.Session.SendAndWait | src/client.c:272-287 | `Exchanged`: the request's write calls and queries are as `SendOutcome` describes and are the first to reach the logs; a request not delivered whole fails for one of the three send-failure causes, and then nothing is read, nothing more is queried or armed and the ports end right after the send; a whole send re-arms the keep-alive timer and then waits as `Waited` describes, from the ports right after the send; SUCCESS exactly when the request was delivered whole and the awaited packet arrived |
| Client.Session.Connect | src/client.c:253-296 | already connected: FAILURE, and nothing is touched; otherwise the outcome is `Handshaken` with the given options, or the defaults when none are given; the session is connected exactly when the result is SUCCESS |
| Client.Session.ArmTimers | src/client.c:262-270 | the network timer is armed to the command timeout, then the keep-alive timer to the options' interval × 1000, in that order; the interval is adopted |
| Client.Session.Handshake | src/client.c:262-287 | `Handshaken`: the interval is adopted and both timers are armed, network first; a CONNECT that does not serialize gives FAILURE, and the ports end with only those two armings; otherwise CONNECT is sent and CONNACK awaited as `Exchanged` describes from the ports just after the armings; without a CONNACK the result is FAILURE; with one, the result is its return code, or FAILURE when it does not decode |
| Client.Session.Subscribe | src/client.c:298-336 | not connected: FAILURE, nothing touched; otherwise a new id is taken and the network timer is armed to the command timeout; a SUBSCRIBE that does not serialize gives FAILURE, and the ports end with only that arming; otherwise send and wait for SUBACK as `Exchanged` describes, from the ports just after the arming; once SUBACK arrives the result is 0x80 exactly when it decodes with a 0x80 grant, else SUCCESS |
| Client.Session.Unsubscribe | src/client.c:338-366 | not connected: FAILURE, nothing touched; otherwise a new id is taken and the network timer is armed to the command timeout; an UNSUBSCRIBE that does not serialize gives FAILURE, and the ports end with only that arming; otherwise send and wait for UNSUBACK as `Exchanged` describes, from the ports just after the arming; SUCCESS exactly when the UNSUBACK arrives |
| Client.Session.AwaitAck | src/client.c:394-410 | the wait of `cycle_until` as `Waited` describes, between the ports at the call and at the return; SUCCESS exactly when the awaited acknowledgement arrives and decodes |
| Client.Session.Deliver | src/client.c:390-410 | `Exchanged`, with a wait only for QoS 1 and 2: the PUBLISH write calls follow the send shape; an incomplete send fails for a send-failure cause without reading; QoS 0 reads nothing, and the ports end right after the send; it succeeds exactly when the packet was delivered whole; QoS 1 succeeds exactly when a PUBACK arrives and decodes, QoS 2 exactly when a PUBCOMP does |
| Client.Session.Publish | src/client.c:368-413 | not connected: FAILURE, nothing touched; otherwise the network timer is armed to the command timeout; QoS 1 and 2 take a new id, QoS 0 keeps the message's id; a PUBLISH that does not serialize gives FAILURE, and the ports end with only that arming; otherwise send and wait as in `Deliver`, from the ports just after the arming |
| Client.Session.Disconnect | src/client.c:415-430 | arms the network timer to the command timeout; a DISCONNECT that does not serialize gives FAILURE with no write and no timer query; otherwise the new write calls and queries end in the send outcome; only SUCCESS re-arms the keep-alive timer; the session is left disconnected whatever the outcome |

## Left out

- The concrete network and timer callbacks are replaced by the scripted `Ports.Ports` class. A real peer's timing, blocking reads and concurrent callers are not modelled. An exhausted clock stands for "time has run out".
- The packet serializers and deserializers (`lwmqtt_serialize_*`, `lwmqtt_deserialize_*`) are not part of this model. They are opaque function values in `Client.Codec`. The bytes written into `write_buf` are therefore not modelled, only the lengths the serializers report.
- `lwmqtt_client_set_network` only stores the network references. Its effect is folded into the `Client.Session` constructor, which takes the ports.
- The callback's body is the caller's code. The model records each decoded PUBLISH handed to it in `deliveries`.
- `LWMQTT_READ_ERROR` is defined in a header that is not part of this model. It is a constant distinct from SUCCESS and FAILURE here.
- `keep_alive_interval` is not set by `lwmqtt_client_init`. The model starts it at 0.
- Client.Session.ReadPacket: requires `read_buf` to hold the largest possible frame (header, 4 length bytes, 268435455 body bytes). The C code writes the body without checking the buffer's size. An overrun is not modelled.
- Client.Session.constructor: requires the `read_buf` handed to `lwmqtt_client_init` to hold the largest possible frame too, and `Valid()` keeps that fact for every later call. The C code accepts a buffer of any size, and `read_packet` does not check it.
- Client.PacketType: the C header is a bit-field union whose layout is compiler-defined. The model takes the type as the upper four bits, as MQTT 3.1.1 section 2.2.1 defines it.
- `read_packet` ignores the return value of `decode_packet`. The model states that value but the session makes no use of it.
- `lwmqtt_fixed_header_encode` (called at src/client.c:119-120) is not part of this model. It is taken to store `Helpers.EncodeVarnum(rem_len)` after the header byte and return its length, as the comment at that call says.
- The bytes the callback sees are not tied to the stream. `deliveries` records what the opaque `deserializePublish` returns for `read_buf`.
- Helpers.Str: requires the string to be shorter than 65536 bytes. The C cast silently truncates longer lengths to 16 bits.
- Helpers.Strncmp: returns only the sign of the C `strncmp` result, not its magnitude. Callers only test it against 0.
- Overflow of `keep_alive_interval * 1000` cannot happen, because the interval is a 16-bit value.

## Findings

| source | as written | input that shows it | evidently intended | confidence | as-written member | corrected member |
|---|---|---|---|---|---|---|
| src/helpers.c:166-168 | `varnum_length` uses the thresholds 2097151 and 268435455, each one below a power of 128 | 2097151 gives 4 although `write_varnum` emits 3 bytes; 268435455 gives -1 although it encodes in 4 bytes | thresholds 2097152 and 268435456 (128^3 and 128^4), so the length matches the encoding | high, not executed | Helpers.VarnumLengthMismatch | Helpers.EncodedLengthExact |
