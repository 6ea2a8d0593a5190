/**
 * The MQTT 3.1.1 client session: connection and ping flags, the packet-id
 * counter, the keep-alive rule, the partial-write send loop, the one-packet
 * read/dispatch cycle and the public connect / subscribe / unsubscribe /
 * publish / disconnect exchanges built on them.
 *
 * The network and the timers are the caller's `Ports`. The per-packet
 * serializers and deserializers are outside this model: they are the fields
 * of a `Codec` value handed to the session. A serializer reports only the
 * length of the packet it produced in `write_buf`; a deserializer maps the
 * bytes of `read_buf` to its decoded fields, with status 1 meaning success.
 */
module Client {
  import opened Helpers
  import opened Ports

  // Return codes shared by all operations.
  const SUCCESS: int := 0
  const FAILURE: int := -1
  /** Returned by `decode_packet` for a fifth length byte. Its value is set in
      a header outside this model; the session never inspects it. */
  const READ_ERROR: int := -2

  // Control packet types (section 2.2.1 of the MQTT 3.1.1 standard).
  const CONNECT: int := 1
  const CONNACK: int := 2
  const PUBLISH: int := 3
  const PUBACK: int := 4
  const PUBREC: int := 5
  const PUBREL: int := 6
  const PUBCOMP: int := 7
  const SUBSCRIBE: int := 8
  const SUBACK: int := 9
  const UNSUBSCRIBE: int := 10
  const UNSUBACK: int := 11
  const PINGREQ: int := 12
  const PINGRESP: int := 13
  const DISCONNECT: int := 14

  /** The SUBACK return code for a refused subscription. */
  const SUBACK_FAILURE: int := 0x80

  /** The largest frame `read_packet` can store: one header byte, at most four
      remaining-length bytes and at most 2^28 - 1 body bytes. */
  const MAX_FRAME: int := 1 + 4 + 0x0FFF_FFFF

  datatype Option<T> = None | Some(value: T)

  datatype QoS = QoS0 | QoS1 | QoS2

  /** Connect options; the session itself reads only `keepAlive` (seconds). */
  datatype Options = Options(keepAlive: uint16, clientId: seq<uint8>)

  /** An outgoing application message. */
  datatype Message = Message(qos: QoS, retained: bool, dup: bool, id: int, payload: seq<uint8>)

  // What the deserializers report. `status == 1` is success.
  datatype PublishFields = PublishFields(status: int, dup: bool, qos: int, retained: bool, id: uint16,
                                         topic: seq<uint8>, payload: seq<uint8>)
  datatype AckFields = AckFields(status: int, packetType: int, dup: bool, id: uint16)
  datatype ConnackFields = ConnackFields(status: int, sessionPresent: bool, returnCode: uint8)
  datatype SubackFields = SubackFields(status: int, id: uint16, count: int, grantedQos: int)
  datatype UnsubackFields = UnsubackFields(status: int, id: uint16)

  /** The packet (de)serializers and the default options, which this model
      takes as given. Every serializer receives the capacity of `write_buf`. */
  datatype Codec = Codec(
    serializeConnect: (nat, Options) -> int,
    serializePublish: (nat, bool, QoS, bool, int, seq<uint8>, seq<uint8>) -> int,
    serializeSubscribe: (nat, int, seq<uint8>, QoS) -> int,
    serializeUnsubscribe: (nat, int, seq<uint8>) -> int,
    serializeDisconnect: nat -> int,
    serializePingreq: nat -> int,
    serializePuback: (nat, uint16) -> int,
    serializePubrec: (nat, uint16) -> int,
    serializePubrel: (nat, bool, uint16) -> int,
    deserializePublish: seq<uint8> -> PublishFields,
    deserializeAck: seq<uint8> -> AckFields,
    deserializeConnack: seq<uint8> -> ConnackFields,
    deserializeSuback: seq<uint8> -> SubackFields,
    deserializeUnsuback: seq<uint8> -> UnsubackFields,
    defaultOptions: Options)

  // ---------------------------------------------------------------------------
  // Packet ids
  // ---------------------------------------------------------------------------

  /** The id `get_next_packet_id` hands out after `p`: it wraps from 65535 to 1. */
  function NextId(p: int): (r: int)
    ensures 0 <= p <= 65535 ==> 1 <= r <= 65535
    ensures p != 65535 ==> r == p + 1
    ensures p == 65535 ==> r == 1
  {
    if p == 65535 then 1 else p + 1
  }

  /** The counter after `k` allocations from the initial value 1. */
  function IdAfter(k: nat): (r: int)
  {
    if k == 0 then 1 else NextId(IdAfter(k - 1))
  }

  /** Ids cycle through 2, 3, ..., 65535, 1, 2, ... and are never 0. */
  lemma {:induction false} IdAfterClosedForm(k: nat)
    ensures IdAfter(k) == k % 65535 + 1
    ensures 1 <= IdAfter(k) <= 65535
  {
    if k > 0 {
      IdAfterClosedForm(k - 1);
      ModSucc(k - 1, (k - 1) / 65535, (k - 1) % 65535);
    }
  }

  /** Counting up by one wraps the remainder modulo 65535 from 65534 to 0. */
  lemma ModSucc(j: nat, q: int, r: int)
    requires q == j / 65535 && r == j % 65535
    ensures (j + 1) % 65535 == if r == 65534 then 0 else r + 1
  {
    assert j == 65535 * q + r && 0 <= r < 65535;
    if r == 65534 {
      assert j + 1 == 65535 * (q + 1);
    } else {
      assert j + 1 == 65535 * q + (r + 1);
    }
  }

  // ---------------------------------------------------------------------------
  // Write calls made by the send loop
  // ---------------------------------------------------------------------------

  /** The bytes the write port reports as written, over a run of calls. */
  function Delivered(calls: seq<WriteCall>): (r: int)
    ensures r >= 0
  {
    if calls == [] then 0
    else Delivered(calls[..|calls| - 1]) + (if calls[|calls| - 1].result < 0 then 0 else calls[|calls| - 1].result)
  }

  /** The shape of the calls `send_packet` makes for a packet of `length`
      bytes: each is made while fewer than `length` bytes are reported
      written, asks for `length` bytes starting at the count written so far,
      and only the last may report an error. */
  ghost predicate SendCalls(calls: seq<WriteCall>, length: int)
  {
    calls == [] ||
    var prefix, last := calls[..|calls| - 1], calls[|calls| - 1];
    SendCalls(prefix, length) && Delivered(prefix) < length &&
    last.count == length && last.offset == Delivered(prefix) &&
    (prefix != [] ==> prefix[|prefix| - 1].result >= 0)
  }

  lemma SendCallsAppend(calls: seq<WriteCall>, c: WriteCall, length: int)
    requires SendCalls(calls, length) && (calls != [] ==> calls[|calls| - 1].result >= 0)
    requires Delivered(calls) < length && c.count == length && c.offset == Delivered(calls)
    ensures SendCalls(calls + [c], length)
    ensures Delivered(calls + [c]) == Delivered(calls) + (if c.result < 0 then 0 else c.result)
  {
    assert (calls + [c])[..|calls|] == calls;
  }

  /** One `send_packet`: its write calls and the network-timer queries it made
      (`polls`), in order. */
  datatype Sent = Sent(calls: seq<WriteCall>, polls: seq<Query>)

  /** The send ended at a query that found the network timer expired: one
      query more than two per write call. */
  predicate TimedOut(s: Sent)
  {
    |s.polls| == 2 * |s.calls| + 1
  }

  /** How the queries of `send_packet` interleave with its write calls: two
      queries per call, and after the last call at most one more, which found
      the network timer expired. */
  ghost predicate Polled(s: Sent)
  {
    if TimedOut(s) then Paired(s.calls, s.polls[..|s.polls| - 1]) && EndsExpired(s.polls)
    else Paired(s.calls, s.polls)
  }

  /** Before each write call, one query that found the network timer running
      and one whose result was passed as the call's timeout, and no other
      queries. */
  ghost predicate Paired(calls: seq<WriteCall>, polls: seq<Query>)
  {
    if calls == [] then polls == []
    else
      |polls| >= 2 && Paired(calls[..|calls| - 1], polls[..|polls| - 2]) &&
      var a, b := polls[|polls| - 2], polls[|polls| - 1];
      a.timer == NetworkTimer && a.remaining > 0 && b.timer == NetworkTimer && b.remaining == calls[|calls| - 1].timeout
  }

  /** Paired queries come two per call, call `k` after queries `2k` and
      `2k + 1`. */
  lemma {:induction false} PairedRounds(calls: seq<WriteCall>, polls: seq<Query>)
    requires Paired(calls, polls)
    ensures |polls| == 2 * |calls|
    ensures forall k :: 0 <= k < |calls| ==>
      polls[2 * k].timer == NetworkTimer && polls[2 * k].remaining > 0 &&
      polls[2 * k + 1].timer == NetworkTimer && polls[2 * k + 1].remaining == calls[k].timeout
  {
    if calls != [] {
      var cs, ps := calls[..|calls| - 1], polls[..|polls| - 2];
      PairedRounds(cs, ps);
      forall k | 0 <= k < |calls|
        ensures polls[2 * k].timer == NetworkTimer && polls[2 * k].remaining > 0 &&
                polls[2 * k + 1].timer == NetworkTimer && polls[2 * k + 1].remaining == calls[k].timeout
      {
        if k < |cs| {
          assert polls[2 * k] == ps[2 * k] && polls[2 * k + 1] == ps[2 * k + 1] && calls[k] == cs[k];
        }
      }
    }
  }

  /** Why the loop of `send_packet` stopped: a query found the network timer
      expired while bytes were still owed and no write had failed; or, with
      no such query, the reported counts reached `length` or the last write
      reported an error. */
  ghost predicate Stopped(s: Sent, length: int)
  {
    if TimedOut(s) then Delivered(s.calls) < length && (s.calls == [] || s.calls[|s.calls| - 1].result >= 0)
    else Delivered(s.calls) >= length || (s.calls != [] && s.calls[|s.calls| - 1].result < 0)
  }

  /** A send of `length` bytes that polled the timer and called the write port
      as `Polled` and `SendCalls` describe, and stopped as `Stopped` says, ends
      in the outcome `send_packet` reports. */
  lemma SendLoopOutcome(s: Sent, length: int)
    requires SendCalls(s.calls, length) && Polled(s) && Stopped(s, length)
    ensures SendOutcome(s, length, Delivered(s.calls) == length)
  {
  }

  /** Extending paired queries by one write call and the two queries before it. */
  lemma PairedAppend(calls: seq<WriteCall>, polls: seq<Query>, c: WriteCall, a: Query, b: Query)
    requires Paired(calls, polls)
    requires a.timer == NetworkTimer && a.remaining > 0
    requires b.timer == NetworkTimer && b.remaining == c.timeout
    ensures Paired(calls + [c], polls + [a, b])
  {
    var cs, ps := calls + [c], polls + [a, b];
    assert cs[..|cs| - 1] == calls && ps[..|ps| - 2] == polls;
  }

  /** A send whose queries are paired with its calls did not time out. */
  lemma PairedPolled(calls: seq<WriteCall>, polls: seq<Query>)
    requires Paired(calls, polls)
    ensures Polled(Sent(calls, polls)) && !TimedOut(Sent(calls, polls))
  {
    PairedRounds(calls, polls);
  }

  /** Ending a send at a query that found the network timer expired. */
  lemma PolledExpire(calls: seq<WriteCall>, polls: seq<Query>, a: Query)
    requires Paired(calls, polls)
    requires a.timer == NetworkTimer && a.remaining <= 0
    ensures var s' := Sent(calls, polls + [a]); Polled(s') && TimedOut(s')
  {
    PairedRounds(calls, polls);
    var ps := polls + [a];
    assert ps[..|ps| - 1] == polls;
  }

  /** The queries of a send, all made before the calls reached `io` except a
      last one that found the network timer expired, were all followed. */
  lemma SentFollowed(s: Sent, io: nat)
    requires Polled(s)
    requires !TimedOut(s) ==> MadeBefore(s.polls, io)
    requires TimedOut(s) ==> MadeBefore(s.polls[..|s.polls| - 1], io)
    ensures Followed(s.polls, io)
  {
    if TimedOut(s) {
      var n := |s.polls| - 1;
      MadeFollowed(s.polls[..n], io);
      FollowedJoin(s.polls[..n], [s.polls[n]], io, io);
      assert s.polls == s.polls[..n] + [s.polls[n]];
    } else {
      MadeFollowed(s.polls, io);
    }
  }

  /** Where the loop of `send_packet` stands before a round: the calls so far
      are as `SendCalls` says, none reported an error, two queries came
      before each as `Paired` says, and all of them were made before the
      calls reached `io`. */
  ghost predicate Sending(calls: seq<WriteCall>, polls: seq<Query>, length: int, io: nat)
  {
    SendCalls(calls, length) && (calls != [] ==> calls[|calls| - 1].result >= 0) &&
    Paired(calls, polls) && MadeBefore(polls, io)
  }

  /** A round that found the network timer running (`a`), queried it for the
      timeout (`b`) and made the write call `c`, at the offset reached so far:
      the loop goes on from the longer logs when `c` reported a count, and
      otherwise stops there without having timed out. */
  lemma SendingAppend(calls: seq<WriteCall>, polls: seq<Query>, length: int, io: nat,
                      c: WriteCall, a: Query, b: Query, io2: nat)
    requires Sending(calls, polls, length, io) && io < io2
    requires Delivered(calls) < length && c.count == length && c.offset == Delivered(calls)
    requires a == Query(NetworkTimer, a.remaining, io) && a.remaining > 0
    requires b == Query(NetworkTimer, c.timeout, io)
    ensures Delivered(calls + [c]) == Delivered(calls) + (if c.result < 0 then 0 else c.result)
    ensures c.result >= 0 ==> Sending(calls + [c], polls + [a, b], length, io2)
    ensures var s := Sent(calls + [c], polls + [a, b]);
      SendCalls(s.calls, length) && Polled(s) && !TimedOut(s) && MadeBefore(s.polls, io2) &&
      (c.result < 0 ==> Stopped(s, length))
  {
    SendCallsAppend(calls, c, length);
    PairedAppend(calls, polls, c, a, b);
    PairedPolled(calls + [c], polls + [a, b]);
    assert MadeAt([a, b], 0, io2) && MadeAt([a, b], 1, io2);
    MadeJoin(polls, [a, b], io, io2);
  }

  /** The loop stopping before a round, the reported counts having reached
      `length`: the send did not time out. */
  lemma SendingStopped(calls: seq<WriteCall>, polls: seq<Query>, length: int, io: nat)
    requires Sending(calls, polls, length, io) && Delivered(calls) >= length
    ensures SendCalls(calls, length) && Polled(Sent(calls, polls)) && Stopped(Sent(calls, polls), length)
    ensures !TimedOut(Sent(calls, polls)) && MadeBefore(polls, io)
  {
    PairedPolled(calls, polls);
  }

  /** The loop stopping, bytes still owed, at a query `a` that found the
      network timer expired: the send timed out, every query before `a` having been made before the
      calls reached `io`. */
  lemma SendingExpired(calls: seq<WriteCall>, polls: seq<Query>, length: int, io: nat, a: Query)
    requires Sending(calls, polls, length, io)
    requires a.timer == NetworkTimer && a.remaining <= 0 && Delivered(calls) < length
    ensures var s := Sent(calls, polls + [a]);
      SendCalls(calls, length) && Polled(s) && Stopped(s, length) && TimedOut(s) &&
      MadeBefore(s.polls[..|s.polls| - 1], io)
  {
    PolledExpire(calls, polls, a);
    assert (polls + [a])[..|polls|] == polls;
  }

  /** Call by call: the `i`-th call of a send is made while fewer than
      `length` bytes are reported written, asks for `length` bytes at the
      offset the earlier calls delivered, and every call but the last
      reported a count rather than an error. */
  lemma {:induction false} SendCallsCounts(calls: seq<WriteCall>, length: int, i: nat)
    requires SendCalls(calls, length) && i < |calls|
    ensures calls[i].count == length && calls[i].offset == Delivered(calls[..i]) < length
    ensures i < |calls| - 1 ==> calls[i].result >= 0
  {
    var prefix := calls[..|calls| - 1];
    if i < |calls| - 1 {
      SendCallsCounts(prefix, length, i);
      assert prefix[..i] == calls[..i];
      if i < |prefix| - 1 {
        assert prefix[i] == calls[i];
      }
    } else {
      assert calls[..i] == prefix;
    }
  }

  /** The packet type in a fixed-header byte: its upper four bits. */
  function PacketType(header: uint8): (r: int)
    ensures 0 <= r < 16 && r * 16 <= header < r * 16 + 16
  {
    header / 16
  }

  /** Why a send that did not deliver `length` bytes stopped: the last write
      call reported an error, the reported counts overshot `length`, or the
      network timer had expired (`expired`). */
  ghost predicate GaveUp(calls: seq<WriteCall>, length: int, expired: bool)
  {
    (calls != [] && calls[|calls| - 1].result < 0) || Delivered(calls) > length || expired
  }

  /** The outcome of one `send_packet` of `length` bytes that made the write
      calls and timer queries `s`: the calls and queries interleave as
      `SendCalls` and `Polled` say and stopped as `Stopped` says; it succeeded
      (`ok`) exactly when the reported counts add up to `length`, and a failure
      has one of the reasons of `GaveUp`, the expired timer being a query that
      found it so. */
  ghost predicate SendOutcome(s: Sent, length: int, ok: bool)
  {
    SendCalls(s.calls, length) && Polled(s) && Stopped(s, length) &&
    (ok <==> Delivered(s.calls) == length) && (!ok ==> GaveUp(s.calls, length, TimedOut(s)))
  }

  /** What `keep_alive` did, seen in the timer queries `qs`, write calls `ws`
      and armings `arms` it added, for an interval of `interval` seconds, a
      PINGREQ serialized to `len` bytes and the ping outstanding before
      (`wasOut`) and after (`isOut`). A zero interval does nothing. Otherwise
      the keep-alive timer is queried first, and a ping is due when it had
      expired and none was outstanding; nothing else happens when none is due.
      A due ping arms the network timer to 1000 ms and, if PINGREQ serialized,
      sends it; the ping is outstanding exactly when that send delivered it
      whole, which also re-arms the keep-alive timer. */
  ghost predicate KeptAlive(interval: int, wasOut: bool, isOut: bool, len: int,
                            qs: seq<Query>, ws: seq<WriteCall>, arms: seq<Arm>)
  {
    if interval == 0 then qs == [] && ws == [] && arms == [] && isOut == wasOut
    else
      qs != [] && qs[0].timer == KeepAliveTimer &&
      var due := !wasOut && qs[0].remaining <= 0;
      (!due ==> |qs| == 1 && ws == [] && arms == [] && isOut == wasOut) &&
      (due && len <= 0 ==> |qs| == 1 && ws == [] && arms == [Arm(NetworkTimer, 1000)] && !isOut) &&
      (due && len > 0 ==>
        SendOutcome(Sent(ws, qs[1..]), len, isOut) &&
        arms == [Arm(NetworkTimer, 1000)] + (if isOut then [Arm(KeepAliveTimer, interval * 1000)] else []))
  }

  /** `KeptAlive` when the keep-alive rule had nothing to do: a zero interval,
      with no query, or a query `poll` of the keep-alive timer after which no
      ping was due. */
  lemma KeptAliveIdle(interval: int, wasOut: bool, len: int, qs: seq<Query>)
    requires interval == 0 ==> qs == []
    requires interval != 0 ==>
      |qs| == 1 && qs[0].timer == KeepAliveTimer && (wasOut || qs[0].remaining > 0)
    ensures KeptAlive(interval, wasOut, wasOut, len, qs, [], [])
  {
  }

  /** `KeptAlive` for a ping that was due: the keep-alive query `poll` found
      the timer expired, and the send `s` (none when PINGREQ did not
      serialize) and the armings `arms` followed. */
  lemma KeptAliveDue(interval: int, isOut: bool, len: int, poll: Query, s: Sent, arms: seq<Arm>, ok: bool)
    requires interval != 0 && poll.timer == KeepAliveTimer && poll.remaining <= 0
    requires len <= 0 ==> !ok && s == Sent([], []) && !isOut
    requires len > 0 ==> SendOutcome(s, len, ok) && isOut == ok
    requires arms == [Arm(NetworkTimer, 1000)] + (if ok then [Arm(KeepAliveTimer, interval * 1000)] else [])
    ensures KeptAlive(interval, false, isOut, len, [poll] + s.polls, s.calls, arms)
  {
    assert ([poll] + s.polls)[1..] == s.polls;
  }

  // ---------------------------------------------------------------------------
  // What reading a packet takes off the stream
  // ---------------------------------------------------------------------------

  /** The outcome of `decode_packet`: its return value, the length bytes taken
      off the stream and the stream left behind. */
  datatype LengthRead = LengthRead(rc: int, consumed: seq<uint8>, rest: Stream)

  /** `decode_packet` from stream `s` when the continuation bytes `consumed`
      have already been read: one read call of one byte per length byte, at
      most four; a read that does not deliver its byte ends it with the count
      of calls made, a fifth byte is READ_ERROR. */
  function DecodeLength(s: Stream, consumed: seq<uint8>): (r: LengthRead)
    requires |consumed| <= 4
    ensures |consumed| <= |r.consumed| <= 4
    ensures r.rc == READ_ERROR || |consumed| < r.rc <= 4
    decreases 4 - |consumed|
  {
    if |consumed| == 4 then LengthRead(READ_ERROR, consumed, s)
    else if Grant(s, 1) != 1 then LengthRead(|consumed| + 1, consumed, AfterRead(s, 1))
    else
      var i := s.inbound[0];
      if i < 128 then LengthRead(|consumed| + 1, consumed + [i], AfterRead(s, 1))
      else DecodeLength(AfterRead(s, 1), consumed + [i])
  }

  /** The length bytes end with a final byte (high bit clear). */
  predicate Closed(c: seq<uint8>)
  {
    c != [] && c[|c| - 1] < 128
  }

  /** What `decode_packet` takes off the stream: the bytes it consumed, in
      order, all continuation bytes but a closing one, at most four; READ_ERROR
      exactly for four continuation bytes; otherwise the count of read calls,
      which is one more than the bytes when the last call delivered nothing. */
  lemma {:induction false} DecodeLengthShape(s: Stream, c: seq<uint8>)
    requires |c| <= 4 && forall i :: 0 <= i < |c| ==> c[i] >= 128
    ensures var r := DecodeLength(s, c);
      c <= r.consumed && |r.consumed| <= 4 && c + s.inbound == r.consumed + r.rest.inbound &&
      (forall i :: 0 <= i < |r.consumed| - 1 ==> r.consumed[i] >= 128) &&
      (r.rc == READ_ERROR <==> |r.consumed| == 4 && !Closed(r.consumed)) &&
      (Closed(r.consumed) ==> r.rc == |r.consumed|) &&
      (r.rc != READ_ERROR && !Closed(r.consumed) ==> r.rc == |r.consumed| + 1)
    decreases 4 - |c|
  {
    if |c| < 4 && Grant(s, 1) == 1 {
      var i := s.inbound[0];
      var s' := AfterRead(s, 1);
      assert s.inbound == [i] + s'.inbound;
      assert c + s.inbound == (c + [i]) + s'.inbound;
      if i >= 128 {
        DecodeLengthShape(s', c + [i]);
      }
    }
  }

  /** The first `k` script entries of `s` each granted at least a byte, and,
      when `open`, the call after them was granted nothing: its script entry
      is missing or not positive, or the stream had ended after `k` bytes. */
  ghost predicate GrantedRun(s: Stream, k: int, open: bool)
  {
    0 <= k <= |s.tape| && (forall j :: 0 <= j < k ==> s.tape[j] >= 1) &&
    (open ==> k == |s.tape| || s.tape[k] <= 0 || k == |s.inbound|)
  }

  /** Which read calls `decode_packet` makes: one granted call per consumed
      byte and, when the field stays open without READ_ERROR, a last call
      that was granted nothing. */
  lemma {:induction false} DecodeLengthCalls(s: Stream, c: seq<uint8>)
    requires |c| <= 4 && forall i :: 0 <= i < |c| ==> c[i] >= 128
    ensures var r := DecodeLength(s, c);
      GrantedRun(s, |r.consumed| - |c|, r.rc != READ_ERROR && !Closed(r.consumed))
    decreases 4 - |c|
  {
    if |c| == 4 || Grant(s, 1) != 1 {
      CallsAtEnd(s, c);
    } else if s.inbound[0] < 128 {
      CallsAtLast(s, c);
    } else {
      var i := s.inbound[0];
      var s' := Stream(s.inbound[1..], s.tape[1..]);
      assert s.tape != [] && s.tape[0] >= 1 && s.inbound != [];
      DecodeLengthStep(s, c, i, s');
      DecodeLengthCalls(s', c + [i]);
      var r := DecodeLength(s', c + [i]);
      var k, open := |r.consumed| - |c + [i]|, r.rc != READ_ERROR && !Closed(r.consumed);
      CallsStep(s, k, open);
      assert |r.consumed| - |c| == k + 1;
    }
  }

  /** `DecodeLengthCalls` when no byte is taken: four continuation bytes are
      already in, or the read call is not granted its byte. */
  lemma CallsAtEnd(s: Stream, c: seq<uint8>)
    requires |c| <= 4 && forall i :: 0 <= i < |c| ==> c[i] >= 128
    requires |c| == 4 || Grant(s, 1) != 1
    ensures var r := DecodeLength(s, c);
      GrantedRun(s, |r.consumed| - |c|, r.rc != READ_ERROR && !Closed(r.consumed))
  {
    if |c| == 4 {
      assert DecodeLength(s, c) == LengthRead(READ_ERROR, c, s);
    } else {
      assert DecodeLength(s, c) == LengthRead(|c| + 1, c, AfterRead(s, 1));
      assert !Closed(c);
    }
  }

  /** `DecodeLengthCalls` when the granted byte is the final one. */
  lemma CallsAtLast(s: Stream, c: seq<uint8>)
    requires |c| < 4 && forall i :: 0 <= i < |c| ==> c[i] >= 128
    requires Grant(s, 1) == 1 && s.inbound[0] < 128
    ensures var r := DecodeLength(s, c);
      GrantedRun(s, |r.consumed| - |c|, r.rc != READ_ERROR && !Closed(r.consumed))
  {
    var i := s.inbound[0];
    assert DecodeLength(s, c) == LengthRead(|c| + 1, c + [i], AfterRead(s, 1));
    assert Closed(c + [i]);
  }

  /** The recursive step of `DecodeLengthCalls`: one more granted call in
      front of a run shifts every index by one. */
  lemma CallsStep(s: Stream, k: int, open: bool)
    requires s.tape != [] && s.tape[0] >= 1 && s.inbound != []
    requires GrantedRun(Stream(s.inbound[1..], s.tape[1..]), k, open)
    ensures GrantedRun(s, k + 1, open)
  {
    forall j | 1 <= j < k + 1 ensures s.tape[j] >= 1 {
      assert s.tape[j] == s.tape[1..][j - 1];
    }
  }

  /** A run of continuation bytes closed by a final byte, each delivered by a
      read call granted at least a byte, is consumed exactly. */
  lemma {:induction false} DecodeLengthReads(s: Stream, c: seq<uint8>, e: seq<uint8>, rest: seq<uint8>)
    requires |c| + |e| <= 4 && e != []
    requires forall i :: 0 <= i < |c| ==> c[i] >= 128
    requires forall i :: 0 <= i < |e| - 1 ==> e[i] >= 128
    requires e[|e| - 1] < 128
    requires s.inbound == e + rest && |e| <= |s.tape|
    requires forall k :: 0 <= k < |e| ==> s.tape[k] >= 1
    ensures DecodeLength(s, c) == LengthRead(|c| + |e|, c + e, Stream(rest, s.tape[|e|..]))
    decreases |e|
  {
    var s' := Stream(e[1..] + rest, s.tape[1..]);
    DecodeLengthStep(s, c, e[0], s');
    if |e| > 1 {
      var c', e' := c + [e[0]], e[1..];
      assert forall k :: 0 <= k < |e'| ==> s'.tape[k] == s.tape[k + 1];
      DecodeLengthReads(s', c', e', rest);
      MoveFirst(c, e);
      assert s'.tape[|e'|..] == s.tape[|e|..];
    } else {
      assert c + e == c + [e[0]] && s' == Stream(rest, s.tape[|e|..]);
    }
  }

  lemma MoveFirst(c: seq<uint8>, e: seq<uint8>)
    requires e != []
    ensures (c + [e[0]]) + e[1..] == c + e
  {
    assert e == [e[0]] + e[1..];
    assert (c + [e[0]]) + e[1..] == c + ([e[0]] + e[1..]);
  }

  /** One step of `DecodeLength` whose read call delivers byte `b`. */
  lemma DecodeLengthStep(s: Stream, c: seq<uint8>, b: uint8, s': Stream)
    requires |c| < 4 && s.tape != [] && s.tape[0] >= 1 && s.inbound != [] && s.inbound[0] == b
    requires s' == Stream(s.inbound[1..], s.tape[1..])
    ensures b < 128 ==> DecodeLength(s, c) == LengthRead(|c| + 1, c + [b], s')
    ensures b >= 128 ==> DecodeLength(s, c) == DecodeLength(s', c + [b])
  {
    assert Grant(s, 1) == 1 && AfterRead(s, 1) == s';
  }

  /** A remaining-length field in its standard encoding, each byte granted by
      its read call, decodes to the value encoded and nothing more is read. */
  lemma DecodeLengthOfEncoding(v: nat, s: Stream, rest: seq<uint8>)
    requires v < 0x1000_0000
    requires s.inbound == EncodeVarnum(v) + rest && |EncodeVarnum(v)| <= |s.tape|
    requires forall k :: 0 <= k < |EncodeVarnum(v)| ==> s.tape[k] >= 1
    ensures var e := EncodeVarnum(v);
      DecodeLength(s, []) == LengthRead(|e|, e, Stream(rest, s.tape[|e|..])) && DigitValue(e) == v
  {
    var e := EncodeVarnum(v);
    VarnumFits(v);
    forall i | 0 <= i < |e| ensures e[i] >= 128 <==> i < |e| - 1 {
      EncodeVarnumDigits(v, i);
    }
    DecodeLengthReads(s, [], e, rest);
    DigitValueOfEncoding(v);
  }

  /** The outcome of `read_packet`: its return value, the header byte if it
      arrived, the decoded remaining length, the body bytes delivered and the
      stream left behind. */
  datatype FrameRead = FrameRead(rc: int, header: Option<uint8>, remLen: nat, body: seq<uint8>, rest: Stream)

  /** What `cycle` can return after `read_packet` returned `kind`: FAILURE
      when nothing was read, the packet type for a packet that needs no
      answer (SUCCESS for a type equal to FAILURE), and for PUBLISH and
      PUBREC the type or FAILURE, as the answer went. */
  ghost predicate CycleResult(kind: int, rc: int)
    ensures CycleResult(kind, rc) ==> rc == FAILURE || rc == SUCCESS || rc == kind
    ensures kind != 0 && kind != FAILURE && kind != PUBLISH && kind != PUBREC ==> (CycleResult(kind, rc) <==> rc == kind)
  {
    (kind == 0 ==> rc == FAILURE) &&
    (kind != 0 && kind != PUBLISH && kind != PUBREC ==> rc == (if kind == FAILURE then SUCCESS else kind)) &&
    (kind == PUBLISH || kind == PUBREC ==> rc == kind || rc == FAILURE)
  }

  lemma AppendAssoc<T>(a: seq<T>, b: seq<T>, c: seq<T>)
    ensures a + b + c == a + (b + c)
  {
  }

  /** A log that grew by `x` and then `y` after `log` was appended to `base`
      is `base` followed by the whole growth. */
  lemma LogStep<T>(now: seq<T>, base: seq<T>, log: seq<T>, x: seq<T>, y: seq<T>)
    requires now == base + log + x + y
    ensures now == base + (log + x + y)
  {
  }

  /** One cycle that found the read side at `before` took one frame off it,
      leaving `after`, and returned `rc`, a result `cycle` can give for that
      frame. */
  ghost predicate CycleStep(before: Stream, after: Stream, rc: int)
  {
    after == ReadFrame(before).rest && CycleResult(ReadFrame(before).rc, rc)
  }

  /** Cycles that returned `results` took consecutive frames off the stream:
      `sides[k]` is the read side before cycle `k`, `sides[k + 1]` after it. */
  ghost predicate FrameChain(results: seq<int>, sides: seq<Stream>)
  {
    |sides| == |results| + 1 &&
    forall k: nat :: k < |results| ==> StepAt(results, sides, k)
  }

  /** Cycle `k` of a chain: it found `sides[k]`, left `sides[k + 1]` and
      returned `results[k]`. */
  ghost predicate StepAt(results: seq<int>, sides: seq<Stream>, k: nat)
    requires k < |results| && |sides| == |results| + 1
  {
    CycleStep(sides[k], sides[k + 1], results[k])
  }

  lemma FrameChainAppend(results: seq<int>, sides: seq<Stream>, r: int, next: Stream)
    requires FrameChain(results, sides) && CycleStep(sides[|results|], next, r)
    ensures FrameChain(results + [r], sides + [next]) && (sides + [next])[0] == sides[0]
  {
    var rs, ss := results + [r], sides + [next];
    forall k: nat | k < |rs| ensures StepAt(rs, ss, k) {
      if k < |results| {
        assert StepAt(results, sides, k);
        assert ss[k + 1] == sides[k + 1] && ss[k] == sides[k] && rs[k] == results[k];
      }
    }
  }

  /** One pass of a waiting loop (`client_yield` or `cycle_until`): the loop's
      own query of the network timer (`poll`) and what the cycle of that pass
      did. `read_packet` returned `kind` after the network-timer queries
      `readPolls` and `readCount` read calls. The answer returned `answered`,
      leaving the cycle early when `exit`, with the write calls and queries
      `ack` and the armings `arms`. The keep-alive rule added `keep` and
      `keepArms`. The ping went from outstanding `wasOut` to `isOut`, the
      callback deliveries from `before` to `after`, and `body` is what
      `read_buf` held for the dispatch. The cycle returned `rc`. */
  datatype Round = Round(poll: Query, rc: int, kind: int, readPolls: seq<Query>, readCount: nat, answered: int,
                         exit: bool, ack: Sent, arms: seq<Arm>, keep: Sent, keepArms: seq<Arm>,
                         wasOut: bool, isOut: bool, before: seq<PublishFields>, after: seq<PublishFields>,
                         body: seq<uint8>)

  /** The timer queries of the cycle of a round, in order. */
  function CycleQueries(r: Round): seq<Query>
  {
    r.readPolls + r.ack.polls + r.keep.polls
  }

  /** The write calls of the cycles of `rs`, in order. */
  function RoundWrites(rs: seq<Round>): seq<WriteCall>
  {
    if rs == [] then [] else RoundWrites(rs[..|rs| - 1]) + rs[|rs| - 1].ack.calls + rs[|rs| - 1].keep.calls
  }

  /** The timer armings of the cycles of `rs`, in order. */
  function RoundArms(rs: seq<Round>): seq<Arm>
  {
    if rs == [] then [] else RoundArms(rs[..|rs| - 1]) + rs[|rs| - 1].arms + rs[|rs| - 1].keepArms
  }

  /** The number of read calls the cycles of `rs` made. */
  function RoundReads(rs: seq<Round>): nat
  {
    if rs == [] then 0 else RoundReads(rs[..|rs| - 1]) + rs[|rs| - 1].readCount
  }

  /** The queries of `cycle_until` over the rounds `rs`: each round queries
      the network timer, then cycles. */
  function UntilQueries(rs: seq<Round>): seq<Query>
  {
    if rs == [] then [] else UntilQueries(rs[..|rs| - 1]) + [rs[|rs| - 1].poll] + CycleQueries(rs[|rs| - 1])
  }

  /** The queries of `client_yield` over the rounds `rs`: each round cycles
      and then, unless the cycle failed, queries the network timer. */
  function YieldQueries(rs: seq<Round>): seq<Query>
  {
    if rs == [] then []
    else
      var r := rs[|rs| - 1];
      YieldQueries(rs[..|rs| - 1]) + CycleQueries(r) + (if r.rc == FAILURE then [] else [r.poll])
  }

  /** The write calls `w`, armings `a`, number of read calls `n` and queries
      `q` are those at `w0`, `a0`, `n0` and `q0` grown by the rounds `rs` of
      `cycle_until`. */
  ghost predicate UntilLogged(rs: seq<Round>, w0: seq<WriteCall>, a0: seq<Arm>, n0: nat, q0: seq<Query>,
                              w: seq<WriteCall>, a: seq<Arm>, n: nat, q: seq<Query>)
  {
    w == w0 + RoundWrites(rs) && a == a0 + RoundArms(rs) && n == n0 + RoundReads(rs) && q == q0 + UntilQueries(rs)
  }

  /** The same for the rounds `rs` of `client_yield`. */
  ghost predicate YieldLogged(rs: seq<Round>, w0: seq<WriteCall>, a0: seq<Arm>, n0: nat, q0: seq<Query>,
                              w: seq<WriteCall>, a: seq<Arm>, n: nat, q: seq<Query>)
  {
    w == w0 + RoundWrites(rs) && a == a0 + RoundArms(rs) && n == n0 + RoundReads(rs) && q == q0 + YieldQueries(rs)
  }

  /** A round of `cycle_until`, its query then its cycle, extends the logs of
      the rounds before it. */
  lemma UntilLoggedStep(rs: seq<Round>, r: Round, w0: seq<WriteCall>, a0: seq<Arm>, n0: nat, q0: seq<Query>,
                        w1: seq<WriteCall>, a1: seq<Arm>, n1: nat, q1: seq<Query>,
                        w: seq<WriteCall>, a: seq<Arm>, n: nat, q: seq<Query>)
    requires UntilLogged(rs, w0, a0, n0, q0, w1, a1, n1, q1)
    requires w == w1 + r.ack.calls + r.keep.calls && a == a1 + r.arms + r.keepArms && n == n1 + r.readCount
    requires q == q1 + [r.poll] + CycleQueries(r)
    ensures UntilLogged(rs + [r], w0, a0, n0, q0, w, a, n, q)
  {
    RoundsAppend(rs, r);
    LogStep(w, w0, RoundWrites(rs), r.ack.calls, r.keep.calls);
    LogStep(a, a0, RoundArms(rs), r.arms, r.keepArms);
    LogStep(q, q0, UntilQueries(rs), [r.poll], CycleQueries(r));
  }

  /** A round of `client_yield`, its cycle then its query, extends the logs
      of the rounds before it. */
  lemma YieldLoggedStep(rs: seq<Round>, r: Round, w0: seq<WriteCall>, a0: seq<Arm>, n0: nat, q0: seq<Query>,
                        w1: seq<WriteCall>, a1: seq<Arm>, n1: nat, q1: seq<Query>,
                        w: seq<WriteCall>, a: seq<Arm>, n: nat, q: seq<Query>)
    requires YieldLogged(rs, w0, a0, n0, q0, w1, a1, n1, q1)
    requires w == w1 + r.ack.calls + r.keep.calls && a == a1 + r.arms + r.keepArms && n == n1 + r.readCount
    requires q == q1 + CycleQueries(r) + (if r.rc == FAILURE then [] else [r.poll])
    ensures YieldLogged(rs + [r], w0, a0, n0, q0, w, a, n, q)
  {
    RoundsAppend(rs, r);
    LogStep(w, w0, RoundWrites(rs), r.ack.calls, r.keep.calls);
    LogStep(a, a0, RoundArms(rs), r.arms, r.keepArms);
    LogStep(q, q0, YieldQueries(rs), CycleQueries(r), if r.rc == FAILURE then [] else [r.poll]);
  }

  /** The logs of the rounds `rs` grow by those of one more round `r`. */
  lemma RoundsAppend(rs: seq<Round>, r: Round)
    ensures RoundWrites(rs + [r]) == RoundWrites(rs) + r.ack.calls + r.keep.calls
    ensures RoundArms(rs + [r]) == RoundArms(rs) + r.arms + r.keepArms
    ensures RoundReads(rs + [r]) == RoundReads(rs) + r.readCount
    ensures UntilQueries(rs + [r]) == UntilQueries(rs) + [r.poll] + CycleQueries(r)
    ensures YieldQueries(rs + [r]) == YieldQueries(rs) + CycleQueries(r) + (if r.rc == FAILURE then [] else [r.poll])
  {
    assert (rs + [r])[..|rs|] == rs;
  }

  /** `read_packet` from stream `s`: one call for the header byte (its result
      is returned when it does not deliver the byte), `decode_packet` for the
      remaining length, and, for a non-zero length, one call for the body,
      which returns 1 when it comes up short. */
  function ReadFrame(s: Stream): (r: FrameRead)
    ensures r.header.Some? ==> r.remLen < 0x1000_0000 && |EncodeVarnum(r.remLen)| <= 4 && |r.body| <= r.remLen
  {
    if Grant(s, 1) != 1 then FrameRead(Grant(s, 1), None, 0, [], AfterRead(s, 1))
    else ReadBody(s.inbound[0], DecodeLength(AfterRead(s, 1), []))
  }

  /** The network-timer queries `read_packet` makes for frame `f`: one for
      each read step it reaches (header, remaining length, body). */
  function ReadQueries(f: FrameRead): nat
  {
    if f.header.None? then 1 else if f.remLen == 0 then 2 else 3
  }

  /** The read calls `decode_packet` makes on stream `s`: one per length byte
      tried, and four when it gives up with READ_ERROR. */
  function LengthReads(s: Stream): (n: nat)
    ensures 1 <= n <= 4
  {
    var d := DecodeLength(s, []);
    if d.rc == READ_ERROR then 4 else d.rc
  }

  /** The read calls `read_packet` makes on stream `s`: one for the header
      byte and, once that has arrived, those of `decode_packet` and one more
      for a non-empty body. */
  function FrameReads(s: Stream): (n: nat)
    ensures n >= 1
  {
    if Grant(s, 1) != 1 then 1
    else
      var s1 := AfterRead(s, 1);
      1 + LengthReads(s1) + (if DigitValue(DecodeLength(s1, []).consumed) == 0 then 0 else 1)
  }

  /** The rest of `read_packet` once header byte `h` has arrived and
      `decode_packet` has given `d`. */
  function ReadBody(h: uint8, d: LengthRead): (r: FrameRead)
    requires |d.consumed| <= 4
    ensures r.header == Some(h) && r.remLen == DigitValue(d.consumed)
    ensures r.remLen < 0x1000_0000 && |EncodeVarnum(r.remLen)| <= 4 && |r.body| <= r.remLen
    ensures |r.body| == r.remLen ==> r.rc == PacketType(h)
    ensures |r.body| < r.remLen ==> r.rc == 1
  {
    DigitValueBound(d.consumed);
    var rem := DigitValue(d.consumed);
    VarnumFits(rem);
    if rem == 0 then FrameRead(PacketType(h), Some(h), 0, [], d.rest)
    else
      var m := Grant(d.rest, rem);
      FrameRead(if m != rem then 1 else PacketType(h), Some(h), rem,
                if m < 0 then [] else d.rest.inbound[..m], AfterRead(d.rest, rem))
  }

  // The two shapes of `ReadBody`, by the decoded remaining length.
  lemma ReadBodyEmpty(h: uint8, d: LengthRead)
    requires |d.consumed| <= 4 && DigitValue(d.consumed) == 0
    ensures ReadBody(h, d) == FrameRead(PacketType(h), Some(h), 0, [], d.rest)
  {
  }

  lemma ReadBodyFull(h: uint8, d: LengthRead, rem: nat, m: int, body: seq<uint8>)
    requires |d.consumed| <= 4 && DigitValue(d.consumed) == rem > 0
    requires m == Grant(d.rest, rem) && body == (if m < 0 then [] else d.rest.inbound[..m])
    ensures ReadBody(h, d) == FrameRead(if m != rem then 1 else PacketType(h), Some(h), rem, body, AfterRead(d.rest, rem))
  {
  }

  /** A whole frame on the wire (header byte, remaining length in its standard
      encoding, that many body bytes), with every read call granted in full,
      is read exactly: its packet type is returned, the body is delivered and
      the stream moves past the frame. */
  lemma ReadFrameOfPacket(h: uint8, body: seq<uint8>, rest: seq<uint8>, tape: seq<int>)
    requires |body| < 0x1000_0000
    requires 1 + |EncodeVarnum(|body|)| + (if body == [] then 0 else 1) <= |tape|
    requires forall k :: 0 <= k < |tape| ==> tape[k] >= 1 && tape[k] >= |body|
    ensures var calls := 1 + |EncodeVarnum(|body|)| + (if body == [] then 0 else 1);
      ReadFrame(Stream([h] + EncodeVarnum(|body|) + body + rest, tape)) ==
      FrameRead(PacketType(h), Some(h), |body|, body, Stream(rest, tape[calls..]))
  {
    var e := EncodeVarnum(|body|);
    assert [h] + e + body + rest == [h] + (e + (body + rest));
    ClosedEncoding(|body|);
    ReadFrameHeadOfPacket(h, e, body + rest, tape);
    ReadFrameBodyOfPacket(h, body, rest, tape);
  }

  /** The remaining-length step of `ReadFrameOfPacket`: after the header
      byte, a closed length field `e` is read in one granted call per byte. */
  lemma LengthOfPacket(e: seq<uint8>, tail: seq<uint8>, tape: seq<int>)
    requires 0 < |e| <= 4 && e[|e| - 1] < 128 && forall i :: 0 <= i < |e| - 1 ==> e[i] >= 128
    requires 1 + |e| <= |tape| && forall k :: 0 <= k < |tape| ==> tape[k] >= 1
    ensures DecodeLength(Stream(e + tail, tape[1..]), []) == LengthRead(|e|, e, Stream(tail, tape[1 + |e|..]))
  {
    var s := Stream(e + tail, tape[1..]);
    assert forall k :: 0 <= k < |e| ==> s.tape[k] == tape[k + 1];
    DecodeLengthReads(s, [], e, tail);
    assert tape[1..][|e|..] == tape[1 + |e|..];
  }

  /** The header and remaining-length half of `ReadFrameOfPacket`, for a
      closed length field `e`. */
  lemma ReadFrameHeadOfPacket(h: uint8, e: seq<uint8>, tail: seq<uint8>, tape: seq<int>)
    requires 0 < |e| <= 4 && e[|e| - 1] < 128 && forall i :: 0 <= i < |e| - 1 ==> e[i] >= 128
    requires 1 + |e| <= |tape| && forall k :: 0 <= k < |tape| ==> tape[k] >= 1
    ensures ReadFrame(Stream([h] + (e + tail), tape)) == ReadBody(h, LengthRead(|e|, e, Stream(tail, tape[1 + |e|..])))
  {
    ReadFrameHead(h, e + tail, tape);
    LengthOfPacket(e, tail, tape);
  }

  /** The standard encoding of a value below 2^28 is a closed length field:
      continuation bytes and a final byte, at most four in all. */
  lemma ClosedEncoding(v: nat)
    requires v < 0x1000_0000
    ensures var e := EncodeVarnum(v);
      0 < |e| <= 4 && e[|e| - 1] < 128 && forall i :: 0 <= i < |e| - 1 ==> e[i] >= 128
  {
    var e := EncodeVarnum(v);
    VarnumFits(v);
    forall i | 0 <= i < |e| ensures e[i] >= 128 <==> i < |e| - 1 {
      EncodeVarnumDigits(v, i);
    }
  }

  /** The body half of `ReadFrameOfPacket`. */
  lemma ReadFrameBodyOfPacket(h: uint8, body: seq<uint8>, rest: seq<uint8>, tape: seq<int>)
    requires |body| < 0x1000_0000
    requires 1 + |EncodeVarnum(|body|)| + (if body == [] then 0 else 1) <= |tape|
    requires forall k :: 0 <= k < |tape| ==> tape[k] >= |body|
    ensures var e := EncodeVarnum(|body|);
      var calls := 1 + |e| + (if body == [] then 0 else 1);
      |e| <= 4 &&
      ReadBody(h, LengthRead(|e|, e, Stream(body + rest, tape[1 + |e|..]))) ==
      FrameRead(PacketType(h), Some(h), |body|, body, Stream(rest, tape[calls..]))
  {
    var e := EncodeVarnum(|body|);
    VarnumFits(|body|);
    DigitValueOfEncoding(|body|);
    ReadBodyOfPacket(h, e, body, rest, tape[1 + |e|..]);
    if body != [] {
      assert tape[1 + |e|..][1..] == tape[2 + |e|..];
    }
  }

  /** A frame whose first byte arrives in one read call continues with the
      remaining-length field right after it. */
  lemma ReadFrameHead(h: uint8, tail: seq<uint8>, tape: seq<int>)
    requires tape != [] && tape[0] >= 1
    ensures ReadFrame(Stream([h] + tail, tape)) == ReadBody(h, DecodeLength(Stream(tail, tape[1..]), []))
  {
    var s := Stream([h] + tail, tape);
    assert Grant(s, 1) == 1 && s.inbound[0] == h;
    assert AfterRead(s, 1) == Stream(tail, tape[1..]);
  }

  /** The body step of `ReadFrameOfPacket`. */
  lemma ReadBodyOfPacket(h: uint8, e: seq<uint8>, body: seq<uint8>, rest: seq<uint8>, tape: seq<int>)
    requires |e| <= 4 && DigitValue(e) == |body|
    requires body != [] ==> tape != [] && tape[0] >= |body|
    ensures ReadBody(h, LengthRead(|e|, e, Stream(body + rest, tape))) ==
      FrameRead(PacketType(h), Some(h), |body|, body,
                if body == [] then Stream(rest, tape) else Stream(rest, tape[1..]))
  {
    if body != [] {
      var d := Stream(body + rest, tape);
      assert Grant(d, |body|) == |body|;
      assert d.inbound[..|body|] == body;
      assert d.inbound[|body|..] == rest;
    }
  }

  class Session {
    const commandTimeout: nat
    const writeBufSize: nat
    const readBuf: array<uint8>
    const ports: Ports
    const codec: Codec

    var isConnected: bool
    var pingOutstanding: bool
    var nextPacketId: int
    var keepAliveInterval: uint16
    var hasCallback: bool
    /** The messages handed to the callback, in order. */
    var deliveries: seq<PublishFields>

    ghost predicate Valid()
      reads this
    {
      readBuf.Length >= MAX_FRAME && 1 <= nextPacketId <= 65535
    }

    /** `client_init` together with `client_set_network`: the ports are given here. */
    constructor (commandTimeout: nat, writeBufSize: nat, readBuf: array<uint8>, ports: Ports, codec: Codec)
      requires readBuf.Length >= MAX_FRAME
      ensures Valid()
      ensures this.commandTimeout == commandTimeout && this.writeBufSize == writeBufSize
      ensures this.readBuf == readBuf && this.ports == ports && this.codec == codec
      ensures !isConnected && !pingOutstanding && !hasCallback && nextPacketId == 1
      ensures keepAliveInterval == 0 && deliveries == []
    {
      this.commandTimeout := commandTimeout;
      this.writeBufSize := writeBufSize;
      this.readBuf := readBuf;
      this.ports := ports;
      this.codec := codec;
      isConnected := false;
      pingOutstanding := false;
      hasCallback := false;
      nextPacketId := 1;
      keepAliveInterval := 0;
      deliveries := [];
    }

    /** `client_set_timers`: both timers are armed to 0 ms, so they start out
        expired; nothing else on the ports changes. */
    method SetTimers()
      modifies ports`keepAliveDeadline, ports`networkDeadline, ports`arms
      ensures ports.arms == old(ports.arms) + [Arm(KeepAliveTimer, 0), Arm(NetworkTimer, 0)]
      ensures ports.keepAliveDeadline == ports.now && ports.networkDeadline == ports.now
      ensures ports.Peek(KeepAliveTimer) <= 0 && ports.Peek(NetworkTimer) <= 0
    {
      ports.TimerSet(KeepAliveTimer, 0);
      ports.TimerSet(NetworkTimer, 0);
    }

    /** `client_set_callback`. */
    method SetCallback(present: bool)
      modifies this`hasCallback
      ensures hasCallback == present
    {
      hasCallback := present;
    }

    /** `get_next_packet_id`. */
    method NextPacketId() returns (id: int)
      requires Valid()
      modifies this`nextPacketId
      ensures Valid()
      ensures nextPacketId == NextId(old(nextPacketId)) && id == nextPacketId
    {
      nextPacketId := NextId(nextPacketId);
      id := nextPacketId;
    }

    /** What `cycle` answers to an inbound PUBLISH: the length of the PUBACK
        (QoS 1) or PUBREC (QoS 2) serialized for it, and 0 for any other QoS. */
    function AckLength(msg: PublishFields): int
    {
      if msg.qos == 1 then codec.serializePuback(writeBufSize, msg.id)
      else if msg.qos == 2 then codec.serializePubrec(writeBufSize, msg.id)
      else 0
    }

    /** The arming of the keep-alive timer by a successful send. */
    function Rearm(): Arm
      reads this`keepAliveInterval
    {
      Arm(KeepAliveTimer, keepAliveInterval as int * 1000)
    }

    /** `send_packet`: hand `length` bytes of `write_buf` to the write port,
        retrying partial writes while the network timer runs. Every call asks
        for `length` bytes, however many were already written. `s` are the
        write calls and timer queries made, as `SendOutcome` describes them:
        success, which re-arms the keep-alive timer, means the reported counts
        add up to exactly `length`; failure means a write call reported an
        error, the counts overshot, or a query found the network timer
        expired. */
    method SendPacket(length: int) returns (rc: int, ghost s: Sent)
      modifies ports`writes, ports`writeTape, ports`clock, ports`now, ports`queries
      modifies ports`keepAliveDeadline, ports`networkDeadline, ports`arms
      ensures rc == SUCCESS || rc == FAILURE
      ensures ports.writes == old(ports.writes) + s.calls && ports.queries == old(ports.queries) + s.polls
      ensures SendOutcome(s, length, rc == SUCCESS) && Followed(s.polls, ports.IoCount())
      ensures ports.arms == old(ports.arms) + (if rc == SUCCESS then [Rearm()] else [])
      ensures rc == SUCCESS ==> ports.keepAliveDeadline == ports.now + keepAliveInterval as int * 1000
      ensures rc == FAILURE ==> ports.keepAliveDeadline == old(ports.keepAliveDeadline)
      ensures ports.networkDeadline == old(ports.networkDeadline)
      ensures |ports.clock| <= |old(ports.clock)|
    {
      var sent;
      ghost var calls, polls;
      sent, calls, polls := WriteLoop(length);
      s := Sent(calls, polls);
      SentFollowed(s, ports.IoCount());
      if sent == length {
        ports.TimerSet(KeepAliveTimer, keepAliveInterval as int * 1000);
        rc := SUCCESS;
      } else {
        rc := FAILURE;
      }
      SendLoopOutcome(s, length);
    }

    /** One round of the loop of `send_packet`, `sent` bytes reported so far:
        query the network timer (`remaining`) and, when it is still running,
        query it again for the timeout (`timeout`) and call the write port for
        the rest from offset `sent` (`n` is what it reported). Both queries
        are stamped with the calls made before the round. */
    method SendRound(sent: int, length: int) returns (remaining: int, timeout: int, n: int)
      requires length >= 0
      modifies ports`writes, ports`writeTape, ports`clock, ports`now, ports`queries
      ensures remaining <= 0 ==>
        ports.queries == old(ports.queries) + [Query(NetworkTimer, remaining, old(ports.IoCount()))] &&
        ports.writes == old(ports.writes) && |ports.clock| <= |old(ports.clock)|
      ensures remaining > 0 ==>
        ports.queries == old(ports.queries) + [Query(NetworkTimer, remaining, old(ports.IoCount())),
                                               Query(NetworkTimer, timeout, old(ports.IoCount()))] &&
        ports.writes == old(ports.writes) + [WriteCall(sent, length, timeout, n)] &&
        |ports.clock| < |old(ports.clock)|
    {
      timeout, n := 0, 0;
      remaining := ports.TimerGet(NetworkTimer);
      if remaining > 0 {
        timeout := ports.TimerGet(NetworkTimer);
        n := ports.NetworkWrite(sent, length, timeout);
      }
    }

    /** The loop of `send_packet`: while fewer than `length` bytes are written
        and a query finds the network timer running, query it again for the
        timeout and write the rest from the offset reached so far; stop at a
        write error. `calls` are the write calls and `polls` the queries made. */
    method WriteLoop(length: int) returns (sent: int, ghost calls: seq<WriteCall>, ghost polls: seq<Query>)
      modifies ports`writes, ports`writeTape, ports`clock, ports`now, ports`queries
      ensures ports.writes == old(ports.writes) + calls && ports.queries == old(ports.queries) + polls
      ensures SendCalls(calls, length) && Polled(Sent(calls, polls)) && Stopped(Sent(calls, polls), length)
      ensures sent == Delivered(calls)
      ensures !TimedOut(Sent(calls, polls)) ==> MadeBefore(polls, ports.IoCount())
      ensures TimedOut(Sent(calls, polls)) ==> MadeBefore(polls[..|polls| - 1], ports.IoCount())
      ensures |ports.clock| <= |old(ports.clock)|
    {
      calls, polls := [], [];
      sent := 0;
      while true
        invariant ports.writes == old(ports.writes) + calls && ports.queries == old(ports.queries) + polls
        invariant var sending := Sending(calls, polls, length, ports.IoCount()); sending
        invariant sent == Delivered(calls)
        invariant |ports.clock| <= |old(ports.clock)|
        decreases |ports.clock|
      {
        if sent >= length {
          SendingStopped(calls, polls, length, ports.IoCount());
          break;
        }
        ghost var io := ports.IoCount();
        var remaining, timeout, n := SendRound(sent, length);
        ghost var a := Query(NetworkTimer, remaining, io);
        if remaining <= 0 {
          SendingExpired(calls, polls, length, io, a);
          AppendAssoc(old(ports.queries), polls, [a]);
          polls := polls + [a];
          break;
        }
        ghost var b := Query(NetworkTimer, timeout, io);
        var c := WriteCall(sent, length, timeout, n);
        SendingAppend(calls, polls, length, io, c, a, b, ports.IoCount());
        AppendAssoc(old(ports.queries), polls, [a, b]);
        AppendAssoc(old(ports.writes), calls, [c]);
        calls, polls := calls + [c], polls + [a, b];
        if n < 0 {
          break;
        }
        sent := sent + n;
      }
    }

    /** `keep_alive`, as `KeptAlive` describes it, adding the write calls and
        queries `k` and the armings `arms` to the logs. Its result is SUCCESS
        for a zero interval and when a PINGREQ went out; having nothing to do,
        or a ping that failed, is reported as FAILURE. */
    method KeepAlive() returns (rc: int, ghost k: Sent, ghost arms: seq<Arm>)
      modifies this`pingOutstanding
      modifies ports`writes, ports`writeTape, ports`clock, ports`now, ports`queries
      modifies ports`keepAliveDeadline, ports`networkDeadline, ports`arms
      ensures ports.writes == old(ports.writes) + k.calls && ports.queries == old(ports.queries) + k.polls
      ensures ports.arms == old(ports.arms) + arms
      ensures var kept := KeptAlive(keepAliveInterval as int, old(pingOutstanding), pingOutstanding,
                                    codec.serializePingreq(writeBufSize), k.polls, k.calls, arms);
        kept
      ensures rc == SUCCESS || rc == FAILURE
      ensures rc == SUCCESS <==> keepAliveInterval == 0 || (pingOutstanding && !old(pingOutstanding))
      ensures Followed(k.polls, ports.IoCount())
      ensures |ports.clock| <= |old(ports.clock)|
    {
      k, arms := Sent([], []), [];
      if keepAliveInterval == 0 {
        KeptAliveIdle(0, pingOutstanding, codec.serializePingreq(writeBufSize), []);
        return SUCCESS, k, arms;
      }
      rc := FAILURE;
      ghost var io := ports.IoCount();
      var remaining := ports.TimerGet(KeepAliveTimer);
      ghost var poll := Query(KeepAliveTimer, remaining, io);
      assert ports.queries == old(ports.queries) + [poll];
      if remaining <= 0 && !pingOutstanding {
        ghost var s;
        rc, s, arms := Ping(poll);
        FollowedJoin([poll], s.polls, io, ports.IoCount());
        k := Sent(s.calls, [poll] + s.polls);
        assert ports.queries == old(ports.queries) + k.polls;
      } else {
        k := Sent([], [poll]);
        KeptAliveIdle(keepAliveInterval as int, pingOutstanding, codec.serializePingreq(writeBufSize), [poll]);
      }
    }

    /** The keep-alive rule once a ping is due, the query `poll` having found
        the keep-alive timer expired: arm the network timer to 1000 ms and, if
        PINGREQ serializes, send it, adding the write calls and queries `s`
        and the armings `arms` to the logs; the ping is then outstanding
        exactly when the send succeeded. */
    method Ping(ghost poll: Query) returns (rc: int, ghost s: Sent, ghost arms: seq<Arm>)
      requires keepAliveInterval != 0 && !pingOutstanding
      requires poll.timer == KeepAliveTimer && poll.remaining <= 0
      modifies this`pingOutstanding
      modifies ports`writes, ports`writeTape, ports`clock, ports`now, ports`queries
      modifies ports`keepAliveDeadline, ports`networkDeadline, ports`arms
      ensures ports.writes == old(ports.writes) + s.calls && ports.queries == old(ports.queries) + s.polls
      ensures ports.arms == old(ports.arms) + arms
      ensures var kept := KeptAlive(keepAliveInterval as int, false, pingOutstanding, codec.serializePingreq(writeBufSize),
                                    [poll] + s.polls, s.calls, arms);
        kept
      ensures rc == SUCCESS || rc == FAILURE
      ensures rc == SUCCESS <==> pingOutstanding
      ensures Followed(s.polls, ports.IoCount())
      ensures |ports.clock| <= |old(ports.clock)|
    {
      rc := FAILURE;
      ports.TimerSet(NetworkTimer, 1000);
      var len := codec.serializePingreq(writeBufSize);
      s := Sent([], []);
      if len > 0 {
        rc, s := SendPacket(len);
        if rc == SUCCESS {
          pingOutstanding := true;
        }
      }
      arms := [Arm(NetworkTimer, 1000)] + (if rc == SUCCESS then [Rearm()] else []);
      assert ports.arms == old(ports.arms) + arms;
      KeptAliveDue(keepAliveInterval as int, pingOutstanding, len, poll, s, arms, rc == SUCCESS);
    }

    /** `decode_packet`: read the remaining-length field straight from the
        network, one byte per read call, as `DecodeLength` describes; `value`
        is the value of the bytes consumed. The result counts the read calls
        made, or is READ_ERROR after four continuation bytes. */
    method DecodePacket(timeout: int) returns (rc: int, value: nat)
      modifies ports`inbound, ports`readTape, ports`readCalls
      ensures var d := DecodeLength(old(ports.ReadSide()), []);
        rc == d.rc && value == DigitValue(d.consumed) && ports.ReadSide() == d.rest
      ensures rc == READ_ERROR || 1 <= rc <= 4
      ensures |ports.readCalls| == |old(ports.readCalls)| + (if rc == READ_ERROR then 4 else rc)
      ensures value < 0x1000_0000
    {
      value := 0;
      ghost var consumed: seq<uint8> := [];
      var multiplier: nat := 1;
      var len := 0;
      while true
        invariant len == |consumed| <= 4 && multiplier == Pow128(len)
        invariant forall i :: 0 <= i < |consumed| ==> consumed[i] >= 128
        invariant value == DigitValue(consumed)
        invariant DecodeLength(old(ports.ReadSide()), []) == DecodeLength(ports.ReadSide(), consumed)
        invariant |ports.readCalls| == |old(ports.readCalls)| + len
        decreases 4 - len
      {
        len := len + 1;
        if len > 4 {
          DigitValueBound(consumed);
          return READ_ERROR, value;
        }
        var n, data := ports.NetworkRead(1, timeout);
        if n != 1 {
          DigitValueBound(consumed);
          return len, value;
        }
        var i := data[0];
        var digit: nat := i % 128;
        DigitValueAppend(consumed, i, value, multiplier);
        value := value + digit * multiplier;
        multiplier := multiplier * 128;
        consumed := consumed + [i];
        if i < 128 {
          break;
        }
      }
      DigitValueBound(consumed);
      rc := len;
    }

    /** Copy `bytes` into `read_buf` from index `at` on, as the read port and
        `fixed_header_encode` do. */
    method Store(at: nat, bytes: seq<uint8>)
      requires at + |bytes| <= readBuf.Length
      modifies readBuf
      ensures readBuf[..at] == old(readBuf[..at])
      ensures readBuf[at..at + |bytes|] == bytes
    {
      forall i | 0 <= i < |bytes| {
        readBuf[at + i] := bytes[i];
      }
    }

    /** Step 2 of `read_packet`: query the network timer for the timeout,
        decode the remaining length from the network and store its standard
        encoding after the header byte. `len` counts the header and the stored
        length bytes. */
    method StoreRemainingLength() returns (rem: nat, len: nat)
      requires Valid()
      modifies ports`inbound, ports`readTape, ports`readCalls, ports`clock, ports`now, ports`queries, readBuf
      ensures var d := DecodeLength(old(ports.ReadSide()), []);
        rem == DigitValue(d.consumed) && ports.ReadSide() == d.rest
      ensures rem < 0x1000_0000 && len == 1 + |EncodeVarnum(rem)| <= 5
      ensures readBuf[0] == old(readBuf[0]) && readBuf[1..len] == EncodeVarnum(rem)
      ensures |ports.readCalls| == |old(ports.readCalls)| + LengthReads(old(ports.ReadSide()))
      ensures old(ports.queries) <= ports.queries && |ports.queries| == |old(ports.queries)| + 1
      ensures NetworkQueries(ports.queries[|old(ports.queries)|..], ports.IoCount())
      ensures |ports.clock| <= |old(ports.clock)|
    {
      var timeout := ports.TimerGet(NetworkTimer);
      var _, value := DecodePacket(timeout);
      rem := value;
      var enc := EncodeVarnum(rem);
      VarnumFits(rem);
      ghost var head := readBuf[..1];
      Store(1, enc);
      assert readBuf[0] == readBuf[..1][0] == head[0];
      len := 1 + |enc|;
    }

    /** `read_buf` holds what `read_packet` stored for `f`: the header byte,
        the remaining length in its standard encoding and the body delivered. */
    ghost predicate Holds(f: FrameRead)
      reads readBuf
    {
      f.header.Some? ==>
        var len := 1 + |EncodeVarnum(f.remLen)|;
        len + |f.body| <= readBuf.Length &&
        readBuf[0] == f.header.value && readBuf[1..len] == EncodeVarnum(f.remLen) &&
        readBuf[len..len + |f.body|] == f.body
    }

    /** The pieces `read_packet` stored make up `Holds(f)`. */
    lemma HoldsFrame(f: FrameRead, len: nat, body: seq<uint8>)
      requires f.header.Some? && f.body == body && len == 1 + |EncodeVarnum(f.remLen)|
      requires len + |body| <= readBuf.Length
      requires readBuf[0] == f.header.value && readBuf[1..len] == EncodeVarnum(f.remLen)
      requires readBuf[len..len + |body|] == body
      ensures Holds(f)
    {
    }

    /** `read_packet`, as `ReadFrame` describes: read the header byte, decode
        the remaining length, store it back after the header in its standard
        encoding, then read the body behind it. Each read step first queries
        the network timer for its timeout (`ReadQueries`). */
    method ReadPacket() returns (rc: int)
      requires Valid()
      modifies ports`inbound, ports`readTape, ports`readCalls, ports`clock, ports`now, ports`queries, readBuf
      ensures var f := ReadFrame(old(ports.ReadSide()));
        rc == f.rc && ports.ReadSide() == f.rest && Holds(f) &&
        |ports.queries| == |old(ports.queries)| + ReadQueries(f)
      ensures old(ports.queries) <= ports.queries
      ensures NetworkQueries(ports.queries[|old(ports.queries)|..], ports.IoCount())
      ensures |ports.readCalls| == |old(ports.readCalls)| + FrameReads(old(ports.ReadSide()))
      ensures |ports.clock| <= |old(ports.clock)|
    {
      ghost var s, io0 := ports.ReadSide(), ports.IoCount();
      var timeout := ports.TimerGet(NetworkTimer);
      ghost var q1 := ports.queries;
      assert q1[|old(ports.queries)|..] == [Query(NetworkTimer, timeout, io0)];
      var n, data := ports.NetworkRead(1, timeout);
      if n != 1 {
        return n;
      }
      readBuf[0] := data[0];
      assert ReadFrame(s) == ReadBody(data[0], DecodeLength(ports.ReadSide(), []));
      ghost var io := ports.IoCount();
      rc := ReadRemainder(data[0]);
      NetworkGrow(q1, ports.queries, |old(ports.queries)|, io, ports.IoCount());
    }

    /** Steps 2 and 3 of `read_packet` once header byte `h` is stored, as
        `ReadBody` describes. */
    method ReadRemainder(h: uint8) returns (rc: int)
      requires Valid() && readBuf[0] == h
      modifies ports`inbound, ports`readTape, ports`readCalls, ports`clock, ports`now, ports`queries, readBuf
      ensures var f := ReadBody(h, DecodeLength(old(ports.ReadSide()), [])); var held := Holds(f);
        rc == f.rc && ports.ReadSide() == f.rest && held &&
        |ports.queries| + 1 == |old(ports.queries)| + ReadQueries(f)
      ensures old(ports.queries) <= ports.queries
      ensures NetworkQueries(ports.queries[|old(ports.queries)|..], ports.IoCount())
      ensures |ports.readCalls| == |old(ports.readCalls)| + LengthReads(old(ports.ReadSide())) +
        (if DigitValue(DecodeLength(old(ports.ReadSide()), []).consumed) == 0 then 0 else 1)
      ensures |ports.clock| <= |old(ports.clock)|
    {
      ghost var d := DecodeLength(ports.ReadSide(), []);
      var rem, len := StoreRemainingLength();
      if rem == 0 {
        ReadBodyEmpty(h, d);
        HoldsFrame(ReadBody(h, d), len, []);
        return PacketType(h);
      }
      ghost var q1, io1 := ports.queries, ports.IoCount();
      ghost var rest := ports.inbound;
      var m := ReadInto(len, rem);
      ghost var body: seq<uint8> := if m < 0 then [] else rest[..m];
      ReadBodyFull(h, d, rem, m, body);
      HoldsFrame(ReadBody(h, d), len, body);
      NetworkGrow(q1, ports.queries, |old(ports.queries)|, io1, ports.IoCount());
      rc := if m != rem then 1 else PacketType(h);
    }

    /** Step 3 of `read_packet`: query the network timer for the timeout, then
        one read call for `count` body bytes, stored in `read_buf` from index
        `at` on. */
    method ReadInto(at: nat, count: nat) returns (m: int)
      requires at + count <= readBuf.Length
      modifies ports`inbound, ports`readTape, ports`readCalls, ports`clock, ports`now, ports`queries, readBuf
      ensures m == Grant(old(ports.ReadSide()), count) && ports.ReadSide() == AfterRead(old(ports.ReadSide()), count)
      ensures 1 <= at ==> readBuf[0] == old(readBuf[0]) && readBuf[1..at] == old(readBuf[1..at])
      ensures m >= 0 ==> readBuf[at..at + m] == old(ports.inbound)[..m]
      ensures |ports.readCalls| == |old(ports.readCalls)| + 1
      ensures old(ports.queries) <= ports.queries && |ports.queries| == |old(ports.queries)| + 1
      ensures NetworkQueries(ports.queries[|old(ports.queries)|..], ports.IoCount())
      ensures |ports.clock| <= |old(ports.clock)|
    {
      var timeout := ports.TimerGet(NetworkTimer);
      var body;
      m, body := ports.NetworkRead(count, timeout);
      ghost var stored := readBuf[..at];
      Store(at, body);
      assert readBuf[..at] == stored;
      assert 1 <= at ==> readBuf[0] == stored[0] && readBuf[1..at] == stored[1..at];
    }

    /** What the dispatch step of `cycle` did for a packet of type
        `packetType` whose bytes are in `read_buf`, with result `rc` (SUCCESS or
        FAILURE), the write calls and timer queries `ack` of the answer sent,
        the armings `arms` it made and the callback deliveries growing from
        `before` to `after`. An inbound PUBLISH that decodes goes to the
        callback if one is set; QoS 1 is answered with PUBACK and QoS 2 with
        PUBREC; a PUBLISH that does not decode leaves the cycle early (`exit`)
        with SUCCESS. A PUBREC that decodes is answered with PUBREL. Answers
        that do not serialize fail without a write; a failed answer leaves the
        cycle early. Other types need nothing. A successful send re-arms the
        keep-alive timer. */
    ghost predicate Answered(packetType: int, rc: int, exit: bool, ack: Sent, arms: seq<Arm>,
                             before: seq<PublishFields>, after: seq<PublishFields>, body: seq<uint8>,
                             callback: bool, interval: int)
    {
      (rc == SUCCESS || rc == FAILURE) &&
      arms == (if rc == SUCCESS && ack.calls != [] then [Arm(KeepAliveTimer, interval * 1000)] else []) &&
      (packetType != PUBLISH ==> after == before) &&
      (packetType != PUBLISH && packetType != PUBREC ==> rc == SUCCESS && !exit && ack == Sent([], [])) &&
      (packetType == PUBLISH ==>
        var msg := codec.deserializePublish(body);
        var len := AckLength(msg);
        (msg.status != 1 ==> rc == SUCCESS && exit && ack == Sent([], []) && after == before) &&
        (msg.status == 1 ==> exit == (rc == FAILURE) && after == before + (if callback then [msg] else [])) &&
        (msg.status == 1 && msg.qos == 0 ==> rc == SUCCESS && ack == Sent([], [])) &&
        (msg.status == 1 && msg.qos != 0 && len <= 0 ==> rc == FAILURE && ack == Sent([], [])) &&
        (msg.status == 1 && msg.qos != 0 && len > 0 ==> SendOutcome(ack, len, rc == SUCCESS))) &&
      (packetType == PUBREC ==>
        var a := codec.deserializeAck(body);
        var len := codec.serializePubrel(writeBufSize, false, a.id);
        exit == (rc == FAILURE) &&
        (a.status != 1 || len <= 0 ==> rc == FAILURE && ack == Sent([], [])) &&
        (a.status == 1 && len > 0 ==> SendOutcome(ack, len, rc == SUCCESS)))
    }

    /** The PUBLISH branch of `cycle`, as `Answered` describes it. */
    method HandlePublish() returns (rc: int, exit: bool, ghost ack: Sent)
      modifies this`deliveries
      modifies ports`writes, ports`writeTape, ports`clock, ports`now, ports`queries
      modifies ports`keepAliveDeadline, ports`networkDeadline, ports`arms
      ensures ports.writes == old(ports.writes) + ack.calls && ports.queries == old(ports.queries) + ack.polls
      ensures old(ports.arms) <= ports.arms
      ensures var answered := Answered(PUBLISH, rc, exit, ack, ports.arms[|old(ports.arms)|..], old(deliveries), deliveries,
                                       readBuf[..], hasCallback, keepAliveInterval as int);
        answered
      ensures Followed(ack.polls, ports.IoCount())
      ensures |ports.clock| <= |old(ports.clock)|
    {
      rc, exit, ack := SUCCESS, false, Sent([], []);
      var msg := codec.deserializePublish(readBuf[..]);
      if msg.status != 1 {
        return SUCCESS, true, ack;
      }
      if hasCallback {
        deliveries := deliveries + [msg];
      }
      if msg.qos != 0 {
        var len := 0;
        if msg.qos == 1 {
          len := codec.serializePuback(writeBufSize, msg.id);
        } else if msg.qos == 2 {
          len := codec.serializePubrec(writeBufSize, msg.id);
        }
        if len <= 0 {
          rc := FAILURE;
        } else {
          rc, ack := SendPacket(len);
        }
        exit := rc == FAILURE;
      }
    }

    /** The PUBREC branch of `cycle`, as `Answered` describes it. */
    method HandlePubrec() returns (rc: int, ghost ack: Sent)
      modifies ports`writes, ports`writeTape, ports`clock, ports`now, ports`queries
      modifies ports`keepAliveDeadline, ports`networkDeadline, ports`arms
      ensures ports.writes == old(ports.writes) + ack.calls && ports.queries == old(ports.queries) + ack.polls
      ensures old(ports.arms) <= ports.arms
      ensures var answered := Answered(PUBREC, rc, rc == FAILURE, ack, ports.arms[|old(ports.arms)|..], deliveries, deliveries,
                                       readBuf[..], hasCallback, keepAliveInterval as int);
        answered
      ensures Followed(ack.polls, ports.IoCount())
      ensures |ports.clock| <= |old(ports.clock)|
    {
      ack := Sent([], []);
      var a := codec.deserializeAck(readBuf[..]);
      if a.status != 1 {
        return FAILURE, ack;
      }
      var len := codec.serializePubrel(writeBufSize, false, a.id);
      if len <= 0 {
        return FAILURE, ack;
      }
      rc, ack := SendPacket(len);
    }

    /** The dispatch step of `cycle`, as `Answered` describes it; a PINGRESP
        also clears the outstanding ping. */
    method Answer(packetType: int) returns (rc: int, exit: bool, ghost ack: Sent)
      modifies this`pingOutstanding, this`deliveries
      modifies ports`writes, ports`writeTape, ports`clock, ports`now, ports`queries
      modifies ports`keepAliveDeadline, ports`networkDeadline, ports`arms
      ensures ports.writes == old(ports.writes) + ack.calls && ports.queries == old(ports.queries) + ack.polls
      ensures old(ports.arms) <= ports.arms
      ensures var answered := Answered(packetType, rc, exit, ack, ports.arms[|old(ports.arms)|..], old(deliveries), deliveries,
                                       readBuf[..], hasCallback, keepAliveInterval as int);
        answered
      ensures pingOutstanding == (old(pingOutstanding) && packetType != PINGRESP)
      ensures Followed(ack.polls, ports.IoCount())
      ensures |ports.clock| <= |old(ports.clock)|
    {
      rc, exit, ack := SUCCESS, false, Sent([], []);
      if packetType == PUBLISH {
        rc, exit, ack := HandlePublish();
      } else if packetType == PUBREC {
        rc, ack := HandlePubrec();
        exit := rc == FAILURE;
      } else if packetType == PINGRESP {
        pingOutstanding := false;
      }
    }

    /** What `cycle` did once `read_packet` returned `packetType` (not 0),
        the frame read being `body`: `Answer` made the write calls and queries
        `ack` and the armings `arms`, with result `answered`, as `Answered`
        says, the deliveries going from `before` to `after`. Leaving early
        (`exit`) ends the cycle there; otherwise the keep-alive rule made the
        write calls and queries `keep` and the armings `keepArms`, as
        `KeptAlive` says, and its result was dropped. A PINGRESP clears the
        outstanding ping (`wasOut` before, `isOut` after) before that rule
        runs. The result is the packet type unless the answer failed
        (FAILURE); a packet type equal to FAILURE is reported as SUCCESS. */
    ghost predicate Dispatched(packetType: int, rc: int, answered: int, exit: bool, ack: Sent, arms: seq<Arm>,
                               keep: Sent, keepArms: seq<Arm>, wasOut: bool, isOut: bool,
                               before: seq<PublishFields>, after: seq<PublishFields>, body: seq<uint8>)
      reads this`hasCallback, this`keepAliveInterval
    {
      var mid := wasOut && packetType != PINGRESP;
      Answered(packetType, answered, exit, ack, arms, before, after, body, hasCallback, keepAliveInterval as int) &&
      rc == (if answered == SUCCESS && packetType != FAILURE then packetType else answered) &&
      (exit ==> keep == Sent([], []) && keepArms == [] && isOut == mid) &&
      (!exit ==> KeptAlive(keepAliveInterval as int, mid, isOut, codec.serializePingreq(writeBufSize),
                           keep.polls, keep.calls, keepArms))
    }

    /** The part of `cycle` after `read_packet`, as `Dispatched` describes it,
        the logs growing by what it records. */
    method Dispatch(packetType: int)
      returns (rc: int, ghost answered: int, ghost exit: bool, ghost ack: Sent, ghost arms: seq<Arm>,
               ghost keep: Sent, ghost keepArms: seq<Arm>)
      modifies this`pingOutstanding, this`deliveries
      modifies ports`writes, ports`writeTape, ports`clock, ports`now, ports`queries
      modifies ports`keepAliveDeadline, ports`networkDeadline, ports`arms
      ensures ports.writes == old(ports.writes) + ack.calls + keep.calls
      ensures ports.queries == old(ports.queries) + ack.polls + keep.polls
      ensures ports.arms == old(ports.arms) + arms + keepArms
      ensures var dispatched := Dispatched(packetType, rc, answered, exit, ack, arms, keep, keepArms,
                                           old(pingOutstanding), pingOutstanding, old(deliveries), deliveries, readBuf[..]);
        dispatched
      ensures Followed(ack.polls + keep.polls, ports.IoCount())
      ensures |ports.clock| <= |old(ports.clock)|
    {
      var result, leave;
      result, leave, ack := Answer(packetType);
      answered, exit := result, leave;
      arms := ports.arms[|old(ports.arms)|..];
      assert ports.arms == old(ports.arms) + arms;
      ghost var io1 := ports.IoCount();
      keep, keepArms := Sent([], []), [];
      if !leave {
        var kept;
        kept, keep, keepArms := KeepAlive();
      }
      FollowedJoin(ack.polls, keep.polls, io1, ports.IoCount());
      rc := result;
      if rc == SUCCESS && packetType != FAILURE {
        rc := packetType;
      }
    }

    /** `cycle`: read one packet (`kind` is what `read_packet` returned, after
        the network-timer queries `readPolls`, as many as `ReadQueries`
        counts) and, unless nothing was read (0, reported as FAILURE with
        nothing else done), run `Dispatch` on it. */
    method Cycle()
      returns (rc: int, ghost kind: int, ghost readPolls: seq<Query>, ghost answered: int, ghost exit: bool,
               ghost ack: Sent, ghost arms: seq<Arm>, ghost keep: Sent, ghost keepArms: seq<Arm>,
               ghost wasOut: bool, ghost before: seq<PublishFields>)
      requires Valid()
      modifies this`pingOutstanding, this`deliveries, ports, readBuf
      ensures Valid()
      ensures wasOut == old(pingOutstanding) && before == old(deliveries)
      ensures var f := ReadFrame(old(ports.ReadSide()));
        kind == f.rc && ports.ReadSide() == f.rest && Holds(f) && |readPolls| == ReadQueries(f)
      ensures NetworkQueries(readPolls, ports.IoCount())
      ensures ports.writes == old(ports.writes) + ack.calls + keep.calls
      ensures ports.queries == old(ports.queries) + readPolls + ack.polls + keep.polls
      ensures ports.arms == old(ports.arms) + arms + keepArms
      ensures var dispatched := Dispatched(kind, rc, answered, exit, ack, arms, keep, keepArms,
                                           wasOut, pingOutstanding, before, deliveries, readBuf[..]);
        kind != 0 ==> dispatched
      ensures kind == 0 ==> rc == FAILURE && ack == keep == Sent([], []) && arms == keepArms == [] &&
                            pingOutstanding == old(pingOutstanding) && deliveries == old(deliveries)
      ensures CycleResult(kind, rc) && CycleStep(old(ports.ReadSide()), ports.ReadSide(), rc)
      ensures |ports.readCalls| == |old(ports.readCalls)| + FrameReads(old(ports.ReadSide()))
      ensures ports.IoCount() > old(ports.IoCount())
      ensures old(ports.writes) <= ports.writes && old(ports.queries) <= ports.queries && old(ports.arms) <= ports.arms
      ensures Followed(readPolls + ack.polls + keep.polls, ports.IoCount())
      ensures |ports.clock| <= |old(ports.clock)|
    {
      answered, exit, ack, arms, keep, keepArms := FAILURE, true, Sent([], []), [], Sent([], []), [];
      var packetType := ReadPacket();
      kind := packetType;
      readPolls := ports.queries[|old(ports.queries)|..];
      assert ports.queries == old(ports.queries) + readPolls;
      ghost var io1 := ports.IoCount();
      wasOut, before := pingOutstanding, deliveries;
      if packetType == 0 {
        rc := FAILURE;
        return;
      }
      rc, answered, exit, ack, arms, keep, keepArms := Dispatch(packetType);
      FollowedJoin(readPolls, ack.polls + keep.polls, io1, ports.IoCount());
      AppendAssoc(readPolls, ack.polls, keep.polls);
    }

    /** What the cycle of round `r` did, for the read side `side` it found:
        `read_packet` returned what `ReadFrame` says, after as many
        network-timer queries as `ReadQueries` counts and as many read calls
        as `FrameReads` counts; for a packet type other than 0 the rest is as
        `Dispatched` describes, and for 0 the cycle returned FAILURE and did
        nothing else. */
    ghost predicate Cycled(r: Round, side: Stream)
      reads this`hasCallback, this`keepAliveInterval
    {
      var f := ReadFrame(side);
      r.kind == f.rc && |r.readPolls| == ReadQueries(f) && r.readCount == FrameReads(side) &&
      (r.kind != 0 ==>
        Dispatched(r.kind, r.rc, r.answered, r.exit, r.ack, r.arms, r.keep, r.keepArms,
                   r.wasOut, r.isOut, r.before, r.after, r.body)) &&
      (r.kind == 0 ==>
        r.rc == FAILURE && r.ack == Sent([], []) && r.keep == Sent([], []) && r.arms == [] && r.keepArms == [] &&
        r.isOut == r.wasOut && r.after == r.before)
    }

    /** A round of a waiting loop whose cycle returned `rc` and did what
        `Cycled` says, found the read side at `side`. */
    ghost predicate Ran(r: Round, rc: int, side: Stream)
      reads this`hasCallback, this`keepAliveInterval
    {
      r.rc == rc && Cycled(r, side)
    }

    /** Round `k` of the rounds `rs` of a waiting loop, the cycles returning
        `results` on the read sides `sides`: it `Ran`, and took up the ping
        state and deliveries where round `k - 1` left them. */
    ghost predicate RoundAt(rs: seq<Round>, results: seq<int>, sides: seq<Stream>, k: nat)
      requires k < |rs| == |results| && |sides| == |rs| + 1
      reads this`hasCallback, this`keepAliveInterval
    {
      Ran(rs[k], results[k], sides[k]) &&
      (k > 0 ==> rs[k].wasOut == rs[k - 1].isOut && rs[k].before == rs[k - 1].after)
    }

    /** The rounds `rs` of a waiting loop ran one after another, as `RoundAt`
        says, from the ping state `wasOut` and the deliveries `before` to the
        ping state `isOut` and the deliveries `after`. */
    ghost predicate Rounds(rs: seq<Round>, results: seq<int>, sides: seq<Stream>, wasOut: bool,
                           before: seq<PublishFields>, isOut: bool, after: seq<PublishFields>)
      reads this`hasCallback, this`keepAliveInterval
    {
      |rs| == |results| && |sides| == |rs| + 1 &&
      (forall k: nat :: k < |rs| ==> RoundAt(rs, results, sides, k)) &&
      (rs == [] ==> isOut == wasOut && after == before) &&
      (rs != [] ==> rs[0].wasOut == wasOut && rs[0].before == before &&
                    rs[|rs| - 1].isOut == isOut && rs[|rs| - 1].after == after)
    }

    /** One more round, whose cycle found the read side where the rounds `rs`
        left it and the ping state and deliveries as they left them, extends
        them. */
    lemma RoundsStep(rs: seq<Round>, results: seq<int>, sides: seq<Stream>, wasOut: bool, before: seq<PublishFields>,
                     r: Round, next: Stream)
      requires Rounds(rs, results, sides, wasOut, before, r.wasOut, r.before)
      requires Cycled(r, sides[|rs|])
      ensures Rounds(rs + [r], results + [r.rc], sides + [next], wasOut, before, r.isOut, r.after)
    {
      var rs', results', sides' := rs + [r], results + [r.rc], sides + [next];
      forall k: nat | k < |rs'|
        ensures RoundAt(rs', results', sides', k)
      {
        if k < |rs| {
          assert rs'[k] == rs[k] && results'[k] == results[k] && sides'[k] == sides[k];
          assert RoundAt(rs, results, sides, k);
        } else {
          assert Ran(r, r.rc, sides[|rs|]);
        }
      }
    }

    /** A round still `Ran` once its loop query is `poll`: `Cycled` does not
        read it. */
    lemma RanPoll(r: Round, rc: int, side: Stream, poll: Query)
      requires Ran(r, rc, side)
      ensures Ran(r.(poll := poll), rc, side)
    {
    }

    /** The rounds `rs + [r]` still run as `Rounds` says once the loop query
        of their last round is `poll`. */
    lemma RoundsPoll(rs: seq<Round>, r: Round, results: seq<int>, sides: seq<Stream>, wasOut: bool,
                     before: seq<PublishFields>, isOut: bool, after: seq<PublishFields>, poll: Query)
      requires Rounds(rs + [r], results, sides, wasOut, before, isOut, after)
      ensures Rounds(rs + [r.(poll := poll)], results, sides, wasOut, before, isOut, after)
    {
      var rs, rs' := rs + [r], rs + [r.(poll := poll)];
      forall k: nat | k < |rs'|
        ensures RoundAt(rs', results, sides, k)
      {
        assert RoundAt(rs, results, sides, k);
        if k < |rs| - 1 {
          assert rs'[k] == rs[k];
        } else {
          RanPoll(rs[k], results[k], sides[k], poll);
        }
      }
    }

    /** One `cycle` as the waiting loops of `client_yield` and `cycle_until`
        rely on it, after the cycles `results` that went through the read
        sides `sides` in the rounds `rounds`: it takes the next frame off the
        read side, extending the chain with a result `CycleStep` allows, and
        `round` (whose loop query is `poll`) records what it did: the rounds
        with it still run as `Rounds` says, up to the ping state and
        deliveries it left, and the logs grow by exactly the round's write
        calls, queries, armings and read calls. Every query it made that
        found the network timer running was followed by a read or write
        call. */
    method Turn(ghost results: seq<int>, ghost sides: seq<Stream>, ghost rounds: seq<Round>, ghost wasOut: bool,
                ghost before: seq<PublishFields>, ghost poll: Query)
      returns (rc: int, ghost round: Round)
      requires Valid() && FrameChain(results, sides) && sides[|results|] == ports.ReadSide()
      requires Rounds(rounds, results, sides, wasOut, before, pingOutstanding, deliveries)
      modifies this`pingOutstanding, this`deliveries, ports, readBuf
      ensures Valid()
      ensures FrameChain(results + [rc], sides + [ports.ReadSide()]) && (sides + [ports.ReadSide()])[0] == sides[0]
      ensures round.poll == poll && round.rc == rc && round.body == readBuf[..]
      ensures var ran := Rounds(rounds + [round], results + [rc], sides + [ports.ReadSide()], wasOut, before,
                                pingOutstanding, deliveries);
        ran
      ensures ports.writes == old(ports.writes) + round.ack.calls + round.keep.calls
      ensures ports.arms == old(ports.arms) + round.arms + round.keepArms
      ensures |ports.readCalls| == |old(ports.readCalls)| + round.readCount
      ensures ports.queries == old(ports.queries) + CycleQueries(round)
      ensures ports.IoCount() > old(ports.IoCount()) && Followed(CycleQueries(round), ports.IoCount())
      ensures |ports.clock| <= |old(ports.clock)|
    {
      var r, kind, readPolls, answered, exit, ack, arms, keep, keepArms, wasOut', before' := Cycle();
      rc := r;
      round := Round(poll, r, kind, readPolls, FrameReads(old(ports.ReadSide())), answered, exit, ack, arms,
                     keep, keepArms, wasOut', pingOutstanding, before', deliveries, readBuf[..]);
      RoundsStep(rounds, results, sides, wasOut, before, round, ports.ReadSide());
      FrameChainAppend(results, sides, rc, ports.ReadSide());
      AppendAssoc(old(ports.queries), readPolls, ack.polls);
      AppendAssoc(old(ports.queries), readPolls + ack.polls, keep.polls);
    }

    /** Where `cycle_until` stands before its next query of the network timer,
        the ports having gone from `start` to `now`: the cycles it ran
        (`rounds`, returning `results`, over the read sides `sides`) took
        consecutive frames off the stream and did what `Rounds` says, the ping
        state going from `wasOut` to `isOut` and the deliveries from `before`
        to `after`; none returned `packetType`; each followed a query that
        found the timer running; the logs grew by exactly those queries and
        cycles; and every query that found the timer running was followed by
        a read or write call. */
    ghost predicate Pending(packetType: int, rounds: seq<Round>, results: seq<int>, sides: seq<Stream>,
                            start: Snapshot, now: Snapshot, wasOut: bool, isOut: bool,
                            before: seq<PublishFields>, after: seq<PublishFields>)
      reads this`hasCallback, this`keepAliveInterval
    {
      |sides| == |results| + 1 && sides[0] == start.side && sides[|results|] == now.side &&
      FrameChain(results, sides) && Rounds(rounds, results, sides, wasOut, before, isOut, after) &&
      (forall k :: 0 <= k < |results| ==> results[k] != packetType) &&
      (forall k :: 0 <= k < |rounds| ==> rounds[k].poll.timer == NetworkTimer && rounds[k].poll.remaining > 0) &&
      UntilLogged(rounds, start.writes, start.arms, |start.readCalls|, start.queries,
                  now.writes, now.arms, |now.readCalls|, now.queries) &&
      Followed(now.queries[|start.queries|..], now.Io())
    }

    /** What `cycle_until` did once it stopped, the ports having gone from
        `start` to `now`: the cycles ran as in `Pending`, except that the last
        may have returned `packetType`, and `rc` is the last cycle's result,
        or FAILURE when none ran. When the last cycle returned `packetType`
        the logs grew by exactly the rounds; otherwise one more query came
        last, and it found the network timer expired. */
    ghost predicate Waited(packetType: int, rc: int, rounds: seq<Round>, results: seq<int>, sides: seq<Stream>,
                           start: Snapshot, now: Snapshot, wasOut: bool, isOut: bool,
                           before: seq<PublishFields>, after: seq<PublishFields>)
      reads this`hasCallback, this`keepAliveInterval
    {
      var done := results != [] && results[|results| - 1] == packetType;
      |sides| == |results| + 1 && sides[0] == start.side && sides[|results|] == now.side &&
      FrameChain(results, sides) && Rounds(rounds, results, sides, wasOut, before, isOut, after) &&
      (forall k :: 0 <= k < |results| - 1 ==> results[k] != packetType) &&
      rc == (if results == [] then FAILURE else results[|results| - 1]) &&
      (forall k :: 0 <= k < |rounds| ==> rounds[k].poll.timer == NetworkTimer && rounds[k].poll.remaining > 0) &&
      |start.queries| < |now.queries| &&
      UntilLogged(rounds, start.writes, start.arms, |start.readCalls|, start.queries,
                  now.writes, now.arms, |now.readCalls|, if done then now.queries else now.queries[..|now.queries| - 1]) &&
      Followed(now.queries[|start.queries|..], now.Io()) &&
      (!done ==> EndsExpired(now.queries[|start.queries|..]))
    }

    /** Where the loop of `cycle_until` stands, the ports having gone from
        `start` to `now`: `rc` is the last cycle's result (FAILURE if none
        ran); while it goes on (`!stop`) the state is `Pending`, and once it
        is over it is as `Waited` describes. The network timer read `peek0`
        at the start and reads `peek` now: a cycle ran exactly when `peek0`
        was positive, and until one runs nothing has moved the timer. */
    ghost predicate Looped(packetType: int, stop: bool, rc: int, rounds: seq<Round>, results: seq<int>,
                           sides: seq<Stream>, start: Snapshot, now: Snapshot, wasOut: bool, isOut: bool,
                           before: seq<PublishFields>, after: seq<PublishFields>, peek0: int, peek: int)
      reads this`hasCallback, this`keepAliveInterval
    {
      rc == (if results == [] then FAILURE else results[|results| - 1]) &&
      (!stop ==> Pending(packetType, rounds, results, sides, start, now, wasOut, isOut, before, after)) &&
      (stop ==> Waited(packetType, rc, rounds, results, sides, start, now, wasOut, isOut, before, after)) &&
      (results == [] && !stop ==> peek == peek0) &&
      (results == [] && stop ==> peek0 <= 0) &&
      (results != [] ==> peek0 > 0)
    }

    /** A query that finds the network timer expired ends `cycle_until`. */
    lemma UntilExpired(packetType: int, rounds: seq<Round>, results: seq<int>, sides: seq<Stream>,
                       start: Snapshot, now: Snapshot, wasOut: bool, isOut: bool,
                       before: seq<PublishFields>, after: seq<PublishFields>, poll: Query)
      requires Pending(packetType, rounds, results, sides, start, now, wasOut, isOut, before, after)
      requires poll.timer == NetworkTimer && poll.remaining <= 0
      ensures Waited(packetType, if results == [] then FAILURE else results[|results| - 1], rounds, results, sides,
                     start, now.(queries := now.queries + [poll]), wasOut, isOut, before, after)
    {
      var next := now.(queries := now.queries + [poll]);
      assert next.queries[..|next.queries| - 1] == now.queries;
      assert next.queries[|start.queries|..] == now.queries[|start.queries|..] + [poll];
      FollowedJoin(now.queries[|start.queries|..], [poll], now.Io(), now.Io());
    }

    /** A query that finds the network timer running, followed by a cycle
        `round` that leaves the ports at `next`, extends `Pending`, or ends
        `cycle_until` when the cycle returned `packetType`. */
    lemma UntilCycled(packetType: int, rounds: seq<Round>, results: seq<int>, sides: seq<Stream>,
                      start: Snapshot, now: Snapshot, wasOut: bool, isOut0: bool,
                      before: seq<PublishFields>, after0: seq<PublishFields>,
                      round: Round, next: Snapshot, isOut: bool, after: seq<PublishFields>)
      requires Pending(packetType, rounds, results, sides, start, now, wasOut, isOut0, before, after0)
      requires round.poll == Query(NetworkTimer, round.poll.remaining, now.Io()) && round.poll.remaining > 0
      requires FrameChain(results + [round.rc], sides + [next.side])
      requires Rounds(rounds + [round], results + [round.rc], sides + [next.side], wasOut, before, isOut, after)
      requires next.writes == now.writes + round.ack.calls + round.keep.calls
      requires next.arms == now.arms + round.arms + round.keepArms
      requires |next.readCalls| == |now.readCalls| + round.readCount
      requires next.queries == now.queries + [round.poll] + CycleQueries(round)
      requires now.Io() < next.Io() && Followed(CycleQueries(round), next.Io())
      ensures round.rc != packetType ==>
        Pending(packetType, rounds + [round], results + [round.rc], sides + [next.side], start, next, wasOut, isOut,
                before, after)
      ensures round.rc == packetType ==>
        Waited(packetType, round.rc, rounds + [round], results + [round.rc], sides + [next.side], start, next,
               wasOut, isOut, before, after)
    {
      var rs, res, ss := rounds + [round], results + [round.rc], sides + [next.side];
      assert ss[0] == sides[0];
      UntilLoggedStep(rounds, round, start.writes, start.arms, |start.readCalls|, start.queries,
                      now.writes, now.arms, |now.readCalls|, now.queries,
                      next.writes, next.arms, |next.readCalls|, next.queries);
      FollowedJoin([round.poll], CycleQueries(round), next.Io(), next.Io());
      FollowedJoin(now.queries[|start.queries|..], [round.poll] + CycleQueries(round), now.Io(), next.Io());
      assert next.queries[|start.queries|..] == now.queries[|start.queries|..] + ([round.poll] + CycleQueries(round));
      assert forall k :: 0 <= k < |rs| - 1 ==> rs[k] == rounds[k];
      assert forall k :: 0 <= k < |res| - 1 ==> res[k] == results[k];
    }

    /** One pass of the loop of `cycle_until`, `rc` being the last cycle's
        result so far: query the network timer and, if it is still running,
        run a cycle, whose result becomes `rc'`. `stop` says `cycle_until` is
        over: the query found the timer expired or the cycle returned
        `packetType`. */
    method UntilPass(packetType: int, rc: int, ghost start: Snapshot, ghost wasOut: bool,
                     ghost before: seq<PublishFields>, ghost peek0: int, ghost rounds: seq<Round>,
                     ghost results: seq<int>, ghost sides: seq<Stream>)
      returns (stop: bool, rc': int, ghost rounds': seq<Round>, ghost results': seq<int>, ghost sides': seq<Stream>)
      requires Valid()
      requires rounds != [] ==> rounds[|rounds| - 1].body == readBuf[..]
      requires var looped := Looped(packetType, false, rc, rounds, results, sides, start, ports.Snap(), wasOut,
                                    pingOutstanding, before, deliveries, peek0, ports.Peek(NetworkTimer));
        looped
      modifies this`pingOutstanding, this`deliveries, ports, readBuf
      ensures Valid()
      ensures rounds' != [] ==> rounds'[|rounds'| - 1].body == readBuf[..]
      ensures var looped := Looped(packetType, stop, rc', rounds', results', sides', start, ports.Snap(), wasOut,
                                   pingOutstanding, before, deliveries, peek0, ports.Peek(NetworkTimer));
        looped
      ensures |ports.clock| <= |old(ports.clock)|
      ensures !stop ==> |ports.clock| < |old(ports.clock)|
    {
      ghost var now := ports.Snap();
      var remaining := ports.TimerGet(NetworkTimer);
      ghost var poll := Query(NetworkTimer, remaining, now.Io());
      assert ports.Snap() == now.(queries := now.queries + [poll]);
      rounds', results', sides' := rounds, results, sides;
      if remaining <= 0 {
        stop, rc' := true, rc;
        UntilExpired(packetType, rounds, results, sides, start, now, wasOut, pingOutstanding, before, deliveries, poll);
        return;
      }
      ghost var round;
      rc', round := Turn(results, sides, rounds, wasOut, before, poll);
      UntilCycled(packetType, rounds, results, sides, start, now, wasOut, old(pingOutstanding), before, old(deliveries),
                  round, ports.Snap(), pingOutstanding, deliveries);
      rounds', results', sides' := rounds + [round], results + [rc'], sides + [ports.ReadSide()];
      stop := rc' == packetType;
    }

    /** `cycle_until`: query the network timer and, while it is running, run a
        cycle, until a cycle returns `packetType`. No cycle runs exactly when
        the timer had expired already, and then only that query is made.
        `Waited` describes the rest: the cycles took consecutive frames off
        the stream, the result is the last cycle's (FAILURE if none ran), and
        the logs grew by exactly one running query and one cycle per round,
        plus one last query that found the timer expired unless the last
        cycle returned `packetType`. */
    method CycleUntil(packetType: int)
      returns (rc: int, ghost results: seq<int>, ghost sides: seq<Stream>, ghost rounds: seq<Round>)
      requires Valid()
      modifies this`pingOutstanding, this`deliveries, ports, readBuf
      ensures Valid()
      ensures (results == []) == (old(ports.Peek(NetworkTimer)) <= 0)
      ensures rounds != [] ==> rounds[|rounds| - 1].body == readBuf[..]
      ensures var waited := Waited(packetType, rc, rounds, results, sides, old(ports.Snap()), ports.Snap(),
                                   old(pingOutstanding), pingOutstanding, old(deliveries), deliveries);
        waited
      ensures |ports.clock| <= |old(ports.clock)|
    {
      rc, results, sides, rounds := FAILURE, [], [ports.ReadSide()], [];
      var stop := false;
      ghost var start, wasOut, before, peek0 := ports.Snap(), pingOutstanding, deliveries, ports.Peek(NetworkTimer);
      while !stop
        invariant Valid()
        invariant rounds != [] ==> rounds[|rounds| - 1].body == readBuf[..]
        invariant var looped := Looped(packetType, stop, rc, rounds, results, sides, start, ports.Snap(), wasOut,
                                       pingOutstanding, before, deliveries, peek0, ports.Peek(NetworkTimer));
          looped
        invariant |ports.clock| <= |old(ports.clock)|
        decreases |ports.clock|, !stop
      {
        stop, rc, rounds, results, sides := UntilPass(packetType, rc, start, wasOut, before, peek0, rounds, results,
                                                      sides);
      }
    }

    /** Where `client_yield` stands before its next cycle, the ports having
        gone from `start` (just after the network timer was armed) to `now`:
        the cycles it ran took consecutive frames off the stream and did what
        `Rounds` says, none failed, each was followed by a query that found
        the network timer running, the logs grew by exactly those cycles and
        queries, and every query that found the timer running, except
        possibly the last, was followed by a read or write call. */
    ghost predicate YieldPending(rounds: seq<Round>, results: seq<int>, sides: seq<Stream>,
                                 start: Snapshot, now: Snapshot, wasOut: bool, isOut: bool,
                                 before: seq<PublishFields>, after: seq<PublishFields>)
      reads this`hasCallback, this`keepAliveInterval
    {
      |sides| == |results| + 1 && sides[0] == start.side && sides[|results|] == now.side &&
      FrameChain(results, sides) && Rounds(rounds, results, sides, wasOut, before, isOut, after) &&
      (forall k :: 0 <= k < |results| ==> results[k] != FAILURE) &&
      (forall k :: 0 <= k < |rounds| ==> rounds[k].poll.timer == NetworkTimer && rounds[k].poll.remaining > 0) &&
      YieldLogged(rounds, start.writes, start.arms, |start.readCalls|, start.queries,
                  now.writes, now.arms, |now.readCalls|, now.queries) &&
      Followed(now.queries[|start.queries|..], now.Io() + 1)
    }

    /** What `client_yield` did once it stopped, the ports having gone from
        `start` to `now`: at least one cycle ran; the cycles ran as in
        `YieldPending`, except that the last either failed, and then no query
        followed it and `rc` is FAILURE, or was followed by a query that found
        the network timer expired, and then `rc` is SUCCESS. */
    ghost predicate Yielded(rc: int, rounds: seq<Round>, results: seq<int>, sides: seq<Stream>,
                            start: Snapshot, now: Snapshot, wasOut: bool, isOut: bool,
                            before: seq<PublishFields>, after: seq<PublishFields>)
      reads this`hasCallback, this`keepAliveInterval
    {
      |results| >= 1 && |sides| == |results| + 1 && sides[0] == start.side && sides[|results|] == now.side &&
      FrameChain(results, sides) && Rounds(rounds, results, sides, wasOut, before, isOut, after) &&
      (forall k :: 0 <= k < |results| - 1 ==> results[k] != FAILURE) &&
      rc == (if results[|results| - 1] == FAILURE then FAILURE else SUCCESS) &&
      (forall k :: 0 <= k < |rounds| - 1 ==> rounds[k].poll.timer == NetworkTimer && rounds[k].poll.remaining > 0) &&
      YieldLogged(rounds, start.writes, start.arms, |start.readCalls|, start.queries,
                  now.writes, now.arms, |now.readCalls|, now.queries) &&
      Followed(now.queries[|start.queries|..], now.Io()) &&
      (rc == SUCCESS ==> EndsExpired(now.queries[|start.queries|..]))
    }

    /** A failed cycle `round`, leaving the ports at `next`, ends `client_yield`. */
    lemma YieldFailed(rounds: seq<Round>, results: seq<int>, sides: seq<Stream>,
                      start: Snapshot, now: Snapshot, wasOut: bool, isOut0: bool,
                      before: seq<PublishFields>, after0: seq<PublishFields>,
                      round: Round, next: Snapshot, isOut: bool, after: seq<PublishFields>)
      requires YieldPending(rounds, results, sides, start, now, wasOut, isOut0, before, after0)
      requires round.rc == FAILURE
      requires FrameChain(results + [round.rc], sides + [next.side])
      requires Rounds(rounds + [round], results + [round.rc], sides + [next.side], wasOut, before, isOut, after)
      requires next.writes == now.writes + round.ack.calls + round.keep.calls
      requires next.arms == now.arms + round.arms + round.keepArms
      requires |next.readCalls| == |now.readCalls| + round.readCount
      requires next.queries == now.queries + CycleQueries(round)
      requires now.Io() < next.Io() && Followed(CycleQueries(round), next.Io())
      ensures Yielded(FAILURE, rounds + [round], results + [round.rc], sides + [next.side], start, next, wasOut, isOut,
                      before, after)
    {
      var rs, res, ss := rounds + [round], results + [round.rc], sides + [next.side];
      assert ss[0] == sides[0];
      YieldLoggedStep(rounds, round, start.writes, start.arms, |start.readCalls|, start.queries,
                      now.writes, now.arms, |now.readCalls|, now.queries,
                      next.writes, next.arms, |next.readCalls|, next.queries);
      FollowedJoin(now.queries[|start.queries|..], CycleQueries(round), now.Io() + 1, next.Io());
      assert next.queries[|start.queries|..] == now.queries[|start.queries|..] + CycleQueries(round);
      assert forall k :: 0 <= k < |rs| - 1 ==> rs[k] == rounds[k];
      assert forall k :: 0 <= k < |res| - 1 ==> res[k] == results[k];
    }

    /** A cycle `round` that did not fail, leaving the ports at `next`, then
        the query `poll`, leaving them at `last`: `client_yield` goes on when
        the query found the network timer running and ends otherwise. */
    lemma YieldPolled(rounds: seq<Round>, results: seq<int>, sides: seq<Stream>,
                      start: Snapshot, now: Snapshot, wasOut: bool, isOut0: bool,
                      before: seq<PublishFields>, after0: seq<PublishFields>,
                      round: Round, next: Snapshot, isOut: bool, after: seq<PublishFields>, poll: Query, last: Snapshot)
      requires YieldPending(rounds, results, sides, start, now, wasOut, isOut0, before, after0)
      requires round.rc != FAILURE
      requires FrameChain(results + [round.rc], sides + [next.side])
      requires Rounds(rounds + [round], results + [round.rc], sides + [next.side], wasOut, before, isOut, after)
      requires next.writes == now.writes + round.ack.calls + round.keep.calls
      requires next.arms == now.arms + round.arms + round.keepArms
      requires |next.readCalls| == |now.readCalls| + round.readCount
      requires next.queries == now.queries + CycleQueries(round)
      requires now.Io() < next.Io() && Followed(CycleQueries(round), next.Io())
      requires poll == Query(NetworkTimer, poll.remaining, next.Io()) && last == next.(queries := next.queries + [poll])
      ensures var pending := YieldPending(rounds + [round.(poll := poll)], results + [round.rc], sides + [next.side],
                                          start, last, wasOut, isOut, before, after);
        poll.remaining > 0 ==> pending
      ensures var yielded := Yielded(SUCCESS, rounds + [round.(poll := poll)], results + [round.rc], sides + [next.side],
                                     start, last, wasOut, isOut, before, after);
        poll.remaining <= 0 ==> yielded
    {
      var r := round.(poll := poll);
      var rs, res, ss := rounds + [r], results + [round.rc], sides + [next.side];
      assert ss[0] == sides[0];
      RoundsPoll(rounds, round, res, ss, wasOut, before, isOut, after, poll);
      assert CycleQueries(r) == CycleQueries(round);
      YieldLoggedStep(rounds, r, start.writes, start.arms, |start.readCalls|, start.queries,
                      now.writes, now.arms, |now.readCalls|, now.queries,
                      last.writes, last.arms, |last.readCalls|, last.queries);
      FollowedJoin(CycleQueries(round), [poll], next.Io(), next.Io() + 1);
      FollowedJoin(now.queries[|start.queries|..], CycleQueries(round) + [poll], now.Io() + 1, next.Io() + 1);
      assert last.queries[|start.queries|..] == now.queries[|start.queries|..] + (CycleQueries(round) + [poll]);
      if poll.remaining <= 0 {
        FollowedJoin(now.queries[|start.queries|..], CycleQueries(round), now.Io() + 1, next.Io());
        FollowedJoin(now.queries[|start.queries|..] + CycleQueries(round), [poll], next.Io(), next.Io());
        AppendAssoc(now.queries[|start.queries|..], CycleQueries(round), [poll]);
      }
      assert forall k :: 0 <= k < |rs| - 1 ==> rs[k] == rounds[k];
      assert forall k :: 0 <= k < |res| - 1 ==> res[k] == results[k];
    }

    /** One pass of the loop of `client_yield`: run a cycle and, unless it
        failed, query the network timer. `stop` says the loop is over: the
        cycle failed or the query found the timer expired. */
    method YieldPass(ghost start: Snapshot, ghost wasOut: bool, ghost before: seq<PublishFields>,
                     ghost rounds: seq<Round>, ghost results: seq<int>, ghost sides: seq<Stream>)
      returns (rc: int, stop: bool, ghost rounds': seq<Round>, ghost results': seq<int>, ghost sides': seq<Stream>)
      requires Valid()
      requires var pending := YieldPending(rounds, results, sides, start, ports.Snap(), wasOut, pingOutstanding,
                                           before, deliveries);
        pending
      modifies this`pingOutstanding, this`deliveries, ports, readBuf
      ensures Valid()
      ensures results' == results + [rc] && rounds' != [] && rounds'[|rounds'| - 1].body == readBuf[..]
      ensures var state := if stop then Yielded(if rc == FAILURE then FAILURE else SUCCESS, rounds', results', sides',
                                                start, ports.Snap(), wasOut, pingOutstanding, before, deliveries)
                           else YieldPending(rounds', results', sides', start, ports.Snap(), wasOut, pingOutstanding,
                                             before, deliveries);
        state
      ensures !stop ==> |ports.clock| < |old(ports.clock)|
      ensures |ports.clock| <= |old(ports.clock)|
    {
      ghost var now := ports.Snap();
      ghost var round;
      rc, round := Turn(results, sides, rounds, wasOut, before, Query(NetworkTimer, 0, 0));
      ghost var next := ports.Snap();
      results', sides' := results + [rc], sides + [ports.ReadSide()];
      if rc == FAILURE {
        stop, rounds' := true, rounds + [round];
        YieldFailed(rounds, results, sides, start, now, wasOut, old(pingOutstanding), before, old(deliveries),
                    round, next, pingOutstanding, deliveries);
        return;
      }
      var remaining := ports.TimerGet(NetworkTimer);
      ghost var poll := Query(NetworkTimer, remaining, next.Io());
      assert ports.Snap() == next.(queries := next.queries + [poll]);
      stop, rounds' := remaining <= 0, rounds + [round.(poll := poll)];
      YieldPolled(rounds, results, sides, start, now, wasOut, old(pingOutstanding), before, old(deliveries),
                  round, next, pingOutstanding, deliveries, poll, ports.Snap());
    }

    /** `client_yield`: arm the network timer for `timeoutMs` and run cycles
        until one fails or the query of the network timer after a cycle finds
        it expired; at least one cycle runs. `Yielded` describes the cycles,
        measured from the ports just after the arming: each took the next
        frame off the stream, and the logs grew by exactly a cycle and its
        query per round, except that a failed last cycle is followed by no
        query. */
    method Yield(timeoutMs: int)
      returns (rc: int, ghost results: seq<int>, ghost sides: seq<Stream>, ghost rounds: seq<Round>)
      requires Valid()
      modifies this`pingOutstanding, this`deliveries, ports, readBuf
      ensures Valid()
      ensures rounds != [] && rounds[|rounds| - 1].body == readBuf[..]
      ensures var yielded := Yielded(rc, rounds, results, sides,
                                     old(ports.Snap()).(arms := old(ports.arms) + [Arm(NetworkTimer, timeoutMs)]),
                                     ports.Snap(), old(pingOutstanding), pingOutstanding, old(deliveries), deliveries);
        yielded
    {
      ports.TimerSet(NetworkTimer, timeoutMs);
      ghost var start := ports.Snap();
      assert start == old(ports.Snap()).(arms := old(ports.arms) + [Arm(NetworkTimer, timeoutMs)]);
      results, sides, rounds := [], [ports.ReadSide()], [];
      var r, stop := SUCCESS, false;
      while !stop
        invariant Valid()
        invariant !stop ==> var pending := YieldPending(rounds, results, sides, start, ports.Snap(), old(pingOutstanding),
                                              pingOutstanding, old(deliveries), deliveries);
          pending
        invariant stop ==> var yielded := Yielded(if r == FAILURE then FAILURE else SUCCESS, rounds, results, sides, start,
                               ports.Snap(), old(pingOutstanding), pingOutstanding, old(deliveries), deliveries);
          yielded
        invariant stop ==> rounds != [] && rounds[|rounds| - 1].body == readBuf[..]
        decreases |ports.clock|, !stop
      {
        r, stop, rounds, results, sides := YieldPass(start, old(pingOutstanding), old(deliveries), rounds, results, sides);
      }
      rc := if r == FAILURE then FAILURE else SUCCESS;
    }

    /** What a request of `len` bytes did once handed to `send_packet`, and,
        when `await`, once it is sent whole, to `cycle_until` for
        `packetType`, the ports going from `start` to `end`. The send
        (`request`) has the outcome `SendOutcome` describes, its write calls
        and queries coming first, each query that found the timer running
        followed by a write call. A request not sent whole, or one not
        awaited, ends there: nothing is read, `reply` is FAILURE and the ports
        hold exactly the send. Otherwise the wait did what `Waited` says,
        from the ports as the send left them, and `reply` is its result. */
    ghost predicate Exchanged(len: int, await: bool, packetType: int, request: Sent, reply: int, rounds: seq<Round>,
                              results: seq<int>, sides: seq<Stream>, start: Snapshot, end: Snapshot,
                              wasOut: bool, isOut: bool, before: seq<PublishFields>, after: seq<PublishFields>)
      reads this`hasCallback, this`keepAliveInterval
    {
      var whole := Delivered(request.calls) == len;
      var sent := Snapshot(start.side, start.readCalls, start.writes + request.calls, start.queries + request.polls,
                           start.arms + (if whole then [Rearm()] else []));
      SendOutcome(request, len, whole) && Followed(request.polls, sent.Io()) &&
      (!whole || !await ==>
        reply == FAILURE && rounds == [] && results == [] && sides == [start.side] && end == sent &&
        isOut == wasOut && after == before) &&
      (whole && await ==> Waited(packetType, reply, rounds, results, sides, sent, end, wasOut, isOut, before, after))
    }

    /** The exchange at the heart of `client_connect`, `client_subscribe` and
        `client_unsubscribe`, once the request serialized to `len` bytes: send
        it (`request`) and, once it is sent, wait for `packetType` (`reply` is
        what `cycle_until` returned), as `Exchanged` describes. SUCCESS
        exactly when the request went out whole and the awaited packet
        arrived. */
    method SendAndWait(len: int, packetType: int)
      returns (rc: int, ghost request: Sent, ghost reply: int, ghost rounds: seq<Round>, ghost results: seq<int>,
               ghost sides: seq<Stream>)
      requires Valid() && len > 0
      modifies this`pingOutstanding, this`deliveries, ports, readBuf
      ensures Valid()
      ensures rc == SUCCESS || rc == FAILURE
      ensures var exchanged := Exchanged(len, true, packetType, request, reply, rounds, results, sides, old(ports.Snap()),
                                         ports.Snap(), old(pingOutstanding), pingOutstanding, old(deliveries), deliveries);
        exchanged
      ensures rc == SUCCESS <==> Delivered(request.calls) == len && reply == packetType
    {
      reply, rounds, results, sides := FAILURE, [], [], [ports.ReadSide()];
      rc, request := SendPacket(len);
      assert ports.Snap() == Snapshot(old(ports.ReadSide()), old(ports.readCalls), old(ports.writes) + request.calls,
                                      old(ports.queries) + request.polls,
                                      old(ports.arms) + (if rc == SUCCESS then [Rearm()] else []));
      if rc != SUCCESS {
        return;
      }
      var r;
      r, results, sides, rounds := CycleUntil(packetType);
      reply := r;
      rc := if r == packetType then SUCCESS else FAILURE;
    }

    /** `client_connect`. Already connected: FAILURE, and nothing is armed or
        sent. Otherwise it runs `Handshake` with the given or default options.
        The session is connected exactly when the result is SUCCESS. */
    method Connect(options: Option<Options>) returns (rc: int, ghost request: Sent, ghost reply: int,
        ghost rounds: seq<Round>, ghost results: seq<int>, ghost sides: seq<Stream>)
      requires Valid()
      modifies this`isConnected, this`keepAliveInterval, this`pingOutstanding, this`deliveries, ports, readBuf
      ensures Valid()
      ensures old(isConnected) ==> rc == FAILURE && request == Sent([], []) && reply == FAILURE &&
                                   unchanged(this) && unchanged(ports) && unchanged(readBuf)
      ensures isConnected == (old(isConnected) || rc == SUCCESS)
      ensures var handshaken := Handshaken(if options.Some? then options.value else codec.defaultOptions,
                                           rc, request, reply, rounds, results, sides, old(ports.Snap()), ports.Snap(),
                                           old(pingOutstanding), pingOutstanding, old(deliveries), deliveries);
        !old(isConnected) ==> handshaken
    {
      rc, request, reply, rounds, results, sides := FAILURE, Sent([], []), FAILURE, [], [], [ports.ReadSide()];
      if isConnected {
        return;
      }
      var opts := if options.Some? then options.value else codec.defaultOptions;
      rc, request, reply, rounds, results, sides := Handshake(opts);
      if rc == SUCCESS {
        isConnected := true;
      }
    }

    /** What `client_connect` with options `opts` did once it found the session
        disconnected, the ports going from `start` to `end`: the keep-alive
        interval is the one in `opts`; first the network timer was armed to
        the command timeout and the keep-alive timer to the interval in
        milliseconds; a CONNECT that does not serialize gives FAILURE with
        nothing else done; otherwise CONNECT was sent and, once it was sent,
        CONNACK awaited as `Exchanged` describes. Without CONNACK the result
        is FAILURE; with it, the CONNACK return code, or FAILURE when it does
        not decode. */
    ghost predicate Handshaken(opts: Options, rc: int, request: Sent, reply: int, rounds: seq<Round>,
                               results: seq<int>, sides: seq<Stream>, start: Snapshot, end: Snapshot,
                               wasOut: bool, isOut: bool, before: seq<PublishFields>, after: seq<PublishFields>)
      reads this, readBuf
    {
      var len := codec.serializeConnect(writeBufSize, opts);
      var armed := start.(arms := start.arms + [Arm(NetworkTimer, commandTimeout),
                                                Arm(KeepAliveTimer, opts.keepAlive as int * 1000)]);
      keepAliveInterval == opts.keepAlive &&
      (len <= 0 ==> rc == FAILURE && request == Sent([], []) && reply == FAILURE && rounds == [] && results == [] &&
                    end == armed && isOut == wasOut && after == before) &&
      (len > 0 ==> Exchanged(len, true, CONNACK, request, reply, rounds, results, sides, armed, end,
                             wasOut, isOut, before, after)) &&
      (reply != CONNACK ==> rc == FAILURE) &&
      (reply == CONNACK ==>
        var connack := codec.deserializeConnack(readBuf[..]);
        rc == if connack.status == 1 then connack.returnCode else FAILURE)
    }

    /** The exchange of `client_connect` with options `opts`: arm both timers,
        adopt the keep-alive interval, serialize CONNECT, send it and wait for
        CONNACK, whose return code is the result. */
    method Handshake(opts: Options) returns (rc: int, ghost request: Sent, ghost reply: int,
        ghost rounds: seq<Round>, ghost results: seq<int>, ghost sides: seq<Stream>)
      requires Valid()
      modifies this`keepAliveInterval, this`pingOutstanding, this`deliveries, ports, readBuf
      ensures Valid()
      ensures var handshaken := Handshaken(opts, rc, request, reply, rounds, results, sides, old(ports.Snap()),
                                           ports.Snap(), old(pingOutstanding), pingOutstanding, old(deliveries),
                                           deliveries);
        handshaken
    {
      rc, request, reply, rounds, results, sides := FAILURE, Sent([], []), FAILURE, [], [], [ports.ReadSide()];
      ArmTimers(opts);
      assert ports.Snap() == old(ports.Snap()).(arms := old(ports.arms) + [Arm(NetworkTimer, commandTimeout),
                                                Arm(KeepAliveTimer, opts.keepAlive as int * 1000)]);
      var len := codec.serializeConnect(writeBufSize, opts);
      if len > 0 {
        rc, request, reply, rounds, results, sides := SendAndWait(len, CONNACK);
        if rc == SUCCESS {
          var connack := codec.deserializeConnack(readBuf[..]);
          rc := if connack.status == 1 then connack.returnCode else FAILURE;
        }
      }
    }

    /** The first steps of `client_connect`: arm the network timer for the
        command timeout, adopt the keep-alive interval of `opts` and arm the
        keep-alive timer for it in milliseconds. Nothing is read or written. */
    method ArmTimers(opts: Options)
      requires Valid()
      modifies this`keepAliveInterval, ports`keepAliveDeadline, ports`networkDeadline, ports`arms
      ensures Valid() && keepAliveInterval == opts.keepAlive
      ensures ports.arms == old(ports.arms) + [Arm(NetworkTimer, commandTimeout), Arm(KeepAliveTimer, opts.keepAlive as int * 1000)]
    {
      ports.TimerSet(NetworkTimer, commandTimeout);
      keepAliveInterval := opts.keepAlive;
      ports.TimerSet(KeepAliveTimer, keepAliveInterval as int * 1000);
    }

    /** `client_subscribe` for one topic filter. Not connected: FAILURE with
        nothing changed. Otherwise it arms the network timer for the command
        timeout, takes the next packet id, and, if SUBSCRIBE serializes, sends
        it (`request`) and, once it is sent, waits for SUBACK (`reply`), as
        `Exchanged` describes. Once the SUBACK has arrived the result is 0x80
        if it refuses the subscription and SUCCESS otherwise, even when the
        SUBACK cannot be decoded. */
    method Subscribe(topicFilter: seq<uint8>, qos: QoS) returns (rc: int, ghost request: Sent, ghost reply: int,
        ghost rounds: seq<Round>, ghost results: seq<int>, ghost sides: seq<Stream>)
      requires Valid()
      modifies this`nextPacketId, this`pingOutstanding, this`deliveries, ports, readBuf
      ensures Valid()
      ensures !old(isConnected) ==> rc == FAILURE && request == Sent([], []) && reply == FAILURE &&
                                    unchanged(this) && unchanged(ports) && unchanged(readBuf)
      ensures var len := codec.serializeSubscribe(writeBufSize, NextId(old(nextPacketId)), topicFilter, qos);
        var armed := old(ports.Snap()).(arms := old(ports.arms) + [Arm(NetworkTimer, commandTimeout)]);
        old(isConnected) ==>
          nextPacketId == NextId(old(nextPacketId)) &&
          (len <= 0 ==> rc == FAILURE && request == Sent([], []) && reply == FAILURE && rounds == [] &&
                        ports.Snap() == armed && pingOutstanding == old(pingOutstanding) &&
                        deliveries == old(deliveries)) &&
          (len > 0 ==> var exchanged := Exchanged(len, true, SUBACK, request, reply, rounds, results, sides, armed,
                                                  ports.Snap(), old(pingOutstanding), pingOutstanding,
                                                  old(deliveries), deliveries);
                       exchanged) &&
          (reply != SUBACK ==> rc == FAILURE)
      ensures reply == SUBACK ==>
        old(isConnected) &&
        Delivered(request.calls) == codec.serializeSubscribe(writeBufSize, NextId(old(nextPacketId)), topicFilter, qos) > 0 &&
        (rc == SUCCESS || rc == SUBACK_FAILURE) &&
        (rc == SUBACK_FAILURE <==>
          codec.deserializeSuback(readBuf[..]).status == 1 && codec.deserializeSuback(readBuf[..]).grantedQos == SUBACK_FAILURE)
    {
      rc, request, reply, rounds, results, sides := FAILURE, Sent([], []), FAILURE, [], [], [ports.ReadSide()];
      if !isConnected {
        return;
      }
      ports.TimerSet(NetworkTimer, commandTimeout);
      var id := NextPacketId();
      var len := codec.serializeSubscribe(writeBufSize, id, topicFilter, qos);
      if len <= 0 {
        return;
      }
      rc, request, reply, rounds, results, sides := SendAndWait(len, SUBACK);
      if rc == SUCCESS {
        var suback := codec.deserializeSuback(readBuf[..]);
        if suback.status == 1 {
          rc := suback.grantedQos;
        }
        if rc != SUBACK_FAILURE {
          rc := SUCCESS;
        }
      }
    }

    /** `client_unsubscribe` for one topic filter. Not connected: FAILURE with
        nothing changed. Otherwise it arms the network timer for the command
        timeout, takes the next packet id, and, if UNSUBSCRIBE serializes,
        sends it (`request`) and, once it is sent, waits for UNSUBACK
        (`reply`), as `Exchanged` describes. The result is SUCCESS exactly
        when the UNSUBACK arrived, whether or not it can be decoded. */
    method Unsubscribe(topicFilter: seq<uint8>) returns (rc: int, ghost request: Sent, ghost reply: int,
        ghost rounds: seq<Round>, ghost results: seq<int>, ghost sides: seq<Stream>)
      requires Valid()
      modifies this`nextPacketId, this`pingOutstanding, this`deliveries, ports, readBuf
      ensures Valid()
      ensures !old(isConnected) ==> rc == FAILURE && request == Sent([], []) && reply == FAILURE &&
                                    unchanged(this) && unchanged(ports) && unchanged(readBuf)
      ensures rc == SUCCESS || rc == FAILURE
      ensures rc == SUCCESS <==> reply == UNSUBACK
      ensures var len := codec.serializeUnsubscribe(writeBufSize, NextId(old(nextPacketId)), topicFilter);
        var armed := old(ports.Snap()).(arms := old(ports.arms) + [Arm(NetworkTimer, commandTimeout)]);
        old(isConnected) ==>
          nextPacketId == NextId(old(nextPacketId)) &&
          (len <= 0 ==> rc == FAILURE && request == Sent([], []) && reply == FAILURE && rounds == [] &&
                        ports.Snap() == armed && pingOutstanding == old(pingOutstanding) &&
                        deliveries == old(deliveries)) &&
          (len > 0 ==> var exchanged := Exchanged(len, true, UNSUBACK, request, reply, rounds, results, sides, armed,
                                                  ports.Snap(), old(pingOutstanding), pingOutstanding,
                                                  old(deliveries), deliveries);
                       exchanged)
      ensures reply == UNSUBACK ==>
        old(isConnected) &&
        Delivered(request.calls) == codec.serializeUnsubscribe(writeBufSize, NextId(old(nextPacketId)), topicFilter) > 0
    {
      rc, request, reply, rounds, results, sides := FAILURE, Sent([], []), FAILURE, [], [], [ports.ReadSide()];
      if !isConnected {
        return;
      }
      ports.TimerSet(NetworkTimer, commandTimeout);
      var id := NextPacketId();
      var len := codec.serializeUnsubscribe(writeBufSize, id, topicFilter);
      if len <= 0 {
        return;
      }
      rc, request, reply, rounds, results, sides := SendAndWait(len, UNSUBACK);
      if rc == SUCCESS {
        var unsuback := codec.deserializeUnsuback(readBuf[..]);
        if unsuback.status == 1 {
          rc := SUCCESS;
        }
      }
    }

    /** The wait of `client_publish` for its acknowledgement of type
        `packetType`: `cycle_until` (`reply` is what it returned), as `Waited`
        describes, then SUCCESS exactly when the acknowledgement arrived and
        decodes. */
    method AwaitAck(packetType: int)
      returns (rc: int, ghost reply: int, ghost rounds: seq<Round>, ghost results: seq<int>, ghost sides: seq<Stream>)
      requires Valid()
      modifies this`pingOutstanding, this`deliveries, ports, readBuf
      ensures Valid()
      ensures rc == SUCCESS || rc == FAILURE
      ensures rc == SUCCESS <==> reply == packetType && codec.deserializeAck(readBuf[..]).status == 1
      ensures var waited := Waited(packetType, reply, rounds, results, sides, old(ports.Snap()), ports.Snap(),
                                   old(pingOutstanding), pingOutstanding, old(deliveries), deliveries);
        waited
    {
      var r;
      r, results, sides, rounds := CycleUntil(packetType);
      reply := r;
      rc := FAILURE;
      if r == packetType && codec.deserializeAck(readBuf[..]).status == 1 {
        rc := SUCCESS;
      }
    }

    /** The second half of `client_publish`, once the PUBLISH serialized to
        `len` bytes: send it (`request`) and, for QoS 1 and 2 and once it is
        sent, wait for PUBACK or PUBCOMP (`reply`), as `Exchanged` describes. */
    method Deliver(len: int, qos: QoS)
      returns (rc: int, ghost request: Sent, ghost reply: int, ghost rounds: seq<Round>, ghost results: seq<int>,
               ghost sides: seq<Stream>)
      requires Valid() && len > 0
      modifies this`pingOutstanding, this`deliveries, ports, readBuf
      ensures Valid()
      ensures rc == SUCCESS || rc == FAILURE
      ensures var exchanged := Exchanged(len, qos != QoS0, if qos == QoS2 then PUBCOMP else PUBACK, request, reply,
                                         rounds, results, sides, old(ports.Snap()), ports.Snap(),
                                         old(pingOutstanding), pingOutstanding, old(deliveries), deliveries);
        exchanged
      ensures qos == QoS0 ==> unchanged(readBuf) && (rc == SUCCESS <==> Delivered(request.calls) == len)
      ensures qos == QoS1 ==> (rc == SUCCESS <==> reply == PUBACK && codec.deserializeAck(readBuf[..]).status == 1)
      ensures qos == QoS2 ==> (rc == SUCCESS <==> reply == PUBCOMP && codec.deserializeAck(readBuf[..]).status == 1)
    {
      reply, rounds, results, sides := FAILURE, [], [], [ports.ReadSide()];
      rc, request := SendPacket(len);
      assert ports.Snap() == Snapshot(old(ports.ReadSide()), old(ports.readCalls), old(ports.writes) + request.calls,
                                      old(ports.queries) + request.polls,
                                      old(ports.arms) + (if rc == SUCCESS then [Rearm()] else []));
      if rc != SUCCESS {
        return;
      }
      if qos == QoS1 {
        rc, reply, rounds, results, sides := AwaitAck(PUBACK);
      } else if qos == QoS2 {
        rc, reply, rounds, results, sides := AwaitAck(PUBCOMP);
      }
    }

    /** `client_publish`. Not connected: FAILURE with nothing changed.
        Otherwise it arms the network timer for the command timeout; a QoS 1
        or 2 message gets the next packet id (returned in `sent`). If PUBLISH
        serializes, it is sent (`request`). QoS 0 returns right after the
        send, reading nothing; QoS 1 waits for PUBACK and QoS 2 for PUBCOMP
        (`reply`), and succeeds only when that acknowledgement arrives and
        decodes. */
    method Publish(topic: seq<uint8>, message: Message)
      returns (rc: int, sent: Message, ghost request: Sent, ghost reply: int, ghost rounds: seq<Round>,
               ghost results: seq<int>, ghost sides: seq<Stream>)
      requires Valid()
      modifies this`nextPacketId, this`pingOutstanding, this`deliveries, ports, readBuf
      ensures Valid()
      ensures rc == SUCCESS || rc == FAILURE
      ensures !old(isConnected) ==> rc == FAILURE && sent == message && request == Sent([], []) && reply == FAILURE &&
                                    unchanged(this) && unchanged(ports) && unchanged(readBuf)
      ensures message.qos == QoS0 ==> sent == message && nextPacketId == old(nextPacketId)
      ensures message.qos != QoS0 && old(isConnected) ==>
        nextPacketId == NextId(old(nextPacketId)) && sent == message.(id := nextPacketId)
      ensures var len := codec.serializePublish(writeBufSize, false, sent.qos, sent.retained, sent.id, topic, sent.payload);
        var armed := old(ports.Snap()).(arms := old(ports.arms) + [Arm(NetworkTimer, commandTimeout)]);
        old(isConnected) ==>
          (len <= 0 ==> rc == FAILURE && request == Sent([], []) && reply == FAILURE && rounds == [] &&
                        ports.Snap() == armed && pingOutstanding == old(pingOutstanding) &&
                        deliveries == old(deliveries)) &&
          (len > 0 ==> var exchanged := Exchanged(len, message.qos != QoS0, if message.qos == QoS2 then PUBCOMP else PUBACK,
                                                  request, reply, rounds, results, sides, armed, ports.Snap(),
                                                  old(pingOutstanding), pingOutstanding, old(deliveries), deliveries);
                       exchanged) &&
          (message.qos == QoS0 ==> unchanged(readBuf) && (rc == SUCCESS <==> len > 0 && Delivered(request.calls) == len))
      ensures message.qos == QoS1 ==>
        (rc == SUCCESS <==> reply == PUBACK && codec.deserializeAck(readBuf[..]).status == 1)
      ensures message.qos == QoS2 ==>
        (rc == SUCCESS <==> reply == PUBCOMP && codec.deserializeAck(readBuf[..]).status == 1)
    {
      rc, sent, request, reply, rounds, results, sides := FAILURE, message, Sent([], []), FAILURE, [], [], [ports.ReadSide()];
      if !isConnected {
        return;
      }
      ports.TimerSet(NetworkTimer, commandTimeout);
      if message.qos == QoS1 || message.qos == QoS2 {
        var id := NextPacketId();
        sent := message.(id := id);
      }
      var len := codec.serializePublish(writeBufSize, false, sent.qos, sent.retained, sent.id, topic, sent.payload);
      if len <= 0 {
        return;
      }
      rc, request, reply, rounds, results, sides := Deliver(len, message.qos);
    }

    /** `client_disconnect`: arm the network timer for the command timeout,
        send DISCONNECT if it serializes, and leave the session disconnected
        whatever the outcome. */
    method Disconnect() returns (rc: int)
      modifies this`isConnected
      modifies ports`writes, ports`writeTape, ports`clock, ports`now, ports`queries
      modifies ports`keepAliveDeadline, ports`networkDeadline, ports`arms
      ensures !isConnected
      ensures rc == SUCCESS || rc == FAILURE
      ensures old(ports.writes) <= ports.writes && old(ports.queries) <= ports.queries
      ensures ports.arms == old(ports.arms) + [Arm(NetworkTimer, commandTimeout)] + (if rc == SUCCESS then [Rearm()] else [])
      ensures var len := codec.serializeDisconnect(writeBufSize);
        (len <= 0 ==> rc == FAILURE && ports.writes == old(ports.writes) && ports.queries == old(ports.queries)) &&
        (len > 0 ==> SendOutcome(Sent(ports.writes[|old(ports.writes)|..], ports.queries[|old(ports.queries)|..]),
                                 len, rc == SUCCESS))
    {
      rc := FAILURE;
      ports.TimerSet(NetworkTimer, commandTimeout);
      var len := codec.serializeDisconnect(writeBufSize);
      if len > 0 {
        ghost var s;
        rc, s := SendPacket(len);
        assert ports.writes[|old(ports.writes)|..] == s.calls && ports.queries[|old(ports.queries)|..] == s.polls;
      }
      isConnected := false;
    }
  }
}
