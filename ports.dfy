/**
 * The capabilities the client session is given by its caller: a network
 * (read and write with a timeout) and two countdown timers (keep-alive and
 * network). Their behaviour is not the session's to decide, so it is taken
 * from finite scripts fixed when the ports are created:
 *
 *  - `inbound` is the byte stream the peer sends;
 *  - `readTape[k]` says how the k-th read call goes: a negative value is an
 *    error returned as is, otherwise at most that many bytes are delivered;
 *  - `writeTape[k]` likewise for the k-th write call;
 *  - `clock[k]` is how many milliseconds pass before the k-th timer query.
 *
 * An exhausted tape means the peer or the clock has nothing more to offer:
 * a read or write then transfers nothing, and every timer reads 0 (expired).
 * Since the session's loops all consult a timer, this bounds every run.
 *
 * What the session does with the ports is logged: `writes` holds every write
 * call, `readCalls` every read call, `arms` every arming of a timer and
 * `queries` every timer query, stamped with the number of read and write
 * calls made before it, so that what followed a query can be stated. The
 * outcome of a read is a function of the read side alone (`Grant` and
 * `AfterRead`), so what the session reads can be stated in terms of the
 * stream it started from.
 */
module Ports {
  import opened Helpers

  datatype Timer = KeepAliveTimer | NetworkTimer

  /** One call of the write port: the offset into `write_buf` the data starts
      at, the byte count asked for, the timeout passed and what the port returned. */
  datatype WriteCall = WriteCall(offset: int, count: int, timeout: int, result: int)

  /** One call of the read port: the byte count asked for and what it returned. */
  datatype ReadCall = ReadCall(count: nat, result: int)

  /** One arming of a timer: which timer and how many milliseconds. */
  datatype Arm = Arm(timer: Timer, ms: int)

  /** One query of a timer: which timer, the milliseconds it reported left and
      how many read and write calls had been made before it (`io`). */
  datatype Query = Query(timer: Timer, remaining: int, io: nat)

  /** Every network-timer query in `qs` that found the timer running was
      followed by a read or write call, `io` being the calls made by now: no
      such query is the last thing that happened. */
  ghost predicate Followed(qs: seq<Query>, io: nat)
  {
    forall i :: 0 <= i < |qs| && qs[i].timer == NetworkTimer && qs[i].remaining > 0 ==> qs[i].io < io
  }

  /** The last query in `qs` was of the network timer and found it expired. */
  ghost predicate EndsExpired(qs: seq<Query>)
  {
    qs != [] && qs[|qs| - 1].timer == NetworkTimer && qs[|qs| - 1].remaining <= 0
  }

  /** `Followed` over two consecutive runs of queries, the calls made growing
      from `io1` to `io2`. */
  lemma FollowedJoin(a: seq<Query>, b: seq<Query>, io1: nat, io2: nat)
    requires Followed(a, io1) && io1 <= io2 && Followed(b, io2)
    ensures Followed(a + b, io2)
  {
    forall i | 0 <= i < |a + b| && (a + b)[i].timer == NetworkTimer && (a + b)[i].remaining > 0
      ensures (a + b)[i].io < io2
    {
      if i >= |a| {
        assert (a + b)[i] == b[i - |a|];
      }
    }
  }

  /** Every query in `qs` was made before the read and write calls reached
      `io`, stated query by query through `MadeAt`. */
  ghost predicate MadeBefore(qs: seq<Query>, io: nat)
  {
    forall i :: 0 <= i < |qs| ==> MadeAt(qs, i, io)
  }

  ghost predicate MadeAt(qs: seq<Query>, i: nat, io: nat)
    requires i < |qs|
  {
    qs[i].io < io
  }

  /** `MadeBefore` over two consecutive runs of queries. */
  lemma MadeJoin(a: seq<Query>, b: seq<Query>, io1: nat, io2: nat)
    requires MadeBefore(a, io1) && io1 <= io2 && MadeBefore(b, io2)
    ensures MadeBefore(a + b, io2)
  {
    forall i | 0 <= i < |a + b|
      ensures MadeAt(a + b, i, io2)
    {
      if i < |a| {
        assert (a + b)[i] == a[i] && MadeAt(a, i, io1);
      } else {
        assert (a + b)[i] == b[i - |a|] && MadeAt(b, i - |a|, io2);
      }
    }
  }

  /** Queries all made before the count reached `io` were all followed. */
  lemma MadeFollowed(qs: seq<Query>, io: nat)
    requires MadeBefore(qs, io)
    ensures Followed(qs, io)
  {
    forall i | 0 <= i < |qs| ensures qs[i].io < io {
      assert MadeAt(qs, i, io);
    }
  }

  /** Every query in `qs` is of the network timer and was followed by a read
      or write call before the count reached `io`. */
  ghost predicate NetworkQueries(qs: seq<Query>, io: nat)
  {
    forall i :: 0 <= i < |qs| ==> qs[i].timer == NetworkTimer && qs[i].io < io
  }

  /** `NetworkQueries` for the queries a log gained from index `n` on, as the
      log grows from `log0` to `log1` and the calls made from `io1` to `io2`. */
  lemma NetworkGrow(log0: seq<Query>, log1: seq<Query>, n: nat, io1: nat, io2: nat)
    requires n <= |log0| && log0 <= log1 && io1 <= io2
    requires NetworkQueries(log0[n..], io1) && NetworkQueries(log1[|log0|..], io2)
    ensures NetworkQueries(log1[n..], io2)
  {
    forall i | 0 <= i < |log1[n..]|
      ensures log1[n..][i].timer == NetworkTimer && log1[n..][i].io < io2
    {
      if n + i < |log0| {
        assert log1[n..][i] == log0[n..][i];
      } else {
        assert log1[n..][i] == log1[|log0|..][n + i - |log0|];
      }
    }
  }

  /** The read side of the network: the bytes still to come and the script of
      the remaining read calls. */
  datatype Stream = Stream(inbound: seq<uint8>, tape: seq<int>)

  /** What a read call asking for `count` bytes returns. */
  function Grant(s: Stream, count: nat): (n: int)
    ensures n <= count && (n >= 0 ==> n <= |s.inbound|)
    ensures s.tape == [] ==> n == 0
    ensures s.tape != [] && s.tape[0] < 0 ==> n == s.tape[0]
    ensures s.tape != [] && s.tape[0] >= 0 ==> n == Min(Min(s.tape[0], count), |s.inbound|)
  {
    if s.tape == [] then 0
    else if s.tape[0] < 0 then s.tape[0]
    else Min(Min(s.tape[0], count), |s.inbound|)
  }

  function Min(x: int, y: int): int
  {
    if x < y then x else y
  }

  /** The stream after such a read call: the delivered bytes and one script
      entry are gone. */
  function AfterRead(s: Stream, count: nat): (r: Stream)
    ensures s.tape == [] ==> r == s
    ensures Grant(s, count) < 0 ==> r.inbound == s.inbound
    ensures Grant(s, count) >= 0 ==> s.inbound == s.inbound[..Grant(s, count)] + r.inbound
  {
    if s.tape == [] then s
    else
      var n := Grant(s, count);
      Stream(if n < 0 then s.inbound else s.inbound[n..], s.tape[1..])
  }

  /** Where the network side of the ports stood at some point: the read side
      and the logs of read calls, write calls, timer queries and timer
      armings. */
  datatype Snapshot = Snapshot(side: Stream, readCalls: seq<ReadCall>, writes: seq<WriteCall>, queries: seq<Query>,
                               arms: seq<Arm>)
  {
    /** The read and write calls made by then. */
    function Io(): nat
    {
      |readCalls| + |writes|
    }
  }

  class Ports {
    var inbound: seq<uint8>
    var readTape: seq<int>
    var writeTape: seq<int>
    var writes: seq<WriteCall>
    var readCalls: seq<ReadCall>
    var arms: seq<Arm>
    var queries: seq<Query>
    var clock: seq<nat>
    var now: int
    var keepAliveDeadline: int
    var networkDeadline: int

    constructor (inbound: seq<uint8>, readTape: seq<int>, writeTape: seq<int>, clock: seq<nat>)
      ensures this.inbound == inbound && this.readTape == readTape
      ensures this.writeTape == writeTape && this.clock == clock
      ensures writes == [] && readCalls == [] && arms == [] && queries == []
      ensures now == 0 && keepAliveDeadline == 0 && networkDeadline == 0
    {
      this.inbound := inbound;
      this.readTape := readTape;
      this.writeTape := writeTape;
      this.clock := clock;
      writes := [];
      readCalls := [];
      arms := [];
      queries := [];
      now := 0;
      keepAliveDeadline := 0;
      networkDeadline := 0;
    }

    /** The read side as a value. */
    function ReadSide(): Stream
      reads this`inbound, this`readTape
    {
      Stream(inbound, readTape)
    }

    function Snap(): Snapshot
      reads this`inbound, this`readTape, this`readCalls, this`writes, this`queries, this`arms
    {
      Snapshot(ReadSide(), readCalls, writes, queries, arms)
    }

    /** The read and write calls made so far. */
    function IoCount(): nat
      reads this`readCalls, this`writes
    {
      |readCalls| + |writes|
    }

    function Deadline(t: Timer): int
      reads this`keepAliveDeadline, this`networkDeadline
    {
      if t == KeepAliveTimer then keepAliveDeadline else networkDeadline
    }

    /** What the next query of timer `t` will report. */
    function Peek(t: Timer): (r: int)
      reads this`clock, this`now, this`keepAliveDeadline, this`networkDeadline
      ensures clock == [] ==> r == 0
    {
      if clock == [] then 0 else Deadline(t) - (now + clock[0])
    }

    /** `timer_set`: arm `t` to expire `ms` milliseconds from now. */
    method TimerSet(t: Timer, ms: int)
      modifies this`keepAliveDeadline, this`networkDeadline, this`arms
      ensures Deadline(t) == now + ms
      ensures arms == old(arms) + [Arm(t, ms)]
      ensures t == KeepAliveTimer ==> networkDeadline == old(networkDeadline)
      ensures t == NetworkTimer ==> keepAliveDeadline == old(keepAliveDeadline)
    {
      if t == KeepAliveTimer {
        keepAliveDeadline := now + ms;
      } else {
        networkDeadline := now + ms;
      }
      arms := arms + [Arm(t, ms)];
    }

    /** `timer_get`: the milliseconds left on `t`; zero or less means expired. */
    method TimerGet(t: Timer) returns (remaining: int)
      modifies this`clock, this`now, this`queries
      ensures remaining == old(Peek(t))
      ensures queries == old(queries) + [Query(t, remaining, IoCount())]
      ensures old(clock) == [] ==> clock == [] && now == old(now)
      ensures old(clock) != [] ==> clock == old(clock)[1..] && now == old(now) + old(clock)[0]
      ensures |clock| <= |old(clock)| && (remaining > 0 ==> |clock| < |old(clock)|)
      ensures remaining <= 0 ==> Peek(t) <= 0
    {
      if clock == [] {
        remaining := 0;
      } else {
        now := now + clock[0];
        clock := clock[1..];
        remaining := Deadline(t) - now;
      }
      queries := queries + [Query(t, remaining, IoCount())];
    }

    /** `network_read`: at most `count` bytes, or a negative error. */
    method NetworkRead(count: nat, timeout: int) returns (n: int, data: seq<uint8>)
      modifies this`inbound, this`readTape, this`readCalls
      ensures n == Grant(old(ReadSide()), count) && ReadSide() == AfterRead(old(ReadSide()), count)
      ensures n < 0 ==> data == []
      ensures n >= 0 ==> |data| == n && old(inbound) == data + inbound
      ensures readCalls == old(readCalls) + [ReadCall(count, n)]
    {
      n, data := Grant(ReadSide(), count), [];
      if readTape != [] {
        if n >= 0 {
          data := inbound[..n];
          inbound := inbound[n..];
        }
        readTape := readTape[1..];
      }
      readCalls := readCalls + [ReadCall(count, n)];
    }

    /** `network_write`: at most `count` bytes written, or a negative error. */
    method NetworkWrite(offset: int, count: int, timeout: int) returns (n: int)
      requires count >= 0
      modifies this`writeTape, this`writes
      ensures n >= 0 ==> n <= count
      ensures writes == old(writes) + [WriteCall(offset, count, timeout, n)]
      ensures old(writeTape) != [] ==> writeTape == old(writeTape)[1..]
      ensures old(writeTape) == [] ==> writeTape == [] && n == 0
    {
      if writeTape == [] {
        n := 0;
      } else {
        var grant := writeTape[0];
        writeTape := writeTape[1..];
        n := if grant >= 0 && grant > count then count else grant;
      }
      writes := writes + [WriteCall(offset, count, timeout, n)];
    }
  }
}
