/**
 * The byte-cursor layer of the MQTT 3.1.1 client: bounds-checked readers and
 * writers for single bytes, big-endian 16-bit integers (section 1.5.2 of the
 * MQTT 3.1.1 standard), raw byte runs, length-prefixed strings (section 1.5.3)
 * and the variable-length "Remaining Length" integer (section 2.2.3).
 *
 * A cursor is an index `pos` into a buffer together with an end bound `end`
 * (`pos <= end <= |buffer|`). Readers are functions over the buffer's bytes
 * that return the value read and the new position; writers are methods that
 * store into an array and return the new position. The caller's cursor moves
 * only when the result says so.
 */
module Helpers {

  type uint8 = x: int | 0 <= x < 0x100
  type uint16 = x: int | 0 <= x < 0x1_0000
  type uint32 = x: int | 0 <= x < 0x1_0000_0000

  /** The error type of the cursor layer. */
  datatype Status = Success | BufferTooShort | VarnumOverflow

  /** What a reader leaves behind: its status, the value stored in the output
      parameter, and the caller's cursor afterwards. */
  datatype Read<T> = Read(status: Status, value: T, pos: nat)

  /** A `uint8_t *` produced by `read_data`: NULL, or a pointer into the buffer. */
  datatype View = Null | At(offset: nat)

  datatype DataRead = DataRead(status: Status, view: View, pos: nat)

  /** `lwmqtt_string_t`: a length and the bytes its data pointer designates. */
  datatype LString = LString(len: uint16, data: seq<uint8>)

  datatype StringRead = StringRead(status: Status, str: LString, pos: nat)

  // ---------------------------------------------------------------------------
  // Buffer contents after a write
  // ---------------------------------------------------------------------------

  /** `s` with `bytes` stored from index `pos` on, everything else as it was. */
  function Splice(s: seq<uint8>, pos: nat, bytes: seq<uint8>): (r: seq<uint8>)
    requires pos + |bytes| <= |s|
    ensures |r| == |s| && r[pos..pos + |bytes|] == bytes
    ensures forall i :: 0 <= i < |s| && !(pos <= i < pos + |bytes|) ==> r[i] == s[i]
  {
    s[..pos] + bytes + s[pos + |bytes|..]
  }

  lemma SpliceExtend(s: seq<uint8>, pos: nat, bytes: seq<uint8>, b: uint8)
    requires pos + |bytes| < |s|
    ensures Splice(s, pos, bytes + [b]) == Splice(s, pos, bytes)[pos + |bytes| := b]
  {
    var l := Splice(s, pos, bytes + [b]);
    var r := Splice(s, pos, bytes)[pos + |bytes| := b];
    assert forall i :: 0 <= i < |s| ==> l[i] == r[i] by {
      forall i | 0 <= i < |s| ensures l[i] == r[i] {
        if pos <= i < pos + |bytes| {
          assert l[i] == l[pos..pos + |bytes| + 1][i - pos] == (bytes + [b])[i - pos];
          assert r[i] == Splice(s, pos, bytes)[pos..pos + |bytes|][i - pos];
        } else if i == pos + |bytes| {
          assert l[i] == l[pos..pos + |bytes| + 1][|bytes|];
        }
      }
    }
  }

  // ---------------------------------------------------------------------------
  // Strings (lwmqtt_str, lwmqtt_strcmp)
  // ---------------------------------------------------------------------------

  /** `lwmqtt_str`: wraps the bytes of a C string (those before its terminator). */
  function Str(s: seq<uint8>): (r: LString)
    requires |s| < 0x1_0000
    ensures r.len as int == |s| && r.data == s
  {
    LString(|s|, s)
  }

  /** True of the bytes of a C string up to (not including) its terminator. */
  predicate NulFree(s: seq<uint8>)
  {
    forall i :: 0 <= i < |s| ==> s[i] != 0
  }

  /** `strncmp` over `|x|` bytes compared as unsigned characters: stops at the
      first difference or at a terminator both strings share. */
  function Strncmp(x: seq<uint8>, y: seq<uint8>): (r: int)
    requires |x| == |y|
    ensures -1 <= r <= 1
    ensures NulFree(y) ==> (r == 0 <==> x == y)
  {
    if x == [] then 0
    else if x[0] < y[0] then -1
    else if x[0] > y[0] then 1
    else if x[0] == 0 then 0
    else
      var r := Strncmp(x[1..], y[1..]);
      assert NulFree(y) ==> NulFree(y[1..]);
      assert x == [x[0]] + x[1..] && y == [y[0]] + y[1..];
      r
  }

  /** `lwmqtt_strcmp`: -1 on a length mismatch, otherwise `strncmp` of the bytes. */
  function StrCmp(a: LString, b: seq<uint8>): (r: int)
    requires a.len as int <= |a.data|
    requires NulFree(b)
    ensures |b| != a.len as int ==> r == -1
    ensures r == 0 <==> (|b| == a.len as int && a.data[..a.len] == b)
  {
    if |b| != a.len as int then -1
    else Strncmp(a.data[..a.len], b)
  }

  lemma StrCmpStr(s: seq<uint8>)
    requires |s| < 0x1_0000 && NulFree(s)
    ensures StrCmp(Str(s), s) == 0
  {
    assert Str(s).data[..|s|] == s;
  }

  // ---------------------------------------------------------------------------
  // Bytes (lwmqtt_read_byte, lwmqtt_write_byte)
  // ---------------------------------------------------------------------------

  function ReadByte(buf: seq<uint8>, pos: nat, end: nat): (r: Read<uint8>)
    requires pos <= end <= |buf|
    ensures r.status == Success || r.status == BufferTooShort
    ensures r.status == Success <==> pos < end
    ensures r.status == Success ==> r.value == buf[pos] && r.pos == pos + 1
    ensures r.status == BufferTooShort ==> r.value == 0 && r.pos == pos
  {
    if end - pos < 1 then Read(BufferTooShort, 0, pos)
    else Read(Success, buf[pos], pos + 1)
  }

  method WriteByte(a: array<uint8>, pos: nat, end: nat, b: uint8) returns (st: Status, next: nat)
    requires pos <= end <= a.Length
    modifies a
    ensures st == Success || st == BufferTooShort
    ensures st == Success <==> pos < end
    ensures st == Success ==> next == pos + 1 && a[..] == Splice(old(a[..]), pos, [b])
    ensures st == BufferTooShort ==> next == pos && a[..] == old(a[..])
  {
    if end - pos < 1 {
      return BufferTooShort, pos;
    }
    a[pos] := b;
    st, next := Success, pos + 1;
  }

  lemma {:induction false} ByteRoundTrip(s: seq<uint8>, pos: nat, end: nat, b: uint8)
    requires pos < end <= |s|
    ensures ReadByte(Splice(s, pos, [b]), pos, end) == Read(Success, b, pos + 1)
  {
    assert Splice(s, pos, [b])[pos..pos + 1] == [b];
  }

  // ---------------------------------------------------------------------------
  // Big-endian 16-bit integers (lwmqtt_read_num, lwmqtt_write_num)
  // ---------------------------------------------------------------------------

  /** The two bytes `write_num` stores: high byte first. */
  function EncodeNum(n: uint16): (r: seq<uint8>)
    ensures |r| == 2 && r[0] as int * 256 + r[1] as int == n as int
  {
    [n / 256, n % 256]
  }

  function ReadNum(buf: seq<uint8>, pos: nat, end: nat): (r: Read<uint16>)
    requires pos <= end <= |buf|
    ensures r.status == Success || r.status == BufferTooShort
    ensures r.status == Success <==> pos + 2 <= end
    ensures r.status == Success ==> r.pos == pos + 2 && EncodeNum(r.value) == buf[pos..pos + 2]
    ensures r.status == BufferTooShort ==> r.value == 0 && r.pos == pos
  {
    if end - pos < 2 then Read(BufferTooShort, 0, pos)
    else Read(Success, 256 * (buf[pos] as int) + buf[pos + 1] as int, pos + 2)
  }

  method WriteNum(a: array<uint8>, pos: nat, end: nat, n: uint16) returns (st: Status, next: nat)
    requires pos <= end <= a.Length
    modifies a
    ensures st == Success || st == BufferTooShort
    ensures st == Success <==> pos + 2 <= end
    ensures st == Success ==> next == pos + 2 && a[..] == Splice(old(a[..]), pos, EncodeNum(n))
    ensures st == BufferTooShort ==> next == pos && a[..] == old(a[..])
  {
    if end - pos < 2 {
      return BufferTooShort, pos;
    }
    a[pos] := n / 256;
    a[pos + 1] := n % 256;
    st, next := Success, pos + 2;
    assert a[..] == Splice(old(a[..]), pos, EncodeNum(n));
  }

  lemma {:induction false} NumRoundTrip(s: seq<uint8>, pos: nat, end: nat, n: uint16)
    requires pos + 2 <= end <= |s|
    ensures ReadNum(Splice(s, pos, EncodeNum(n)), pos, end) == Read(Success, n, pos + 2)
  {
    var t := Splice(s, pos, EncodeNum(n));
    assert t[pos] == t[pos..pos + 2][0] && t[pos + 1] == t[pos..pos + 2][1];
  }

  // ---------------------------------------------------------------------------
  // Raw byte runs (lwmqtt_read_data, lwmqtt_write_data)
  // ---------------------------------------------------------------------------

  /** `read_data`: `prior` is what the caller's data pointer held before; it
      is left as it was on failure. */
  function ReadData(buf: seq<uint8>, pos: nat, end: nat, len: nat, prior: View): (r: DataRead)
    requires pos <= end <= |buf|
    ensures r.status == Success || r.status == BufferTooShort
    ensures len == 0 ==> r == DataRead(Success, Null, pos)
    ensures r.status == Success <==> pos + len <= end
    ensures len > 0 && r.status == Success ==> r.view == At(pos) && r.pos == pos + len
    ensures r.status == BufferTooShort ==> r.view == prior && r.pos == pos
  {
    if len == 0 then DataRead(Success, Null, pos)
    else if end - pos < len then DataRead(BufferTooShort, prior, pos)
    else DataRead(Success, At(pos), pos + len)
  }

  /** The `len` bytes a data pointer designates; NULL designates none. */
  function ViewBytes(buf: seq<uint8>, v: View, len: nat): seq<uint8>
    requires v.At? ==> v.offset + len <= |buf|
  {
    match v
    case Null => []
    case At(o) => buf[o..o + len]
  }

  method WriteData(a: array<uint8>, pos: nat, end: nat, data: seq<uint8>) returns (st: Status, next: nat)
    requires pos <= end <= a.Length
    modifies a
    ensures st == Success || st == BufferTooShort
    ensures |data| == 0 ==> st == Success && next == pos && a[..] == old(a[..])
    ensures st == Success <==> pos + |data| <= end
    ensures st == Success ==> next == pos + |data| && a[..] == Splice(old(a[..]), pos, data)
    ensures st == BufferTooShort ==> next == pos && a[..] == old(a[..])
  {
    if |data| == 0 {
      return Success, pos;
    }
    if end - pos < |data| {
      return BufferTooShort, pos;
    }
    forall i | pos <= i < pos + |data| {
      a[i] := data[i - pos];
    }
    st, next := Success, pos + |data|;
    assert a[..] == Splice(old(a[..]), pos, data);
  }

  lemma {:induction false} DataRoundTrip(s: seq<uint8>, pos: nat, end: nat, data: seq<uint8>, prior: View)
    requires pos + |data| <= end <= |s|
    ensures var t := Splice(s, pos, data);
      var r := ReadData(t, pos, end, |data|, prior);
      r.status == Success && r.pos == pos + |data| && ViewBytes(t, r.view, |data|) == data
  {
  }

  // ---------------------------------------------------------------------------
  // Length-prefixed strings (lwmqtt_read_string, lwmqtt_write_string)
  // ---------------------------------------------------------------------------

  /** The bytes `write_string` stores for a string: length prefix, then data. */
  function EncodeString(s: LString): (r: seq<uint8>)
    requires |s.data| == s.len as int
    ensures |r| == 2 + s.len as int && r[..2] == EncodeNum(s.len) && r[2..] == s.data
  {
    EncodeNum(s.len) + s.data
  }

  /** `read_string`: `prior` is the caller's string, left as it was on failure.
      When the length prefix was read but the data does not fit, the cursor has
      already moved past the prefix. */
  function ReadString(buf: seq<uint8>, pos: nat, end: nat, prior: LString): (r: StringRead)
    requires pos <= end <= |buf|
    ensures r.status == Success || r.status == BufferTooShort
    ensures r.status == BufferTooShort ==> r.str == prior
    ensures pos + 2 > end ==> r == StringRead(BufferTooShort, prior, pos)
    ensures pos + 2 <= end ==> var n := 256 * (buf[pos] as int) + buf[pos + 1] as int;
      if pos + 2 + n <= end
      then r == StringRead(Success, LString(n, buf[pos + 2..pos + 2 + n]), pos + 2 + n)
      else r == StringRead(BufferTooShort, prior, pos + 2)
  {
    var n := ReadNum(buf, pos, end);
    if n.status != Success then StringRead(n.status, prior, n.pos)
    else
      var d := ReadData(buf, n.pos, end, n.value, Null);
      if d.status != Success then StringRead(d.status, prior, d.pos)
      else StringRead(Success, LString(n.value, ViewBytes(buf, d.view, n.value)), d.pos)
  }

  method WriteString(a: array<uint8>, pos: nat, end: nat, s: LString) returns (st: Status, next: nat)
    requires pos <= end <= a.Length
    requires |s.data| == s.len as int
    modifies a
    ensures st == Success || st == BufferTooShort
    ensures st == Success <==> pos + 2 + s.len as int <= end
    ensures st == Success ==> next == pos + 2 + s.len as int && a[..] == Splice(old(a[..]), pos, EncodeString(s))
    ensures pos + 2 > end ==> st == BufferTooShort && next == pos && a[..] == old(a[..])
    ensures pos + 2 <= end < pos + 2 + s.len as int ==>
      st == BufferTooShort && next == pos + 2 && a[..] == Splice(old(a[..]), pos, EncodeNum(s.len))
  {
    st, next := WriteNum(a, pos, end, s.len);
    if st != Success {
      return;
    }
    var p := next;
    st, next := WriteData(a, p, end, s.data);
    if st != Success {
      return;
    }
    SpliceConcat(old(a[..]), pos, EncodeNum(s.len), s.data);
    assert EncodeNum(s.len) + s.data == EncodeString(s);
  }

  /** Writing `x` and then `y` right behind it writes `x + y`. */
  lemma SpliceConcat(s: seq<uint8>, pos: nat, x: seq<uint8>, y: seq<uint8>)
    requires pos + |x| + |y| <= |s|
    ensures Splice(Splice(s, pos, x), pos + |x|, y) == Splice(s, pos, x + y)
  {
    var l, r := Splice(Splice(s, pos, x), pos + |x|, y), Splice(s, pos, x + y);
    forall i | 0 <= i < |s| ensures l[i] == r[i] {
      if pos <= i < pos + |x| {
        assert l[i] == Splice(s, pos, x)[i] == Splice(s, pos, x)[pos..pos + |x|][i - pos];
        assert r[i] == r[pos..pos + |x| + |y|][i - pos] == (x + y)[i - pos];
      } else if pos + |x| <= i < pos + |x| + |y| {
        assert l[i] == l[pos + |x|..pos + |x| + |y|][i - pos - |x|];
        assert r[i] == r[pos..pos + |x| + |y|][i - pos] == (x + y)[i - pos];
      }
    }
  }

  lemma {:induction false} StringRoundTrip(s: seq<uint8>, pos: nat, end: nat, str: LString, prior: LString)
    requires |str.data| == str.len as int
    requires pos + 2 + str.len as int <= end <= |s|
    ensures ReadString(Splice(s, pos, EncodeString(str)), pos, end, prior)
         == StringRead(Success, str, pos + 2 + str.len as int)
  {
    var t := Splice(s, pos, EncodeString(str));
    var e := EncodeString(str);
    assert t[pos..pos + |e|] == e;
    assert t[pos] == e[0] && t[pos + 1] == e[1];
    assert 256 * (t[pos] as int) + t[pos + 1] as int == str.len as int;
    assert t[pos + 2..pos + 2 + str.len as int] == e[2..] == str.data;
  }

  // ---------------------------------------------------------------------------
  // Variable-length integers (lwmqtt_varnum_length, lwmqtt_read_varnum,
  // lwmqtt_write_varnum)
  // ---------------------------------------------------------------------------

  function Pow128(n: nat): (r: nat)
    ensures r >= 1
  {
    if n == 0 then 1 else 128 * Pow128(n - 1)
  }

  /** The remaining-length encoding of section 2.2.3: base-128 digits, least
      significant first, with the high bit set on every byte but the last.
      Defined for every value; only those below 2^28 fit in four bytes. */
  function EncodeVarnum(v: nat): (r: seq<uint8>)
    ensures |r| >= 1
    decreases v
  {
    if v < 128 then [v] else [v % 128 + 128] + EncodeVarnum(v / 128)
  }

  lemma {:induction false} EncodeVarnumLength(v: nat)
    ensures |EncodeVarnum(v)| ==
      if v < 128 then 1
      else if v < 16384 then 2
      else if v < 2097152 then 3
      else if v < 268435456 then 4
      else |EncodeVarnum(v / 268435456)| + 4
  {
    if v >= 128 { EncodeVarnumLength(v / 128); }
  }

  lemma VarnumFits(v: nat)
    ensures |EncodeVarnum(v)| <= 4 <==> v < 0x1000_0000
  {
    EncodeVarnumLength(v);
  }

  /** Each byte holds the next seven bits of `v`; only the last lacks the high bit. */
  lemma {:induction false} EncodeVarnumDigits(v: nat, i: nat)
    requires i < |EncodeVarnum(v)|
    ensures EncodeVarnum(v)[i] % 128 == (v / Pow128(i)) % 128
    ensures EncodeVarnum(v)[i] >= 128 <==> i < |EncodeVarnum(v)| - 1
  {
    if i > 0 {
      EncodeVarnumDigits(v / 128, i - 1);
      DivDiv(v, i - 1);
    }
  }

  lemma DivDiv(v: nat, k: nat)
    ensures v / 128 / Pow128(k) == v / Pow128(k + 1)
  {
    var p := Pow128(k);
    var q := v / (128 * p);
    var r := v % (128 * p);
    assert v == (128 * p) * q + r;
    DivUnique(v, 128, p * q + r / 128, r % 128);
    DivUnique(v / 128, p, q, r / 128);
  }

  lemma DivUnique(x: int, d: int, a: int, b: int)
    requires d > 0 && 0 <= b < d && x == a * d + b
    ensures x / d == a
  {
    var q, m := x / d, x % d;
    assert x == q * d + m && 0 <= m < d;
    if q > a {
      MulDiff(q, a, d);
      MulAtLeast(q - a, d);
    } else if q < a {
      MulDiff(a, q, d);
      MulAtLeast(a - q, d);
    }
  }

  lemma MulDiff(x: int, y: int, d: int)
    ensures x * d - y * d == (x - y) * d
  {
  }

  lemma {:induction false} MulAtLeast(k: int, d: int)
    requires k >= 1 && d >= 0
    ensures k * d >= d
    decreases k
  {
    if k > 1 {
      MulAtLeast(k - 1, d);
      assert k * d == (k - 1) * d + d;
    }
  }

  /** The byte count `lwmqtt_varnum_length` reports. Its two upper thresholds
      are one below the boundaries of section 2.2.3; see VarnumLengthMismatch. */
  function VarnumLength(v: uint32): (r: int)
    ensures r == -1 || 1 <= r <= 4
    ensures r == -1 <==> v >= 268435455
  {
    if v < 128 then 1
    else if v < 16384 then 2
    else if v < 2097151 then 3
    else if v < 268435455 then 4
    else -1
  }

  /** The byte count the thresholds 128, 16384, 2097152, 268435456 give. */
  function EncodedLength(v: uint32): (r: int)
  {
    if v < 128 then 1
    else if v < 16384 then 2
    else if v < 2097152 then 3
    else if v < 268435456 then 4
    else -1
  }

  /** The corrected length agrees with what `write_varnum` emits. */
  lemma EncodedLengthExact(v: uint32)
    ensures v < 0x1000_0000 ==> EncodedLength(v) == |EncodeVarnum(v)|
    ensures v >= 0x1000_0000 ==> EncodedLength(v) == -1 && |EncodeVarnum(v)| > 4
  {
    EncodeVarnumLength(v);
  }

  /** The thresholds as written disagree with the encoding at exactly two values. */
  lemma VarnumLengthMismatch(v: uint32)
    ensures VarnumLength(v) == EncodedLength(v) <==> v != 2097151 && v != 268435455
    ensures VarnumLength(2097151) == 4 && |EncodeVarnum(2097151)| == 3
    ensures VarnumLength(268435455) == -1 && |EncodeVarnum(268435455)| == 4
  {
    EncodeVarnumLength(2097151);
    EncodeVarnumLength(268435455);
  }

  /** One pass of `read_varnum`'s loop: `len` bytes consumed so far,
      `multiplier` = 128^len and `acc` the value accumulated from them. */
  function VarnumStep(buf: seq<uint8>, pos: nat, end: nat, len: nat, multiplier: nat, acc: nat): (r: Read<nat>)
    requires pos <= end <= |buf| && len <= 4
    ensures r.status != Success ==> r.pos == pos
    ensures r.status == Success ==> pos + len < r.pos <= end
    decreases 4 - len
  {
    var n := len + 1;
    if end - pos < n then Read(BufferTooShort, acc, pos)
    else if n > 4 then Read(VarnumOverflow, acc, pos)
    else
      var b := buf[pos + n - 1];
      var acc' := acc + (b % 128) * multiplier;
      if b >= 128 then VarnumStep(buf, pos, end, n, multiplier * 128, acc')
      else Read(Success, acc', pos + n)
  }

  /** What the loop yields from any intermediate state: success ends at a
      final byte after a run of continuation bytes, within four bytes and with
      a value below 2^28; a failure leaves the cursor where it was; overflow
      happens exactly when a fifth byte is available and the first four all
      carry the continuation bit. */
  lemma {:induction false} VarnumStepResult(buf: seq<uint8>, pos: nat, end: nat, len: nat, multiplier: nat, acc: nat)
    requires pos <= end <= |buf| && len <= 4
    requires multiplier == Pow128(len) && acc < multiplier
    ensures var r := VarnumStep(buf, pos, end, len, multiplier, acc);
      (r.status == Success ==>
        pos + len < r.pos <= pos + 4 && r.pos <= end && r.value < 0x1000_0000 &&
        buf[r.pos - 1] < 128 && forall i :: pos + len <= i < r.pos - 1 ==> buf[i] >= 128) &&
      (r.status != Success ==> r.pos == pos) &&
      (r.status == VarnumOverflow <==>
        (pos + 5 <= end && forall i :: pos + len <= i < pos + 4 ==> buf[i] >= 128))
    decreases 4 - len
  {
    var r := VarnumStep(buf, pos, end, len, multiplier, acc);
    if end - pos < len + 1 || len == 4 {
      VarnumStepStop(buf, pos, end, len, multiplier, acc);
    } else if buf[pos + len] >= 128 {
      var acc' := VarnumStepUnfold(buf, pos, end, len, multiplier, acc);
      VarnumStepResult(buf, pos, end, len + 1, multiplier * 128, acc');
    } else {
      VarnumStepLast(buf, pos, end, len, multiplier, acc);
      DigitBound(acc, buf[pos + len], multiplier);
      Pow128Bound(len);
      assert buf[pos + len] < 128;
    }
  }

  /** The loop gives up before reading: no room for the next byte, or a
      fifth byte. */
  lemma VarnumStepStop(buf: seq<uint8>, pos: nat, end: nat, len: nat, multiplier: nat, acc: nat)
    requires pos <= end <= |buf| && len <= 4
    requires end - pos < len + 1 || len == 4
    ensures VarnumStep(buf, pos, end, len, multiplier, acc)
         == Read(if end - pos < len + 1 then BufferTooShort else VarnumOverflow, acc, pos)
  {
  }

  lemma Pow128Bound(len: nat)
    requires len <= 3
    ensures Pow128(len) * 128 <= 0x1000_0000
  {
    if len > 0 {
      Pow128Bound(len - 1);
    }
  }

  lemma {:induction false} Pow128AtMost(len: nat)
    requires len <= 4
    ensures Pow128(len) <= 0x1000_0000
  {
    if len > 0 {
      Pow128Bound(len - 1);
    }
  }

  /** `read_varnum`. On failure the value is what the loop had accumulated. */
  function ReadVarnum(buf: seq<uint8>, pos: nat, end: nat): (r: Read<nat>)
    requires pos <= end <= |buf|
    ensures r.status == Success ==>
      pos < r.pos <= pos + 4 && r.pos <= end && r.value < 0x1000_0000 &&
      buf[r.pos - 1] < 128 && forall i :: pos <= i < r.pos - 1 ==> buf[i] >= 128
    ensures r.status != Success ==> r.pos == pos
    ensures r.status == VarnumOverflow <==>
      (pos + 5 <= end && forall i :: pos <= i < pos + 4 ==> buf[i] >= 128)
  {
    VarnumStepResult(buf, pos, end, 0, 1, 0);
    VarnumStep(buf, pos, end, 0, 1, 0)
  }

  lemma {:induction false} VarnumStepDecodes(buf: seq<uint8>, pos: nat, end: nat, len: nat, multiplier: nat, acc: nat, w: nat)
    requires pos <= end <= |buf| && len <= 4
    requires multiplier == Pow128(len) && acc < multiplier
    requires len + |EncodeVarnum(w)| <= 4 && pos + len + |EncodeVarnum(w)| <= end
    requires buf[pos + len..pos + len + |EncodeVarnum(w)|] == EncodeVarnum(w)
    ensures VarnumStep(buf, pos, end, len, multiplier, acc)
         == Read(Success, acc + w * multiplier, pos + len + |EncodeVarnum(w)|)
    decreases w
  {
    var e := EncodeVarnum(w);
    FirstDigit(buf, pos + len, e);
    if w < 128 {
      VarnumStepLast(buf, pos, end, len, multiplier, acc);
    } else {
      var e' := EncodeVarnum(w / 128);
      ContinuationDigit(w);
      TailSlice(buf, pos + len, e[0], e');
      var acc' := VarnumStepUnfold(buf, pos, end, len, multiplier, acc);
      var d := buf[pos + len] % 128;
      assert d == w % 128;
      VarnumStepDecodes(buf, pos, end, len + 1, multiplier * 128, acc', w / 128);
      DigitSum(acc, multiplier, w);
    }
  }

  lemma ContinuationDigit(w: nat)
    requires w >= 128
    ensures EncodeVarnum(w) == [EncodeVarnum(w)[0]] + EncodeVarnum(w / 128)
    ensures EncodeVarnum(w)[0] >= 128 && EncodeVarnum(w)[0] % 128 == w % 128
  {
  }

  lemma FirstDigit(buf: seq<uint8>, at: nat, e: seq<uint8>)
    requires |e| >= 1 && at + |e| <= |buf| && buf[at..at + |e|] == e
    ensures buf[at] == e[0]
  {
    assert buf[at..at + |e|][0] == buf[at];
  }

  /** A final byte ends `read_varnum`'s loop with success. */
  lemma VarnumStepLast(buf: seq<uint8>, pos: nat, end: nat, len: nat, multiplier: nat, acc: nat)
    requires pos <= end <= |buf| && len < 4 && pos + len + 1 <= end
    requires multiplier == Pow128(len) && acc < multiplier
    requires buf[pos + len] < 128
    ensures VarnumStep(buf, pos, end, len, multiplier, acc)
         == Read(Success, acc + buf[pos + len] * multiplier, pos + len + 1)
  {
    assert !(end - pos < len + 1) && !(len + 1 > 4) && buf[pos + (len + 1) - 1] == buf[pos + len];
  }

  lemma TailSlice(buf: seq<uint8>, at: nat, b: uint8, rest: seq<uint8>)
    requires at + 1 + |rest| <= |buf| && buf[at..at + 1 + |rest|] == [b] + rest
    ensures buf[at + 1..at + 1 + |rest|] == rest
  {
    assert buf[at + 1..at + 1 + |rest|] == buf[at..at + 1 + |rest|][1..];
  }

  /** One continuation byte consumed by `read_varnum`'s loop. */
  lemma VarnumStepUnfold(buf: seq<uint8>, pos: nat, end: nat, len: nat, multiplier: nat, acc: nat) returns (acc': nat)
    requires pos <= end <= |buf| && len < 4 && pos + len + 1 <= end
    requires multiplier == Pow128(len) && acc < multiplier
    requires buf[pos + len] >= 128
    ensures acc' == acc + (buf[pos + len] % 128) * multiplier && acc' < multiplier * 128
    ensures VarnumStep(buf, pos, end, len, multiplier, acc)
         == VarnumStep(buf, pos, end, len + 1, multiplier * 128, acc')
  {
    var b := buf[pos + len];
    acc' := acc + (b % 128) * multiplier;
    DigitBound(acc, b % 128, multiplier);
    ghost var r := VarnumStep(buf, pos, end, len, multiplier, acc);
    assert !(end - pos < len + 1) && !(len + 1 > 4) && buf[pos + (len + 1) - 1] == b;
    assert r == VarnumStep(buf, pos, end, len + 1, multiplier * 128, acc');
  }

  lemma DigitBound(acc: int, d: int, m: int)
    requires 0 <= acc < m && 0 <= d < 128
    ensures acc + d * m < m * 128
  {
    MulDiff(127, d, m);
    assert (127 - d) * m >= 0;
  }

  lemma DigitSum(acc: int, m: int, w: nat)
    ensures acc + (w % 128) * m + (w / 128) * (m * 128) == acc + w * m
  {
    var lo, hi := w % 128, w / 128;
    assert w == lo + 128 * hi;
    assert w * m == lo * m + (128 * hi) * m;
    assert (128 * hi) * m == hi * (m * 128);
  }

  /** `read_varnum` decodes what `write_varnum` stores, consuming as many bytes. */
  lemma VarnumRoundTrip(s: seq<uint8>, pos: nat, end: nat, v: nat)
    requires v < 0x1000_0000
    requires pos + |EncodeVarnum(v)| <= end <= |s|
    ensures ReadVarnum(Splice(s, pos, EncodeVarnum(v)), pos, end)
         == Read(Success, v, pos + |EncodeVarnum(v)|)
  {
    VarnumFits(v);
    VarnumStepDecodes(Splice(s, pos, EncodeVarnum(v)), pos, end, 0, 1, 0, v);
  }

  /** The value of base-128 digits stored least significant first. */
  function DigitValue(c: seq<uint8>): (r: nat)
    ensures r < Pow128(|c|)
  {
    if c == [] then 0
    else
      var prefix := c[..|c| - 1];
      var v := DigitValue(prefix);
      DigitBound(v, c[|c| - 1] % 128, Pow128(|prefix|));
      v + (c[|c| - 1] % 128) * Pow128(|prefix|)
  }

  /** The digits of the standard encoding are worth the value encoded. */
  lemma DigitValueOfEncoding(v: nat)
    requires v < 0x1000_0000
    ensures DigitValue(EncodeVarnum(v)) == v
  {
    var e := EncodeVarnum(v);
    VarnumFits(v);
    forall i | 0 <= i < |e| ensures e[i] >= 128 <==> i < |e| - 1 {
      EncodeVarnumDigits(v, i);
    }
    ReadVarnumDigits(e);
    assert Splice(e, 0, e) == e;
    VarnumRoundTrip(e, 0, |e|, v);
  }

  /** Four digits or fewer stay below 2^28. */
  lemma DigitValueBound(c: seq<uint8>)
    requires |c| <= 4
    ensures DigitValue(c) < 0x1000_0000
  {
    Pow128AtMost(|c|);
  }

  /** One more digit adds its weight: the next power of 128. */
  lemma DigitValueAppend(c: seq<uint8>, d: uint8, value: nat, multiplier: nat)
    requires value == DigitValue(c) && multiplier == Pow128(|c|)
    ensures DigitValue(c + [d]) == value + (d % 128) * multiplier
    ensures Pow128(|c + [d]|) == multiplier * 128
  {
    assert (c + [d])[..|c|] == c;
  }

  /** `read_varnum` over a buffer holding exactly a run of continuation bytes
      closed by a final byte yields the value of those digits. */
  lemma {:induction false} ReadVarnumDigits(c: seq<uint8>)
    requires 1 <= |c| <= 4 && c[|c| - 1] < 128
    requires forall i :: 0 <= i < |c| - 1 ==> c[i] >= 128
    ensures ReadVarnum(c, 0, |c|) == Read(Success, DigitValue(c), |c|)
  {
    VarnumStepDigits(c, 0);
  }

  lemma {:induction false} VarnumStepDigits(c: seq<uint8>, j: nat)
    requires 1 <= |c| <= 4 && c[|c| - 1] < 128 && j < |c|
    requires forall i :: 0 <= i < |c| - 1 ==> c[i] >= 128
    ensures VarnumStep(c, 0, |c|, j, Pow128(j), DigitValue(c[..j])) == Read(Success, DigitValue(c), |c|)
    decreases |c| - j
  {
    var acc := DigitValue(c[..j]);
    var acc' := acc + (c[j] % 128) * Pow128(j);
    assert c[..j + 1][..j] == c[..j];
    assert DigitValue(c[..j + 1]) == acc';
    if j < |c| - 1 {
      var a := VarnumStepUnfold(c, 0, |c|, j, Pow128(j), acc);
      VarnumStepDigits(c, j + 1);
    } else {
      assert c[..j + 1] == c;
      assert !(|c| - 0 < j + 1) && !(j + 1 > 4) && c[0 + (j + 1) - 1] == c[j];
    }
  }

  /** The digit `write_varnum` stores at index `len` when `rest` is still to
      be encoded, and what remains to be encoded after it. */
  lemma EncodedDigitAt(enc: seq<uint8>, len: nat, rest: nat)
    requires len < |enc| && enc[len..] == EncodeVarnum(rest)
    ensures enc[len] == if rest / 128 > 0 then rest % 128 + 128 else rest % 128
    ensures rest / 128 > 0 ==> len + 1 < |enc| && enc[len + 1..] == EncodeVarnum(rest / 128)
    ensures rest / 128 == 0 ==> |enc| == len + 1
  {
    assert enc[len..][0] == enc[len];
    assert enc[len + 1..] == enc[len..][1..];
  }

  /** Storing the next byte of `enc` extends the stored prefix by one. */
  lemma SpliceNext(s: seq<uint8>, pos: nat, enc: seq<uint8>, len: nat)
    requires pos + len < |s| && len < |enc|
    ensures Splice(s, pos, enc[..len])[pos + len := enc[len]] == Splice(s, pos, enc[..len + 1])
  {
    SpliceExtend(s, pos, enc[..len], enc[len]);
    assert enc[..len] + [enc[len]] == enc[..len + 1];
  }

  /** How many bytes `write_varnum` has stored when its loop stops. */
  lemma WrittenCount(encLen: nat, room: nat, len: nat, done: bool)
    requires len <= 4 && len <= room && len <= encLen
    requires done ==> len == encLen
    requires !done ==> len < encLen && (len == 4 || room < len + 1)
    ensures len == if encLen <= 4 && encLen <= room then encLen else if 4 <= room then 4 else room
  {
  }

  /** `write_varnum`. It stores the encoding byte by byte and gives up at the
      fifth byte (VarnumOverflow) or when the next byte does not fit
      (BufferTooShort); the bytes stored before giving up stay stored, but the
      cursor moves only on success. */
  method WriteVarnum(a: array<uint8>, pos: nat, end: nat, v: uint32) returns (st: Status, next: nat)
    requires pos <= end <= a.Length
    modifies a
    ensures var enc := EncodeVarnum(v);
      var k := if |enc| <= 4 && |enc| <= end - pos then |enc|
               else if 4 <= end - pos then 4 else end - pos;
      a[..] == Splice(old(a[..]), pos, enc[..k]) &&
      st == (if k == |enc| then Success else if k == 4 then VarnumOverflow else BufferTooShort) &&
      next == (if st == Success then pos + k else pos)
  {
    ghost var enc := EncodeVarnum(v);
    var len: nat := 0;
    var rest: nat := v;
    var done := false;
    while !done && len != 4 && end - pos >= len + 1
      invariant len <= 4 && pos + len <= end && len <= |enc|
      invariant done ==> len == |enc|
      invariant !done ==> len < |enc| && enc[len..] == EncodeVarnum(rest)
      invariant a[..] == Splice(old(a[..]), pos, enc[..len])
      decreases 4 - len
    {
      EncodedDigitAt(enc, len, rest);
      var b: uint8 := rest % 128;
      rest := rest / 128;
      if rest > 0 {
        b := b + 128;
      }
      SpliceNext(old(a[..]), pos, enc, len);
      a[pos + len] := b;
      len := len + 1;
      done := rest == 0;
    }
    WrittenCount(|enc|, end - pos, len, done);
    if done {
      st, next := Success, pos + len;
    } else if len == 4 {
      st, next := VarnumOverflow, pos;
    } else {
      st, next := BufferTooShort, pos;
    }
  }
}
