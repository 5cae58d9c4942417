/** WebSocket framing (internal/ws/conn.go; sections 5.2, 5.3 and 5.5 of RFC 6455). */
module Frames {
  import opened Model

  /** A byte as a number; the bit operations on it are spelled out below. */
  type Byte = b: int | 0 <= b < 256
  type Bytes = seq<Byte>

  const CONTINUATION: Byte := 0x0
  const TEXT: Byte := 0x1
  const BINARY: Byte := 0x2
  const CLOSE: Byte := 0x8
  const PING: Byte := 0x9
  const PONG: Byte := 0xA

  /** A payload is shorter than 2^63 bytes: its length has to fit a signed 64-bit integer. */
  const MAX_PAYLOAD: nat := 0x8000_0000_0000_0000

  /** A frame as a peer may send it; `mask` is its 4-byte masking key, if it is masked. */
  datatype Frame = Frame(fin: bool, opcode: Byte, mask: Option<Bytes>, payload: Bytes)

  predicate WellFormed(f: Frame) {
    f.opcode < 16 && |f.payload| < MAX_PAYLOAD && (f.mask != None ==> |f.mask.value| == 4)
  }

  datatype ReadError = EndOfFile | UnexpectedEnd | NegativeLength

  /** What reading one frame gives, and the bytes left unread. */
  datatype Reading = Read(fin: bool, opcode: Byte, payload: Bytes, rest: Bytes) | Stop(error: ReadError, rest: Bytes)

  // ---- numbers ------------------------------------------------------------------

  function Power(k: nat): (p: nat)
    ensures p > 0
  {
    if k == 0 then 1 else 256 * Power(k - 1)
  }

  /** The last `k` base-256 digits of `n`, most significant first. */
  function BigEndian(n: nat, k: nat): (b: Bytes)
    ensures |b| == k
  {
    if k == 0 then [] else BigEndian(n / 256, k - 1) + [n % 256]
  }

  function Number(b: Bytes): nat {
    if b == [] then 0 else 256 * Number(b[..|b| - 1]) + b[|b| - 1]
  }

  lemma {:induction false} NumberRoundTrip(n: nat, k: nat)
    requires n < Power(k)
    ensures Number(BigEndian(n, k)) == n
  {
    if k > 0 {
      var b := BigEndian(n / 256, k - 1);
      NumberRoundTrip(n / 256, k - 1);
      assert (b + [n % 256])[..k - 1] == b;
    }
  }

  lemma Powers()
    ensures Power(2) == 0x1_0000
    ensures Power(8) == 0x1_0000_0000_0000_0000
  {
    assert Power(1) == 256;
    assert Power(2) == 0x1_0000;
    assert Power(3) == 0x100_0000;
    assert Power(4) == 0x1_0000_0000;
    assert Power(5) == 0x100_0000_0000;
    assert Power(6) == 0x1_0000_0000_0000;
    assert Power(7) == 0x100_0000_0000_0000;
  }

  function Two(k: nat): (p: nat)
    ensures p > 0
  {
    if k == 0 then 1 else 2 * Two(k - 1)
  }

  /** Exclusive or of two `k`-bit numbers, bit by bit. */
  function XorBits(a: nat, b: nat, k: nat): (x: nat)
    requires a < Two(k) && b < Two(k)
    ensures x < Two(k)
  {
    if k == 0 then 0 else (if a % 2 == b % 2 then 0 else 1) + 2 * XorBits(a / 2, b / 2, k - 1)
  }

  lemma {:induction false} XorBitsTwice(a: nat, b: nat, k: nat)
    requires a < Two(k) && b < Two(k)
    ensures XorBits(XorBits(a, b, k), b, k) == a
  {
    if k > 0 {
      XorBitsTwice(a / 2, b / 2, k - 1);
      var x := XorBits(a / 2, b / 2, k - 1);
      assert XorBits(a, b, k) / 2 == x;
    }
  }

  lemma EightBits()
    ensures Two(8) == 256
  {
    assert Two(1) == 2 && Two(2) == 4 && Two(3) == 8 && Two(4) == 16 && Two(5) == 32 && Two(6) == 64 && Two(7) == 128;
  }

  function Xor(a: Byte, b: Byte): Byte {
    EightBits();
    XorBits(a, b, 8)
  }

  /** Bit `i` of a byte, from the least significant one. */
  function Bit(x: Byte, i: nat): int
    requires i < 8
  {
    x / [1, 2, 4, 8, 16, 32, 64, 128][i] % 2
  }

  lemma Halves(x: nat, m: nat)
    requires m > 0
    ensures x / (2 * m) == x / 2 / m
  {
    var q, r := x / 2 / m, x / 2 % m;
    assert x / 2 == m * q + r;
    assert x == (2 * m) * q + (2 * r + x % 2);
    assert 0 <= 2 * r + x % 2 < 2 * m;
    DivideOnce(x, 2 * m, q, 2 * r + x % 2);
  }

  lemma DivideOnce(x: nat, d: nat, q: nat, r: nat)
    requires d > 0 && x == d * q + r && r < d
    ensures x / d == q
  {
    var p := x / d;
    assert x == d * p + x % d;
    assert p < q ==> d * (p + 1) <= d * q;
    assert p > q ==> d * (q + 1) <= d * p;
  }

  /** XorBits compares bit by bit. */
  lemma {:induction false} XorBitAt(a: nat, b: nat, k: nat, i: nat)
    requires a < Two(k) && b < Two(k) && i < k
    ensures XorBits(a, b, k) / Two(i) % 2 == if a / Two(i) % 2 == b / Two(i) % 2 then 0 else 1
  {
    var x := XorBits(a, b, k);
    assert x / 2 == XorBits(a / 2, b / 2, k - 1);
    if i > 0 {
      XorBitAt(a / 2, b / 2, k - 1, i - 1);
      Halves(x, Two(i - 1));
      Halves(a, Two(i - 1));
      Halves(b, Two(i - 1));
    }
  }

  lemma Weights(i: nat)
    requires i < 8
    ensures Two(i) == [1, 2, 4, 8, 16, 32, 64, 128][i]
  {
    assert Two(1) == 2 && Two(2) == 4 && Two(3) == 8 && Two(4) == 16 && Two(5) == 32 && Two(6) == 64;
  }

  /** Exclusive or: a bit is set exactly when the two bits differ. */
  lemma XorIsBitwise(a: Byte, b: Byte)
    ensures forall i :: 0 <= i < 8 ==> Bit(Xor(a, b), i) == if Bit(a, i) == Bit(b, i) then 0 else 1
  {
    EightBits();
    forall i | 0 <= i < 8 ensures Bit(Xor(a, b), i) == if Bit(a, i) == Bit(b, i) then 0 else 1 {
      Weights(i);
      XorBitAt(a, b, 8, i);
    }
  }

  /** Setting the top bit. */
  function TopBit(b: Byte): Byte {
    if b < 0x80 then b + 0x80 else b
  }

  // ---- encoding -------------------------------------------------------------------

  /** Section 5.3: every payload byte is xored with a key byte; doing it twice undoes it. */
  function Masked(payload: Bytes, mask: Bytes): (r: Bytes)
    requires |mask| == 4
    ensures |r| == |payload|
  {
    seq(|payload|, i requires 0 <= i < |payload| => Xor(payload[i], mask[i % 4]))
  }

  lemma MaskTwice(payload: Bytes, mask: Bytes)
    requires |mask| == 4
    ensures Masked(Masked(payload, mask), mask) == payload
  {
    forall i | 0 <= i < |payload| ensures Masked(Masked(payload, mask), mask)[i] == payload[i] {
      XorTwice(payload[i], mask[i % 4]);
    }
  }

  lemma XorTwice(a: Byte, b: Byte)
    ensures Xor(Xor(a, b), b) == a
  {
    EightBits();
    XorBitsTwice(a, b, 8);
  }

  /** The 7-bit length field. */
  function ShortLength(n: nat): Byte {
    if n < 126 then n else if n <= 0xffff then 126 else 127
  }

  /** The extended length that follows it. */
  function ExtendedLength(n: nat): Bytes {
    if n < 126 then [] else if n <= 0xffff then BigEndian(n, 2) else BigEndian(n, 8)
  }

  function First(fin: bool, opcode: Byte): Byte {
    if fin then TopBit(opcode) else opcode
  }

  function Second(masked: bool, length: Byte): Byte {
    if masked then TopBit(length) else length
  }

  function Key(f: Frame): Bytes {
    if f.mask == None then [] else f.mask.value
  }

  function Body(f: Frame): Bytes
    requires f.mask != None ==> |f.mask.value| == 4
  {
    if f.mask == None then f.payload else Masked(f.payload, f.mask.value)
  }

  function Encode(f: Frame): Bytes
    requires f.mask != None ==> |f.mask.value| == 4
  {
    [First(f.fin, f.opcode), Second(f.mask != None, ShortLength(|f.payload|))]
    + ExtendedLength(|f.payload|) + Key(f) + Body(f)
  }

  // ---- decoding -------------------------------------------------------------------

  /** io.ReadFull on a finite stream. */
  datatype Taken = Got(bytes: Bytes, rest: Bytes) | Missing(error: ReadError)

  function Take(s: Bytes, k: nat): (t: Taken)
    ensures t.Got? <==> |s| >= k
    ensures t.Got? ==> s == t.bytes + t.rest && |t.bytes| == k
  {
    if |s| >= k then assert s == s[..k] + s[k..]; Got(s[..k], s[k..])
    else Missing(if s == [] then EndOfFile else UnexpectedEnd)
  }

  /** How many bytes of extended length a 7-bit length field announces. */
  function Extension(short: Byte): nat {
    if short == 126 then 2 else if short == 127 then 8 else 0
  }

  function Fin(b: Byte): bool { b >= 0x80 }
  function Opcode(b: Byte): Byte { b % 16 }
  function IsMasked(b: Byte): bool { b >= 0x80 }
  function Short(b: Byte): Byte { b % 128 }

  function DecodePayload(fin: bool, opcode: Byte, length: nat, mask: Bytes, s: Bytes): (r: Reading)
    requires mask == [] || |mask| == 4
    ensures r.Read? ==> |r.rest| <= |s| && |r.payload| < MAX_PAYLOAD
  {
    if length >= MAX_PAYLOAD then Stop(NegativeLength, s)
    else
      match Take(s, length)
      case Missing(e) => Stop(e, [])
      case Got(p, rest) => Read(fin, opcode, if mask == [] then p else Masked(p, mask), rest)
  }

  function DecodeMask(fin: bool, opcode: Byte, length: nat, masked: bool, s: Bytes): (r: Reading)
    ensures r.Read? ==> |r.rest| <= |s| && |r.payload| < MAX_PAYLOAD
  {
    if !masked then DecodePayload(fin, opcode, length, [], s)
    else
      match Take(s, 4)
      case Missing(e) => Stop(e, [])
      case Got(mask, rest) => DecodePayload(fin, opcode, length, mask, rest)
  }

  /** readFrame */
  function Decode(s: Bytes): (r: Reading)
    ensures r.Read? ==> |r.rest| < |s| && |r.payload| < MAX_PAYLOAD
  {
    match Take(s, 2)
    case Missing(e) => Stop(e, [])
    case Got(h, s1) =>
      var short := Short(h[1]);
      match Take(s1, Extension(short))
      case Missing(e) => Stop(e, [])
      case Got(ext, s2) =>
        var length := if Extension(short) == 0 then short else Number(ext);
        DecodeMask(Fin(h[0]), Opcode(h[0]), length, IsMasked(h[1]), s2)
  }

  // ---- round trip -------------------------------------------------------------------

  lemma HeaderBits(fin: bool, opcode: Byte, masked: bool, length: Byte)
    requires opcode < 16 && length < 128
    ensures Fin(First(fin, opcode)) == fin && Opcode(First(fin, opcode)) == opcode
    ensures IsMasked(Second(masked, length)) == masked && Short(Second(masked, length)) == length
  {
  }

  lemma TakeExact(a: Bytes, b: Bytes)
    ensures Take(a + b, |a|) == Got(a, b)
  {
    assert (a + b)[..|a|] == a && (a + b)[|a|..] == b;
  }

  lemma LengthRoundTrip(n: nat)
    requires n < MAX_PAYLOAD
    ensures ShortLength(n) < 128 && |ExtendedLength(n)| == Extension(ShortLength(n))
    ensures n == if Extension(ShortLength(n)) == 0 then ShortLength(n) else Number(ExtendedLength(n))
  {
    Powers();
    if n < 126 {
    } else if n <= 0xffff {
      NumberRoundTrip(n, 2);
    } else {
      NumberRoundTrip(n, 8);
    }
  }

  /** Decoding what was encoded gives it back and leaves what follows, masked or not. */
  lemma DecodeEncode(f: Frame, rest: Bytes)
    requires WellFormed(f)
    ensures Decode(Encode(f) + rest) == Read(f.fin, f.opcode, f.payload, rest)
  {
    hide First, Second, ShortLength, ExtendedLength, Number, Fin, Opcode, IsMasked, Short, Masked, BigEndian, Take;
    var n := |f.payload|;
    var header := [First(f.fin, f.opcode), Second(f.mask != None, ShortLength(n))];
    LengthRoundTrip(n);
    HeaderBits(f.fin, f.opcode, f.mask != None, ShortLength(n));
    var s2 := Key(f) + Body(f) + rest;
    var s1 := ExtendedLength(n) + s2;
    assert Encode(f) + rest == header + s1;
    TakeExact(header, s1);
    TakeExact(ExtendedLength(n), s2);
    DecodeBody(f, rest);
  }

  lemma DecodeBody(f: Frame, rest: Bytes)
    requires WellFormed(f)
    ensures DecodeMask(f.fin, f.opcode, |f.payload|, f.mask != None, Key(f) + Body(f) + rest)
            == Read(f.fin, f.opcode, f.payload, rest)
  {
    hide Masked, Take;
    TakeExact(Body(f), rest);
    if f.mask == None {
      assert [] + Body(f) + rest == Body(f) + rest;
    } else {
      assert Key(f) + Body(f) + rest == f.mask.value + (Body(f) + rest);
      TakeExact(f.mask.value, Body(f) + rest);
      MaskTwice(f.payload, f.mask.value);
    }
  }

  predicate AllWellFormed(fs: seq<Frame>) {
    forall i :: 0 <= i < |fs| ==> WellFormed(fs[i])
  }

  function EncodeAll(fs: seq<Frame>): Bytes
    requires AllWellFormed(fs)
  {
    if fs == [] then [] else Encode(fs[0]) + EncodeAll(fs[1..])
  }

  /** What a reader sees of a frame. */
  datatype Seen = Seen(fin: bool, opcode: Byte, payload: Bytes)

  /** All frames of a stream, or None if it does not end at the end of one. */
  function DecodeAll(s: Bytes): Option<seq<Seen>>
    decreases |s|
  {
    if s == [] then Some([])
    else
      match Decode(s)
      case Stop(_, _) => None
      case Read(fin, opcode, payload, rest) =>
        var more := DecodeAll(rest);
        if more == None then None else Some([Seen(fin, opcode, payload)] + more.value)
  }

  function View(fs: seq<Frame>): seq<Seen> {
    seq(|fs|, i requires 0 <= i < |fs| => Seen(fs[i].fin, fs[i].opcode, fs[i].payload))
  }

  /** Framing round-trips on whole streams, and every byte is consumed. */
  lemma {:induction false} StreamRoundTrip(fs: seq<Frame>)
    requires AllWellFormed(fs)
    ensures DecodeAll(EncodeAll(fs)) == Some(View(fs))
  {
    hide Encode, Decode;
    if fs != [] {
      StreamRoundTrip(fs[1..]);
      DecodeEncode(fs[0], EncodeAll(fs[1..]));
      EncodeNonEmpty(fs[0]);
      assert EncodeAll(fs) != [];
      assert View(fs) == [Seen(fs[0].fin, fs[0].opcode, fs[0].payload)] + View(fs[1..]);
    } else {
      assert View(fs) == [];
    }
  }

  lemma EncodeNonEmpty(f: Frame)
    requires WellFormed(f)
    ensures Encode(f) != []
    ensures |Encode(f)| == 2 + |ExtendedLength(|f.payload|)| + |Key(f)| + |f.payload|
  {
  }

  lemma NumberBound(b: Bytes)
    ensures |b| == 2 ==> Number(b) <= 0xffff
  {
    if |b| == 2 {
      assert b[..1] == [b[0]];
      assert [b[0]][..0] == [] && Number([b[0]]) == b[0] as nat;
    }
  }

  /**
    The length is written in the shortest form: no byte string that decodes to
    the same frame with the same masking bit is shorter (section 5.2 of RFC 6455).
   */
  lemma EncodingIsShortest(f: Frame, s: Bytes)
    requires WellFormed(f) && |s| >= 2
    requires Decode(s) == Read(f.fin, f.opcode, f.payload, []) && IsMasked(s[1]) == (f.mask != None)
    ensures |Encode(f)| <= |s|
  {
    hide Fin, Opcode, IsMasked, Masked, Number, BigEndian;
    EncodeNonEmpty(f);
    var h := Take(s, 2);
    var short := Short(h.bytes[1]);
    var e := Take(h.rest, Extension(short));
    NumberBound(e.bytes);
    ShortBound(short);
    var m := if IsMasked(h.bytes[1]) then Take(e.rest, 4).rest else e.rest;
    assert |s| == 2 + Extension(short) + (if f.mask != None then 4 else 0) + |m|;
    assert |m| == |f.payload|;
  }

  lemma ShortBound(short: Byte)
    ensures Extension(short) == 0 && short < 128 ==> short < 126
    ensures forall b: Byte :: Short(b) < 128
  {
  }

  // ---- reading messages ---------------------------------------------------------------

  datatype Message =
    | Data(opcode: Byte, payload: Bytes)
    | Closed(payload: Bytes)
    | Failed(error: ReadError)
    | Unsupported(opcode: Byte)
    | NotOpen

  /** The outcome of reading one message, the bytes written meanwhile and the bytes left unread. */
  datatype Exchange = Exchange(message: Message, written: Bytes, rest: Bytes)

  function Pong(payload: Bytes): Frame {
    Frame(true, PONG, None, payload)
  }

  /** ReadMessage, on the bytes to come. */
  function ReadNext(open: bool, s: Bytes): Exchange
    decreases |s|
  {
    match Decode(s)
    case Stop(e, rest) => Exchange(Failed(e), [], rest)
    case Read(fin, opcode, payload, rest) =>
      if opcode == CONTINUATION || opcode == TEXT || opcode == BINARY then
        if fin then Exchange(Data(opcode, payload), [], rest) else ReadNext(open, rest)
      else if opcode == PING then
        if !open then Exchange(NotOpen, [], rest)
        else
          var x := ReadNext(open, rest);
          x.(written := Encode(Pong(payload)) + x.written)
      else if opcode == CLOSE then Exchange(Closed(payload), [], rest)
      else if opcode == PONG then ReadNext(open, rest)
      else Exchange(Unsupported(opcode), [], rest)
  }

  /** The opcodes of section 5.2 of RFC 6455. */
  predicate Known(f: Frame) {
    f.opcode in [CONTINUATION, TEXT, BINARY, CLOSE, PING, PONG]
  }

  /** The frames that end a ReadMessage: a close, or a data frame with the final bit set. */
  predicate Ends(f: Frame) {
    f.opcode == CLOSE || (f.fin && f.opcode != PING && f.opcode != PONG)
  }

  function FirstEnd(fs: seq<Frame>): (k: nat)
    ensures k <= |fs| && (k < |fs| ==> Ends(fs[k])) && forall i :: 0 <= i < k ==> !Ends(fs[i])
  {
    if fs == [] || Ends(fs[0]) then 0 else 1 + FirstEnd(fs[1..])
  }

  /** One pong per ping, in order and with the ping's payload. */
  function Pongs(fs: seq<Frame>): (ps: seq<Frame>)
    requires AllWellFormed(fs)
    ensures AllWellFormed(ps)
  {
    if fs == [] then []
    else if fs[0].opcode == PING then [Pong(fs[0].payload)] + Pongs(fs[1..])
    else Pongs(fs[1..])
  }

  /**
    On any stream of frames with known opcodes an open connection returns the
    first close or final data frame, having answered exactly the pings before it
    (sections 5.5.2 and 5.5.3 of RFC 6455), and leaves what follows unread.
   */
  lemma {:induction false} ReadsFirstMessage(fs: seq<Frame>, tail: Bytes)
    requires AllWellFormed(fs) && FirstEnd(fs) < |fs| && forall i :: 0 <= i < |fs| ==> Known(fs[i])
    ensures var k := FirstEnd(fs);
            ReadNext(true, EncodeAll(fs) + tail) ==
            Exchange(if fs[k].opcode == CLOSE then Closed(fs[k].payload) else Data(fs[k].opcode, fs[k].payload),
                     EncodeAll(Pongs(fs[..k])), EncodeAll(fs[k + 1..]) + tail)
  {
    hide Encode, Decode;
    var k, rest := FirstEnd(fs), EncodeAll(fs[1..]) + tail;
    assert EncodeAll(fs) + tail == Encode(fs[0]) + rest;
    DecodeEncode(fs[0], rest);
    if k > 0 {
      ReadsFirstMessage(fs[1..], tail);
      assert fs[1..][k - 1 + 1..] == fs[k + 1..] && fs[..k][1..] == fs[1..][..k - 1];
      if fs[0].opcode == PING {
        assert Pongs(fs[..k])[1..] == Pongs(fs[1..][..k - 1]);
      }
    } else {
      assert fs[..0] == [] && EncodeAll(Pongs([])) == [];
    }
  }

  /** Without such a frame every ping is answered before the end of the stream is reported. */
  lemma {:induction false} ReadsToTheEnd(fs: seq<Frame>)
    requires AllWellFormed(fs) && FirstEnd(fs) == |fs| && forall i :: 0 <= i < |fs| ==> Known(fs[i])
    ensures ReadNext(true, EncodeAll(fs)) == Exchange(Failed(EndOfFile), EncodeAll(Pongs(fs)), [])
  {
    hide Encode;
    if fs == [] {
      assert EncodeAll(Pongs([])) == [];
    } else {
      ReadsToTheEnd(fs[1..]);
      DecodeEncode(fs[0], EncodeAll(fs[1..]));
      if fs[0].opcode == PING {
        assert Pongs(fs)[1..] == Pongs(fs[1..]);
      }
    }
  }

  /** Unmasking in place. */
  method Unmask(payload: array<Byte>, mask: Bytes)
    requires |mask| == 4
    modifies payload
    ensures payload[..] == Masked(old(payload[..]), mask)
    ensures forall k, i :: 0 <= k < payload.Length && 0 <= i < 8 ==>
      Bit(payload[k], i) == if Bit(old(payload[k]), i) == Bit(mask[k % 4], i) then 0 else 1
  {
    hide Xor, Bit;
    for i := 0 to payload.Length
      invariant forall k :: 0 <= k < i ==> payload[k] == Xor(old(payload[k]), mask[k % 4])
      invariant forall k :: i <= k < payload.Length ==> payload[k] == old(payload[k])
    {
      payload[i] := Xor(payload[i], mask[i % 4]);
    }
    forall k | 0 <= k < payload.Length
      ensures forall i :: 0 <= i < 8 ==> Bit(payload[k], i) == if Bit(old(payload[k]), i) == Bit(mask[k % 4], i) then 0 else 1
    {
      XorIsBitwise(old(payload[k]), mask[k % 4]);
    }
  }

  class Conn {
    const open: bool
    var input: Bytes
    var output: Bytes

    constructor (open: bool, input: Bytes)
      ensures this.open == open && this.input == input && output == []
    {
      this.open, this.input, this.output := open, input, [];
    }

    method ReadFull(k: nat) returns (t: Taken)
      modifies this`input
      ensures t == Take(old(input), k)
      ensures input == if t.Got? then t.rest else []
    {
      t := Take(input, k);
      input := if t.Got? then t.rest else [];
    }

    method ReadFrame() returns (r: Reading)
      modifies this`input
      ensures r == Decode(old(input)) && input == r.rest
    {
      hide Fin, Opcode, IsMasked, Short, Number, Take, Masked;
      var header := ReadFull(2);
      if header.Missing? { return Stop(header.error, []); }
      var fin, opcode, masked := Fin(header.bytes[0]), Opcode(header.bytes[0]), IsMasked(header.bytes[1]);
      var short := Short(header.bytes[1]);
      var length := short;
      if short == 126 || short == 127 {
        var ext := ReadFull(if short == 126 then 2 else 8);
        if ext.Missing? { return Stop(ext.error, []); }
        length := Number(ext.bytes);
      } else {
        TakeNone(input);
      }
      var mask: Bytes := [];
      if masked {
        var m := ReadFull(4);
        if m.Missing? { return Stop(m.error, []); }
        mask := m.bytes;
      }
      r := ReadPayload(fin, opcode, length, mask);
    }

    method ReadPayload(fin: bool, opcode: Byte, length: nat, mask: Bytes) returns (r: Reading)
      requires mask == [] || |mask| == 4
      modifies this`input
      ensures r == DecodePayload(fin, opcode, length, mask, old(input)) && input == r.rest
    {
      if length >= MAX_PAYLOAD { return Stop(NegativeLength, input); }
      var p := ReadFull(length);
      if p.Missing? { return Stop(p.error, []); }
      var payload := new Byte[length](i requires 0 <= i < |p.bytes| => p.bytes[i]);
      assert payload[..] == p.bytes;
      if mask != [] {
        Unmask(payload, mask);
      }
      r := Read(fin, opcode, payload[..], input);
    }

    /** The header is built up byte by byte and written before the payload. */
    method WriteFrame(opcode: Byte, payload: Bytes) returns (ok: bool)
      requires |payload| < MAX_PAYLOAD
      modifies this`output
      ensures ok == open
      ensures output == if open then old(output) + Encode(Frame(true, opcode, None, payload)) else old(output)
    {
      if !open { return false; }
      var header: Bytes := [TopBit(opcode)];
      var length := |payload|;
      if length < 126 {
        header := header + [length];
      } else if length <= 0xffff {
        header := header + [126] + BigEndian(length, 2);
      } else {
        header := header + [127] + BigEndian(length, 8);
      }
      assert header + payload == Encode(Frame(true, opcode, None, payload));
      output := output + header;
      output := output + payload;
      assert output == old(output) + (header + payload);
      ok := true;
    }

    method ReadMessage() returns (message: Message)
      modifies this`input, this`output
      ensures var x := ReadNext(open, old(input));
              message == x.message && output == old(output) + x.written && input == x.rest
    {
      hide Decode, Encode;
      while true
        invariant var x, y := ReadNext(open, input), ReadNext(open, old(input));
                  x.message == y.message && output + x.written == old(output) + y.written && x.rest == y.rest
        decreases |input|
      {
        ghost var x := ReadNext(open, input);
        assert output + [] == output;
        var r := ReadFrame();
        if r.Stop? { return Failed(r.error); }
        if r.opcode == CONTINUATION || r.opcode == TEXT || r.opcode == BINARY {
          if r.fin { return Data(r.opcode, r.payload); }
        } else if r.opcode == PING {
          assert open ==> output + x.written == output + Encode(Pong(r.payload)) + ReadNext(open, input).written;
          var ok := WriteFrame(PONG, r.payload);
          if !ok { return NotOpen; }
        } else if r.opcode == CLOSE {
          return Closed(r.payload);
        } else if r.opcode != PONG {
          return Unsupported(r.opcode);
        }
      }
    }
  }

  lemma TakeNone(s: Bytes)
    ensures Take(s, 0) == Got([], s)
  {
  }
}
