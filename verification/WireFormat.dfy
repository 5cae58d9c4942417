/** The bytes of a frame on the wire, as figure and text of section 5.2 of RFC 6455 lay them out. */
module WireFormat {
  import opened Model
  import opened Frames

  // A received frame, described by positions in the byte stream only.

  predicate HasMask(s: Bytes)
    requires |s| >= 2
  {
    s[1] >= 128
  }

  /** The bytes of extended length. */
  function ExtendedSize(s: Bytes): nat
    requires |s| >= 2
  {
    if s[1] % 128 == 127 then 8 else if s[1] % 128 == 126 then 2 else 0
  }

  function HeaderSize(s: Bytes): nat
    requires |s| >= 2
  {
    2 + ExtendedSize(s) + if HasMask(s) then 4 else 0
  }

  function At(s: Bytes, i: nat): int
    requires i < |s|
  {
    s[i]
  }

  /** The payload length, in network byte order. */
  function Announced(s: Bytes): nat
    requires |s| >= 2 && |s| >= 2 + ExtendedSize(s)
  {
    if ExtendedSize(s) == 0 then s[1] % 128
    else if ExtendedSize(s) == 2 then 0x100 * At(s, 2) + At(s, 3)
    else 0x100_0000_0000_0000 * At(s, 2) + 0x1_0000_0000_0000 * At(s, 3) + 0x100_0000_0000 * At(s, 4) + 0x1_0000_0000 * At(s, 5)
         + 0x100_0000 * At(s, 6) + 0x1_0000 * At(s, 7) + 0x100 * At(s, 8) + At(s, 9)
  }

  /** The stream holds a whole frame that the program can allocate. */
  predicate Complete(s: Bytes) {
    && |s| >= 2 && |s| >= HeaderSize(s)
    && Announced(s) < 0x8000_0000_0000_0000
    && |s| >= HeaderSize(s) + Announced(s)
  }

  lemma NumberOfTwo(b: Bytes)
    requires |b| == 2
    ensures Number(b) == 0x100 * At(b, 0) + At(b, 1)
  {
    assert b[..1] == [b[0]];
    assert Number([b[0]]) == b[0] by { assert [b[0]][..0] == []; }
  }

  lemma NumberSplits(b: Bytes)
    requires |b| == 8
    ensures Number(b) == 0x100_0000_0000_0000 * At(b, 0) + 0x1_0000_0000_0000 * At(b, 1) + 0x100_0000_0000 * At(b, 2) + 0x1_0000_0000 * At(b, 3)
                         + 0x100_0000 * At(b, 4) + 0x1_0000 * At(b, 5) + 0x100 * At(b, 6) + At(b, 7)
  {
    NumberOfTwo(b[..2]);
    assert forall k :: 2 <= k < 8 ==> b[..k + 1][..k] == b[..k];
    NumberStep(b, 2);
    NumberStep(b, 3);
    NumberStep(b, 4);
    NumberStep(b, 5);
    NumberStep(b, 6);
    NumberStep(b, 7);
    assert b[..8] == b;
  }

  lemma NumberStep(b: Bytes, k: nat)
    requires k < |b|
    ensures Number(b[..k + 1]) == 256 * Number(b[..k]) + b[k]
  {
    assert b[..k + 1][..k] == b[..k];
  }

  /** What Take hands out, by position. */
  lemma TakeAt(s: Bytes, from: nat, k: nat)
    requires from <= |s|
    ensures |s| >= from + k ==> Take(s[from..], k) == Got(s[from..from + k], s[from + k..])
    ensures |s| < from + k ==> Take(s[from..], k) == Missing(if |s| == from then EndOfFile else UnexpectedEnd)
  {
    if |s| >= from + k {
      assert s[from..][..k] == s[from..from + k] && s[from..][k..] == s[from + k..];
    }
  }

  lemma HeaderAt(s: Bytes)
    requires |s| >= 2
    ensures Take(s, 2) == Got(s[..2], s[2..]) && s[..2][1] == s[1]
    ensures Extension(Short(s[1])) == ExtendedSize(s) && IsMasked(s[1]) == HasMask(s)
    ensures |s| >= 2 + ExtendedSize(s) ==>
              Announced(s) == if ExtendedSize(s) == 0 then Short(s[1]) else Number(s[2..2 + ExtendedSize(s)])
  {
    TakeAt(s, 0, 2);
    assert s[0..] == s && s[0..2] == s[..2];
    if |s| >= 2 + ExtendedSize(s) {
      var e := s[2..2 + ExtendedSize(s)];
      if ExtendedSize(s) == 2 { NumberOfTwo(e); }
      if ExtendedSize(s) == 8 { NumberSplits(e); }
    }
  }

  /** What follows the length: key and payload. */
  lemma BodyAt(s: Bytes, fin: bool, opcode: Byte)
    requires |s| >= 2 && |s| >= 2 + ExtendedSize(s)
    ensures var x, h, n := 2 + ExtendedSize(s), HeaderSize(s), Announced(s);
            DecodeMask(fin, opcode, n, HasMask(s), s[x..]) ==
            if |s| < h then Stop(if |s| == x then EndOfFile else UnexpectedEnd, [])
            else if n >= 0x8000_0000_0000_0000 then Stop(NegativeLength, s[h..])
            else if |s| < h + n then Stop(if |s| == h then EndOfFile else UnexpectedEnd, [])
            else Read(fin, opcode, if HasMask(s) then Masked(s[h..h + n], s[h - 4..h]) else s[h..h + n], s[h + n..])
  {
    hide Take, Masked, Announced;
    TakeAt(s, 2 + ExtendedSize(s), 4);
    if |s| >= HeaderSize(s) {
      TakeAt(s, HeaderSize(s), Announced(s));
    }
  }

  /** The reader's result, by position. */
  lemma DecodeAt(s: Bytes)
    ensures Decode(s).Read? <==> Complete(s)
    ensures Complete(s) ==>
      var h, n := HeaderSize(s), Announced(s);
      var raw := s[h..h + n];
      Decode(s) == Read(s[0] >= 128, s[0] % 16, if HasMask(s) then Masked(raw, s[h - 4..h]) else raw, s[h + n..])
  {
    hide Take, Number, Masked, Announced, DecodeMask;
    if |s| < 2 {
      TakeAt(s, 0, 2);
      assert s[0..] == s;
    } else {
      HeaderAt(s);
      TakeAt(s, 2, ExtendedSize(s));
      if |s| >= 2 + ExtendedSize(s) { BodyAt(s, s[0] >= 128, s[0] % 16); }
    }
  }

  /**
    The reader follows the wire format: it yields a frame exactly when the stream
    starts with a complete one, with the bits and lengths of the header, and leaves
    what comes behind it. A masked payload is unmasked bit by bit: a bit of the
    result is set exactly when the received bit and the key's bit differ.
   */
  lemma ReadsWireFormat(s: Bytes)
    ensures Decode(s).Read? <==> Complete(s)
    ensures Complete(s) ==>
      var r, h, n := Decode(s), HeaderSize(s), Announced(s);
      && r.fin == (s[0] >= 128) && r.opcode == s[0] % 16
      && |r.payload| == n && r.rest == s[h + n..]
      && (!HasMask(s) ==> forall k :: 0 <= k < n ==> r.payload[k] == s[h + k])
      && (HasMask(s) ==> forall k, i :: 0 <= k < n && 0 <= i < 8 ==>
            Bit(r.payload[k], i) == if Bit(s[h + k], i) == Bit(s[h - 4 + k % 4], i) then 0 else 1)
  {
    hide Decode, Bit, Xor;
    DecodeAt(s);
    if Complete(s) && HasMask(s) {
      var h, n := HeaderSize(s), Announced(s);
      forall k | 0 <= k < n
        ensures forall i :: 0 <= i < 8 ==>
          Bit(Decode(s).payload[k], i) == if Bit(s[h + k], i) == Bit(s[h - 4 + k % 4], i) then 0 else 1
      {
        assert s[h..h + n][k] == s[h + k] && s[h - 4..h][k % 4] == s[h - 4 + k % 4];
        XorIsBitwise(s[h + k], s[h - 4 + k % 4]);
      }
    }
  }

  /** Why no frame is read: a length beyond 63 bits, the end of the stream between two parts, or inside one. */
  lemma StopsBecause(s: Bytes)
    requires !Complete(s)
    ensures var r := Decode(s);
            && r.Stop?
            && (r.error == NegativeLength <==>
                  |s| >= 2 && |s| >= HeaderSize(s) && Announced(s) >= 0x8000_0000_0000_0000)
            && (r.error == EndOfFile <==>
                  || |s| == 0
                  || (|s| == 2 && HeaderSize(s) > 2)
                  || (|s| > 2 && |s| == 2 + ExtendedSize(s) && HasMask(s))
                  || (|s| >= 2 && |s| == HeaderSize(s) && 0 < Announced(s) < 0x8000_0000_0000_0000))
  {
    hide Take, Number, Masked, Announced, DecodeMask;
    if |s| < 2 {
      TakeAt(s, 0, 2);
      assert s[0..] == s;
    } else {
      HeaderAt(s);
      TakeAt(s, 2, ExtendedSize(s));
      if |s| >= 2 + ExtendedSize(s) { BodyAt(s, s[0] >= 128, s[0] % 16); }
    }
  }

  /** What is written: the final bit and opcode, an unmasked header of 2, 4 or 10 bytes, the payload as it is. */
  lemma WritesWireFormat(opcode: Byte, payload: Bytes)
    requires opcode < 16 && |payload| < MAX_PAYLOAD
    ensures var s, n := Encode(Frame(true, opcode, None, payload)), |payload|;
            && |s| >= 2 && s[0] == 128 + opcode && s[1] < 128
            && HeaderSize(s) == (if n < 126 then 2 else if n < 0x1_0000 then 4 else 10)
            && |s| == HeaderSize(s) + n
            && Announced(s) == n
            && s[HeaderSize(s)..] == payload
  {
    var f := Frame(true, opcode, None, payload);
    var s := Encode(f);
    DecodeEncode(f, []);
    assert s + [] == s;
    hide Decode, BigEndian;
    DecodeAt(s);
  }

  /** Each ping is answered by a pong of its own, a final unmasked frame with the ping's payload; nothing else is. */
  lemma {:induction false} PongAt(fs: seq<Frame>, i: nat)
    requires AllWellFormed(fs) && i < |fs|
    ensures fs[i].opcode == 0x9 ==>
      && |Pongs(fs[..i])| < |Pongs(fs)|
      && Pongs(fs)[|Pongs(fs[..i])|] == Frame(true, 0xA, None, fs[i].payload)
    ensures |Pongs(fs[..i + 1])| == |Pongs(fs[..i])| + if fs[i].opcode == 0x9 then 1 else 0
    ensures Pongs(fs[..0]) == []
  {
    if i > 0 {
      PongAt(fs[1..], i - 1);
      assert fs[..i][1..] == fs[1..][..i - 1] && fs[..i + 1][1..] == fs[1..][..i];
    } else {
      assert fs[..1] == [fs[0]] && fs[..1][1..] == [] && fs[..0] == [];
    }
  }
}
