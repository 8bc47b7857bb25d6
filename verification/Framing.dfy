/**
  Packets over a byte stream: every packet follows a header with its length, masked by the next number of a
  generator that both sides have seeded alike.
 */
module Framing {
  import opened Bytes
  import opened Bits

  const HEADER := 8
  const MAX_LENGTH := 1601

  function Two63(): nat { 0x8000_0000_0000_0000 }

  /** `Int63` answers of the generator, in order. */
  ghost predicate Generator(masks: nat -> nat) {
    forall k :: masks(k) < Two63()
  }

  function PackUint64(n: nat): (b: bytes)
    requires n < 0x1_0000_0000_0000_0000
    ensures |b| == 8
  {
    PackUint32(n / 0x1_0000_0000) + PackUint32(n % 0x1_0000_0000)
  }

  function UnpackUint64(b: bytes): (n: nat)
    requires |b| == 8
    ensures n < 0x1_0000_0000_0000_0000 && PackUint64(n) == b
  {
    var hi, lo := UnpackUint32(b[..4]), UnpackUint32(b[4..]);
    assert b == b[..4] + b[4..];
    hi * 0x1_0000_0000 + lo
  }

  lemma Uint64RoundTrip(n: nat)
    requires n < 0x1_0000_0000_0000_0000
    ensures UnpackUint64(PackUint64(n)) == n
  {
    var b := PackUint64(n);
    assert b[..4] == PackUint32(n / 0x1_0000_0000) && b[4..] == PackUint32(n % 0x1_0000_0000);
    Uint32RoundTrip(n / 0x1_0000_0000);
    Uint32RoundTrip(n % 0x1_0000_0000);
  }

  lemma XorFits(a: nat, m: nat)
    requires a < 0x1_0000_0000_0000_0000 && m < Two63()
    ensures Xor(a, m) < 0x1_0000_0000_0000_0000
  {
    Pow2Is64();
    XorBound(a, m, 64);
  }

  lemma Pow2Is64()
    ensures Pow2(64) == 0x1_0000_0000_0000_0000
  {
    assert Pow2(8) == 0x100;
    Pow2Sum(8, 8);
    Pow2Sum(16, 16);
    Pow2Sum(32, 32);
  }

  // ---------- Sender ----------

  function Frame(mask: nat, packet: bytes): (b: bytes)
    requires mask < Two63() && |packet| <= MAX_LENGTH
    ensures |b| == HEADER + |packet|
  {
    XorFits(|packet|, mask);
    PackUint64(Xor(|packet|, mask)) + packet
  }

  /** The stream of a list of packets: a packet that is too long ends it. */
  ghost function Encode(masks: nat -> nat, k: nat, packets: seq<bytes>): bytes
    requires Generator(masks)
    decreases |packets|
  {
    if packets == [] || |packets[0]| > MAX_LENGTH then []
    else Frame(masks(k), packets[0]) + Encode(masks, k + 1, packets[1..])
  }

  // ---------- Receiver ----------

  /** Why the receiver stops. A negative length makes it panic. */
  datatype End = Eof | TooLong | Panic

  /** The length in a header, in two's complement. */
  function HeaderLength(mask: nat, header: bytes): int
    requires |header| == HEADER && mask < Two63()
  {
    var n := Xor(UnpackUint64(header), mask);
    if n < Two63() then n else n - 2 * Two63()
  }

  /** All frames of a stream with the empty ones, why it ends, and what was not consumed as a frame. */
  ghost function Frames(masks: nat -> nat, k: nat, stream: bytes): (seq<bytes>, End, bytes)
    requires Generator(masks)
    decreases |stream|
  {
    if |stream| < HEADER then ([], Eof, stream)
    else
      var n := HeaderLength(masks(k), stream[..HEADER]);
      if n > MAX_LENGTH then ([], TooLong, stream)
      else if n < 0 then ([], Panic, stream)
      else if |stream| < HEADER + n then ([], Eof, stream)
      else
        var (frames, end, rest) := Frames(masks, k + 1, stream[HEADER + n..]);
        ([stream[HEADER..HEADER + n]] + frames, end, rest)
  }

  function NonEmpty(packets: seq<bytes>): seq<bytes> {
    if packets == [] then []
    else (if packets[0] == [] then [] else [packets[0]]) + NonEmpty(packets[1..])
  }

  /** What the receiver hands on. */
  ghost function Decode(masks: nat -> nat, k: nat, stream: bytes): seq<bytes>
    requires Generator(masks)
  {
    NonEmpty(Frames(masks, k, stream).0)
  }

  // ---------- Theorems ----------

  lemma HeaderRoundTrip(mask: nat, packet: bytes)
    requires mask < Two63() && |packet| <= MAX_LENGTH
    ensures HeaderLength(mask, Frame(mask, packet)[..HEADER]) == |packet|
  {
    XorFits(|packet|, mask);
    assert Frame(mask, packet)[..HEADER] == PackUint64(Xor(|packet|, mask));
    Uint64RoundTrip(Xor(|packet|, mask));
    XorTwice(|packet|, mask);
  }

  ghost predicate Short(packets: seq<bytes>) {
    forall i :: 0 <= i < |packets| ==> |packets[i]| <= MAX_LENGTH
  }

  lemma FirstFrame(masks: nat -> nat, k: nat, packet: bytes, tail: bytes)
    requires Generator(masks) && |packet| <= MAX_LENGTH
    ensures var (frames, end, rest) := Frames(masks, k + 1, tail);
            Frames(masks, k, Frame(masks(k), packet) + tail) == ([packet] + frames, end, rest)
  {
    hide HeaderLength;
    var f := Frame(masks(k), packet);
    var stream := f + tail;
    HeaderRoundTrip(masks(k), packet);
    assert stream[..HEADER] == f[..HEADER];
    assert stream[HEADER + |packet|..] == tail && stream[HEADER..HEADER + |packet|] == packet;
  }

  /** Sender and receiver stay in step: whatever follows is read with the generator where the sender left it. */
  lemma {:induction false} InStep(masks: nat -> nat, k: nat, packets: seq<bytes>, tail: bytes)
    requires Generator(masks) && Short(packets)
    ensures var (frames, end, rest) := Frames(masks, k + |packets|, tail);
            Frames(masks, k, Encode(masks, k, packets) + tail) == (packets + frames, end, rest)
    decreases |packets|
  {
    hide Frame, Frames;
    var frames := Frames(masks, k + |packets|, tail).0;
    if packets == [] {
      assert Encode(masks, k, packets) + tail == tail && packets + frames == frames;
    } else {
      var f, stream := Frame(masks(k), packets[0]), Encode(masks, k + 1, packets[1..]);
      assert Encode(masks, k, packets) + tail == f + (stream + tail);
      InStep(masks, k + 1, packets[1..], tail);
      FirstFrame(masks, k, packets[0], stream + tail);
      assert [packets[0]] + (packets[1..] + frames) == packets + frames;
    }
  }

  lemma {:induction false} NonEmptyOfConcat(a: seq<bytes>, b: seq<bytes>)
    ensures NonEmpty(a + b) == NonEmpty(a) + NonEmpty(b)
  {
    if a == [] {
      assert a + b == b;
    } else {
      assert (a + b)[1..] == a[1..] + b;
      NonEmptyOfConcat(a[1..], b);
    }
  }

  /** The receiver gets exactly the packets that are not empty, in order; empty frames anywhere are skipped. */
  lemma DecodeInvertsEncode(masks: nat -> nat, k: nat, packets: seq<bytes>)
    requires Generator(masks) && Short(packets)
    ensures Decode(masks, k, Encode(masks, k, packets)) == NonEmpty(packets)
    ensures Frames(masks, k, Encode(masks, k, packets)).1 == Eof && Frames(masks, k, Encode(masks, k, packets)).2 == []
  {
    InStep(masks, k, packets, []);
    assert Encode(masks, k, packets) + [] == Encode(masks, k, packets);
    assert packets + [] == packets;
  }

  /** The packets before the first one that is too long. */
  function Sendable(packets: seq<bytes>): (r: seq<bytes>)
    ensures r <= packets && forall i :: 0 <= i < |r| ==> |r[i]| <= MAX_LENGTH
    ensures |r| < |packets| ==> |packets[|r|]| > MAX_LENGTH
  {
    if packets == [] || |packets[0]| > MAX_LENGTH then [] else [packets[0]] + Sendable(packets[1..])
  }

  lemma {:induction false} EncodeStopsAtTooLong(masks: nat -> nat, k: nat, packets: seq<bytes>)
    requires Generator(masks)
    ensures Encode(masks, k, packets) == Encode(masks, k, Sendable(packets))
    decreases |packets|
  {
    if packets != [] && |packets[0]| <= MAX_LENGTH {
      EncodeStopsAtTooLong(masks, k + 1, packets[1..]);
      assert Sendable(packets)[1..] == Sendable(packets[1..]);
    }
  }

  /** For any packets at all: those before the first one that is too long arrive. */
  lemma AnythingSentArrives(masks: nat -> nat, k: nat, packets: seq<bytes>)
    requires Generator(masks)
    ensures Decode(masks, k, Encode(masks, k, packets)) == NonEmpty(Sendable(packets))
  {
    EncodeStopsAtTooLong(masks, k, packets);
    DecodeInvertsEncode(masks, k, Sendable(packets));
  }

  /** The other direction, for every stream of bytes: what was read as frames is the encoding of those frames. */
  lemma {:induction false} EncodeInvertsFrames(masks: nat -> nat, k: nat, stream: bytes)
    requires Generator(masks)
    ensures var (frames, _, rest) := Frames(masks, k, stream);
            Short(frames) && Encode(masks, k, frames) + rest == stream
    decreases |stream|
  {
    hide HeaderLength, Frame;
    if |stream| >= HEADER {
      var n := HeaderLength(masks(k), stream[..HEADER]);
      if 0 <= n <= MAX_LENGTH && HEADER + n <= |stream| {
        var packet, tail := stream[HEADER..HEADER + n], stream[HEADER + n..];
        EncodeInvertsFrames(masks, k + 1, tail);
        FrameOfHeader(masks(k), stream[..HEADER], packet);
        var (frames, _, rest) := Frames(masks, k + 1, tail);
        EncodeFirst(masks, k, packet, frames);
        assert stream == stream[..HEADER] + packet + tail;
      }
    }
  }

  lemma EncodeFirst(masks: nat -> nat, k: nat, packet: bytes, packets: seq<bytes>)
    requires Generator(masks) && |packet| <= MAX_LENGTH
    ensures Encode(masks, k, [packet] + packets) == Frame(masks(k), packet) + Encode(masks, k + 1, packets)
  {
    hide Frame;
    assert ([packet] + packets)[1..] == packets;
  }

  lemma FrameOfHeader(mask: nat, header: bytes, packet: bytes)
    requires mask < Two63() && |header| == HEADER && |packet| <= MAX_LENGTH && HeaderLength(mask, header) == |packet|
    ensures Frame(mask, packet) == header + packet
  {
    XorFits(UnpackUint64(header), mask);
    XorTwice(UnpackUint64(header), mask);
  }

  /** How many whole frames fit into the first `n` bytes. */
  function Whole(packets: seq<bytes>, n: nat): (w: nat)
    ensures w <= |packets|
  {
    if packets == [] || n < HEADER + |packets[0]| then 0 else 1 + Whole(packets[1..], n - HEADER - |packets[0]|)
  }

  /** A stream cut anywhere yields exactly the packets whose frames came through whole. */
  lemma {:induction false} CutStreamYieldsWholeFrames(masks: nat -> nat, k: nat, packets: seq<bytes>, n: nat)
    requires Generator(masks) && Short(packets) && n <= |Encode(masks, k, packets)|
    ensures Decode(masks, k, Encode(masks, k, packets)[..n]) == NonEmpty(packets[..Whole(packets, n)])
    ensures Frames(masks, k, Encode(masks, k, packets)[..n]).1 == Eof
  {
    hide Frame, HeaderLength, NonEmpty;
    CutFrames(masks, k, packets, n);
  }

  lemma {:induction false} CutFrames(masks: nat -> nat, k: nat, packets: seq<bytes>, n: nat)
    requires Generator(masks) && Short(packets) && n <= |Encode(masks, k, packets)|
    ensures var (frames, end, _) := Frames(masks, k, Encode(masks, k, packets)[..n]);
            frames == packets[..Whole(packets, n)] && end == Eof
    decreases |packets|
  {
    hide Frame, HeaderLength;
    if packets != [] {
      var f, tail := Frame(masks(k), packets[0]), Encode(masks, k + 1, packets[1..]);
      var cut := (f + tail)[..n];
      if n < |f| {
        if n >= HEADER {
          HeaderRoundTrip(masks(k), packets[0]);
          assert cut[..HEADER] == f[..HEADER];
        }
      } else {
        var m := n - |f|;
        assert cut == f + tail[..m];
        CutFrames(masks, k + 1, packets[1..], m);
        FirstFrame(masks, k, packets[0], tail[..m]);
        assert [packets[0]] + packets[1..][..Whole(packets[1..], m)] == packets[..Whole(packets, n)];
      }
    }
  }

  // ---------- On the wire ----------

  /** Where the frame of packet `m` begins. */
  function Offset(packets: seq<bytes>, m: nat): nat
    requires m <= |packets|
  {
    if m == 0 then 0 else HEADER + |packets[0]| + Offset(packets[1..], m - 1)
  }

  /** The frame of packet `m` has its place in the stream and is masked by the m-th number of the generator. */
  lemma {:induction false} FrameOnTheWire(masks: nat -> nat, k: nat, packets: seq<bytes>, m: nat)
    requires Generator(masks) && Short(packets) && m < |packets|
    ensures var stream, at, packet := Encode(masks, k, packets), Offset(packets, m), packets[m];
            && at + HEADER + |packet| <= |stream|
            && stream[at..at + HEADER + |packet|] == Frame(masks(k + m), packet)
    decreases m
  {
    hide Frame, Encode;
    var f, rest := Frame(masks(k), packets[0]), Encode(masks, k + 1, packets[1..]);
    EncodeStep(masks, k, packets);
    if m == 0 {
      assert (f + rest)[..|f|] == f;
    } else {
      FrameOnTheWire(masks, k + 1, packets[1..], m - 1);
      Shifted(f, rest, Offset(packets[1..], m - 1), HEADER + |packets[m]|);
    }
  }

  lemma Shifted(f: bytes, rest: bytes, at: nat, n: nat)
    requires at + n <= |rest|
    ensures (f + rest)[|f| + at..|f| + at + n] == rest[at..at + n]
  {
  }

  lemma {:induction false} Uint64Bits(n: nat, j: nat, i: nat)
    requires n < 0x1_0000_0000_0000_0000 && j < 8 && i < 8
    ensures Bit(PackUint64(n)[j], i) == Bit(n, 8 * (7 - j) + i)
  {
    hide Bit, PackUint32;
    Pow2Is32();
    if j < 4 {
      Uint32Bits(n / 0x1_0000_0000, j, i);
      BitOfQuotient(n, 32, n / 0x1_0000_0000, 8 * (3 - j) + i);
    } else {
      Uint32Bits(n % 0x1_0000_0000, j - 4, i);
      BitOfRemainder(n, 32, 8 * (7 - j) + i);
    }
  }

  /**
    What is on the wire: every bit of the eight header bytes, the highest first, is the bit of the packet's length,
    flipped where the mask has that bit; the packet follows as it is.
   */
  lemma {:induction false} HeaderHidesTheLength(mask: nat, packet: bytes, j: nat, i: nat)
    requires mask < Two63() && |packet| <= MAX_LENGTH && j < HEADER && i < 8
    ensures var frame, at := Frame(mask, packet), 8 * (7 - j) + i;
            (Bit(frame[j], i) <==> Bit(|packet|, at) != Bit(mask, at)) && frame[HEADER..] == packet
  {
    hide Bit, PackUint64, Xor;
    XorFits(|packet|, mask);
    Uint64Bits(Xor(|packet|, mask), j, i);
    BitOfXor(|packet|, mask, 8 * (7 - j) + i);
    assert Frame(mask, packet)[j] == PackUint64(Xor(|packet|, mask))[j];
  }

  // ---------- Panic ----------

  lemma Pow2Is63()
    ensures Pow2(63) == Two63()
  {
    Pow2Is64();
    assert Pow2(64) == 2 * Pow2(63);
  }

  lemma UnpackTopBit(header: bytes)
    requires |header| == HEADER
    ensures UnpackUint64(header) >= Two63() <==> header[0] >= 128
  {
    var hi := header[..4];
    var h := UnpackUint16(hi[..2]);
    assert h >= 0x8000 <==> header[0] >= 128;
    var w := UnpackUint32(hi);
    assert w == h * 0x1_0000 + UnpackUint16(hi[2..]);
    assert w >= 0x8000_0000 <==> h >= 0x8000;
    hide UnpackUint32, UnpackUint16;
    assert UnpackUint64(header) == w * 0x1_0000_0000 + UnpackUint32(header[4..]);
  }

  /** The mask never touches the sign. */
  lemma HeaderSign(mask: nat, header: bytes)
    requires |header| == HEADER && mask < Two63()
    ensures HeaderLength(mask, header) < 0 <==> header[0] >= 128
  {
    UnpackTopBit(header);
    hide UnpackUint64;
    var u := UnpackUint64(header);
    XorFits(u, mask);
    Pow2Is63();
    if u < Two63() {
      XorBound(u, mask, 63);
    } else if Xor(u, mask) < Two63() {
      XorBound(Xor(u, mask), mask, 63);
      XorTwice(u, mask);
    }
  }

  /** What is left over is where the receiver stopped. */
  lemma {:induction false} RestStops(masks: nat -> nat, k: nat, stream: bytes)
    requires Generator(masks)
    ensures var (frames, end, rest) := Frames(masks, k, stream);
            Frames(masks, k + |frames|, rest) == ([], end, rest)
    decreases |stream|
  {
    hide HeaderLength;
    if |stream| >= HEADER {
      var n := HeaderLength(masks(k), stream[..HEADER]);
      if 0 <= n <= MAX_LENGTH && HEADER + n <= |stream| {
        RestStops(masks, k + 1, stream[HEADER + n..]);
      }
    }
  }

  /** Some whole frames, then a header whose first byte is 128 or more. */
  ghost predicate NegativeHeaderFollows(masks: nat -> nat, k: nat, stream: bytes, packets: seq<bytes>, tail: bytes)
    requires Generator(masks)
  {
    Short(packets) && stream == Encode(masks, k, packets) + tail && |tail| >= HEADER && tail[0] >= 128
  }

  /** The receiver panics exactly on streams in which, after whole frames, a header has its top bit set. */
  lemma {:induction false} PanicsExactlyOnNegativeHeader(masks: nat -> nat, k: nat, stream: bytes)
    requires Generator(masks)
    ensures Frames(masks, k, stream).1 == Panic
            <==> exists packets, tail :: NegativeHeaderFollows(masks, k, stream, packets, tail)
  {
    hide HeaderLength, Encode;
    var (frames, end, rest) := Frames(masks, k, stream);
    if end == Panic {
      RestStops(masks, k, stream);
      EncodeInvertsFrames(masks, k, stream);
      HeaderSign(masks(k + |frames|), rest[..HEADER]);
      assert NegativeHeaderFollows(masks, k, stream, frames, rest);
    }
    if packets, tail :| NegativeHeaderFollows(masks, k, stream, packets, tail) {
      InStep(masks, k, packets, tail);
      HeaderSign(masks(k + |packets|), tail[..HEADER]);
    }
  }

  /** Eight bytes are enough to make the receiver panic, whatever the masks are. */
  lemma {:induction false} OneHeaderPanics(masks: nat -> nat)
    requires Generator(masks)
    ensures Frames(masks, 0, [128, 0, 0, 0, 0, 0, 0, 0]).1 == Panic
  {
    var header: bytes := [128, 0, 0, 0, 0, 0, 0, 0];
    assert Encode(masks, 0, []) + header == header;
    assert NegativeHeaderFollows(masks, 0, header, [], header);
    PanicsExactlyOnNegativeHeader(masks, 0, header);
  }

  // ---------- The program ----------

  lemma WholeStep(packets: seq<bytes>, n: nat)
    requires packets != []
    ensures Whole(packets, n) == if n < HEADER + |packets[0]| then 0
            else 1 + Whole(packets[1..], n - HEADER - |packets[0]|)
  {
  }

  lemma EncodeStep(masks: nat -> nat, k: nat, packets: seq<bytes>)
    requires Generator(masks) && packets != [] && |packets[0]| <= MAX_LENGTH
    ensures Encode(masks, k, packets) == Frame(masks(k), packets[0]) + Encode(masks, k + 1, packets[1..])
  {
  }

  lemma EncodeNothing(masks: nat -> nat, k: nat)
    requires Generator(masks)
    ensures Encode(masks, k, []) == [] && forall n: nat :: Whole([], n) == 0
  {
  }

  lemma CutInside(a: bytes, f: bytes, b: bytes, n: nat)
    requires |a| <= n <= |a| + |f|
    ensures (a + (f + b))[..n] == a + f[..n - |a|] && a + (f + b) == (a + f) + b
  {
  }

  /**
    Writes frames until the packets are used up, one is too long, or the writer fails after taking `room` bytes.
    The packet at which the writer failed goes back to the queue: exactly the packets before it arrive.
   */
  method SendPacketOverWriter(masks: nat -> nat, packets: seq<bytes>, room: nat)
    returns (writer: bytes, returned: Option<bytes>)
    requires Generator(masks)
    ensures var stream, n := Encode(masks, 0, packets), Whole(Sendable(packets), room);
            if room < |stream| then
              && writer == stream[..room] && n < |packets| && returned == Some(packets[n])
              && Decode(masks, 0, writer) == NonEmpty(packets[..n])
            else writer == stream && returned == None
  {
    hide Encode, Frame, Whole, Decode, NonEmpty, Sendable;
    writer, returned := [], None;
    var k := 0;
    ghost var good := Sendable(packets);
    EncodeStopsAtTooLong(masks, 0, packets);
    StartSending(masks, good, room);
    while k < |packets|
      invariant k <= |good| && Sending(masks, good, k, writer, room)
    {
      var sending := packets[k];
      if |sending| > MAX_LENGTH {
        break;
      }
      var frame := Frame(masks(k), sending);
      SendNext(masks, good, k, writer, room);
      if room < |writer| + |frame| {
        writer := writer + frame[..room - |writer|];
        assert good[..k] == packets[..k];
        CutStreamYieldsWholeFrames(masks, 0, good, room);
        return writer, Some(sending);
      }
      writer := writer + frame;
      k := k + 1;
    }
    SentAll(masks, good, writer, room);
  }

  /** The frames of the first `k` packets are written, and there was room for them. */
  ghost predicate Sending(masks: nat -> nat, packets: seq<bytes>, k: nat, writer: bytes, room: nat)
    requires Generator(masks) && k <= |packets|
  {
    && |writer| <= room && writer + Encode(masks, k, packets[k..]) == Encode(masks, 0, packets)
    && Whole(packets, room) == k + Whole(packets[k..], room - |writer|)
  }

  lemma StartSending(masks: nat -> nat, packets: seq<bytes>, room: nat)
    requires Generator(masks)
    ensures Sending(masks, packets, 0, [], room)
  {
    hide Encode, Whole;
    assert packets[0..] == packets;
  }

  lemma SendNext(masks: nat -> nat, packets: seq<bytes>, k: nat, writer: bytes, room: nat)
    requires Generator(masks) && Short(packets) && k < |packets| && Sending(masks, packets, k, writer, room)
    ensures var frame := Frame(masks(k), packets[k]);
            if room < |writer| + |frame| then
              && room < |Encode(masks, 0, packets)| && Whole(packets, room) == k
              && Encode(masks, 0, packets)[..room] == writer + frame[..room - |writer|]
            else Sending(masks, packets, k + 1, writer + frame, room)
  {
    hide Encode, Frame, Whole;
    var frame, rest := Frame(masks(k), packets[k]), Encode(masks, k + 1, packets[k + 1..]);
    assert packets[k..][1..] == packets[k + 1..];
    WholeStep(packets[k..], room - |writer|);
    EncodeStep(masks, k, packets[k..]);
    if room < |writer| + |frame| {
      CutInside(writer, frame, rest, room);
    } else {
      CutInside(writer, frame, rest, |writer|);
    }
  }

  lemma SentAll(masks: nat -> nat, packets: seq<bytes>, writer: bytes, room: nat)
    requires Generator(masks) && Sending(masks, packets, |packets|, writer, room)
    ensures writer == Encode(masks, 0, packets) && |writer| <= room
  {
    assert packets[|packets|..] == [];
    EncodeNothing(masks, |packets|);
    hide Encode, Whole;
  }

  lemma DecodeStep(masks: nat -> nat, k: nat, stream: bytes, n: nat)
    requires Generator(masks) && HEADER + n <= |stream| && n == HeaderLength(masks(k), stream[..HEADER]) <= MAX_LENGTH
    ensures Decode(masks, k, stream)
         == (if n == 0 then [] else [stream[HEADER..HEADER + n]]) + Decode(masks, k + 1, stream[HEADER + n..])
    ensures Frames(masks, k, stream).1 == Frames(masks, k + 1, stream[HEADER + n..]).1
  {
    hide HeaderLength;
    var packet := stream[HEADER..HEADER + n];
    var frames := Frames(masks, k + 1, stream[HEADER + n..]).0;
    assert ([packet] + frames)[1..] == frames;
  }

  lemma DecodeStops(masks: nat -> nat, k: nat, stream: bytes)
    requires Generator(masks)
    requires |stream| >= HEADER ==>
               var n := HeaderLength(masks(k), stream[..HEADER]); n < 0 || n > MAX_LENGTH || HEADER + n > |stream|
    ensures Decode(masks, k, stream) == []
    ensures Frames(masks, k, stream).1 == if |stream| < HEADER then Eof
                                          else
                                            var n := HeaderLength(masks(k), stream[..HEADER]);
                                            if n > MAX_LENGTH then TooLong else if n < 0 then Panic else Eof
  {
    hide HeaderLength;
  }

  /** Reads frames until the stream ends or a header makes no sense. */
  method ReceivePacketOverReader(masks: nat -> nat, reader: bytes) returns (out: seq<bytes>, end: End)
    requires Generator(masks)
    ensures out == Decode(masks, 0, reader) && end == Frames(masks, 0, reader).1
  {
    hide HeaderLength, Decode, Frames;
    out := [];
    var k, pos := 0, 0;
    while true
      invariant pos <= |reader|
      invariant out + Decode(masks, k, reader[pos..]) == Decode(masks, 0, reader)
      invariant Frames(masks, k, reader[pos..]).1 == Frames(masks, 0, reader).1
      decreases |reader| - pos
    {
      ghost var stream := reader[pos..];
      if |reader| - pos < HEADER {
        DecodeStops(masks, k, stream);
        return out, Eof;
      }
      assert stream[..HEADER] == reader[pos..pos + HEADER];
      var length := HeaderLength(masks(k), reader[pos..pos + HEADER]);
      if length > MAX_LENGTH {
        DecodeStops(masks, k, stream);
        return out, TooLong;
      }
      if length < 0 {
        DecodeStops(masks, k, stream);
        return out, Panic;
      }
      if |reader| - pos - HEADER < length {
        DecodeStops(masks, k, stream);
        return out, Eof;
      }
      var buf := reader[pos + HEADER..pos + HEADER + length];
      assert stream[HEADER..HEADER + length] == buf && stream[HEADER + length..] == reader[pos + HEADER + length..];
      DecodeStep(masks, k, stream, length);
      if length != 0 {
        out := out + [buf];
      }
      pos := pos + HEADER + length;
      k := k + 1;
    }
  }
}
