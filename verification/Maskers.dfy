/**
  Packet maskers: XOR with a constant pattern, XOR with a keystream that the packet's own tail seeds, a prepended
  pattern, and their layering. No answer stands for a panic.
 */
module Maskers {
  import opened Bytes
  import opened Bits

  const BUFFER := 1600
  const TAIL := 16

  datatype Masker = Masker(mask: bytes -> Option<bytes>, unmask: bytes -> Option<bytes>)

  /** `key` gives the byte to mask each place with. */
  function XorAll(key: nat -> byte, b: bytes): (r: bytes)
    ensures |r| == |b| && forall i :: 0 <= i < |b| ==> r[i] == XorByte(b[i], key(i))
  {
    if b == [] then []
    else
      var n := |b| - 1;
      XorAll(key, b[..n]) + [XorByte(b[n], key(n))]
  }

  lemma {:induction false} XorAllTwice(key: nat -> byte, b: bytes)
    ensures XorAll(key, XorAll(key, b)) == b
  {
    forall i | 0 <= i < |b| ensures XorByte(XorByte(b[i], key(i)), key(i)) == b[i] {
      XorTwice(b[i], key(i));
    }
  }

  // ---------- Buffers ----------

  /** Reads the next bytes of the input into the buffer. */
  method Read(buf: array<byte>, input: bytes, pos: nat) returns (n: nat)
    requires pos < |input| && buf.Length == BUFFER
    modifies buf
    ensures n == (if |input| - pos < BUFFER then |input| - pos else BUFFER)
    ensures buf[..n] == input[pos..pos + n]
  {
    n := if |input| - pos < BUFFER then |input| - pos else BUFFER;
    forall i | 0 <= i < n {
      buf[i] := input[pos + i];
    }
  }

  /** Masks `count` bytes from `counter` on; running past the buffer panics. */
  method XorInPlace(buf: array<byte>, counter: nat, count: nat, key: nat -> byte) returns (ok: bool)
    requires counter <= buf.Length
    modifies buf
    ensures ok == (counter + count <= buf.Length)
    ensures ok ==> forall j :: 0 <= j < buf.Length ==>
              buf[j] == if counter <= j < counter + count then XorByte(old(buf[j]), key(j)) else old(buf[j])
  {
    hide XorByte;
    var at := counter;
    for i := 0 to count
      invariant at == counter + i <= buf.Length
      invariant forall j :: 0 <= j < buf.Length ==>
                  buf[j] == if counter <= j < at then XorByte(old(buf[j]), key(j)) else old(buf[j])
    {
      if at >= buf.Length {
        return false;
      }
      buf[at] := XorByte(buf[at], key(at));
      at := at + 1;
    }
    ok := true;
  }

  // ---------- Constant XOR ----------

  /** Everything after the first buffer would be masked beyond its end. */
  function ConstantXor(pattern: nat -> byte, input: bytes): Option<bytes> {
    if |input| <= BUFFER then Some(XorAll(pattern, input)) else None
  }

  method ConstantXorInternal(pattern: nat -> byte, input: bytes) returns (r: Option<bytes>)
    ensures r == ConstantXor(pattern, input)
  {
    hide XorByte, XorAll;
    var counter, pos, output := 0, 0, [];
    var buf := new byte[BUFFER](_ => 0);
    while pos < |input|
      invariant counter == pos <= |input| && pos <= BUFFER
      invariant pos == 0 ==> output == []
      invariant 0 < pos ==> (pos == BUFFER < |input|) || (pos == |input| && output == XorAll(pattern, input))
      decreases |input| - pos
    {
      var n := Read(buf, input, pos);
      var ok := XorInPlace(buf, counter, n, pattern);
      if !ok {
        return None;
      }
      output := output + buf[..n];
      assert pos + n == |input| ==> input[pos..pos + n] == input && output == XorAll(pattern, input);
      pos, counter := pos + n, counter + n;
    }
    assert |XorAll(pattern, [])| == 0;
    r := Some(output);
  }

  function ConstantXorMasker(pattern: nat -> byte): Masker {
    Masker(x => ConstantXor(pattern, x), x => ConstantXor(pattern, x))
  }

  // ---------- XOR keyed by the tail ----------

  function Tail(b: bytes): bytes
    requires |b| >= TAIL
  {
    b[|b| - TAIL..]
  }

  /** One read: all but the tail is masked with the keystream that the tail seeds. */
  function PolyChunk(keystream: bytes -> nat -> byte, b: bytes): (r: bytes)
    requires |b| >= TAIL
    ensures |r| == |b| && Tail(r) == Tail(b)
  {
    XorAll(keystream(Tail(b)), b[..|b| - TAIL]) + Tail(b)
  }

  /**
    A second read of 16 to 32 bytes goes through unmasked: the running counter masks bytes of the buffer that are
    not written out. A longer or shorter second read panics.
   */
  function PolyXor(keystream: bytes -> nat -> byte, input: bytes): Option<bytes> {
    if input == [] then Some([])
    else if |input| < TAIL then None
    else if |input| <= BUFFER then Some(PolyChunk(keystream, input))
    else if TAIL <= |input| - BUFFER <= 2 * TAIL then
      Some(PolyChunk(keystream, input[..BUFFER]) + input[BUFFER..])
    else None
  }

  method PolyXorInternal(keystream: bytes -> nat -> byte, input: bytes) returns (r: Option<bytes>)
    ensures r == PolyXor(keystream, input)
  {
    hide PolyChunk, XorByte;
    var counter, pos, output := 0, 0, [];
    var buf := new byte[BUFFER](_ => 0);
    while pos < |input|
      invariant pos <= |input| && (pos == 0 ==> counter == 0 && output == [])
      invariant 0 < pos < |input| ==>
                  pos == BUFFER && counter == BUFFER - TAIL && output == PolyChunk(keystream, input[..BUFFER])
      invariant pos == |input| ==> Some(output) == PolyXor(keystream, input)
      decreases |input| - pos
    {
      var n := Read(buf, input, pos);
      if n < TAIL {
        return None;
      }
      ghost var chunk := buf[..n];
      var ok := XorInPlace(buf, counter, n - TAIL, keystream(buf[n - TAIL..n]));
      if !ok {
        return None;
      }
      if pos == 0 {
        PolyChunkBytes(keystream, chunk, buf[..n]);
        assert chunk == input[..n] && (n == |input| ==> chunk == input);
        assert output + buf[..n] == buf[..n];
      } else {
        assert buf[..n] == chunk == input[BUFFER..];
      }
      output := output + buf[..n];
      pos, counter := pos + n, counter + n - TAIL;
    }
    r := Some(output);
  }

  lemma PolyChunkBytes(keystream: bytes -> nat -> byte, b: bytes, r: bytes)
    requires |r| == |b| >= TAIL
    requires forall j :: 0 <= j < |b| ==>
               r[j] == if j < |b| - TAIL then XorByte(b[j], keystream(Tail(b))(j)) else b[j]
    ensures r == PolyChunk(keystream, b)
  {
    hide XorByte;
  }

  function PolyXorMasker(keystream: bytes -> nat -> byte): Masker {
    Masker(x => PolyXor(keystream, x), x => PolyXor(keystream, x))
  }

  lemma PolyChunkTwice(keystream: bytes -> nat -> byte, b: bytes)
    requires |b| >= TAIL
    ensures PolyChunk(keystream, PolyChunk(keystream, b)) == b
  {
    var r := PolyChunk(keystream, b);
    var n := |b| - TAIL;
    assert r[..n] == XorAll(keystream(Tail(b)), b[..n]);
    XorAllTwice(keystream(Tail(b)), b[..n]);
    assert b == b[..n] + Tail(b);
  }

  // ---------- Prepended pattern ----------

  function Prepend(pattern: bytes, input: bytes): Option<bytes> {
    Some(pattern + input)
  }

  /** Drops as many bytes as the pattern has, whether or not they match it. */
  function DropPrefix(pattern: bytes, input: bytes): Option<bytes> {
    Some(if |input| < |pattern| then [] else input[|pattern|..])
  }

  function PrependingMasker(pattern: bytes): Masker {
    Masker(x => Prepend(pattern, x), x => DropPrefix(pattern, x))
  }

  // ---------- Layers ----------

  function MaskAll(layers: seq<Masker>, input: bytes): Option<bytes> {
    if layers == [] then Some(input)
    else
      var first := layers[0].mask(input);
      if first.None? then None else MaskAll(layers[1..], first.value)
  }

  function UnmaskAll(layers: seq<Masker>, input: bytes): Option<bytes> {
    if layers == [] then Some(input)
    else
      var n := |layers| - 1;
      var last := layers[n].unmask(input);
      if last.None? then None else UnmaskAll(layers[..n], last.value)
  }

  method MaskLayers(layers: seq<Masker>, input: bytes) returns (r: Option<bytes>)
    ensures r == MaskAll(layers, input)
  {
    var content := input;
    for i := 0 to |layers|
      invariant MaskAll(layers[i..], content) == MaskAll(layers, input)
    {
      assert layers[i..][1..] == layers[i + 1..];
      var next := layers[i].mask(content);
      if next.None? {
        return None;
      }
      content := next.value;
    }
    r := Some(content);
  }

  method UnmaskLayers(layers: seq<Masker>, input: bytes) returns (r: Option<bytes>)
    ensures r == UnmaskAll(layers, input)
  {
    var content := input;
    assert layers[..|layers|] == layers;
    for o := 0 to |layers|
      invariant UnmaskAll(layers[..|layers| - o], content) == UnmaskAll(layers, input)
    {
      var i := |layers| - o - 1;
      assert layers[..i + 1][..i] == layers[..i];
      var next := layers[i].unmask(content);
      if next.None? {
        return None;
      }
      content := next.value;
    }
    r := Some(content);
  }

  // ---------- Round trips ----------

  /** Whatever gets masked is unmasked to what it was. */
  ghost predicate Inverts(m: Masker) {
    forall x :: m.mask(x).Some? ==> m.unmask(m.mask(x).value) == Some(x)
  }

  lemma {:induction false} ConstantXorInverts(pattern: nat -> byte)
    ensures Inverts(ConstantXorMasker(pattern))
  {
    forall x: bytes | ConstantXor(pattern, x).Some?
      ensures ConstantXor(pattern, ConstantXor(pattern, x).value) == Some(x)
    {
      XorAllTwice(pattern, x);
    }
  }

  lemma {:induction false} PolyXorInverts(keystream: bytes -> nat -> byte)
    ensures Inverts(PolyXorMasker(keystream))
  {
    forall x: bytes | PolyXor(keystream, x).Some?
      ensures PolyXor(keystream, PolyXor(keystream, x).value) == Some(x)
    {
      PolyXorTwice(keystream, x);
    }
  }

  lemma PolyXorTwice(keystream: bytes -> nat -> byte, x: bytes)
    requires PolyXor(keystream, x).Some?
    ensures PolyXor(keystream, PolyXor(keystream, x).value) == Some(x)
  {
    hide PolyChunk;
    if TAIL <= |x| <= BUFFER {
      PolyChunkTwice(keystream, x);
    } else if x != [] {
      var first, rest := x[..BUFFER], x[BUFFER..];
      PolyChunkTwice(keystream, first);
      var y := PolyChunk(keystream, first) + rest;
      assert y[..BUFFER] == PolyChunk(keystream, first) && y[BUFFER..] == rest;
      assert x == first + rest;
    }
  }

  lemma PrependInverts(pattern: bytes)
    ensures Inverts(PrependingMasker(pattern))
  {
    forall x: bytes ensures DropPrefix(pattern, Prepend(pattern, x).value) == Some(x) {
      assert (pattern + x)[|pattern|..] == x;
    }
  }

  lemma {:induction false} UnmaskAllOfConcat(a: seq<Masker>, b: seq<Masker>, y: bytes)
    ensures var z := UnmaskAll(b, y);
            UnmaskAll(a + b, y) == if z.None? then None else UnmaskAll(a, z.value)
    decreases |b|
  {
    if b == [] {
      assert a + b == a;
    } else {
      var n := |b| - 1;
      assert (a + b)[..|a + b| - 1] == a + b[..n];
      var last := b[n].unmask(y);
      if last.Some? {
        UnmaskAllOfConcat(a, b[..n], last.value);
      }
    }
  }

  /** Layers that each invert, in any number and order, invert together. */
  lemma {:induction false} LayersInvert(layers: seq<Masker>, x: bytes)
    requires forall i :: 0 <= i < |layers| ==> Inverts(layers[i])
    requires MaskAll(layers, x).Some?
    ensures UnmaskAll(layers, MaskAll(layers, x).value) == Some(x)
  {
    if layers != [] {
      var y := layers[0].mask(x).value;
      LayersInvert(layers[1..], y);
      assert layers == layers[..1] + layers[1..];
      UnmaskAllOfConcat(layers[..1], layers[1..], MaskAll(layers, x).value);
      assert Inverts(layers[0]);
      assert layers[..1][..0] == [];
    }
  }

  /** The preset stack: keyed by the tail, then the constant pattern, then the prepended pattern. */
  function PolyStack(keystream: bytes -> nat -> byte, pattern: nat -> byte, prefix: bytes): seq<Masker> {
    [PolyXorMasker(keystream), ConstantXorMasker(pattern), PrependingMasker(prefix)]
  }

  lemma MaskFirst(a: Masker, rest: seq<Masker>, x: bytes)
    ensures MaskAll([a] + rest, x) == if a.mask(x).None? then None else MaskAll(rest, a.mask(x).value)
  {
    assert ([a] + rest)[1..] == rest;
  }

  lemma MaskThree(a: Masker, b: Masker, c: Masker, x: bytes)
    ensures var y := a.mask(x);
            MaskAll([a, b, c], x) == if y.None? then None
                                     else
                                       var z := b.mask(y.value);
                                       if z.None? then None else c.mask(z.value)
  {
    assert [a, b, c] == [a] + [b, c] && [b, c] == [b] + [c] && [c] == [c] + [];
    MaskFirst(a, [b, c], x);
    var y := a.mask(x);
    if y.Some? {
      MaskFirst(b, [c], y.value);
      var z := b.mask(y.value);
      if z.Some? {
        MaskFirst(c, [], z.value);
      }
    }
  }

  lemma PolyStackMasks(keystream: bytes -> nat -> byte, pattern: nat -> byte, prefix: bytes, x: bytes)
    ensures MaskAll(PolyStack(keystream, pattern, prefix), x).Some? <==> x == [] || TAIL <= |x| <= BUFFER
  {
    hide PolyChunk, XorAll, MaskAll;
    MaskThree(PolyXorMasker(keystream), ConstantXorMasker(pattern), PrependingMasker(prefix), x);
    var p := PolyXor(keystream, x);
    assert p.Some? ==> |p.value| == |x|;
  }

  /** The preset stack brings a packet back exactly when it is empty or has 16 to 1600 bytes; otherwise it panics. */
  lemma {:induction false} PolyStackRoundTripsExactly(
    keystream: bytes -> nat -> byte, pattern: nat -> byte, prefix: bytes, x: bytes)
    ensures var stack := PolyStack(keystream, pattern, prefix);
            (MaskAll(stack, x).Some? && UnmaskAll(stack, MaskAll(stack, x).value) == Some(x))
            <==> (x == [] || TAIL <= |x| <= BUFFER)
  {
    hide PolyXor, ConstantXor, Prepend, DropPrefix, MaskAll, UnmaskAll, PolyXorMasker, ConstantXorMasker,
        PrependingMasker;
    PolyStackMasks(keystream, pattern, prefix, x);
    var stack := PolyStack(keystream, pattern, prefix);
    if MaskAll(stack, x).Some? {
      PolyXorInverts(keystream);
      ConstantXorInverts(pattern);
      PrependInverts(prefix);
      LayersInvert(stack, x);
    }
  }

  // ---------- What is masked ----------

  /** Every bit of `r` is the bit of `b`, flipped where the key has that bit. */
  ghost predicate Flipped(b: bytes, key: nat -> byte, r: bytes) {
    |r| == |b| && forall i, t: nat :: 0 <= i < |b| ==> (Bit(r[i], t) <==> Bit(b[i], t) != Bit(key(i), t))
  }

  lemma {:induction false} XorAllFlips(key: nat -> byte, b: bytes)
    ensures Flipped(b, key, XorAll(key, b))
  {
    hide Bit;
    var r := XorAll(key, b);
    forall i, t: nat | 0 <= i < |b| ensures Bit(r[i], t) <==> Bit(b[i], t) != Bit(key(i), t) {
      BitOfXor(b[i], key(i), t);
    }
  }

  /** The constant pattern masks packets of up to a buffer, byte by byte; longer ones panic. */
  lemma {:induction false} ConstantXorFlips(pattern: nat -> byte, x: bytes)
    ensures var r := ConstantXor(pattern, x);
            (r.Some? <==> |x| <= BUFFER) && (r.Some? ==> Flipped(x, pattern, r.value))
  {
    XorAllFlips(pattern, x);
  }

  /** Where the keystream of the tail reaches: the first buffer, but for the 16 bytes that seed it. */
  function Masked(x: bytes): (n: nat)
    requires |x| >= TAIL
    ensures n <= |x|
  {
    (if |x| <= BUFFER then |x| else BUFFER) - TAIL
  }

  /** Up to a buffer, and from 16 to 32 bytes more, the keystream flips the masked part and nothing else. */
  lemma {:induction false} PolyXorFlips(keystream: bytes -> nat -> byte, x: bytes)
    requires |x| >= TAIL
    ensures var r, n := PolyXor(keystream, x), Masked(x);
            && (r.Some? <==> |x| <= BUFFER || TAIL <= |x| - BUFFER <= 2 * TAIL)
            && (r.Some? ==>
                  && |r.value| == |x| && r.value[n..] == x[n..]
                  && Flipped(x[..n], keystream(x[n..n + TAIL]), r.value[..n]))
  {
    var r, n := PolyXor(keystream, x), Masked(x);
    var first := x[..n + TAIL];
    assert Tail(first) == x[n..n + TAIL] && first[..n] == x[..n];
    XorAllFlips(keystream(x[n..n + TAIL]), x[..n]);
    hide Flipped, XorAll;
    if r.Some? {
      var m := XorAll(keystream(Tail(first)), x[..n]);
      assert r.value == m + x[n..] by {
        assert |x| <= BUFFER ==> first == x;
        assert x[n..] == Tail(first) + x[n + TAIL..];
      }
      assert r.value[..n] == m;
    }
  }

  /** The key of a whole packet of the preset stack: the keystream of its tail, but for the tail, and the pattern. */
  function StackBit(keystream: bytes -> nat -> byte, pattern: nat -> byte, x: bytes, i: nat, t: nat): bool
    requires |x| >= TAIL
  {
    (i < |x| - TAIL && Bit(keystream(x[|x| - TAIL..])(i), t)) != Bit(pattern(i), t)
  }

  /** What the preset stack puts out: the prefix, then every bit of the packet flipped by the two keys. */
  lemma {:induction false} StackFlipsBits(
    keystream: bytes -> nat -> byte, pattern: nat -> byte, prefix: bytes, x: bytes, i: nat, t: nat)
    requires TAIL <= |x| <= BUFFER && i < |x|
    ensures var out := MaskAll(PolyStack(keystream, pattern, prefix), x);
            && out.Some? && |out.value| == |prefix| + |x| && out.value[..|prefix|] == prefix
            && (Bit(out.value[|prefix| + i], t) <==> Bit(x[i], t) != StackBit(keystream, pattern, x, i, t))
  {
    hide MaskAll, Bit, XorAll;
    MaskThree(PolyXorMasker(keystream), ConstantXorMasker(pattern), PrependingMasker(prefix), x);
    var p := PolyChunk(keystream, x);
    var c := XorAll(pattern, p);
    XorAllFlips(keystream(Tail(x)), x[..|x| - TAIL]);
    XorAllFlips(pattern, p);
    assert (prefix + c)[|prefix| + i] == c[i];
  }
}
