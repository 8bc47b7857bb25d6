/**
  A single chunk at the receiver as it is read from the network: of every shard only what the read buffer holds.
  Says exactly which chunks survive every order and mix of arrivals.
 */
module ReadFeed {
  import opened Bytes
  import opened ErasureCode
  import opened Facility
  import opened Chunk
  import opened Receiver
  import opened ChunkFeed

  /** A shard as the receiver reads it. */
  datatype Shard = Shard(id: nat, body: bytes)

  function Read(s: Scheme, payloads: seq<bytes>, order: seq<nat>): (shards: seq<Shard>)
    ensures |shards| == |order|
    ensures forall i :: 0 <= i < |order| ==> shards[i] == Shard(order[i], ReadPart(BodyOf(s, payloads, order[i])))
  {
    seq(|order|, i requires 0 <= i < |order| => Shard(order[i], ReadPart(BodyOf(s, payloads, order[i]))))
  }

  /** The receiver after these shards have arrived one after the other under one sequence number. */
  function Take(s: Scheme, shards: seq<Shard>): (Holder, seq<Emission>, bool) {
    if shards == [] then (NewHolder(), [], false)
    else
      var n := |shards| - 1;
      var (h, es, crash) := Take(s, shards[..n]);
      if crash || h.doneAll then (h, es, crash)
      else
        var r := Accept(s, 1, h, shards[n].id, shards[n].body);
        (r.0, es + r.1, r.2)
  }

  ghost predicate AllTaken(s: Scheme, payloads: seq<bytes>, order: seq<nat>) {
    var r := Take(s, Read(s, payloads, order));
    !r.2 && Ids(r.1) == Below(|payloads|) && Genuine(1, payloads, r.1)
  }

  /** The chunk comes out whole from every order in which as many distinct shards are read as it has payloads. */
  ghost predicate SurvivesReading(s: Scheme, payloads: seq<bytes>)
    requires InTable(s, |payloads|)
  {
    forall order: seq<nat> :: FromChunk(s, payloads, order) && |Members(order)| >= |payloads|
                              ==> AllTaken(s, payloads, order)
  }

  // ---------- Nothing is cut ----------

  lemma {:induction false} UncutIsFed(s: Scheme, payloads: seq<bytes>, order: seq<nat>)
    requires Lawful(s) && forall i :: 0 <= i < |payloads| ==> |payloads[i]| <= MAX_PAYLOAD
    ensures Take(s, Read(s, payloads, order)) == Feed(s, payloads, order)
  {
    hide Accept, BodyOf, Lawful;
    if order != [] {
      var n := |order| - 1;
      UncutIsFed(s, payloads, order[..n]);
      assert Read(s, payloads, order)[..n] == Read(s, payloads, order[..n]);
      BodyFits(s, payloads, order[n]);
    }
  }

  /** Payloads of at most 1640 bytes: reading changes nothing. */
  lemma UncutSurvival(s: Scheme, payloads: seq<bytes>)
    requires Lawful(s) && InTable(s, |payloads|) && forall i :: 0 <= i < |payloads| ==> |payloads[i]| <= MAX_PAYLOAD
    ensures SurvivesReading(s, payloads) <==> Survives(s, payloads)
  {
    hide Take, Feed, Lawful, FromChunk;
    forall order ensures AllTaken(s, payloads, order) <==> AllEmitted(s, payloads, order) {
      UncutIsFed(s, payloads, order);
    }
  }

  // ---------- Narrow shards ----------

  ghost predicate Narrow(buffer: seq<Option<bytes>>, w: nat) {
    forall i :: 0 <= i < |buffer| && buffer[i].Some? ==> |buffer[i].value| <= w
  }

  /** A shard of which the buffer keeps at most `w` bytes. */
  ghost predicate NarrowShard(body: bytes, w: nat) {
    |body| >= 2 ==> |body| <= if UnpackInt16(body[..2]) <= 0 then w + 2 else w
  }

  lemma NarrowAdd(f: State, id: nat, body: bytes, w: nat)
    requires Narrow(f.buffer, w) && NarrowShard(body, w) && w >= 2
    ensures var (g, done, out) := AddShard(f, id, body);
            && Narrow(g.buffer, w) && (done ==> id < |g.buffer| && g.buffer[id].Some?)
            && (out.Some? ==> |out.value| <= w - 2)
  {
    hide UnpackInt16;
  }

  lemma NarrowWidth(buffer: seq<Option<bytes>>, w: nat)
    requires Narrow(buffer, w)
    ensures Width(buffer) <= w
  {
    hide Width;
    if Width(buffer) != 0 {
      var i :| 0 <= i < |buffer| && SizeOf(buffer[i]) == Width(buffer);
    }
  }

  lemma PaddedWidth(buffer: seq<Option<bytes>>, width: nat)
    requires forall i :: 0 <= i < |buffer| ==> SizeOf(buffer[i]) <= width
    ensures OfWidth(PadAll(buffer, width, true), width)
  {
    hide PadAll, PadTo;
    var padded := PadAll(buffer, width, true);
    forall i | 0 <= i < |padded| && padded[i].Some? ensures |padded[i].value| == width {
      assert SizeOf(buffer[i]) <= width && padded[i] == PadEntry(buffer[i], width, true);
    }
  }

  lemma NarrowPadded(buffer: seq<Option<bytes>>, w: nat, id: nat)
    requires Narrow(buffer, w) && id < |buffer| && buffer[id].Some?
    ensures Width(buffer) <= w
    ensures var padded := PadAll(buffer, Width(buffer), true);
            OfWidth(padded, Width(buffer)) && Present(padded) != {}
  {
    hide Width, PadAll, PadTo, OfWidth;
    NarrowWidth(buffer, w);
    PaddedWidth(buffer, Width(buffer));
    assert id in Present(PadAll(buffer, Width(buffer), true));
  }

  lemma NarrowExtended(buffer: seq<Option<bytes>>, w: nat, n: nat)
    requires Narrow(buffer, w)
    ensures Narrow(Extend(buffer, n), w)
  {
  }

  lemma StripIsShorter(shard: bytes)
    requires |shard| >= 2
    ensures |Strip(shard)| <= |shard| - 2
  {
  }

  /** What comes out of narrow shards is short. */
  lemma NarrowReconstruct(s: Scheme, f: State, id: nat, w: nat)
    requires Lawful(s) && Narrow(f.buffer, w) && id < |f.buffer| && f.buffer[id].Some? && w >= 2
    ensures var r := Reconstruct(s, f).1;
            r.Recovered? ==> forall i :: 0 <= i < |r.payloads| ==> |r.payloads[i]| <= w - 2
  {
    if InTable(s, f.total) {
      var p := ParitySum(s, f.total);
      var buffer := Extend(f.buffer, f.total + p);
      NarrowExtended(f.buffer, w, f.total + p);
      NarrowPadded(buffer, w, id);
      hide Extend, Width, PadAll, Present, RecoveryLaw, EncoderLaw, Strip, Narrow;
      var r := Reconstruct(s, f).1;
      if r.Recovered? {
        var data := s.recover(f.total, p, PadAll(buffer, Width(buffer), true)).value;
        assert Uniform(data, Width(buffer));
        forall i | 0 <= i < |r.payloads| ensures |r.payloads[i]| <= w - 2 {
          StripIsShorter(data[i]);
        }
      }
    }
  }

  ghost predicate Within(es: seq<Emission>, max: nat) {
    forall e :: e in es ==> |e.payload| <= max
  }

  lemma NarrowComplete(s: Scheme, ef: State, bitmap: seq<bool>, first: seq<Emission>, id: nat, w: nat)
    requires Lawful(s) && Narrow(ef.buffer, w) && id < |ef.buffer| && ef.buffer[id].Some? && w >= 2
    requires Within(first, w - 2)
    ensures Within(Complete(1, Reconstruct(s, ef).0, bitmap, Reconstruct(s, ef).1, first).1, w - 2)
  {
    NarrowReconstruct(s, ef, id, w);
    hide Reconstruct, Narrow;
    var r := Reconstruct(s, ef).1;
    if r.Recovered? {
      MissingIsWithin(1, if |r.payloads| > |bitmap| then r.payloads[..|bitmap|] else r.payloads, bitmap, 0, w - 2);
    }
  }

  lemma NarrowAccept(s: Scheme, h: Holder, id: nat, body: bytes, w: nat)
    requires Lawful(s) && Narrow(h.ef.buffer, w) && NarrowShard(body, w) && w >= 2
    ensures var r := Accept(s, 1, h, id, body);
            Within(r.1, w - 2) && (!r.2 && !r.0.doneAll ==> Narrow(r.0.ef.buffer, w))
  {
    NarrowAdd(h.ef, id, body, w);
    var (ef, done, data) := AddShard(h.ef, id, body);
    var first := if data.Some? then [Emission(1, id, data.value)] else [];
    var bitmap := if data.Some? && id < |h.doneBitmap| then h.doneBitmap[id := true] else h.doneBitmap;
    if done {
      NarrowComplete(s, ef, bitmap, first, id, w);
      UnfinishedIsPadded(s, ef, w);
    }
    hide AddShard, Reconstruct, Lawful, Narrow;
  }

  /** A reconstruction that does not succeed leaves narrow shards narrow. */
  lemma UnfinishedIsPadded(s: Scheme, f: State, w: nat)
    requires Narrow(f.buffer, w)
    ensures Reconstruct(s, f).1 == NotReady ==> Narrow(Reconstruct(s, f).0.buffer, w)
  {
    if InTable(s, f.total) {
      var buffer := Extend(f.buffer, f.total + ParitySum(s, f.total));
      NarrowExtended(f.buffer, w, f.total + ParitySum(s, f.total));
      PaddedIsNarrow(buffer, w);
      hide Extend, Width, PadAll, Strip;
    }
  }

  lemma PaddedIsNarrow(buffer: seq<Option<bytes>>, w: nat)
    requires Narrow(buffer, w)
    ensures Narrow(PadAll(buffer, Width(buffer), true), w)
  {
    assert Width(buffer) <= w;
  }

  /** Whatever is read, in whatever order: nothing longer than the shards allow comes out. */
  lemma {:induction false} NarrowTake(s: Scheme, shards: seq<Shard>, w: nat)
    requires Lawful(s) && w >= 2 && forall i :: 0 <= i < |shards| ==> NarrowShard(shards[i].body, w)
    ensures var r := Take(s, shards);
            Within(r.1, w - 2) && (!r.2 && !r.0.doneAll ==> Narrow(r.0.ef.buffer, w))
  {
    hide Accept, Lawful, NarrowShard;
    if shards != [] {
      var n := |shards| - 1;
      NarrowTake(s, shards[..n], w);
      var r := Take(s, shards[..n]);
      if !r.2 && !r.0.doneAll {
        NarrowAccept(s, r.0, shards[n].id, shards[n].body, w);
      }
    }
  }

  lemma EmissionOf(s: Scheme, payloads: seq<bytes>, order: seq<nat>, e: nat) returns (x: Emission)
    requires AllTaken(s, payloads, order) && e < |payloads|
    ensures x in Take(s, Read(s, payloads, order)).1 && x.payload == payloads[e] && x.id == e
  {
    hide Take;
    var out := Take(s, Read(s, payloads, order)).1;
    assert e in Ids(out);
    x :| x in out && x.id == e;
  }

  /** A payload longer than anything that comes out is lost. */
  lemma TooLongIsLost(s: Scheme, payloads: seq<bytes>, order: seq<nat>, e: nat, w: nat)
    requires Lawful(s) && w >= 2 && e < |payloads| && |payloads[e]| > w - 2
    requires forall i :: 0 <= i < |order| ==> NarrowShard(ReadPart(BodyOf(s, payloads, order[i])), w)
    ensures !AllTaken(s, payloads, order)
  {
    hide Take, Lawful, NarrowShard, BodyOf, AllTaken;
    if AllTaken(s, payloads, order) {
      var x := EmissionOf(s, payloads, order, e);
      NarrowTake(s, Read(s, payloads, order), w);
    }
  }

  // ---------- Long payloads ----------

  /** Over 1642 bytes: no order brings the payload out. */
  lemma OverlongIsLost(s: Scheme, payloads: seq<bytes>, e: nat)
    requires Lawful(s) && InTable(s, |payloads|) && e < |payloads| && |payloads[e]| > READ_BUFFER - 8
    ensures !SurvivesReading(s, payloads)
  {
    hide Take, Lawful, BodyOf, Members;
    var order := UpTo(|payloads|);
    UpToMembers(|payloads|);
    BelowSize(|payloads|);
    assert FromChunk(s, payloads, order);
    TooLongIsLost(s, payloads, order, e, READ_BUFFER - 6);
  }

  function ParityOrder(t: nat): (order: seq<nat>)
    ensures |order| == t && forall i :: 0 <= i < t ==> order[i] == t + i
  {
    seq(t, i => t + i)
  }

  lemma {:induction false} ParityOrderMembers(t: nat)
    ensures |Members(ParityOrder(t))| == t
  {
    var order := ParityOrder(t);
    forall i | i in Below(2 * t) - Below(t) ensures i in Members(order) {
      assert order[i - t] == i;
    }
    assert Members(order) == Below(2 * t) - Below(t);
    BelowSize(2 * t);
    BelowSize(t);
    hide Below, Members;
    Difference(Below(t), Below(2 * t));
  }

  lemma Difference(a: set<nat>, b: set<nat>)
    requires a <= b
    ensures |b - a| == |b| - |a|
  {
  }

  /** A parity shard of a chunk with a payload of over 1640 bytes, as it is read. */
  lemma {:induction false} CutParity(s: Scheme, payloads: seq<bytes>, e: nat, id: nat)
    requires Closable(s, payloads) && |payloads| <= MAX_DATA && e < |payloads| && |payloads[e]| > MAX_PAYLOAD
    requires |payloads| <= id < |payloads| + ParitySum(s, |payloads|)
    ensures NarrowShard(ReadPart(BodyOf(s, payloads, id)), MAX_PAYLOAD + 2)
  {
    WidthFacts(s, payloads);
    var body := BodyOf(s, payloads, id);
    Int16RoundTrip(-|payloads|);
    assert body[..2] == PackInt16(-|payloads|);
    assert |Wrap(payloads[e])| <= ShardWidth(payloads);
    var r := ReadPart(body);
    assert r[..2] == body[..2];
  }

  /** With parity enough to replace all data: over 1640 bytes, parity alone does not bring the payload out. */
  lemma LongIsLostFromParity(s: Scheme, payloads: seq<bytes>, e: nat)
    requires Closable(s, payloads) && |payloads| <= MAX_DATA && e < |payloads| && |payloads[e]| > MAX_PAYLOAD
    requires |payloads| <= ParitySum(s, |payloads|)
    ensures !SurvivesReading(s, payloads)
  {
    hide Take, Lawful, BodyOf, Members, NarrowShard;
    var order := ParityOrder(|payloads|);
    ParityOrderMembers(|payloads|);
    assert FromChunk(s, payloads, order);
    forall i | 0 <= i < |order| ensures NarrowShard(ReadPart(BodyOf(s, payloads, order[i])), MAX_PAYLOAD + 2) {
      CutParity(s, payloads, e, order[i]);
    }
    TooLongIsLost(s, payloads, order, e, MAX_PAYLOAD + 2);
  }

  /**
    A chunk with at least as many parity shards as payloads survives every loss and reordering that leaves as many
    distinct shards as it has payloads, if and only if each of its payloads has 1 to 1640 bytes.
   */
  lemma SurvivesReadingExactlyWhenShort(s: Scheme, payloads: seq<bytes>)
    requires Lawful(s) && InTable(s, |payloads|) && |payloads| <= MAX_DATA
    requires |payloads| <= ParitySum(s, |payloads|)
    ensures SurvivesReading(s, payloads) <==> Short(payloads)
  {
    hide Lawful, SurvivesReading, Survives;
    if e :| 0 <= e < |payloads| && |payloads[e]| > MAX_PAYLOAD {
      LongIsLostFromParity(s, payloads, e);
    } else {
      UncutSurvival(s, payloads);
      SurvivesExactlyWhenSendable(s, payloads);
    }
  }

  // ---------- Any number of payloads ----------

  ghost predicate HaveLengths(payloads: seq<bytes>, lengths: seq<nat>) {
    |payloads| == |lengths| && forall i :: 0 <= i < |lengths| ==> |payloads[i]| == lengths[i]
  }

  /** Every chunk with payloads of these lengths survives. */
  ghost predicate LengthsSurvive(s: Scheme, lengths: seq<nat>)
    requires InTable(s, |lengths|)
  {
    forall payloads: seq<bytes> :: HaveLengths(payloads, lengths) ==> SurvivesReading(s, payloads)
  }

  function Zeroes(n: nat): (b: bytes)
    ensures |b| == n
  {
    seq(n, _ => 0)
  }

  function Blank(lengths: seq<nat>): (payloads: seq<bytes>)
    ensures HaveLengths(payloads, lengths)
  {
    seq(|lengths|, i requires 0 <= i < |lengths| => Zeroes(lengths[i]))
  }

  /** Two chunks that differ in the last byte of one longest payload only. */
  ghost predicate Twins(a: seq<bytes>, b: seq<bytes>, e: nat) {
    && |a| == |b| && e < |a| && |a[e]| == |b[e]| > 0 && a[e] != b[e]
    && a[e][..|a[e]| - 1] == b[e][..|b[e]| - 1]
    && (forall i :: 0 <= i < |a| && i != e ==> a[i] == b[i])
    && (forall i :: 0 <= i < |a| ==> |a[i]| <= |a[e]|)
  }

  lemma {:induction false} TwinWidth(a: seq<bytes>, e: nat)
    requires e < |a| && forall i :: 0 <= i < |a| ==> |a[i]| <= |a[e]|
    ensures ShardWidth(a) == |a[e]| + 2
  {
    WidthBound(a, |a[e]|);
    var all := Somes(Wrapped(a));
    assert SizeOf(all[e]) == |a[e]| + 2;
  }

  /** Payloads that differ in their last byte agree, wrapped and padded to any width, up to that byte. */
  lemma TwinPayloads(x: bytes, y: bytes, width: nat, c: nat)
    requires |x| == |y| > 0 && x[..|x| - 1] == y[..|y| - 1] && c <= |x| + 1
    ensures PadTo(Wrap(x), width)[..c] == PadTo(Wrap(y), width)[..c]
  {
    var n := |x| - 1;
    var head := PackInt16(ToInt16(|x|));
    assert Wrap(x)[..n + 2] == head + x[..n] && Wrap(y)[..n + 2] == head + y[..n];
    hide Wrap;
    assert PadTo(Wrap(x), width)[..n + 2] == Wrap(x)[..n + 2] && PadTo(Wrap(y), width)[..n + 2] == Wrap(y)[..n + 2];
    hide PadTo;
    assert PadTo(Wrap(x), width)[..c] == PadTo(Wrap(x), width)[..n + 2][..c];
    assert PadTo(Wrap(y), width)[..c] == PadTo(Wrap(y), width)[..n + 2][..c];
  }

  /** The padded data of twins agree up to the last column. */
  lemma {:induction false} TwinColumns(a: seq<bytes>, b: seq<bytes>, e: nat, c: nat)
    requires Twins(a, b, e) && c <= |a[e]| + 1
    ensures SameColumns(Padded(a), Padded(b), c)
  {
    TwinWidth(a, e);
    TwinWidth(b, e);
    TwinPayloads(a[e], b[e], |a[e]| + 2, c);
    hide ShardWidth, Wrap, PadTo;
    forall i | 0 <= i < |a|
      ensures c <= |Padded(a)[i]| && c <= |Padded(b)[i]| && Padded(a)[i][..c] == Padded(b)[i][..c]
    {
      assert i != e ==> a[i] == b[i];
    }
  }

  lemma {:induction false} TwinParityShards(s: Scheme, a: seq<bytes>, b: seq<bytes>, e: nat, c: nat)
    requires Closable(s, a) && ColumnLaw(s) && Twins(a, b, e) && c <= |a[e]| + 1
    ensures |ParityShards(s, a)| == ParitySum(s, |a|) >= 1 && |b| == |a|
    ensures SameColumns(ParityShards(s, a), ParityShards(s, b), c)
  {
    hide Padded, ShardWidth, RecoveryLaw, WidthLaw, EncoderLaw;
    TableFits(s, |a|);
    WidthFacts(s, a);
    WidthFacts(s, b);
    TwinWidth(a, e);
    TwinWidth(b, e);
    TwinColumns(a, b, e, c);
  }

  /** What is read of a body whose header is whole. */
  lemma ReadBody(h: bytes, x: bytes)
    requires |h| == 2 && |x| >= MAX_PAYLOAD + 2
    ensures ReadPart(h + x) == h + x[..MAX_PAYLOAD + 2]
  {
  }

  lemma {:induction false} TwinParity(s: Scheme, a: seq<bytes>, b: seq<bytes>, e: nat)
    requires Closable(s, a) && ColumnLaw(s) && |a| <= MAX_DATA && Twins(a, b, e) && |a[e]| > MAX_PAYLOAD
    ensures ReadPart(BodyOf(s, a, |a|)) == ReadPart(BodyOf(s, b, |a|))
  {
    hide ParityShards, Lawful, ColumnLaw, PackInt16, ReadPart, BodyOf, Twins;
    TwinParityShards(s, a, b, e, MAX_PAYLOAD + 2);
    var x, y, h := ParityShards(s, a)[0], ParityShards(s, b)[0], PackInt16(-|a|);
    FirstParityBody(s, a);
    FirstParityBody(s, b);
    ReadBody(h, x);
    ReadBody(h, y);
  }

  lemma FirstParityBody(s: Scheme, a: seq<bytes>)
    requires InTable(s, |a|) && |a| <= MAX_DATA && |ParityShards(s, a)| >= 1
    ensures BodyOf(s, a, |a|) == PackInt16(-|a|) + ParityShards(s, a)[0]
  {
    hide ParityShards, PackInt16;
  }

  /** Without payload `e`, the receiver reads the same of both twins. */
  lemma {:induction false} TwinsReadAlike(s: Scheme, a: seq<bytes>, b: seq<bytes>, e: nat)
    requires Closable(s, a) && ColumnLaw(s) && |a| <= MAX_DATA && Twins(a, b, e) && |a[e]| > MAX_PAYLOAD
    ensures Read(s, a, Without(|a|, e)) == Read(s, b, Without(|a|, e))
  {
    var order := Without(|a|, e);
    TwinParity(s, a, b, e);
    hide Lawful, ColumnLaw, ReadPart;
    forall i | 0 <= i < |order| ensures ReadPart(BodyOf(s, a, order[i])) == ReadPart(BodyOf(s, b, order[i])) {
      assert i != e ==> order[i] == i && a[i] == b[i];
    }
  }

  lemma OneTwinIsLost(s: Scheme, a: seq<bytes>, b: seq<bytes>, e: nat)
    requires Closable(s, a) && ColumnLaw(s) && |a| <= MAX_DATA && Twins(a, b, e) && |a[e]| > MAX_PAYLOAD
    ensures !SurvivesReading(s, a) || !SurvivesReading(s, b)
  {
    var order := Without(|a|, e);
    TableFits(s, |a|);
    WithoutMembers(|a|, e);
    TwinsReadAlike(s, a, b, e);
    hide Lawful, ColumnLaw, Members, AllTaken;
    assert FromChunk(s, a, order) && FromChunk(s, b, order);
    if SurvivesReading(s, a) && SurvivesReading(s, b) {
      SameEmissionTwice(s, a, b, order, e);
    }
  }

  lemma SameEmissionTwice(s: Scheme, a: seq<bytes>, b: seq<bytes>, order: seq<nat>, e: nat)
    requires AllTaken(s, a, order) && AllTaken(s, b, order) && Read(s, a, order) == Read(s, b, order)
    requires |a| == |b| && e < |a|
    ensures a[e] == b[e]
  {
    var x := EmissionOf(s, a, order, e);
    hide Take;
    assert Genuine(1, b, Take(s, Read(s, b, order)).1);
  }

  lemma SomeTwin(lengths: seq<nat>, e: nat) returns (a: seq<bytes>, b: seq<bytes>)
    requires e < |lengths| && lengths[e] > 0 && forall i :: 0 <= i < |lengths| ==> lengths[i] <= lengths[e]
    ensures HaveLengths(a, lengths) && HaveLengths(b, lengths) && Twins(a, b, e)
  {
    a := Blank(lengths);
    var n := lengths[e] - 1;
    var other: bytes := a[e][n := (a[e][n] + 1) % 256];
    b := a[e := other];
    assert other[n] != a[e][n];
  }

  lemma {:induction false} LongestOf(lengths: seq<nat>) returns (e: nat)
    requires lengths != []
    ensures e < |lengths| && forall i :: 0 <= i < |lengths| ==> lengths[i] <= lengths[e]
  {
    var n := |lengths| - 1;
    e := n;
    if n > 0 {
      var d := LongestOf(lengths[..n]);
      if lengths[d] > lengths[n] {
        e := d;
      }
      assert forall i :: 0 <= i < n ==> lengths[i] == lengths[..n][i];
    }
  }

  lemma LongLengthsDoNotSurvive(s: Scheme, lengths: seq<nat>, e: nat)
    requires Lawful(s) && ColumnLaw(s) && InTable(s, |lengths|) && |lengths| <= MAX_DATA
    requires e < |lengths| && lengths[e] > MAX_PAYLOAD && forall i :: 0 <= i < |lengths| ==> lengths[i] <= lengths[e]
    ensures !LengthsSurvive(s, lengths)
  {
    hide Lawful, ColumnLaw, SurvivesReading;
    var a, b := SomeTwin(lengths, e);
    OneTwinIsLost(s, a, b, e);
  }

  /**
    For a chunk of any number of payloads: it is safe to send payloads of these lengths, whatever they hold, if and
    only if each has 1 to 1640 bytes.
   */
  lemma LengthsSurviveExactlyWhenShort(s: Scheme, lengths: seq<nat>)
    requires Lawful(s) && ColumnLaw(s) && InTable(s, |lengths|) && |lengths| <= MAX_DATA
    ensures LengthsSurvive(s, lengths) <==> forall i :: 0 <= i < |lengths| ==> 1 <= lengths[i] <= MAX_PAYLOAD
  {
    hide Lawful, ColumnLaw, SurvivesReading, Survives;
    var e := LongestOf(lengths);
    if lengths[e] > MAX_PAYLOAD {
      LongLengthsDoNotSurvive(s, lengths, e);
    } else {
      forall payloads: seq<bytes> | HaveLengths(payloads, lengths)
        ensures SurvivesReading(s, payloads) <==> forall i :: 0 <= i < |lengths| ==> 1 <= lengths[i]
      {
        UncutSurvival(s, payloads);
        SurvivesExactlyWhenSendable(s, payloads);
        assert forall i :: 0 <= i < |lengths| ==> |payloads[i]| == lengths[i];
      }
      assert HaveLengths(Blank(lengths), lengths);
    }
  }
}
