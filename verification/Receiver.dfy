/**
  The receiving half of the packet assembly: data shards are emitted as they arrive, and once enough
  shards of a chunk are there the missing payloads are reconstructed and emitted.
 */
module Receiver {
  import opened Bytes
  import opened ErasureCode
  import opened Facility
  import opened Chunk

  const READ_BUFFER := 1650

  datatype Holder = Holder(ef: State, doneAll: bool, doneBitmap: seq<bool>)

  function NewHolder(): Holder {
    Holder(FRESH, false, seq(MAX_DATA, _ => false))
  }

  /** A payload put on the output channel, with the sequence and shard number it was found under. */
  datatype Emission = Emission(seqNo: nat, id: nat, payload: bytes)

  datatype Rx = Rx(holders: map<nat, Holder>, out: seq<Emission>, crashed: bool)

  const INIT := Rx(map[], [], false)

  /** The reconstructed payloads from `i` on that have not been emitted before. */
  function Missing(seqNo: nat, payloads: seq<bytes>, doneBitmap: seq<bool>, i: nat): seq<Emission>
    requires |payloads| <= |doneBitmap| && i <= |payloads|
    decreases |payloads| - i
  {
    if i == |payloads| then []
    else (if doneBitmap[i] then [] else [Emission(seqNo, i, payloads[i])])
         + Missing(seqNo, payloads, doneBitmap, i + 1)
  }

  /** The payloads of `r` that are still missing, then the chunk is done. */
  function Complete(
    seqNo: nat, ef: State, bitmap: seq<bool>, r: Recon, first: seq<Emission>): (Holder, seq<Emission>, bool) {
    match r
    case Crash => (Holder(ef, false, bitmap), first, true)
    case NotReady => (Holder(ef, false, bitmap), first, false)
    case Recovered(payloads) =>
      if |payloads| > |bitmap| then
        (Holder(ef, false, bitmap), first + Missing(seqNo, payloads[..|bitmap|], bitmap, 0), true)
      else (Holder(ef, true, bitmap), first + Missing(seqNo, payloads, bitmap, 0), false)
  }

  /** A shard for a chunk that is not done: the new holder, what is emitted, and whether the receiver panics. */
  function Accept(s: Scheme, seqNo: nat, h: Holder, id: nat, payload: bytes): (Holder, seq<Emission>, bool) {
    var (ef, done, data) := AddShard(h.ef, id, payload);
    var first := if data.Some? then [Emission(seqNo, id, data.value)] else [];
    if data.Some? && id >= |h.doneBitmap| then (Holder(ef, false, h.doneBitmap), first, true)
    else
      var bitmap := if data.Some? then h.doneBitmap[id := true] else h.doneBitmap;
      if !done then (Holder(ef, false, bitmap), first, false)
      else Complete(seqNo, Reconstruct(s, ef).0, bitmap, Reconstruct(s, ef).1, first)
  }

  function HolderOf(x: Rx, seqNo: nat): Holder {
    if seqNo in x.holders then x.holders[seqNo] else NewHolder()
  }

  function OnShard(s: Scheme, x: Rx, seqNo: nat, id: nat, payload: bytes): Rx {
    var h := HolderOf(x, seqNo);
    if h.doneAll then x.(holders := x.holders[seqNo := h])
    else
      var (h', es, crash) := Accept(s, seqNo, h, id, payload);
      Rx(x.holders[seqNo := h'], x.out + es, crash)
  }

  /** What is read of a datagram's body. */
  function ReadPart(body: bytes): (r: bytes)
    ensures r <= body && |r| <= READ_BUFFER - 6
    ensures |body| <= READ_BUFFER - 6 ==> r == body
  {
    if |body| <= READ_BUFFER - 6 then body else body[..READ_BUFFER - 6]
  }

  /** One datagram. What does not fit the read buffer is cut off, and an unreadable head reads as zeroes. */
  function Receive(s: Scheme, x: Rx, datagram: bytes): Rx {
    var d := if |datagram| > READ_BUFFER then datagram[..READ_BUFFER] else datagram;
    if x.crashed then x
    else if |d| < 6 then x.(out := x.out + [Emission(0, 0, [])])
    else
      var seqNo, id := UnpackUint32(d[..4]), UnpackUint16(d[4..6]);
      if seqNo == 0 then x.(out := x.out + [Emission(0, 0, d[6..])])
      else OnShard(s, x, seqNo, id, d[6..])
  }

  // ---------- One chunk ----------

  function Below(n: nat): (r: set<nat>)
    ensures forall i :: i in r <==> 0 <= i < n
  {
    if n == 0 then {} else Below(n - 1) + {n - 1}
  }

  /** A holder after shards `ids` of the chunk have arrived and payloads `emitted` have been put out. */
  ghost predicate HolderOk(s: Scheme, payloads: seq<bytes>, ids: set<nat>, h: Holder, emitted: set<nat>) {
    && |h.doneBitmap| == MAX_DATA
    && if h.doneAll then emitted == Below(|payloads|) && InTable(s, |payloads|)
       else
         && Collected(s, payloads, ids, h.ef)
         && (Ready(payloads, ids) ==> |DataIds(ids, |payloads|)| >= |payloads|)
         && (forall j :: 0 <= j < MAX_DATA ==> (h.doneBitmap[j] <==> j in DataIds(ids, |payloads|)))
         && emitted == DataIds(ids, |payloads|)
  }

  function Ids(es: seq<Emission>): set<nat> {
    set e | e in es :: e.id
  }

  /** Emissions of a chunk that carry exactly the payload of the shard number they were found under. */
  ghost predicate Genuine(seqNo: nat, payloads: seq<bytes>, es: seq<Emission>) {
    forall e :: e in es ==> e.seqNo == seqNo && e.id < |payloads| && e.payload == payloads[e.id]
  }

  /** Emissions that repeat neither each other nor what was put out before. */
  ghost predicate Unrepeated(es: seq<Emission>, emitted: set<nat>) {
    && (forall i :: 0 <= i < |es| ==> es[i].id !in emitted)
    && (forall i, j :: 0 <= i < j < |es| ==> es[i].id != es[j].id)
  }

  /** One more place: its emission, if it is missing, comes first. */
  lemma MissingStep(seqNo: nat, payloads: seq<bytes>, doneBitmap: seq<bool>, i: nat)
    requires |payloads| <= |doneBitmap| && i < |payloads|
    ensures Missing(seqNo, payloads, doneBitmap, i)
         == (if doneBitmap[i] then [] else [Emission(seqNo, i, payloads[i])])
            + Missing(seqNo, payloads, doneBitmap, i + 1)
  {
  }

  ghost predicate RestFrom(seqNo: nat, payloads: seq<bytes>, doneBitmap: seq<bool>, i: nat, es: seq<Emission>)
    requires |payloads| <= |doneBitmap|
  {
    && (forall a :: 0 <= a < |es| ==> i <= es[a].id < |payloads| && !doneBitmap[es[a].id]
                                      && es[a] == Emission(seqNo, es[a].id, payloads[es[a].id]))
    && (forall a, b :: 0 <= a < b < |es| ==> es[a].id < es[b].id)
    && (forall j :: i <= j < |payloads| && !doneBitmap[j] ==> Emission(seqNo, j, payloads[j]) in es)
  }

  lemma RestFromStep(seqNo: nat, payloads: seq<bytes>, doneBitmap: seq<bool>, i: nat, es: seq<Emission>)
    requires |payloads| <= |doneBitmap| && i < |payloads| && RestFrom(seqNo, payloads, doneBitmap, i + 1, es)
    ensures RestFrom(seqNo, payloads, doneBitmap, i,
                     (if doneBitmap[i] then [] else [Emission(seqNo, i, payloads[i])]) + es)
  {
    var first := if doneBitmap[i] then [] else [Emission(seqNo, i, payloads[i])];
    var all := first + es;
    forall a | 0 <= a < |all|
      ensures i <= all[a].id < |payloads| && !doneBitmap[all[a].id]
              && all[a] == Emission(seqNo, all[a].id, payloads[all[a].id])
    {
      assert a >= |first| ==> all[a] == es[a - |first|];
    }
    forall a, b | 0 <= a < b < |all| ensures all[a].id < all[b].id {
      assert all[b] == es[b - |first|];
      assert a >= |first| ==> all[a] == es[a - |first|];
    }
  }

  lemma {:induction false} MissingIsTheRest(seqNo: nat, payloads: seq<bytes>, doneBitmap: seq<bool>, i: nat)
    requires |payloads| <= |doneBitmap| && i <= |payloads|
    ensures RestFrom(seqNo, payloads, doneBitmap, i, Missing(seqNo, payloads, doneBitmap, i))
    decreases |payloads| - i
  {
    if i < |payloads| {
      MissingIsTheRest(seqNo, payloads, doneBitmap, i + 1);
      MissingStep(seqNo, payloads, doneBitmap, i);
      RestFromStep(seqNo, payloads, doneBitmap, i, Missing(seqNo, payloads, doneBitmap, i + 1));
    }
  }

  lemma IdsOfConcat(a: seq<Emission>, b: seq<Emission>)
    ensures Ids(a + b) == Ids(a) + Ids(b)
  {
    forall e | e in a || e in b ensures e in a + b {
    }
  }

  /** What reconstruction adds: every payload not yet put out, once. */
  lemma MissingCompletes(seqNo: nat, payloads: seq<bytes>, doneBitmap: seq<bool>, done: set<nat>)
    requires |payloads| <= |doneBitmap|
    requires forall j :: 0 <= j < |doneBitmap| ==> (doneBitmap[j] <==> j in done)
    requires forall j :: j in done ==> j < |payloads|
    ensures var es := Missing(seqNo, payloads, doneBitmap, 0);
            Genuine(seqNo, payloads, es) && Unrepeated(es, done) && done + Ids(es) == Below(|payloads|)
  {
    MissingIsTheRest(seqNo, payloads, doneBitmap, 0);
    var es := Missing(seqNo, payloads, doneBitmap, 0);
    forall j | 0 <= j < |payloads| ensures j in done + Ids(es) {
      if j !in done {
        assert Emission(seqNo, j, payloads[j]) in es;
      }
    }
  }

  /** The emission for a data shard itself. */
  function Direct(seqNo: nat, payloads: seq<bytes>, id: nat): seq<Emission> {
    if id < |payloads| then [Emission(seqNo, id, payloads[id])] else []
  }

  /** A correct answer to shard `id`: no panic, the holder in order, and only what was missing put out again. */
  ghost predicate Answers(
    s: Scheme, seqNo: nat, payloads: seq<bytes>, ids: set<nat>, id: nat, r: (Holder, seq<Emission>, bool))
  {
    var first := Direct(seqNo, payloads, id);
    && !r.2
    && HolderOk(s, payloads, ids, r.0, DataIds(ids, |payloads|) + Ids(r.1))
    && (r.0.doneAll ==> ParityIds(ids, |payloads|) != {})
    && (r.0.doneAll <==> Ready(payloads, ids) && |DataIds(ids, |payloads|)| < |payloads|)
    && Genuine(seqNo, payloads, r.1)
    && first <= r.1 && Unrepeated(r.1[|first|..], DataIds(ids, |payloads|))
  }

  ghost predicate BitmapOk(payloads: seq<bytes>, ids: set<nat>, bitmap: seq<bool>) {
    |bitmap| == MAX_DATA && forall j :: 0 <= j < MAX_DATA ==> (bitmap[j] <==> j in DataIds(ids, |payloads|))
  }

  lemma CompleteRecovered(
    s: Scheme, seqNo: nat, payloads: seq<bytes>, ids: set<nat>, ef: State, bitmap: seq<bool>, id: nat)
    requires |payloads| <= MAX_DATA && BitmapOk(payloads, ids, bitmap) && id in ids && InTable(s, |payloads|)
    requires Ready(payloads, ids) && |DataIds(ids, |payloads|)| < |payloads|
    ensures Answers(s, seqNo, payloads, ids, id,
                    Complete(seqNo, ef, bitmap, Recovered(payloads), Direct(seqNo, payloads, id)))
  {
    ReadyHasParity(payloads, ids);
    var first, rest := Direct(seqNo, payloads, id), Missing(seqNo, payloads, bitmap, 0);
    RestCompletes(seqNo, payloads, ids, bitmap, id);
    hide Collected, Ready, Missing, ParityIds, Below, Ids, Direct, DataIds, Genuine, Unrepeated, BitmapOk;
    assert (first + rest)[|first|..] == rest;
  }

  lemma ReadyHasParity(payloads: seq<bytes>, ids: set<nat>)
    requires Ready(payloads, ids)
    ensures ParityIds(ids, |payloads|) != {}
  {
  }

  /** The shard's own payload and the missing ones together are the whole chunk. */
  lemma RestCompletes(seqNo: nat, payloads: seq<bytes>, ids: set<nat>, bitmap: seq<bool>, id: nat)
    requires |payloads| <= MAX_DATA && BitmapOk(payloads, ids, bitmap) && id in ids
    ensures var first, rest := Direct(seqNo, payloads, id), Missing(seqNo, payloads, bitmap, 0);
            && DataIds(ids, |payloads|) + Ids(first + rest) == Below(|payloads|)
            && Genuine(seqNo, payloads, first + rest) && Unrepeated(rest, DataIds(ids, |payloads|))
  {
    hide Missing, Below, Unrepeated;
    var first, rest := Direct(seqNo, payloads, id), Missing(seqNo, payloads, bitmap, 0);
    var data := DataIds(ids, |payloads|);
    MissingCompletes(seqNo, payloads, bitmap, data);
    IdsOfConcat(first, rest);
    assert Ids(first) <= data;
    assert data + Ids(first + rest) == data + Ids(rest);
  }

  lemma {:induction false} AnswerDirectly(
    s: Scheme, seqNo: nat, payloads: seq<bytes>, ids: set<nat>, ef: State, bitmap: seq<bool>, id: nat)
    requires BitmapOk(payloads, ids, bitmap) && id in ids && Collected(s, payloads, ids, ef)
    requires Ready(payloads, ids) ==> |DataIds(ids, |payloads|)| >= |payloads|
    ensures Answers(s, seqNo, payloads, ids, id, (Holder(ef, false, bitmap), Direct(seqNo, payloads, id), false))
  {
    hide Collected;
    var first := Direct(seqNo, payloads, id);
    assert DataIds(ids, |payloads|) + Ids(first) == DataIds(ids, |payloads|);
  }

  lemma {:induction false} CompleteChunk(
    s: Scheme, seqNo: nat, payloads: seq<bytes>, ids: set<nat>, ef: State, bitmap: seq<bool>, id: nat)
    requires BitmapOk(payloads, ids, bitmap) && id in ids && Collected(s, payloads, ids, ef) && Ready(payloads, ids)
    ensures Answers(s, seqNo, payloads, ids, id,
                    Complete(seqNo, Reconstruct(s, ef).0, bitmap, Reconstruct(s, ef).1, Direct(seqNo, payloads, id)))
  {
    if |DataIds(ids, |payloads|)| < |payloads| {
      CollectedWord(s, payloads, ids, ef);
      ReconstructRecovers(s, payloads, ids, ef);
      CompleteRecovered(s, seqNo, payloads, ids, Reconstruct(s, ef).0, bitmap, id);
    } else {
      ReconstructIdle(s, payloads, ids, ef);
      AnswerDirectly(s, seqNo, payloads, ids, ef, bitmap, id);
    }
  }

  /** The wire form of shard `id` of a chunk. */
  function BodyOf(s: Scheme, payloads: seq<bytes>, id: nat): bytes {
    if id < |payloads| then Wrap(payloads[id])
    else if InTable(s, |payloads|) && |payloads| <= MAX_DATA && id - |payloads| < |ParityShards(s, payloads)| then
      ParityBody(s, payloads, id - |payloads|)
    else []
  }

  /** Shards of payloads of at most 1640 bytes fit the receiver's buffer. */
  lemma {:induction false} BodyFits(s: Scheme, payloads: seq<bytes>, id: nat)
    requires Lawful(s) && forall i :: 0 <= i < |payloads| ==> |payloads[i]| <= MAX_PAYLOAD
    ensures |BodyOf(s, payloads, id)| <= READ_BUFFER - 6
  {
    if id >= |payloads| && InTable(s, |payloads|) {
      WidthFacts(s, payloads);
      WidthBound(payloads, MAX_PAYLOAD);
    }
  }

  function OutputOf(payloads: seq<bytes>, id: nat): Option<bytes> {
    if id < |payloads| then Some(payloads[id]) else None
  }

  lemma {:induction false} AddAnyShard(
    s: Scheme, payloads: seq<bytes>, ids: set<nat>, f: State, id: nat) returns (ef: State, done: bool)
    requires Collected(s, payloads, ids, f) && Issued(s, payloads, ids + {id})
    ensures AddShard(f, id, BodyOf(s, payloads, id)) == (ef, done, OutputOf(payloads, id))
    ensures Collected(s, payloads, ids + {id}, ef) && (done <==> Ready(payloads, ids + {id}))
  {
    if id < |payloads| {
      AddDataShard(s, payloads, ids, f, id);
    } else {
      AddParityShard(s, payloads, ids, f, id);
    }
    var r := AddShard(f, id, BodyOf(s, payloads, id));
    ef, done := r.0, r.1;
  }

  lemma AcceptUnfolds(
    s: Scheme, seqNo: nat, payloads: seq<bytes>, h: Holder, id: nat, body: bytes, ef: State, done: bool)
    requires AddShard(h.ef, id, body) == (ef, done, OutputOf(payloads, id))
    requires |payloads| <= |h.doneBitmap|
    ensures var bitmap := if id < |payloads| then h.doneBitmap[id := true] else h.doneBitmap;
            var first := Direct(seqNo, payloads, id);
            Accept(s, seqNo, h, id, body)
            == if done then Complete(seqNo, Reconstruct(s, ef).0, bitmap, Reconstruct(s, ef).1, first)
               else (Holder(ef, false, bitmap), first, false)
  {
  }

  lemma BitmapGrows(payloads: seq<bytes>, ids: set<nat>, bitmap: seq<bool>, id: nat)
    requires |payloads| <= MAX_DATA && BitmapOk(payloads, ids, bitmap)
    ensures BitmapOk(payloads, ids + {id}, if id < |payloads| then bitmap[id := true] else bitmap)
  {
  }

  /** Every shard of a chunk, arriving in any order and any number of times, is answered correctly. */
  lemma {:induction false} AcceptAnswers(
    s: Scheme, seqNo: nat, payloads: seq<bytes>, ids: set<nat>, h: Holder, emitted: set<nat>, id: nat)
    requires HolderOk(s, payloads, ids, h, emitted) && !h.doneAll && Issued(s, payloads, ids + {id})
    ensures Answers(s, seqNo, payloads, ids + {id}, id, Accept(s, seqNo, h, id, BodyOf(s, payloads, id)))
  {
    hide Holds, Counts;
    var ef, done := AddAnyShard(s, payloads, ids, h.ef, id);
    AcceptUnfolds(s, seqNo, payloads, h, id, BodyOf(s, payloads, id), ef, done);
    var bitmap := if id < |payloads| then h.doneBitmap[id := true] else h.doneBitmap;
    BitmapGrows(payloads, ids, h.doneBitmap, id);
    if done {
      CompleteChunk(s, seqNo, payloads, ids + {id}, ef, bitmap, id);
    } else {
      AnswerDirectly(s, seqNo, payloads, ids + {id}, ef, bitmap, id);
    }
  }

  lemma NewHolderOk(s: Scheme, payloads: seq<bytes>)
    requires Lawful(s) && Sendable(payloads) && |payloads| <= MAX_DATA
    ensures HolderOk(s, payloads, {}, NewHolder(), {})
  {
    assert DataIds({}, |payloads|) == {} && ParityIds({}, |payloads|) == {};
  }
}
