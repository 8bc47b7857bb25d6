/**
  One chunk end to end: what the sender's facility holds while it fills and drains, what the
  receiver's facility holds after any set of its shards has arrived, and why reconstruction
  gives back exactly the payloads.
 */
module Chunk {
  import opened Bytes
  import opened ErasureCode
  import opened Facility

  /** The largest length that an int16 header can announce. */
  const MAX_LENGTH := 32767

  ghost predicate Sendable(payloads: seq<bytes>) {
    forall i :: 0 <= i < |payloads| ==> 1 <= |payloads[i]| <= MAX_LENGTH
  }

  /** A receiver reads at most 1650 bytes of a datagram; 1640 is what then still fits into a parity shard. */
  const MAX_PAYLOAD := 1640

  ghost predicate Short(payloads: seq<bytes>) {
    forall i :: 0 <= i < |payloads| ==> 1 <= |payloads[i]| <= MAX_PAYLOAD
  }

  function Wrapped(payloads: seq<bytes>): (r: seq<bytes>)
    ensures |r| == |payloads|
    ensures forall i :: 0 <= i < |r| ==> r[i] == Wrap(payloads[i])
  {
    seq(|payloads|, i requires 0 <= i < |payloads| => Wrap(payloads[i]))
  }

  function ShardWidth(payloads: seq<bytes>): nat {
    Width(Somes(Wrapped(payloads)))
  }

  function Padded(payloads: seq<bytes>): (r: seq<bytes>)
    ensures |r| == |payloads|
    ensures forall i :: 0 <= i < |r| ==> r[i] == PadTo(Wrap(payloads[i]), ShardWidth(payloads))
  {
    seq(|payloads|, i requires 0 <= i < |payloads| => PadTo(Wrap(payloads[i]), ShardWidth(payloads)))
  }

  function ParityShards(s: Scheme, payloads: seq<bytes>): seq<bytes>
    requires InTable(s, |payloads|)
  {
    s.parity(Padded(payloads), ParitySum(s, |payloads|))
  }

  /** A chunk that can be closed. */
  ghost predicate Closable(s: Scheme, payloads: seq<bytes>) {
    Lawful(s) && InTable(s, |payloads|)
  }

  lemma TableFits(s: Scheme, t: nat)
    requires Lawful(s) && InTable(s, t)
    ensures 1 <= ParitySum(s, t) && t + ParitySum(s, t) <= 256
  {
    assert s.table[t - 1] == ParitySum(s, t);
  }

  lemma WidthFacts(s: Scheme, payloads: seq<bytes>)
    requires Closable(s, payloads)
    ensures 2 <= ShardWidth(payloads)
    ensures forall i :: 0 <= i < |payloads| ==> |Wrap(payloads[i])| <= ShardWidth(payloads)
    ensures Encodes(Padded(payloads), ParitySum(s, |payloads|), ShardWidth(payloads))
    ensures |ParityShards(s, payloads)| == ParitySum(s, |payloads|)
    ensures Uniform(ParityShards(s, payloads), ShardWidth(payloads))
  {
    TableFits(s, |payloads|);
    var all := Somes(Wrapped(payloads));
    forall i | 0 <= i < |payloads| ensures |Wrap(payloads[i])| == SizeOf(all[i]) <= ShardWidth(payloads) {}
    assert SizeOf(all[0]) >= 2;
    assert Encodes(Padded(payloads), ParitySum(s, |payloads|), ShardWidth(payloads));
  }

  lemma WidthBound(payloads: seq<bytes>, max: nat)
    requires payloads != [] && forall i :: 0 <= i < |payloads| ==> |payloads[i]| <= max
    ensures ShardWidth(payloads) <= max + 2
  {
    var all := Somes(Wrapped(payloads));
    assert forall i :: 0 <= i < |all| ==> SizeOf(all[i]) == |payloads[i]| + 2;
  }

  // ---------- Sender ----------

  /** The facility of a chunk that still accepts data. */
  function Open(payloads: seq<bytes>): State {
    State(Somes(Wrapped(payloads)), |payloads|, 0, 0)
  }

  /** The facility of a closed chunk that has given out `n` parity shards. */
  function Closed(s: Scheme, payloads: seq<bytes>, n: nat): State
    requires InTable(s, |payloads|)
  {
    State(Somes(Padded(payloads)) + Somes(ParityShards(s, payloads)), |payloads|, n, |payloads|)
  }

  /** The wire form of parity shard `n`. */
  function ParityBody(s: Scheme, payloads: seq<bytes>, n: nat): bytes
    requires InTable(s, |payloads|) && |payloads| <= 32768 && n < |ParityShards(s, payloads)|
  {
    PackInt16(-|payloads|) + ParityShards(s, payloads)[n]
  }

  lemma AddDataToOpen(payloads: seq<bytes>, payload: bytes)
    ensures AddData(Open(payloads), payload) == (Open(payloads + [payload]), |payloads|, Wrap(payload))
  {
    var grown := payloads + [payload];
    assert Extend(Somes(Wrapped(payloads)), |payloads| + 1)[|payloads| := Some(Wrap(payload))]
        == Somes(Wrapped(grown));
  }

  lemma {:induction false} CloseOpen(s: Scheme, payloads: seq<bytes>)
    requires Closable(s, payloads)
    ensures Close(s, Open(payloads)) == Closed(s, payloads, 0)
  {
    var f := Open(payloads);
    var data := PadAll(f.buffer, Width(f.buffer), false);
    assert data == Somes(Padded(payloads));
    assert Values(data) == Padded(payloads);
  }

  lemma ConstructFromClosed(s: Scheme, payloads: seq<bytes>, n: nat)
    requires Closable(s, payloads) && n < ParitySum(s, |payloads|)
    ensures |ParityShards(s, payloads)| == ParitySum(s, |payloads|)
    ensures CanConstruct(s, Closed(s, payloads, n))
    ensures Construct(s, Closed(s, payloads, n))
         == (Closed(s, payloads, n + 1), |payloads| + n, ParityBody(s, payloads, n), n + 1 < ParitySum(s, |payloads|))
  {
    WidthFacts(s, payloads);
    var f := Closed(s, payloads, n);
    assert f.buffer[|payloads| + n] == Some(ParityShards(s, payloads)[n]);
  }

  lemma ConstructFromOpen(s: Scheme, payloads: seq<bytes>)
    requires Closable(s, payloads)
    ensures CanConstruct(s, Open(payloads)) && CanConstruct(s, Closed(s, payloads, 0))
    ensures Construct(s, Open(payloads)) == Construct(s, Closed(s, payloads, 0))
  {
    hide Close, ParityShards, Padded, Somes, Wrapped, Lawful, PackInt16, ParitySum;
    TableFits(s, |payloads|);
    ConstructFromClosed(s, payloads, 0);
    CloseOpen(s, payloads);
  }

  /** The sender's facility yields parity shard `n` as its n-th answer, for every `n` below the table's entry. */
  lemma ConstructYieldsParity(s: Scheme, payloads: seq<bytes>, n: nat)
    requires Closable(s, payloads) && n < ParitySum(s, |payloads|)
    ensures |ParityShards(s, payloads)| == ParitySum(s, |payloads|)
    ensures CanConstruct(s, if n == 0 then Open(payloads) else Closed(s, payloads, n))
    ensures Construct(s, if n == 0 then Open(payloads) else Closed(s, payloads, n))
         == (Closed(s, payloads, n + 1), |payloads| + n, ParityBody(s, payloads, n), n + 1 < ParitySum(s, |payloads|))
  {
    ConstructFromClosed(s, payloads, n);
    ConstructFromOpen(s, payloads);
  }

  // ---------- Receiver ----------

  /** What the receiver's buffer keeps of shard `id`: data shards with their header, parity shards without. */
  function Kept(s: Scheme, payloads: seq<bytes>, id: nat): bytes {
    if id < |payloads| then Wrap(payloads[id])
    else if InTable(s, |payloads|) && id < |payloads| + |ParityShards(s, payloads)| then
      ParityShards(s, payloads)[id - |payloads|]
    else []
  }

  function DataIds(ids: set<nat>, t: nat): set<nat> {
    set i | i in ids && i < t
  }

  function ParityIds(ids: set<nat>, t: nat): set<nat> {
    set i | i in ids && i >= t
  }

  /** Shards `ids` may exist: parity only of a chunk that can be closed. */
  ghost predicate Issued(s: Scheme, payloads: seq<bytes>, ids: set<nat>) {
    && Lawful(s) && Sendable(payloads) && |payloads| <= MAX_DATA
    && forall id :: id in ids ==>
         id < |payloads| || (InTable(s, |payloads|) && id < |payloads| + ParitySum(s, |payloads|))
  }

  /** The buffer holds shards `ids` and nothing else, and is no longer than it must be. */
  ghost predicate Holds(s: Scheme, payloads: seq<bytes>, ids: set<nat>, buffer: seq<Option<bytes>>) {
    && (forall id :: id in ids ==> id < |buffer|)
    && (forall i :: 0 <= i < |buffer| ==> buffer[i] == if i in ids then Some(Kept(s, payloads, i)) else None)
    && (buffer == [] || |buffer| - 1 in ids)
  }

  ghost predicate Counts(payloads: seq<bytes>, ids: set<nat>, f: State) {
    && f.dataInput == |DataIds(ids, |payloads|)|
    && f.shardInput == |ParityIds(ids, |payloads|)|
    && f.total == if ParityIds(ids, |payloads|) == {} then 0 else |payloads|
  }

  /** The receiver's facility after exactly the shards `ids` have arrived, in any order and any number of times. */
  ghost predicate Collected(s: Scheme, payloads: seq<bytes>, ids: set<nat>, f: State) {
    Issued(s, payloads, ids) && Holds(s, payloads, ids, f.buffer) && Counts(payloads, ids, f)
  }

  lemma IssuedParity(s: Scheme, payloads: seq<bytes>, ids: set<nat>, id: nat)
    requires Issued(s, payloads, ids) && id in ids && id >= |payloads|
    ensures Closable(s, payloads) && |ParityShards(s, payloads)| == ParitySum(s, |payloads|)
  {
    WidthFacts(s, payloads);
  }

  lemma UnwrapWrap(payload: bytes)
    requires |payload| <= MAX_LENGTH
    ensures Wrap(payload)[2..] == payload
    ensures UnpackInt16(Wrap(payload)[..2]) == |payload|
  {
    Int16RoundTrip(|payload|);
    assert Wrap(payload)[..2] == PackInt16(|payload|);
  }

  lemma KnownPlace(s: Scheme, payloads: seq<bytes>, ids: set<nat>, buffer: seq<Option<bytes>>, id: nat)
    requires Holds(s, payloads, ids, buffer) && id in ids
    ensures Extend(buffer, id + 1) == buffer && ids + {id} == ids && buffer[id] == Some(Kept(s, payloads, id))
    ensures buffer[id := Some(Kept(s, payloads, id))] == buffer
  {
    hide Kept, Extend;
    assert |Extend(buffer, id + 1)| == |buffer|;
  }

  lemma NewPlace(s: Scheme, payloads: seq<bytes>, ids: set<nat>, buffer: seq<Option<bytes>>, id: nat)
    requires Holds(s, payloads, ids, buffer) && id !in ids
    ensures Extend(buffer, id + 1)[id].None?
    ensures Holds(s, payloads, ids + {id}, Extend(buffer, id + 1)[id := Some(Kept(s, payloads, id))])
  {
    hide Kept, Extend;
    var b := Extend(buffer, id + 1);
    var c := b[id := Some(Kept(s, payloads, id))];
    forall i | 0 <= i < |c| ensures c[i] == if i in ids + {id} then Some(Kept(s, payloads, i)) else None {
      assert i != id ==> c[i] == b[i];
    }
  }

  lemma BufferGrows(s: Scheme, payloads: seq<bytes>, ids: set<nat>, buffer: seq<Option<bytes>>, id: nat)
    requires Holds(s, payloads, ids, buffer)
    ensures id in ids <==> Extend(buffer, id + 1)[id].Some?
    ensures id in ids ==> Extend(buffer, id + 1) == buffer && ids + {id} == ids
    ensures Holds(s, payloads, ids + {id}, Extend(buffer, id + 1)[id := Some(Kept(s, payloads, id))])
  {
    hide Kept, Extend, Holds;
    if id in ids {
      KnownPlace(s, payloads, ids, buffer, id);
    } else {
      NewPlace(s, payloads, ids, buffer, id);
    }
  }

  lemma CountsGrow(ids: set<nat>, id: nat, t: nat)
    ensures DataIds(ids + {id}, t) == if id < t then DataIds(ids, t) + {id} else DataIds(ids, t)
    ensures ParityIds(ids + {id}, t) == if id >= t then ParityIds(ids, t) + {id} else ParityIds(ids, t)
    ensures |DataIds(ids + {id}, t)| == |DataIds(ids, t)| + if id < t && id !in ids then 1 else 0
    ensures |ParityIds(ids + {id}, t)| == |ParityIds(ids, t)| + if id >= t && id !in ids then 1 else 0
  {
    assert id in ids ==> ids + {id} == ids;
    assert DataIds(ids + {id}, t) == if id < t then DataIds(ids, t) + {id} else DataIds(ids, t);
    assert ParityIds(ids + {id}, t) == if id >= t then ParityIds(ids, t) + {id} else ParityIds(ids, t);
  }

  /** The receiver has as many distinct shards as the chunk has payloads, and knows it. */
  ghost predicate Ready(payloads: seq<bytes>, ids: set<nat>) {
    ParityIds(ids, |payloads|) != {} && |payloads| <= |DataIds(ids, |payloads|)| + |ParityIds(ids, |payloads|)|
  }

  /** The buffer with a shard at place `id`, unless there is one already. */
  function Placed(buffer: seq<Option<bytes>>, id: nat, shard: bytes): seq<Option<bytes>> {
    var b := Extend(buffer, id + 1);
    if b[id].None? then b[id := Some(shard)] else b
  }

  function IsNew(buffer: seq<Option<bytes>>, id: nat): nat {
    if Extend(buffer, id + 1)[id].None? then 1 else 0
  }

  lemma PlacedHolds(s: Scheme, payloads: seq<bytes>, ids: set<nat>, buffer: seq<Option<bytes>>, id: nat)
    requires Holds(s, payloads, ids, buffer)
    ensures Holds(s, payloads, ids + {id}, Placed(buffer, id, Kept(s, payloads, id)))
    ensures IsNew(buffer, id) == if id in ids then 0 else 1
  {
    BufferGrows(s, payloads, ids, buffer, id);
    hide Holds, Extend, Kept;
  }

  lemma AddedData(f: State, id: nat, payload: bytes)
    requires 1 <= |payload| <= MAX_LENGTH
    ensures var total := f.total;
            var count := f.dataInput + IsNew(f.buffer, id);
            AddShard(f, id, Wrap(payload))
            == (State(Placed(f.buffer, id, Wrap(payload)), count, f.shardInput, total),
                total != 0 && total <= count + f.shardInput, Some(payload))
  {
    UnwrapWrap(payload);
    hide UnpackInt16, Wrap, Extend;
  }

  lemma AddedParity(f: State, id: nat, body: bytes, t: nat)
    requires t <= MAX_LENGTH && |body| >= 2 && UnpackInt16(body[..2]) == 0 - t
    ensures var count := f.shardInput + IsNew(f.buffer, id);
            AddShard(f, id, body)
            == (State(Placed(f.buffer, id, body[2..]), f.dataInput, count, t), t <= f.dataInput + count, None)
  {
    hide UnpackInt16, Extend;
  }

  lemma CountsMove(payloads: seq<bytes>, ids: set<nat>, f: State, id: nat, g: State)
    requires Counts(payloads, ids, f)
    requires if id < |payloads| then
               && g.dataInput == f.dataInput + (if id in ids then 0 else 1)
               && g.shardInput == f.shardInput && g.total == f.total
             else
               && g.dataInput == f.dataInput && g.shardInput == f.shardInput + (if id in ids then 0 else 1)
               && g.total == |payloads|
    ensures Counts(payloads, ids + {id}, g)
  {
    CountsGrow(ids, id, |payloads|);
    hide DataIds, ParityIds;
  }

  lemma IssuedMore(s: Scheme, payloads: seq<bytes>, ids: set<nat>, id: nat)
    requires Issued(s, payloads, ids) && id < |payloads|
    ensures Issued(s, payloads, ids + {id})
  {
    hide Lawful;
  }

  lemma DoneMeansReady(payloads: seq<bytes>, ids: set<nat>, f: State)
    requires Counts(payloads, ids, f)
    ensures f.total != 0 && f.total <= f.dataInput + f.shardInput && payloads != [] ==> Ready(payloads, ids)
    ensures Ready(payloads, ids) ==> f.total == |payloads| <= f.dataInput + f.shardInput
  {
    hide DataIds, ParityIds;
  }

  /** A data shard arrives: it is recorded once, its payload is handed out, and `done` says whether enough is there. */
  lemma {:induction false} AddDataShard(s: Scheme, payloads: seq<bytes>, ids: set<nat>, f: State, id: nat)
    requires Collected(s, payloads, ids, f) && id < |payloads|
    ensures var (g, done, out) := AddShard(f, id, Wrap(payloads[id]));
            && Collected(s, payloads, ids + {id}, g)
            && out == Some(payloads[id])
            && (done <==> Ready(payloads, ids + {id}))
  {
    PlacedHolds(s, payloads, ids, f.buffer, id);
    AddedData(f, id, payloads[id]);
    var g := AddShard(f, id, Wrap(payloads[id])).0;
    assert Kept(s, payloads, id) == Wrap(payloads[id]);
    hide AddShard, Holds, Placed, IsNew, Kept, Wrap, Ready;
    IssuedMore(s, payloads, ids, id);
    CountsMove(payloads, ids, f, id, g);
    hide Counts, Issued;
    DoneMeansReady(payloads, ids + {id}, g);
  }

  /** A parity shard arrives: it is recorded once, reveals the chunk's size, and hands out nothing. */
  lemma AddParityShard(s: Scheme, payloads: seq<bytes>, ids: set<nat>, f: State, id: nat)
    requires Collected(s, payloads, ids, f) && Issued(s, payloads, ids + {id}) && id >= |payloads|
    ensures Closable(s, payloads) && id < |payloads| + |ParityShards(s, payloads)|
    ensures var (g, done, out) := AddShard(f, id, ParityBody(s, payloads, id - |payloads|));
            && Collected(s, payloads, ids + {id}, g)
            && out == None
            && (done <==> Ready(payloads, ids + {id}))
  {
    IssuedParity(s, payloads, ids + {id}, id);
    PlacedHolds(s, payloads, ids, f.buffer, id);
    ParityBodyParts(s, payloads, id);
    var body := ParityBody(s, payloads, id - |payloads|);
    AddedParity(f, id, body, |payloads|);
    var g := AddShard(f, id, body).0;
    hide AddShard, Holds, Placed, IsNew, Kept, ParityBody, ParityShards, Ready, Lawful, Issued;
    CountsMove(payloads, ids, f, id, g);
    hide Counts;
    DoneMeansReady(payloads, ids + {id}, g);
  }

  lemma ParityBodyParts(s: Scheme, payloads: seq<bytes>, id: nat)
    requires InTable(s, |payloads|) && |payloads| <= MAX_DATA
    requires |payloads| <= id < |payloads| + |ParityShards(s, payloads)|
    ensures var body := ParityBody(s, payloads, id - |payloads|);
            |body| >= 2 && UnpackInt16(body[..2]) == -|payloads| && body[2..] == Kept(s, payloads, id)
  {
    var body := ParityBody(s, payloads, id - |payloads|);
    Int16RoundTrip(-|payloads|);
    assert body[..2] == PackInt16(-|payloads|);
    assert body[2..] == Kept(s, payloads, id);
  }

  lemma IdsSplit(ids: set<nat>, t: nat)
    ensures |ids| == |DataIds(ids, t)| + |ParityIds(ids, t)|
  {
    assert ids == DataIds(ids, t) + ParityIds(ids, t);
  }

  /** The code word of a chunk: its padded data shards, then its parity shards. */
  function Word(s: Scheme, payloads: seq<bytes>): seq<bytes>
    requires InTable(s, |payloads|)
  {
    Padded(payloads) + ParityShards(s, payloads)
  }

  lemma KeptPads(s: Scheme, payloads: seq<bytes>, id: nat)
    requires Closable(s, payloads) && id < |payloads| + ParitySum(s, |payloads|)
    ensures |Word(s, payloads)| == |payloads| + ParitySum(s, |payloads|)
    ensures |Kept(s, payloads, id)| <= ShardWidth(payloads)
    ensures id >= |payloads| ==> |Kept(s, payloads, id)| == ShardWidth(payloads)
    ensures PadTo(Kept(s, payloads, id), ShardWidth(payloads)) == Word(s, payloads)[id]
  {
    WidthFacts(s, payloads);
  }

  /** The buffer of `Reconstruct`, extended to the whole word. */
  ghost predicate HoldsWord(s: Scheme, payloads: seq<bytes>, ids: set<nat>, buffer: seq<Option<bytes>>)
    requires InTable(s, |payloads|)
  {
    && |buffer| == |payloads| + ParitySum(s, |payloads|)
    && (forall id :: id in ids ==> id < |buffer|)
    && forall i :: 0 <= i < |buffer| ==> buffer[i] == if i in ids then Some(Kept(s, payloads, i)) else None
  }

  /** One parity shard is enough for the receiver to pad to the sender's width. */
  lemma {:induction false} ReceivedWidth(s: Scheme, payloads: seq<bytes>, ids: set<nat>, buffer: seq<Option<bytes>>)
    requires Closable(s, payloads) && ParityIds(ids, |payloads|) != {} && HoldsWord(s, payloads, ids, buffer)
    ensures Width(buffer) == ShardWidth(payloads)
  {
    var id :| id in ParityIds(ids, |payloads|);
    KeptPads(s, payloads, id);
    assert SizeOf(buffer[id]) == ShardWidth(payloads);
    forall i | 0 <= i < |buffer| ensures SizeOf(buffer[i]) <= ShardWidth(payloads) {
      KeptPads(s, payloads, i);
    }
  }

  lemma {:induction false} PaddedIsSubword(s: Scheme, payloads: seq<bytes>, ids: set<nat>, buffer: seq<Option<bytes>>)
    requires Closable(s, payloads) && HoldsWord(s, payloads, ids, buffer)
    ensures Subword(PadAll(buffer, ShardWidth(payloads), true), Word(s, payloads))
    ensures Present(PadAll(buffer, ShardWidth(payloads), true)) == ids
  {
    var padded := PadAll(buffer, ShardWidth(payloads), true);
    WidthFacts(s, payloads);
    forall i | 0 <= i < |padded| && padded[i].Some? ensures padded[i].value == Word(s, payloads)[i] {
      KeptPads(s, payloads, i);
    }
  }

  lemma StripPadded(payload: bytes, width: nat)
    requires |payload| <= MAX_LENGTH
    ensures Strip(PadTo(Wrap(payload), width)) == payload
  {
    UnwrapWrap(payload);
    var shard := PadTo(Wrap(payload), width);
    assert shard[..2] == Wrap(payload)[..2];
    assert shard[2..2 + |payload|] == Wrap(payload)[2..];
  }

  lemma StripAllPadded(payloads: seq<bytes>)
    requires forall i :: 0 <= i < |payloads| ==> |payloads[i]| <= MAX_LENGTH
    ensures Strippable(Padded(payloads)) && StripAll(Padded(payloads)) == payloads
  {
    forall i | 0 <= i < |payloads| ensures Strip(Padded(payloads)[i]) == payloads[i] {
      StripPadded(payloads[i], ShardWidth(payloads));
    }
  }

  lemma {:induction false} RecoverFromAny(s: Scheme, payloads: seq<bytes>, ids: set<nat>, buffer: seq<Option<bytes>>)
    requires Closable(s, payloads) && HoldsWord(s, payloads, ids, buffer)
    requires ParityIds(ids, |payloads|) != {} && |ids| >= |payloads|
    ensures s.recover(|payloads|, ParitySum(s, |payloads|), PadAll(buffer, Width(buffer), true))
         == Some(Padded(payloads))
  {
    ReceivedWidth(s, payloads, ids, buffer);
    PaddedIsSubword(s, payloads, ids, buffer);
    WidthFacts(s, payloads);
  }

  lemma CollectedWord(s: Scheme, payloads: seq<bytes>, ids: set<nat>, f: State)
    requires Collected(s, payloads, ids, f) && ParityIds(ids, |payloads|) != {}
    ensures Closable(s, payloads)
    ensures HoldsWord(s, payloads, ids, Extend(f.buffer, |payloads| + ParitySum(s, |payloads|)))
  {
    hide Lawful, Sendable, Kept, ParityShards;
    var one :| one in ParityIds(ids, |payloads|);
    assert one in ids;
    var buffer := Extend(f.buffer, |payloads| + ParitySum(s, |payloads|));
    forall id | id in ids ensures id < |payloads| + ParitySum(s, |payloads|) {}
    assert |buffer| == |payloads| + ParitySum(s, |payloads|);
  }

  lemma ReconstructUnfolds(s: Scheme, f: State, data: seq<bytes>)
    requires f.dataInput < f.total <= f.dataInput + f.shardInput && InTable(s, f.total)
    requires var buffer := Extend(f.buffer, f.total + ParitySum(s, f.total));
             s.recover(f.total, ParitySum(s, f.total), PadAll(buffer, Width(buffer), true)) == Some(data)
    requires |data| == f.total && Strippable(data)
    ensures Reconstruct(s, f).1 == Recovered(StripAll(data))
  {
  }

  /**
    From any set of shards that is as large as the chunk and holds a parity shard, `Reconstruct` gives
    back the payloads, however their lengths differ.
   */
  lemma {:induction false} ReconstructRecovers(s: Scheme, payloads: seq<bytes>, ids: set<nat>, f: State)
    requires Collected(s, payloads, ids, f) && Ready(payloads, ids)
    requires |DataIds(ids, |payloads|)| < |payloads|
    ensures Reconstruct(s, f).1 == Recovered(payloads)
  {
    CollectedWord(s, payloads, ids, f);
    IdsSplit(ids, |payloads|);
    RecoverFromAny(s, payloads, ids, Extend(f.buffer, |payloads| + ParitySum(s, |payloads|)));
    StripAllPadded(payloads);
    ReconstructUnfolds(s, f, Padded(payloads));
  }

  /** With every data shard in hand there is nothing to reconstruct. */
  lemma ReconstructIdle(s: Scheme, payloads: seq<bytes>, ids: set<nat>, f: State)
    requires Collected(s, payloads, ids, f)
    requires !Ready(payloads, ids) || |DataIds(ids, |payloads|)| >= |payloads|
    ensures Reconstruct(s, f) == (f, NotReady)
  {
  }
}
