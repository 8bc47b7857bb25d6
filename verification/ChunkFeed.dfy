/**
  A single chunk at the receiver, fed with its shards in a given order: exactly which chunks survive
  every order and mix of arrivals.
 */
module ChunkFeed {
  import opened Bytes
  import opened ErasureCode
  import opened Facility
  import opened Chunk
  import opened Receiver

  /** The receiver after the shards of `order` have arrived one after the other under one sequence number. */
  function Feed(s: Scheme, payloads: seq<bytes>, order: seq<nat>): (Holder, seq<Emission>, bool) {
    if order == [] then (NewHolder(), [], false)
    else
      var n := |order| - 1;
      var (h, es, crash) := Feed(s, payloads, order[..n]);
      if crash || h.doneAll then (h, es, crash)
      else
        var r := Accept(s, 1, h, order[n], BodyOf(s, payloads, order[n]));
        (r.0, es + r.1, r.2)
  }

  function Members(order: seq<nat>): set<nat> {
    set id | id in order
  }

  /** Shard numbers that the sender of this chunk may have issued. */
  ghost predicate FromChunk(s: Scheme, payloads: seq<bytes>, order: seq<nat>)
    requires InTable(s, |payloads|)
  {
    forall i :: 0 <= i < |order| ==> order[i] < |payloads| + ParitySum(s, |payloads|)
  }

  ghost predicate AllEmitted(s: Scheme, payloads: seq<bytes>, order: seq<nat>) {
    var r := Feed(s, payloads, order);
    !r.2 && Ids(r.1) == Below(|payloads|) && Genuine(1, payloads, r.1)
  }

  /** The chunk comes out whole from every order in which as many distinct shards arrive as it has payloads. */
  ghost predicate Survives(s: Scheme, payloads: seq<bytes>)
    requires InTable(s, |payloads|)
  {
    forall order: seq<nat> :: FromChunk(s, payloads, order) && |Members(order)| >= |payloads|
                              ==> AllEmitted(s, payloads, order)
  }

  lemma MembersGrow(order: seq<nat>)
    requires order != []
    ensures Members(order) == Members(order[..|order| - 1]) + {order[|order| - 1]}
  {
    var n := |order| - 1;
    assert order == order[..n] + [order[n]];
  }

  lemma {:induction false} FeedOk(s: Scheme, payloads: seq<bytes>, order: seq<nat>)
    requires Closable(s, payloads) && Sendable(payloads) && |payloads| <= MAX_DATA && FromChunk(s, payloads, order)
    ensures var r := Feed(s, payloads, order);
            !r.2 && HolderOk(s, payloads, Members(order), r.0, Ids(r.1)) && Genuine(1, payloads, r.1)
  {
    hide Lawful, Sendable;
    if order == [] {
      NewHolderOk(s, payloads);
      assert Members([]) == {};
    } else {
      var n := |order| - 1;
      var ids, id := Members(order[..n]), order[n];
      FeedOk(s, payloads, order[..n]);
      MembersGrow(order);
      var r := Feed(s, payloads, order[..n]);
      if !r.0.doneAll {
        FeedStep(s, payloads, ids, r.0, r.1, id);
      }
    }
  }

  lemma {:induction false} FeedStep(
    s: Scheme, payloads: seq<bytes>, ids: set<nat>, h: Holder, es: seq<Emission>, id: nat)
    requires Closable(s, payloads) && Sendable(payloads) && |payloads| <= MAX_DATA
    requires id < |payloads| + ParitySum(s, |payloads|)
    requires HolderOk(s, payloads, ids, h, Ids(es)) && Genuine(1, payloads, es) && !h.doneAll
    ensures var r := Accept(s, 1, h, id, BodyOf(s, payloads, id));
            !r.2 && HolderOk(s, payloads, ids + {id}, r.0, Ids(es + r.1)) && Genuine(1, payloads, es + r.1)
  {
    hide Lawful, Sendable, Holds, Counts, Accept, BodyOf, Kept, Ready, HolderOk, Unrepeated, Ids, DataIds;
    StillIssued(s, payloads, ids, h, Ids(es), id);
    AcceptAnswers(s, 1, payloads, ids, h, Ids(es), id);
    var r := Accept(s, 1, h, id, BodyOf(s, payloads, id));
    IdsOfConcat(es, r.1);
    CountsGrow(ids, id, |payloads|);
    OpenHolderEmitted(s, payloads, ids, h, Ids(es));
    DirectIds(1, payloads, id, r.1);
    assert Ids(es + r.1) == DataIds(ids + {id}, |payloads|) + Ids(r.1);
  }

  lemma StillIssued(s: Scheme, payloads: seq<bytes>, ids: set<nat>, h: Holder, emitted: set<nat>, id: nat)
    requires HolderOk(s, payloads, ids, h, emitted) && !h.doneAll && InTable(s, |payloads|)
    requires id < |payloads| + ParitySum(s, |payloads|)
    ensures Issued(s, payloads, ids + {id})
  {
    hide Holds, Counts, Ready;
  }

  lemma OpenHolderEmitted(s: Scheme, payloads: seq<bytes>, ids: set<nat>, h: Holder, emitted: set<nat>)
    requires HolderOk(s, payloads, ids, h, emitted) && !h.doneAll
    ensures emitted == DataIds(ids, |payloads|)
  {
    hide Collected, Ready;
  }

  /** The payload of a data shard is among what it puts out. */
  lemma DirectIds(seqNo: nat, payloads: seq<bytes>, id: nat, es: seq<Emission>)
    requires Direct(seqNo, payloads, id) <= es
    ensures id < |payloads| ==> id in Ids(es)
  {
    var first := Direct(seqNo, payloads, id);
    assert id < |payloads| ==> first[0] in es && first[0].id == id;
  }

  lemma SendableSurvives(s: Scheme, payloads: seq<bytes>, order: seq<nat>)
    requires Closable(s, payloads) && Sendable(payloads) && |payloads| <= MAX_DATA && FromChunk(s, payloads, order)
    requires |Members(order)| >= |payloads|
    ensures AllEmitted(s, payloads, order)
  {
    FeedOk(s, payloads, order);
    var ids, t := Members(order), |payloads|;
    if !Feed(s, payloads, order).0.doneAll {
      IdsSplit(ids, t);
      FullBelow(DataIds(ids, t), t);
    }
  }

  lemma FullBelow(ids: set<nat>, t: nat)
    requires (forall i :: i in ids ==> i < t) && |ids| >= t
    ensures ids == Below(t)
    decreases t
  {
    if t > 0 {
      FullBelow(ids - {t - 1}, t - 1);
      BelowSize(t - 1);
    }
  }

  lemma BelowSize(t: nat)
    ensures |Below(t)| == t
  {
  }

  // ---------- Empty payloads ----------

  /** An empty payload's header reads as that of a parity shard of an unknown chunk: nothing is put out. */
  lemma EmptyPayloadIsMute(f: State, id: nat)
    ensures var (g, done, out) := AddShard(f, id, Wrap([]));
            out == None && g.total == 0
  {
    Int16RoundTrip(0);
    assert Wrap([])[..2] == PackInt16(0);
  }

  lemma DataKeepsTotal(f: State, id: nat, payload: bytes)
    requires 1 <= |payload| <= MAX_LENGTH && f.total == 0
    ensures var (g, done, out) := AddShard(f, id, Wrap(payload));
            out == Some(payload) && g.total == 0 && !done
  {
    UnwrapWrap(payload);
  }

  /** A holder that has seen data shards only. */
  ghost predicate Sizeless(h: Holder) {
    !h.doneAll && h.ef.total == 0 && |h.doneBitmap| == MAX_DATA
  }

  lemma DataOnlyStep(s: Scheme, h: Holder, id: nat, payload: bytes)
    requires Sizeless(h) && id < MAX_DATA && |payload| <= MAX_LENGTH
    ensures var r := Accept(s, 1, h, id, Wrap(payload));
            && !r.2 && Sizeless(r.0)
            && r.1 == if payload == [] then [] else [Emission(1, id, payload)]
  {
    if payload == [] {
      EmptyPayloadIsMute(h.ef, id);
      NothingToReconstruct(s, AddShard(h.ef, id, Wrap([])).0);
    } else {
      DataKeepsTotal(h.ef, id, payload);
    }
    hide AddShard, Reconstruct, Wrap;
  }

  lemma NothingToReconstruct(s: Scheme, f: State)
    requires f.total == 0
    ensures Reconstruct(s, f) == (f, NotReady)
  {
  }

  /** While only data shards arrive, the size of the chunk stays unknown and an empty payload is never put out. */
  lemma {:induction false} DataOnly(s: Scheme, payloads: seq<bytes>, order: seq<nat>, e: nat)
    requires |payloads| <= MAX_DATA && e < |payloads| && payloads[e] == []
    requires forall i :: 0 <= i < |payloads| ==> |payloads[i]| <= MAX_LENGTH
    requires forall i :: 0 <= i < |order| ==> order[i] < |payloads|
    ensures var r := Feed(s, payloads, order); !r.2 && Sizeless(r.0) && e !in Ids(r.1)
  {
    if order == [] {
      NothingFed(s, payloads);
    } else {
      var n := |order| - 1;
      var id := order[n];
      FedData(s, payloads, order);
      hide Feed, Accept, Wrap, Ids;
      DataOnly(s, payloads, order[..n], e);
      var r := Feed(s, payloads, order[..n]);
      DataOnlyStep(s, r.0, id, payloads[id]);
      var es := if payloads[id] == [] then [] else [Emission(1, id, payloads[id])];
      IdsOfConcat(r.1, es);
      assert e !in Ids(es) by {
        OtherIds(es, e);
      }
    }
  }

  lemma OtherIds(es: seq<Emission>, e: nat)
    requires forall x :: x in es ==> x.id != e
    ensures e !in Ids(es)
  {
  }

  /** The last of some data shards. */
  lemma FedData(s: Scheme, payloads: seq<bytes>, order: seq<nat>)
    requires order != [] && order[|order| - 1] < |payloads|
    ensures var n := |order| - 1;
            var q := Feed(s, payloads, order[..n]);
            var r := Accept(s, 1, q.0, order[n], Wrap(payloads[order[n]]));
            !q.2 && !q.0.doneAll ==> Feed(s, payloads, order) == (r.0, q.1 + r.1, r.2)
  {
    hide Accept, Wrap;
  }

  lemma NothingFed(s: Scheme, payloads: seq<bytes>)
    ensures Feed(s, payloads, []) == (NewHolder(), [], false) && Sizeless(NewHolder())
  {
  }

  function UpTo(n: nat): (order: seq<nat>)
    ensures |order| == n && forall i :: 0 <= i < n ==> order[i] == i
  {
    seq(n, i => i)
  }

  lemma UpToMembers(n: nat)
    ensures Members(UpTo(n)) == Below(n)
  {
    forall i | 0 <= i < n ensures i in Members(UpTo(n)) {
      assert UpTo(n)[i] == i;
    }
  }

  // ---------- Long payloads ----------

  lemma {:induction false} MissingIsWithin(
    seqNo: nat, payloads: seq<bytes>, doneBitmap: seq<bool>, i: nat, max: nat)
    requires |payloads| <= |doneBitmap| && i <= |payloads|
    requires forall j :: 0 <= j < |payloads| ==> |payloads[j]| <= max
    ensures forall e :: e in Missing(seqNo, payloads, doneBitmap, i) ==> |e.payload| <= max
    decreases |payloads| - i
  {
    if i < |payloads| {
      MissingIsWithin(seqNo, payloads, doneBitmap, i + 1, max);
    }
  }

  lemma ReconstructIsShort(s: Scheme, f: State)
    ensures var r := Reconstruct(s, f).1;
            r.Recovered? ==> forall j :: 0 <= j < |r.payloads| ==> |r.payloads[j]| <= MAX_LENGTH
  {
    hide Width, PadAll, Extend;
  }

  /** What reconstruction puts out has at most the length that a header can announce. */
  lemma AcceptIsShort(s: Scheme, h: Holder, id: nat, body: bytes, e: Emission)
    requires e in Accept(s, 1, h, id, body).1
    ensures e.id == id || |e.payload| <= MAX_LENGTH
  {
    hide Reconstruct, AddShard;
    var (ef, done, data) := AddShard(h.ef, id, body);
    ReconstructIsShort(s, ef);
    var r := Reconstruct(s, ef).1;
    var bitmap := if data.Some? && id < |h.doneBitmap| then h.doneBitmap[id := true] else h.doneBitmap;
    if r.Recovered? {
      var known := if |r.payloads| > |bitmap| then r.payloads[..|bitmap|] else r.payloads;
      MissingIsWithin(1, known, bitmap, 0, MAX_LENGTH);
    }
  }

  lemma {:induction false} FeedIsShort(s: Scheme, payloads: seq<bytes>, order: seq<nat>, e: Emission)
    requires e in Feed(s, payloads, order).1
    ensures e.id in order || |e.payload| <= MAX_LENGTH
  {
    hide Accept, BodyOf;
    if order != [] {
      var n := |order| - 1;
      var r := Feed(s, payloads, order[..n]);
      if e in r.1 {
        FeedIsShort(s, payloads, order[..n], e);
      } else {
        AcceptIsShort(s, r.0, order[n], BodyOf(s, payloads, order[n]), e);
      }
    }
  }

  /** All data shards but `e`, and the first parity shard. */
  function Without(t: nat, e: nat): (order: seq<nat>)
    requires e < t
    ensures |order| == t && forall i :: 0 <= i < t ==> order[i] == if i == e then t else i
  {
    seq(t, i => if i == e then t else i)
  }

  lemma WithoutMembers(t: nat, e: nat)
    requires e < t
    ensures |Members(Without(t, e))| == t
  {
    var order := Without(t, e);
    var rest := Below(t) - {e};
    forall i | i in rest + {t} ensures i in Members(order) {
      assert order[if i == t then e else i] == i;
    }
    assert Members(order) == rest + {t};
    BelowSize(t);
    hide Below, Members, Without;
    assert |rest| == t - 1;
    assert t !in rest;
  }

  lemma LongPayloadIsLost(s: Scheme, payloads: seq<bytes>, e: nat)
    requires Lawful(s) && InTable(s, |payloads|) && e < |payloads| && |payloads[e]| > MAX_LENGTH
    ensures !Survives(s, payloads)
  {
    hide Feed;
    var t := |payloads|;
    var order := Without(t, e);
    WithoutMembers(t, e);
    TableFits(s, t);
    assert FromChunk(s, payloads, order);
    if AllEmitted(s, payloads, order) {
      var out := Feed(s, payloads, order).1;
      assert e in Ids(out);
      var x :| x in out && x.id == e;
      FeedIsShort(s, payloads, order, x);
    }
  }

  lemma EmptyPayloadIsLost(s: Scheme, payloads: seq<bytes>, e: nat)
    requires InTable(s, |payloads|) && |payloads| <= MAX_DATA && e < |payloads| && payloads[e] == []
    requires forall i :: 0 <= i < |payloads| ==> |payloads[i]| <= MAX_LENGTH
    ensures !Survives(s, payloads)
  {
    hide Feed;
    var order := UpTo(|payloads|);
    UpToMembers(|payloads|);
    BelowSize(|payloads|);
    DataOnly(s, payloads, order, e);
    assert FromChunk(s, payloads, order) && !AllEmitted(s, payloads, order);
  }

  /**
    A chunk survives every loss and reordering that leaves as many distinct shards as it has payloads, if and only
    if each of its payloads has 1 to 32767 bytes: an empty one reads as parity, a longer one does not fit its header.
   */
  lemma SurvivesExactlyWhenSendable(s: Scheme, payloads: seq<bytes>)
    requires Lawful(s) && InTable(s, |payloads|) && |payloads| <= MAX_DATA
    ensures Survives(s, payloads) <==> Sendable(payloads)
  {
    hide Lawful, Survives;
    if e :| 0 <= e < |payloads| && |payloads[e]| > MAX_LENGTH {
      LongPayloadIsLost(s, payloads, e);
    } else if e :| 0 <= e < |payloads| && payloads[e] == [] {
      EmptyPayloadIsLost(s, payloads, e);
    } else {
      AnySendableSurvives(s, payloads);
    }
  }

  lemma AnySendableSurvives(s: Scheme, payloads: seq<bytes>)
    requires Closable(s, payloads) && Sendable(payloads) && |payloads| <= MAX_DATA
    ensures Survives(s, payloads)
  {
    hide Lawful, Feed;
    forall order: seq<nat> | FromChunk(s, payloads, order) && |Members(order)| >= |payloads|
      ensures AllEmitted(s, payloads, order)
    {
      SendableSurvives(s, payloads, order);
    }
  }
}
