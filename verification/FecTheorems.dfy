/**
  What the forward-error-correction session promises, for every run.
 */
module FecTheorems {
  import opened Bytes
  import opened ErasureCode
  import opened Facility
  import opened Chunk
  import opened Sender
  import opened SenderInvariant
  import opened FecSession
  import opened FecCompletion
  import R = Receiver
  import ChunkFeed
  import EpochBudget

  // ---------- The sender alone, however long it runs ----------

  lemma {:induction false} SenderKeeps(s: Scheme, events: seq<Event>)
    requires Lawful(s)
    ensures TxIdle(s, Run(s, events).tx)
  {
    hide TxIdle, OnPacket, OnEpoch, R.Receive;
    if events == [] {
      InitIdle(s);
    } else {
      var n := |events| - 1;
      var x := Run(s, events[..n]);
      SenderKeeps(s, events[..n]);
      match events[n]
      case Submit(payload, fecEnabled) => PacketKeeps(s, x.tx, payload, fecEnabled);
      case EpochTimer => EpochKeeps(s, x.tx);
      case Deliver(_) =>
    }
  }

  /**
    The sender never panics: every parity shard it ever asks for exists. Every closed chunk holds 1 to 40 payloads,
    and no slot has sent more than its schedule allowed.
   */
  lemma {:induction false} SenderStaysWithinParity(s: Scheme, events: seq<Event>)
    requires Lawful(s)
    ensures var x := Run(s, events).tx;
            && !x.crashed
            && (forall k :: 0 <= k < |x.ledger| - 1 ==> ClosedChunk(s, x.ledger[k]))
            && (forall i :: 0 <= i < |x.tags| && x.tags[i].Parity? ==>
                  && x.tags[i].chunk < |x.ledger| - 1
                  && x.tags[i].index < x.ledger[x.tags[i].chunk].parity)
            && |x.ring| == RING
            && (forall i :: 0 <= i < RING ==>
                  Readable(s, x.ring[i]) && Sent(s, x.ring[i]) <= Released(x.ring[i], x.epoch))
  {
    hide TxIdle, Run, ClosedChunk, Readable, Sent, Released;
    SenderKeeps(s, events);
    var x := Run(s, events).tx;
    ClosedChunksHold(s, x);
    forall i | 0 <= i < |x.tags| && x.tags[i].Parity?
      ensures x.tags[i].chunk < |x.ledger| - 1 && x.tags[i].index < x.ledger[x.tags[i].chunk].parity
    {
      ParityWasGiven(s, x, i);
    }
    forall i | 0 <= i < RING ensures Readable(s, x.ring[i]) && Sent(s, x.ring[i]) <= Released(x.ring[i], x.epoch) {
      SlotKeepsSchedule(s, x, i);
    }
  }

  lemma ClosedChunksHold(s: Scheme, x: Tx)
    requires TxIdle(s, x)
    ensures !x.crashed && |x.ring| == RING && forall k :: 0 <= k < |x.ledger| - 1 ==> ClosedChunk(s, x.ledger[k])
  {
    hide WireOk, SlotOk, FillingSlot, ClosedChunk, Lawful;
  }

  lemma ParityWasGiven(s: Scheme, x: Tx, i: nat)
    requires TxIdle(s, x) && i < |x.tags| && x.tags[i].Parity?
    ensures x.tags[i].chunk < |x.ledger| - 1 && x.tags[i].index < x.ledger[x.tags[i].chunk].parity
  {
    hide SlotOk, FillingSlot, ClosedChunk, Lawful, Render;
    assert TagOk(x.ledger, x.plain, x.tags[i]);
  }

  lemma SlotKeepsSchedule(s: Scheme, x: Tx, i: nat)
    requires TxIdle(s, x) && i < RING
    ensures |x.ring| == RING && Readable(s, x.ring[i]) && Sent(s, x.ring[i]) <= Released(x.ring[i], x.epoch)
  {
    hide WireOk, LedgerOk, Lawful, Schedule;
    assert i != x.cur ==> SlotOk(s, x, i);
  }

  /** How many parity shards draining sends, in terms of what is left of the epoch's quota. */
  ghost predicate NearQuota(before: nat, after: nat, sentThisEpoch: nat) {
    var n, quota := after - before, SOFT_LIMIT - sentThisEpoch;
    0 <= n && if quota <= 0 then n == 0 else n <= quota || 2 * n < 4 * quota + RING
  }

  lemma {:induction false} DrainStaysNearItsQuota(s: Scheme, x: Tx)
    requires TxIdle(s, x)
    ensures NearQuota(|x.wire|, |Drain(s, x).wire|, x.sentThisEpoch)
  {
    hide SendAll, RoundRobin, Guidance, WireOk, LedgerOk, SlotOk, FillingSlot, AllReadable;
    var quota := SOFT_LIMIT - x.sentThisEpoch;
    if quota > 0 {
      BudgetsReadable(s, x);
      DrainKeeps(s, x);
      EpochBudget.GuidanceIsBounded(s, x.ring, x.epoch, quota);
      var g := Guidance(s, x.ring, x.epoch, quota);
      EpochBudget.RoundRobinLength(g);
      SendAllWrites(s, x, RoundRobin(g));
    }
  }

  /**
    The traffic of an epoch: at its end, beyond the parity shard that closes a chunk, at most what is left of the
    quota goes out, or less than twice that and half a shard per slot when the shares had to be scaled.
   */
  lemma {:induction false} EpochStaysNearItsQuota(s: Scheme, events: seq<Event>)
    requires Lawful(s)
    ensures var x := Run(s, events).tx;
            var y := Run(s, events + [EpochTimer]).tx;
            && Intact(x) && y.sentThisEpoch == 0 && y.epoch == x.epoch + 1
            && if x.ring[x.cur].dataShardWithin == 0 then NearQuota(|x.wire|, |y.wire|, x.sentThisEpoch)
               else NearQuota(|x.wire| + 1, |y.wire|, x.sentThisEpoch + 1)
  {
    hide Drain, Finish, TxIdle, OnPacket, R.Receive;
    SenderKeeps(s, events);
    assert (events + [EpochTimer])[..|events|] == events;
    var x := Run(s, events).tx;
    IdleIsIntact(s, x);
    EpochClock(s, x);
    if x.ring[x.cur].dataShardWithin == 0 {
      DrainStaysNearItsQuota(s, x);
    } else {
      FinishCounts(s, x);
      DrainStaysNearItsQuota(s, Finish(s, x));
    }
  }

  lemma IdleIsIntact(s: Scheme, x: Tx)
    requires TxIdle(s, x)
    ensures Intact(x)
  {
  }

  lemma FinishCounts(s: Scheme, x: Tx)
    requires TxIdle(s, x) && x.ring[x.cur].dataShardWithin != 0
    ensures TxIdle(s, Finish(s, x)) && |Finish(s, x).wire| == |x.wire| + 1
            && Finish(s, x).sentThisEpoch == x.sentThisEpoch + 1
  {
    hide PackPacket, Construct, CanConstruct;
    FinishKeeps(s, x);
  }

  /** Draining leaves the clock alone; the epoch's end moves it by one. */
  lemma EpochClock(s: Scheme, x: Tx)
    requires TxIdle(s, x)
    ensures OnEpoch(s, x).epoch == x.epoch + 1
  {
    hide Drain, Finish;
    var y := if x.ring[x.cur].dataShardWithin != 0 then Finish(s, x) else x;
    if x.ring[x.cur].dataShardWithin != 0 {
      FinishKeeps(s, x);
      FinishDoes(s, x, |x.ledger| - 1);
    }
    BudgetsReadable(s, y);
    var order := DrainOrder(s, y);
    SendAllKeeps(s, y, order);
  }

  /** After as many epochs as the ring has slots, a slot's whole parity is released. */
  lemma ScheduleCompletes(slot: Slot, epoch: nat)
    requires slot.initialRemain >= 0 && slot.initialEpoch + RING <= epoch
    ensures Schedule(slot, epoch) >= slot.initialRemain
  {
    var n := epoch - slot.initialEpoch;
    EpochBudget.MulMonotone(slot.initialRemain, RING, n);
    assert n * slot.initialRemain == slot.initialRemain * n;
    EpochBudget.RoundDivMonotone(RING * slot.initialRemain, n * slot.initialRemain);
  }

  lemma CaughtUp(s: Scheme, x: Tx, i: nat)
    requires RingOk(s, x) && i < RING && Readable(s, x.ring[i]) && Headroom(s, x.ring[i], x.epoch) == 0
             && x.ring[i].enabled
    ensures x.epoch < x.ring[i].initialEpoch + RING
  {
    assert i != x.cur && SlotOk(s, x, i);
    if x.ring[i].initialEpoch + RING <= x.epoch {
      ScheduleCompletes(x.ring[i], x.epoch);
    }
  }

  /**
    When the quota is large enough for all that is released, draining leaves no slot behind its schedule, and no
    chunk that was filled a whole ring of epochs ago has parity left to send.
   */
  lemma {:induction false} UnscaledEpochCatchesUp(s: Scheme, x: Tx)
    requires TxIdle(s, x) && AllReadable(s, x.ring) && x.sentThisEpoch < SOFT_LIMIT
    requires Sum(Unlocks(s, x.ring, x.epoch)) <= SOFT_LIMIT - x.sentThisEpoch
    ensures var y := Drain(s, x);
            && y.epoch == x.epoch && AllReadable(s, y.ring) && |y.ring| == RING
            && (forall i :: 0 <= i < RING ==> Headroom(s, y.ring[i], y.epoch) == 0)
            && (forall i :: 0 <= i < RING && y.ring[i].enabled ==> y.epoch < y.ring[i].initialEpoch + RING)
  {
    hide SendAll, WireOk, LedgerOk, SlotOk, FillingSlot, Headroom, RoundRobin;
    var u := Unlocks(s, x.ring, x.epoch);
    BudgetsReadable(s, x);
    GuidanceWithinBudget(s, x, SOFT_LIMIT - x.sentThisEpoch);
    SendAllKeeps(s, x, RoundRobin(u));
    var y := Drain(s, x);
    forall i: nat | i < RING
      ensures Headroom(s, y.ring[i], y.epoch) == 0 && (y.ring[i].enabled ==> y.epoch < y.ring[i].initialEpoch + RING)
    {
      EpochBudget.RoundRobinServes(u, i);
      if y.ring[i].enabled {
        CaughtUp(s, y, i);
      }
    }
  }

  predicate SameHead(a: bytes, b: bytes) {
    |a| >= 6 && |b| >= 6 && a[..6] == b[..6]
  }

  lemma HeadOf(seqNo: nat, id: nat, body: bytes, seqNo': nat, id': nat, body': bytes)
    requires seqNo < 0x1_0000_0000 && seqNo' < 0x1_0000_0000 && id < 0x1_0000 && id' < 0x1_0000
    ensures SameHead(PackPacket(seqNo, id, body), PackPacket(seqNo', id', body')) <==> seqNo == seqNo' && id == id'
  {
    hide PackUint16, PackUint32, UnpackUint16, UnpackUint32;
    SmallId(id);
    SmallId(id');
    var h, h' := PackPacket(seqNo, id, body)[..6], PackPacket(seqNo', id', body')[..6];
    assert h[..4] == PackUint32(seqNo) && h'[..4] == PackUint32(seqNo');
    assert h[4..] == PackUint16(id) && h'[4..] == PackUint16(id');
    Uint32RoundTrip(seqNo);
    Uint32RoundTrip(seqNo');
    Uint16RoundTrip(id);
    Uint16RoundTrip(id');
  }

  /**
    Two protected datagrams with the same head, that is the same sequence and shard number, lie a whole cycle of
    2^32 - 1 chunks apart. This holds across any number of wrap-arounds.
   */
  lemma {:induction false} HeadsRepeatOnlyAfterACycle(s: Scheme, events: seq<Event>, i: nat, j: nat)
    requires Lawful(s)
    requires var x := Run(s, events).tx;
             i < j < |x.tags| == |x.wire| && !x.tags[i].Plain? && !x.tags[j].Plain? && SameHead(x.wire[i], x.wire[j])
    ensures var x := Run(s, events).tx;
            x.tags[i].chunk + SEQ_CYCLE <= x.tags[j].chunk || x.tags[j].chunk + SEQ_CYCLE <= x.tags[i].chunk
  {
    hide PackPacket, SeqOf, RingOk, LedgerOk, R.BodyOf, Run;
    SenderKeeps(s, events);
    var x := Run(s, events).tx;
    var k, l := x.tags[i].chunk, x.tags[j].chunk;
    WireShard(s, x, i, k);
    WireShard(s, x, j, l);
    var a, b := ShardId(x.ledger, x.tags[i]), ShardId(x.ledger, x.tags[j]);
    HeadOf(SeqOf(k), a, R.BodyOf(s, x.ledger[k].payloads, a), SeqOf(l), b, R.BodyOf(s, x.ledger[l].payloads, b));
    if k < l < k + SEQ_CYCLE {
      SeqOfInjective(k, l);
    } else if l < k < l + SEQ_CYCLE {
      SeqOfInjective(l, k);
    }
  }

  /** A protected datagram never carries the sequence number that marks unprotected ones. */
  lemma {:induction false} ProtectedIsNeverPlain(s: Scheme, events: seq<Event>, i: nat)
    requires Lawful(s)
    requires i < |Run(s, events).tx.tags| == |Run(s, events).tx.wire|
    ensures var x := Run(s, events).tx;
            |x.wire[i]| >= 6 && (x.tags[i].Plain? <==> x.wire[i][..4] == PackUint32(0))
  {
    hide SeqOf, RingOk, LedgerOk, R.BodyOf, Run, PackUint32, PackUint16;
    SenderKeeps(s, events);
    var x := Run(s, events).tx;
    assert TagOk(x.ledger, x.plain, x.tags[i]);
    Uint32RoundTrip(0);
    if !x.tags[i].Plain? {
      var k := x.tags[i].chunk;
      WireShard(s, x, i, k);
      Uint32RoundTrip(SeqOf(k));
      assert x.wire[i][..4] == PackUint32(SeqOf(k));
    } else {
      assert x.wire[i][..4] == PackUint32(0);
    }
  }

  /** Enabled slots of the ring always have distinct sequence numbers. */
  lemma {:induction false} EnabledSlotsAreDistinct(s: Scheme, events: seq<Event>, i: nat, j: nat)
    requires Lawful(s) && i < j < RING
    requires var x := Run(s, events).tx; |x.ring| == RING && x.ring[i].enabled && x.ring[j].enabled
    ensures var x := Run(s, events).tx; x.ring[i].seqNo != x.ring[j].seqNo
  {
    SenderKeeps(s, events);
    var x := Run(s, events).tx;
    assert i != x.cur && j != x.cur && SlotOk(s, x, i) && SlotOk(s, x, j);
    var k, l := ChunkAt(x, i), ChunkAt(x, j);
    if k < l {
      SeqOfInjective(k, l);
    } else {
      SeqOfInjective(l, k);
    }
  }

  /** What an event submits with protection on or off. */
  function Given(e: Event, fecEnabled: bool): seq<bytes> {
    if e.Submit? && e.fecEnabled == fecEnabled then [e.payload] else []
  }

  function Submitted(events: seq<Event>, fecEnabled: bool): seq<bytes> {
    if events == [] then []
    else Submitted(events[..|events| - 1], fecEnabled) + Given(events[|events| - 1], fecEnabled)
  }

  lemma {:induction false} StepTakesInput(s: Scheme, x: Session, e: Event)
    requires TxIdle(s, x.tx)
    ensures var y := Step(s, x, e);
            Flatten(y.tx.ledger) == Flatten(x.tx.ledger) + Given(e, true) && y.tx.plain == x.tx.plain + Given(e, false)
  {
    hide TxIdle, OnPacket, OnEpoch, R.Receive, Flatten;
    match e
    case Submit(payload, fecEnabled) => PacketInputs(s, x.tx, payload, fecEnabled);
    case EpochTimer => EpochInputs(s, x.tx);
    case Deliver(_) =>
  }

  /** The chunks hold exactly the payloads submitted under protection, in order; nothing is dropped or added. */
  lemma {:induction false} ChunksHoldTheInput(s: Scheme, events: seq<Event>)
    requires Lawful(s)
    ensures Flatten(Run(s, events).tx.ledger) == Submitted(events, true)
    ensures Run(s, events).tx.plain == Submitted(events, false)
  {
    if events == [] {
      EmptyInput(s);
    } else {
      hide TxIdle, Step, Flatten, Given;
      var n := |events| - 1;
      SenderKeeps(s, events[..n]);
      ChunksHoldTheInput(s, events[..n]);
      StepTakesInput(s, Run(s, events[..n]), events[n]);
    }
  }

  lemma EmptyInput(s: Scheme)
    ensures Flatten(Run(s, []).tx.ledger) == [] && Run(s, []).tx.plain == []
  {
    var c := ChunkLog([], 0);
    assert Flatten([c]) == Flatten([c][..0]) + [];
  }

  // ---------- Sender, network and receiver ----------

  /**
    However the network loses, reorders and repeats datagrams, neither side panics and everything put out
    is a payload that was submitted, found under its own chunk and position.
   */
  lemma {:induction false} OnlyGenuinePayloads(s: Scheme, events: seq<Event>)
    requires Lawful(s) && Admissible(events) && |Run(s, events).tx.ledger| <= SEQ_CYCLE
    ensures var x := Run(s, events);
            !x.tx.crashed && !x.rx.crashed && forall e :: e in x.rx.out ==> IsGenuine(x.tx, e)
  {
    RunKeeps(s, events);
  }

  lemma EnoughShards(s: Scheme, x: Session, k: nat)
    requires Inv(s, x) && k < |x.tx.ledger| && |Arrived(x, k)| >= |x.tx.ledger[k].payloads|
    ensures Emitted(x.rx.out, SeqOf(k)) == R.Below(|x.tx.ledger[k].payloads|)
  {
    HolderOfChunk(s, x, k);
    var ids, t := Arrived(x, k), |x.tx.ledger[k].payloads|;
    if !R.HolderOf(x.rx, SeqOf(k)).doneAll {
      IdsSplit(ids, t);
      ChunkFeed.FullBelow(DataIds(ids, t), t);
    }
  }

  /**
    Once as many distinct shards of a chunk have arrived as it has payloads, in whatever order and mix of data
    and parity, every payload of the chunk has been put out.
   */
  lemma {:induction false} EnoughShardsDeliverTheChunk(s: Scheme, events: seq<Event>, k: nat, j: nat)
    requires Lawful(s) && Admissible(events) && |Run(s, events).tx.ledger| <= SEQ_CYCLE
    requires var x := Run(s, events);
             k < |x.tx.ledger| && j < |x.tx.ledger[k].payloads| <= |Arrived(x, k)|
    ensures var x := Run(s, events);
            R.Emission(SeqOf(k), j, x.tx.ledger[k].payloads[j]) in x.rx.out
  {
    RunKeeps(s, events);
    var x := Run(s, events);
    EnoughShards(s, x, k);
    assert j in Emitted(x.rx.out, SeqOf(k));
    var e :| e in x.rx.out && e.seqNo == SeqOf(k) && e.id == j;
    assert IsGenuine(x.tx, e);
    var k' :| 0 <= k' < |x.tx.ledger| && e.seqNo == SeqOf(k') && e.id < |x.tx.ledger[k'].payloads|
              && e.payload == x.tx.ledger[k'].payloads[e.id];
    if k' != k {
      SeqOfInjective(if k < k' then k else k', if k < k' then k' else k);
    }
  }

  ghost predicate AtMostOnce(out: seq<R.Emission>) {
    forall a, b :: 0 <= a < b < |out| && out[a].seqNo != 0 ==> !(out[a].seqNo == out[b].seqNo && out[a].id == out[b].id)
  }

  lemma UnrepeatedKeepsOnce(out: seq<R.Emission>, es: seq<R.Emission>, seqNo: nat)
    requires AtMostOnce(out) && R.Unrepeated(es, Emitted(out, seqNo)) && forall e :: e in es ==> e.seqNo == seqNo
    ensures AtMostOnce(out + es)
  {
    var all := out + es;
    forall a, b | 0 <= a < b < |all| && all[a].seqNo != 0
      ensures !(all[a].seqNo == all[b].seqNo && all[a].id == all[b].id)
    {
      if a < |out| <= b {
        assert all[b] == es[b - |out|] && all[b] in es;
        assert all[a] in out && all[a].seqNo == seqNo ==> all[a].id in Emitted(out, seqNo);
      }
    }
  }

  lemma RepeatBreaksOnce(out: seq<R.Emission>, es: seq<R.Emission>)
    requires es != [] && es[0].seqNo != 0 && es[0].id in Emitted(out, es[0].seqNo)
    ensures !AtMostOnce(out + es)
  {
    var e :| e in out && e.seqNo == es[0].seqNo && e.id == es[0].id;
    var a :| 0 <= a < |out| && out[a] == e;
    assert (out + es)[a] == e && (out + es)[|out|] == es[0];
  }

  /** The shard number of a data datagram has arrived exactly when that very datagram has. */
  lemma ArrivedData(s: Scheme, x: Session, n: nat)
    requires TxInv(s, x.tx) && n < |x.tx.tags| && x.tx.tags[n].Data?
    ensures var tag := x.tx.tags[n];
            tag.index in Arrived(x, tag.chunk) <==> n in x.deliveries
  {
    var tag := x.tx.tags[n];
    WireData(s, x.tx, n, tag.chunk, tag.index);
    if tag.index in Arrived(x, tag.chunk) {
      var m :| m in x.deliveries && m < |x.tx.tags| && OfChunk(x.tx.tags[m], tag.chunk)
               && tag.index == ShardId(x.tx.ledger, x.tx.tags[m]);
      WireShard(s, x.tx, m, tag.chunk);
      assert x.tx.tags[m] == tag;
    }
  }

  /** An answer that begins with the payload of data shard `id` repeats something exactly if that was put out before. */
  lemma DataAnswerOnce(out: seq<R.Emission>, es: seq<R.Emission>, seqNo: nat, payloads: seq<bytes>, id: nat)
    requires AtMostOnce(out) && seqNo != 0 && id < |payloads| && R.Direct(seqNo, payloads, id) <= es
    requires R.Genuine(seqNo, payloads, es) && R.Unrepeated(es[1..], Emitted(out, seqNo) + {id})
    ensures AtMostOnce(out + es) <==> id !in Emitted(out, seqNo)
  {
    hide AtMostOnce, R.Unrepeated, Emitted;
    assert es[0] == R.Direct(seqNo, payloads, id)[0];
    if id in Emitted(out, seqNo) {
      RepeatBreaksOnce(out, es);
    } else {
      HeadAndRest(es, Emitted(out, seqNo), id);
      UnrepeatedKeepsOnce(out, es, seqNo);
    }
  }

  lemma {:induction false} ShardAnswers(s: Scheme, x: Session, n: nat, k: nat)
    requires Inv(s, x) && n < |x.tx.wire| && OfChunk(x.tx.tags[n], k) && k < |x.tx.ledger|
    requires !R.HolderOf(x.rx, SeqOf(k)).doneAll
    ensures var id, payloads := ShardId(x.tx.ledger, x.tx.tags[n]), x.tx.ledger[k].payloads;
            var es, first := Answer(s, x, k, id), R.Direct(SeqOf(k), payloads, id);
            && (id < |payloads| <==> x.tx.tags[n].Data?) && R.Genuine(SeqOf(k), payloads, es) && first <= es
            && R.Unrepeated(es[|first|..], DataIds(Arrived(x, k) + {id}, |payloads|))
            && Emitted(x.rx.out, SeqOf(k)) == DataIds(Arrived(x, k), |payloads|)
  {
    hide TxIdle, RxInv, Arrived, Emitted, SeqOf, R.Accept, R.BodyOf, R.HolderOk, R.Genuine, R.Unrepeated, DataIds,
         R.Receive, Issued, ShardId;
    HistoryLines(s, x);
    var y := Step(s, x, Deliver(n));
    var id, payloads := ShardId(x.tx.ledger, x.tx.tags[n]), x.tx.ledger[k].payloads;
    HolderOfChunk(s, x, k);
    ArrivedGrows(x, y, n, k);
    ArrivedIssued(s, y, k);
    R.AcceptAnswers(s, SeqOf(k), payloads, Arrived(x, k), R.HolderOf(x.rx, SeqOf(k)), Emitted(x.rx.out, SeqOf(k)), id);
    WireShard(s, x.tx, n, k);
    OpenChunkEmitted(s, x, k);
  }

  /** What an unfinished chunk answers: the payload itself for a data shard, then only what was never put out. */
  lemma {:induction false} AnswerOnce(s: Scheme, x: Session, n: nat, k: nat)
    requires Inv(s, x) && |x.tx.ledger| <= SEQ_CYCLE && n < |x.tx.wire| && OfChunk(x.tx.tags[n], k)
    requires AtMostOnce(x.rx.out) && k < |x.tx.ledger| && !R.HolderOf(x.rx, SeqOf(k)).doneAll
    ensures var id := ShardId(x.tx.ledger, x.tx.tags[n]);
            AtMostOnce(x.rx.out + Answer(s, x, k, id)) <==> !(x.tx.tags[n].Data? && n in x.deliveries)
  {
    hide TxIdle, RxInv, Arrived, Emitted, R.Genuine, R.Unrepeated, AtMostOnce, Answer, DataIds;
    HistoryLines(s, x);
    var id, payloads := ShardId(x.tx.ledger, x.tx.tags[n]), x.tx.ledger[k].payloads;
    var es := Answer(s, x, k, id);
    ShardAnswers(s, x, n, k);
    CountsGrow(Arrived(x, k), id, |payloads|);
    if x.tx.tags[n].Data? {
      ArrivedData(s, x, n);
      InDataIds(Arrived(x, k), |payloads|, id);
      DataAnswerOnce(x.rx.out, es, SeqOf(k), payloads, id);
    } else {
      assert es[0..] == es;
      GenuineSeq(SeqOf(k), payloads, es);
      UnrepeatedKeepsOnce(x.rx.out, es, SeqOf(k));
    }
  }

  lemma InDataIds(ids: set<nat>, t: nat, id: nat)
    requires id < t
    ensures id in DataIds(ids, t) <==> id in ids
  {
  }

  lemma GenuineSeq(seqNo: nat, payloads: seq<bytes>, es: seq<R.Emission>)
    requires R.Genuine(seqNo, payloads, es)
    ensures forall e :: e in es ==> e.seqNo == seqNo
  {
  }

  lemma HeadAndRest(es: seq<R.Emission>, emitted: set<nat>, id: nat)
    requires es != [] && es[0].id == id && id !in emitted && R.Unrepeated(es[1..], emitted + {id})
    ensures R.Unrepeated(es, emitted)
  {
    forall i | 0 < i < |es| ensures es[i].id !in emitted && es[i].id != id {
      assert es[i] == es[1..][i - 1];
    }
    forall i, j | 0 <= i < j < |es| ensures es[i].id != es[j].id {
      assert es[j] == es[1..][j - 1];
      assert i > 0 ==> es[i] == es[1..][i - 1];
    }
  }

  /**
    Exactly when the receiver puts a payload out twice: a data datagram is delivered again while its chunk
    has not been completed by reconstruction. Repeated parity datagrams never do harm.
   */
  lemma {:induction false} DeliveryRepeatsExactlyWhen(s: Scheme, x: Session, n: nat)
    requires Inv(s, x) && |x.tx.ledger| <= SEQ_CYCLE && n < |x.tx.wire| && AtMostOnce(x.rx.out)
    ensures var tag := x.tx.tags[n];
            AtMostOnce(Step(s, x, Deliver(n)).rx.out)
            <==> !(tag.Data? && n in x.deliveries && !R.HolderOf(x.rx, SeqOf(tag.chunk)).doneAll)
  {
    if x.tx.tags[n].Plain? {
      DeliverPlainShape(s, x, n);
    } else {
      var k := x.tx.tags[n].chunk;
      DeliverShardKeeps(s, x, n, k);
      if !R.HolderOf(x.rx, SeqOf(k)).doneAll {
        AnswerOnce(s, x, n, k);
      } else {
        assert x.rx.out + [] == x.rx.out;
      }
    }
  }

  ghost predicate NoDataRepeated(x: Session) {
    forall a, b ::
      0 <= a < b < |x.deliveries| && x.deliveries[a] == x.deliveries[b] && x.deliveries[a] < |x.tx.tags| ==>
        !x.tx.tags[x.deliveries[a]].Data?
  }

  lemma NothingRepeats()
    ensures AtMostOnce([])
  {
  }

  /** If no data datagram is delivered twice, no payload is put out twice. */
  lemma {:induction false} NoPayloadTwice(s: Scheme, events: seq<Event>)
    requires Lawful(s) && Admissible(events) && |Run(s, events).tx.ledger| <= SEQ_CYCLE
    requires NoDataRepeated(Run(s, events))
    ensures AtMostOnce(Run(s, events).rx.out)
  {
    hide Inv, OnPacket, OnEpoch, R.Receive, AtMostOnce;
    if events == [] {
      NothingRepeats();
    } else {
      var n := |events| - 1;
      var x, e := Run(s, events[..n]), events[n];
      var y := Run(s, events);
      LedgerNeverShrinks(s, x, e);
      RunKeeps(s, events[..n]);
      StepKeeps(s, x, e);
      assert x.deliveries <= y.deliveries;
      assert NoDataRepeated(x);
      NoPayloadTwice(s, events[..n]);
      HistoryLines(s, x);
      if e.Deliver? && e.index < |x.tx.wire| {
        DeliveryRepeatsExactlyWhen(s, x, e.index);
        if e.index in x.deliveries {
          var a :| 0 <= a < |x.deliveries| && x.deliveries[a] == e.index;
          assert y.deliveries[a] == y.deliveries[|x.deliveries|];
        }
      }
    }
  }

  /**
    A data datagram arrives again, and so far there was no moment at which a parity shard and enough shards of its
    chunk had arrived while a data shard was still missing.
   */
  ghost predicate RepeatsOpenData(x: Session, e: Event) {
    && e.Deliver? && e.index < |x.tx.tags| && x.tx.tags[e.index].Data? && e.index in x.deliveries
    && !Completed(x, x.tx.tags[e.index].chunk)
  }

  ghost predicate RepeatsNowhere(s: Scheme, events: seq<Event>) {
    forall i :: 0 <= i < |events| ==> !RepeatsOpenData(Run(s, events[..i]), events[i])
  }

  lemma RepeatsNowhereSnoc(s: Scheme, events: seq<Event>)
    requires events != []
    ensures var n := |events| - 1;
            RepeatsNowhere(s, events)
            <==> RepeatsNowhere(s, events[..n]) && !RepeatsOpenData(Run(s, events[..n]), events[n])
  {
    hide Run, RepeatsOpenData;
    var n := |events| - 1;
    assert forall i :: 0 <= i <= n ==> events[..n][..i] == events[..i];
    if RepeatsNowhere(s, events) {
      forall i | 0 <= i < n ensures !RepeatsOpenData(Run(s, events[..n][..i]), events[..n][i]) {
        assert !RepeatsOpenData(Run(s, events[..i]), events[i]);
      }
    }
    if RepeatsNowhere(s, events[..n]) && !RepeatsOpenData(Run(s, events[..n]), events[n]) {
      forall i | 0 <= i < |events| ensures !RepeatsOpenData(Run(s, events[..i]), events[i]) {
        assert i < n ==> !RepeatsOpenData(Run(s, events[..n][..i]), events[..n][i]);
      }
    }
  }

  lemma OutGrows(s: Scheme, x: Session, e: Event)
    ensures x.rx.out <= Step(s, x, e).rx.out
  {
    hide OnPacket, OnEpoch, R.Accept;
  }

  lemma OncePrefix(out: seq<R.Emission>, more: seq<R.Emission>)
    requires out <= more && AtMostOnce(more)
    ensures AtMostOnce(out)
  {
  }

  /** A run puts no payload out twice exactly when none of its deliveries repeats data of a chunk still open. */
  lemma {:induction false} PayloadsRepeatExactlyWhen(s: Scheme, events: seq<Event>)
    requires Lawful(s) && Admissible(events) && |Run(s, events).tx.ledger| <= SEQ_CYCLE
    ensures AtMostOnce(Run(s, events).rx.out) <==> RepeatsNowhere(s, events)
  {
    hide Inv, OnPacket, OnEpoch, R.Receive, AtMostOnce, RepeatsNowhere, Completed;
    if events == [] {
      NothingRepeats();
      assert RepeatsNowhere(s, []) by {
        NothingToRepeat(s);
      }
    } else {
      var n := |events| - 1;
      var x, e := Run(s, events[..n]), events[n];
      LedgerNeverShrinks(s, x, e);
      RunKeeps(s, events[..n]);
      HistoryLines(s, x);
      PayloadsRepeatExactlyWhen(s, events[..n]);
      RepeatsNowhereSnoc(s, events);
      if AtMostOnce(x.rx.out) {
        if e.Deliver? && e.index < |x.tx.wire| {
          DeliveryRepeatsExactlyWhen(s, x, e.index);
          if x.tx.tags[e.index].Data? {
            var k := x.tx.tags[e.index].chunk;
            DataOfKnownChunk(s, x, e.index);
            DoneExactlyWhenCompleted(s, events[..n], k);
          }
        }
      } else if AtMostOnce(Step(s, x, e).rx.out) {
        OutGrows(s, x, e);
        OncePrefix(x.rx.out, Step(s, x, e).rx.out);
      }
    }
  }

  lemma DataOfKnownChunk(s: Scheme, x: Session, n: nat)
    requires Inv(s, x) && n < |x.tx.tags| && x.tx.tags[n].Data?
    ensures x.tx.tags[n].chunk < |x.tx.ledger|
  {
    WireData(s, x.tx, n, x.tx.tags[n].chunk, x.tx.tags[n].index);
  }

  lemma NothingToRepeat(s: Scheme)
    ensures RepeatsNowhere(s, [])
  {
  }

  lemma FirstPacket(s: Scheme, payload: bytes)
    ensures var x := OnPacket(s, Init(), payload, true);
            x.ledger == [ChunkLog([payload], 0)] && x.tags == [Data(0, 0)] && |x.ring| == RING
            && x.cur == 0 && x.ring[0].dataShardWithin == 1
  {
    hide PackPacket;
    var y := AddPacket(Init(), payload);
    assert y.ledger == [ChunkLog([] + [payload], 0)] && [] + [payload] == [payload];
    assert y.tags == [] + [Data(0, 0)];
  }

  /** The shortest run that puts a payload out twice: its data datagram arrives twice. */
  lemma {:induction false} TwiceDeliveredComesOutTwice(s: Scheme, payload: bytes)
    requires Lawful(s) && 1 <= |payload| <= MAX_PAYLOAD
    ensures !AtMostOnce(Run(s, [Submit(payload, true), Deliver(0), Deliver(0)]).rx.out)
  {
    hide OnPacket, R.Receive, AtMostOnce, Inv;
    var a, b := Submit(payload, true), Deliver(0);
    assert Run(s, []) == Session(Init(), R.INIT, []);
    RunSnoc(s, [], a);
    RunSnoc(s, [a], b);
    RunSnoc(s, [a, b], b);
    assert [] + [a] == [a] && [a] + [b] == [a, b] && [a, b] + [b] == [a, b, b];
    FirstPacket(s, payload);
    RunKeeps(s, [a]);
    HistoryLines(s, Run(s, [a]));
    var x := Run(s, [a, b]);
    RunKeeps(s, [a, b]);
    assert x.deliveries == [0] && 0 in x.deliveries;
    HolderOfChunk(s, x, 0);
    if AtMostOnce(Run(s, [a, b, b]).rx.out) {
      OutGrows(s, x, b);
      OncePrefix(x.rx.out, Run(s, [a, b, b]).rx.out);
      DeliveryRepeatsExactlyWhen(s, x, 0);
    }
  }

  // ---------- Unprotected traffic ----------

  function PlainOut(out: seq<R.Emission>): seq<bytes> {
    if out == [] then []
    else PlainOut(out[..|out| - 1]) + if out[|out| - 1].seqNo == 0 then [out[|out| - 1].payload] else []
  }

  function PlainDelivered(x: Tx, deliveries: seq<nat>): seq<bytes> {
    if deliveries == [] then []
    else
      var n := deliveries[|deliveries| - 1];
      PlainDelivered(x, deliveries[..|deliveries| - 1])
      + if n < |x.tags| && x.tags[n].Plain?
          && x.tags[n].index < |x.plain| then [R.ReadPart(x.plain[x.tags[n].index])] else []
  }

  lemma {:induction false} PlainOutOfShards(out: seq<R.Emission>, es: seq<R.Emission>)
    requires forall e :: e in es ==> e.seqNo != 0
    ensures PlainOut(out + es) == PlainOut(out)
  {
    if es == [] {
      assert out + es == out;
    } else {
      var n := |es| - 1;
      assert (out + es)[..|out| + n] == out + es[..n];
      assert es[n] in es;
      PlainOutOfShards(out, es[..n]);
    }
  }

  lemma {:induction false} PlainDeliveredStable(x: Tx, y: Tx, deliveries: seq<nat>)
    requires Grows(x, y) && forall i :: 0 <= i < |deliveries| ==>
               deliveries[i] < |x.tags| && TagOk(x.ledger, x.plain, x.tags[deliveries[i]])
    ensures PlainDelivered(y, deliveries) == PlainDelivered(x, deliveries)
  {
    if deliveries != [] {
      PlainDeliveredStable(x, y, deliveries[..|deliveries| - 1]);
    }
  }

  lemma PlainOutSnoc(out: seq<R.Emission>, e: R.Emission)
    ensures PlainOut(out + [e]) == if e.seqNo == 0 then PlainOut(out) + [e.payload] else PlainOut(out)
  {
    assert (out + [e])[..|out|] == out;
  }

  lemma PlainDeliveredSnoc(x: Tx, deliveries: seq<nat>, n: nat)
    requires n < |x.tags| && (x.tags[n].Plain? ==> x.tags[n].index < |x.plain|)
    ensures PlainDelivered(x, deliveries + [n])
         == if x.tags[n].Plain? then PlainDelivered(x, deliveries) + [R.ReadPart(x.plain[x.tags[n].index])]
            else PlainDelivered(x, deliveries)
  {
    assert (deliveries + [n])[..|deliveries|] == deliveries;
  }

  lemma {:induction false} PlainStep(s: Scheme, x: Session, n: nat)
    requires Inv(s, x) && |x.tx.ledger| <= SEQ_CYCLE && n < |x.tx.wire|
    requires PlainOut(x.rx.out) == PlainDelivered(x.tx, x.deliveries)
    ensures var y := Step(s, x, Deliver(n)); PlainOut(y.rx.out) == PlainDelivered(y.tx, y.deliveries)
  {
    hide R.Receive, Answer, TxIdle, RxInv, PlainOut, PlainDelivered, R.ReadPart, Short, Flatten;
    HistoryLines(s, x);
    PlainDeliveredSnoc(x.tx, x.deliveries, n);
    if x.tx.tags[n].Plain? {
      DeliverPlainShape(s, x, n);
      PlainOutSnoc(x.rx.out, R.Emission(0, 0, R.ReadPart(x.tx.plain[x.tx.tags[n].index])));
    } else {
      var k := x.tx.tags[n].chunk;
      DeliverShardKeeps(s, x, n, k);
      ShardsAreNotPlain(s, x, n, k);
      PlainOutOfShards(x.rx.out, Answer(s, x, k, ShardId(x.tx.ledger, x.tx.tags[n])));
    }
  }

  lemma {:induction false} ShardsAreNotPlain(s: Scheme, x: Session, n: nat, k: nat)
    requires Inv(s, x) && n < |x.tx.wire| && OfChunk(x.tx.tags[n], k) && k < |x.tx.ledger|
    ensures forall e :: e in Answer(s, x, k, ShardId(x.tx.ledger, x.tx.tags[n])) ==> e.seqNo != 0
  {
    var y := Step(s, x, Deliver(n));
    HolderOfChunk(s, x, k);
    ArrivedGrows(x, y, n, k);
    ArrivedIssued(s, y, k);
    if !R.HolderOf(x.rx, SeqOf(k)).doneAll {
      R.AcceptAnswers(s, SeqOf(k), x.tx.ledger[k].payloads, Arrived(x, k), R.HolderOf(x.rx, SeqOf(k)),
                      Emitted(x.rx.out, SeqOf(k)), ShardId(x.tx.ledger, x.tx.tags[n]));
    }
  }

  /** Unprotected payloads come out once per delivery, in the order of delivery. */
  lemma {:induction false} PlainTrafficPassesThrough(s: Scheme, events: seq<Event>)
    requires Lawful(s) && Admissible(events) && |Run(s, events).tx.ledger| <= SEQ_CYCLE
    ensures var x := Run(s, events); PlainOut(x.rx.out) == PlainDelivered(x.tx, x.deliveries)
  {
    hide Inv, OnPacket, OnEpoch, R.Receive, Grows;
    if events != [] {
      var n := |events| - 1;
      var x, e := Run(s, events[..n]), events[n];
      LedgerNeverShrinks(s, x, e);
      RunKeeps(s, events[..n]);
      StepKeeps(s, x, e);
      HistoryLines(s, x);
      PlainTrafficPassesThrough(s, events[..n]);
      if e.Deliver? {
        if e.index < |x.tx.wire| {
          PlainStep(s, x, e.index);
        }
      } else {
        PlainDeliveredStable(x.tx, Step(s, x, e).tx, x.deliveries);
      }
    }
  }
}
