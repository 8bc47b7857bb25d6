/**
  What every step of the sender keeps: the ring mirrors the newest chunks of the ledger, every datagram on
  the wire is the shard its tag names, no shard is sent twice, and no step panics.
 */
module SenderInvariant {
  import opened Bytes
  import opened ErasureCode
  import opened Facility
  import opened Sender
  import opened Chunk
  import EpochBudget

  const SEQ_CYCLE := 0xFFFF_FFFF

  /** The sequence number of the k-th chunk: it cycles through 1 .. 2^32 - 1 and never is 0. */
  function SeqOf(k: nat): (n: nat)
    ensures 1 <= n < 0x1_0000_0000
  {
    k % SEQ_CYCLE + 1
  }

  lemma NextSeqFollows(k: nat)
    ensures NextSeq(SeqOf(k)) == SeqOf(k + 1)
  {
  }

  /** Two chunks share a sequence number only if a whole cycle lies between them. */
  lemma SeqOfInjective(j: nat, k: nat)
    requires j < k < j + SEQ_CYCLE
    ensures SeqOf(j) != SeqOf(k)
  {
  }

  // ---------- Invariant ----------

  ghost predicate ClosedChunk(s: Scheme, c: ChunkLog) {
    && Closable(s, c.payloads) && |c.payloads| <= MAX_DATA
    && 1 <= c.parity <= ParitySum(s, |c.payloads|)
  }

  ghost predicate OpenChunk(c: ChunkLog) {
    |c.payloads| <= MAX_DATA && c.parity == 0
  }

  ghost predicate LedgerOk(s: Scheme, ledger: seq<ChunkLog>) {
    && Lawful(s) && ledger != [] && OpenChunk(ledger[|ledger| - 1])
    && forall k :: 0 <= k < |ledger| - 1 ==> ClosedChunk(s, ledger[k])
  }

  ghost predicate FillingSlot(slot: Slot, c: ChunkLog, seqNo: nat, epoch: nat) {
    && slot.ef == Some(Open(c.payloads)) && !slot.enabled
    && slot.dataShardWithin == |c.payloads|
    && (c.payloads != [] ==> slot.seqNo == seqNo && slot.initialEpoch <= epoch)
  }

  /** A slot that drains: it never has sent more than its schedule released. */
  ghost predicate DrainingSlot(s: Scheme, slot: Slot, c: ChunkLog, seqNo: nat, epoch: nat) {
    && ClosedChunk(s, c)
    && slot.ef == Some(Closed(s, c.payloads, c.parity))
    && slot.enabled == (c.parity < ParitySum(s, |c.payloads|))
    && slot.seqNo == seqNo && slot.initialEpoch <= epoch
    && slot.initialRemain == ParitySum(s, |c.payloads|) - 1
    && c.parity - 1 <= Schedule(slot, epoch)
  }

  ghost predicate SlotOk(s: Scheme, x: Tx, i: nat)
    requires i < |x.ring|
  {
    var k := ChunkAt(x, i);
    if k < 0 then !x.ring[i].enabled
    else k < |x.ledger| && DrainingSlot(s, x.ring[i], x.ledger[k], SeqOf(k), x.epoch)
  }

  ghost predicate RingOk(s: Scheme, x: Tx) {
    && Intact(x)
    && x.nextSeq == SeqOf(|x.ledger| - 1)
    && FillingSlot(x.ring[x.cur], x.ledger[|x.ledger| - 1], x.nextSeq, x.epoch)
    && forall i :: 0 <= i < RING && i != x.cur ==> SlotOk(s, x, i)
  }

  /** The tag names a shard that the ledger says has been sent. */
  ghost predicate TagOk(ledger: seq<ChunkLog>, plain: seq<bytes>, tag: Tag) {
    match tag
    case Data(k, j) => k < |ledger| && j < |ledger[k].payloads|
    case Parity(k, j) => k < |ledger| && j < ledger[k].parity
    case Plain(j) => j < |plain|
  }

  predicate Encoded(s: Scheme, payloads: seq<bytes>, j: nat) {
    InTable(s, |payloads|) && |payloads| <= MAX_DATA && j < |ParityShards(s, payloads)|
  }

  function ParityDatagram(s: Scheme, k: nat, payloads: seq<bytes>, j: nat): bytes
    requires Encoded(s, payloads, j)
  {
    PackPacket(SeqOf(k), |payloads| + j, ParityBody(s, payloads, j))
  }

  /** The datagram of a tagged shard. */
  function Render(s: Scheme, ledger: seq<ChunkLog>, plain: seq<bytes>, tag: Tag): bytes {
    match tag
    case Data(k, j) =>
      if k < |ledger| && j < |ledger[k].payloads| then PackPacket(SeqOf(k), j, Wrap(ledger[k].payloads[j])) else []
    case Parity(k, j) =>
      if k < |ledger| && Encoded(s, ledger[k].payloads, j) then ParityDatagram(s, k, ledger[k].payloads, j) else []
    case Plain(j) => if j < |plain| then PackPacket(0, 0, plain[j]) else []
  }

  ghost predicate WireOk(s: Scheme, x: Tx) {
    && |x.wire| == |x.tags|
    && (forall i :: 0 <= i < |x.tags| ==> TagOk(x.ledger, x.plain, x.tags[i]))
    && (forall i :: 0 <= i < |x.tags| ==> x.wire[i] == Render(s, x.ledger, x.plain, x.tags[i]))
    && (forall i, j :: 0 <= i < j < |x.tags| ==> x.tags[i] != x.tags[j])
  }

  ghost predicate TxInv(s: Scheme, x: Tx) {
    RingOk(s, x) && LedgerOk(s, x.ledger) && WireOk(s, x)
  }

  /** Between two events the current chunk still has room. */
  ghost predicate TxIdle(s: Scheme, x: Tx) {
    TxInv(s, x) && |x.ledger[|x.ledger| - 1].payloads| < MAX_DATA
  }

  // ---------- Preservation ----------

  lemma InitIdle(s: Scheme)
    requires Lawful(s)
    ensures TxIdle(s, Init())
  {
    assert Open([]) == FRESH;
  }

  /** A ledger that only grew at its last chunk leaves every old shard as it was. */
  ghost predicate Extends(old_: seq<ChunkLog>, new_: seq<ChunkLog>) {
    && |old_| <= |new_|
    && forall k :: 0 <= k < |old_| ==>
         && old_[k].payloads <= new_[k].payloads
         && old_[k].parity <= new_[k].parity
         && (old_[k].parity > 0 ==> old_[k].payloads == new_[k].payloads)
  }

  lemma RenderStable(
    s: Scheme, old_: seq<ChunkLog>, new_: seq<ChunkLog>, plain: seq<bytes>, plain': seq<bytes>, tag: Tag)
    requires Extends(old_, new_) && plain <= plain' && TagOk(old_, plain, tag)
    ensures TagOk(new_, plain', tag) && Render(s, new_, plain', tag) == Render(s, old_, plain, tag)
  {
  }

  /** Appending one datagram whose tag is new. */
  lemma WireGrows(s: Scheme, x: Tx, y: Tx, tag: Tag)
    requires WireOk(s, x) && Extends(x.ledger, y.ledger) && x.plain <= y.plain
    requires y.wire == x.wire + [Render(s, y.ledger, y.plain, tag)] && y.tags == x.tags + [tag]
    requires TagOk(y.ledger, y.plain, tag) && !TagOk(x.ledger, x.plain, tag)
    ensures WireOk(s, y)
  {
    forall i | 0 <= i < |x.tags|
      ensures TagOk(y.ledger, y.plain, x.tags[i]) && Render(s, y.ledger, y.plain, x.tags[i]) == x.wire[i]
      ensures x.tags[i] != tag
    {
      RenderStable(s, x.ledger, y.ledger, x.plain, y.plain, x.tags[i]);
    }
  }

  /** A slot whose chunk and whose clock did not change is still in order. */
  lemma SlotFramed(s: Scheme, x: Tx, y: Tx, i: nat)
    requires i < |x.ring| && i < |y.ring| && SlotOk(s, x, i)
    requires y.ring[i] == x.ring[i] && ChunkAt(y, i) == ChunkAt(x, i) && y.epoch == x.epoch
    requires ChunkAt(x, i) >= 0 ==> ChunkAt(x, i) < |y.ledger| && y.ledger[ChunkAt(x, i)] == x.ledger[ChunkAt(x, i)]
    ensures SlotOk(s, y, i)
  {
  }

  lemma PlainKeeps(s: Scheme, x: Tx, payload: bytes)
    requires TxInv(s, x)
    ensures TxInv(s, SendPlain(x, payload))
  {
    var y := SendPlain(x, payload);
    WireGrows(s, x, y, Plain(|x.plain|));
    forall i | 0 <= i < RING && i != y.cur ensures SlotOk(s, y, i) {
      SlotFramed(s, x, y, i);
    }
  }

  lemma AddPacketRing(s: Scheme, x: Tx, payload: bytes)
    requires RingOk(s, x)
    ensures RingOk(s, AddPacket(x, payload))
  {
    var y := AddPacket(x, payload);
    AddDataToOpen(x.ledger[|x.ledger| - 1].payloads, payload);
    forall i | 0 <= i < RING && i != y.cur ensures SlotOk(s, y, i) {
      SlotFramed(s, x, y, i);
    }
  }

  /** What a packet does to the sender's history. */
  lemma AddPacketWrites(s: Scheme, x: Tx, payload: bytes)
    requires RingOk(s, x)
    ensures var y, last := AddPacket(x, payload), |x.ledger| - 1;
            var payloads := x.ledger[last].payloads;
            && y.wire == x.wire + [PackPacket(SeqOf(last), |payloads|, Wrap(payload))]
            && y.tags == x.tags + [Data(last, |payloads|)] && y.plain == x.plain
            && y.ledger == x.ledger[last := x.ledger[last].(payloads := payloads + [payload])]
  {
    AddDataToOpen(x.ledger[|x.ledger| - 1].payloads, payload);
    hide PackPacket, SeqOf, SlotOk, AddData, Open, Wrap;
  }

  /** One more payload in the last chunk leaves what was there, and its shard is the new datagram. */
  lemma AddedShard(s: Scheme, ledger: seq<ChunkLog>, plain: seq<bytes>, payload: bytes)
    requires ledger != [] && ledger[|ledger| - 1].parity == 0
    ensures var last := |ledger| - 1;
            var n := |ledger[last].payloads|;
            var more := ledger[last := ledger[last].(payloads := ledger[last].payloads + [payload])];
            && Extends(ledger, more) && TagOk(more, plain, Data(last, n)) && !TagOk(ledger, plain, Data(last, n))
            && Render(s, more, plain, Data(last, n)) == PackPacket(SeqOf(last), n, Wrap(payload))
  {
    hide PackPacket, SeqOf, Wrap;
  }

  lemma AddPacketWire(s: Scheme, x: Tx, payload: bytes)
    requires RingOk(s, x) && WireOk(s, x) && x.ledger[|x.ledger| - 1].parity == 0
    requires |x.ledger[|x.ledger| - 1].payloads| < MAX_DATA
    ensures WireOk(s, AddPacket(x, payload))
  {
    AddPacketWrites(s, x, payload);
    AddedShard(s, x.ledger, x.plain, payload);
    hide PackPacket, SeqOf, RingOk, WireOk, AddPacket, TagOk, Render, Extends, Wrap;
    WireGrows(s, x, AddPacket(x, payload), Data(|x.ledger| - 1, |x.ledger[|x.ledger| - 1].payloads|));
  }

  lemma AddPacketKeeps(s: Scheme, x: Tx, payload: bytes)
    requires TxIdle(s, x)
    ensures TxInv(s, AddPacket(x, payload))
  {
    AddPacketRing(s, x, payload);
    AddPacketWire(s, x, payload);
  }

  /** A chunk of at least one payload can be closed. */
  lemma CurrentIsClosable(s: Scheme, x: Tx)
    requires TxInv(s, x) && x.ledger[|x.ledger| - 1].payloads != []
    ensures Closable(s, x.ledger[|x.ledger| - 1].payloads)
  {
  }

  /** The slot of a chunk that has just been closed. */
  function JustClosed(s: Scheme, slot: Slot, payloads: seq<bytes>): Slot
    requires InTable(s, |payloads|)
  {
    slot.(ef := Some(Closed(s, payloads, 1)), enabled := 1 < ParitySum(s, |payloads|),
          initialRemain := ParitySum(s, |payloads|) - 1)
  }

  /** What closing the current chunk does, told with the ledger. */
  ghost predicate Finished(s: Scheme, x: Tx, y: Tx, last: nat)
    requires Intact(x) && last == |x.ledger| - 1 && Encoded(s, x.ledger[last].payloads, 0)
  {
    && !y.crashed && y.epoch == x.epoch && y.plain == x.plain
    && y.cur == (if x.cur + 1 == RING then 0 else x.cur + 1)
    && y.ring == x.ring[x.cur := JustClosed(s, x.ring[x.cur], x.ledger[last].payloads)][y.cur := FRESH_SLOT]
    && y.nextSeq == NextSeq(x.nextSeq)
    && y.ledger == x.ledger[last := x.ledger[last].(parity := 1)] + [ChunkLog([], 0)]
    && y.tags == x.tags + [Parity(last, 0)]
    && y.wire == x.wire + [ParityDatagram(s, last, x.ledger[last].payloads, 0)]
  }

  /** The next answer of a facility that holds a chunk. */
  ghost predicate Yields(s: Scheme, f: State, payloads: seq<bytes>, n: nat) {
    && Encoded(s, payloads, n) && CanConstruct(s, f)
    && Construct(s, f) == (Closed(s, payloads, n + 1), |payloads| + n, ParityBody(s, payloads, n),
                           n + 1 < ParitySum(s, |payloads|))
  }

  lemma FinishShape(s: Scheme, x: Tx, c: ChunkLog, last: nat)
    requires Intact(x) && last == |x.ledger| - 1 && c == x.ledger[last] && c.parity == 0
    requires x.ring[x.cur].ef.Some? && Yields(s, x.ring[x.cur].ef.value, c.payloads, 0)
    requires x.nextSeq == SeqOf(last)
    ensures Finished(s, x, Finish(s, x), last)
  {
    hide Construct, CanConstruct, ParityBody, PackPacket, SeqOf;
  }

  lemma JustClosedDrains(s: Scheme, slot: Slot, c: ChunkLog, seqNo: nat, epoch: nat)
    requires FillingSlot(slot, c, seqNo, epoch) && OpenChunk(c) && Closable(s, c.payloads)
    ensures DrainingSlot(s, JustClosed(s, slot, c.payloads), c.(parity := 1), seqNo, epoch)
  {
    EpochBudget.ScheduleGrows(JustClosed(s, slot, c.payloads), epoch);
  }

  lemma {:induction false} FinishRing(s: Scheme, x: Tx, y: Tx, last: nat)
    requires RingOk(s, x) && last == |x.ledger| - 1
    requires OpenChunk(x.ledger[last]) && Closable(s, x.ledger[last].payloads)
    requires Encoded(s, x.ledger[last].payloads, 0) && Finished(s, x, y, last)
    ensures RingOk(s, y)
  {
    assert DrainingSlot(s, y.ring[x.cur], y.ledger[last], SeqOf(last), y.epoch) by {
      JustClosedDrains(s, x.ring[x.cur], x.ledger[last], SeqOf(last), x.epoch);
    }
    NextSeqFollows(last);
    assert Open([]) == FRESH;
    forall i | 0 <= i < RING && i != y.cur ensures SlotOk(s, y, i) {
      if i == x.cur {
        assert ChunkAt(y, i) == last;
      } else {
        SlotFramed(s, x, y, i);
      }
    }
  }

  lemma FinishedLedger(s: Scheme, x: Tx, y: Tx, last: nat)
    requires Intact(x) && last == |x.ledger| - 1 && LedgerOk(s, x.ledger)
    requires Closable(s, x.ledger[last].payloads) && Encoded(s, x.ledger[last].payloads, 0) && Finished(s, x, y, last)
    ensures LedgerOk(s, y.ledger) && y.ledger[|y.ledger| - 1].payloads == []
  {
  }

  lemma {:induction false} FinishedWire(s: Scheme, x: Tx, y: Tx, last: nat)
    requires Intact(x) && last == |x.ledger| - 1 && OpenChunk(x.ledger[last]) && WireOk(s, x)
    requires Closable(s, x.ledger[last].payloads) && Encoded(s, x.ledger[last].payloads, 0) && Finished(s, x, y, last)
    ensures WireOk(s, y)
  {
    WireGrows(s, x, y, Parity(last, 0));
  }

  lemma FinishDoes(s: Scheme, x: Tx, last: nat)
    requires TxInv(s, x) && last == |x.ledger| - 1 && x.ledger[last].payloads != []
    ensures OpenChunk(x.ledger[last]) && Closable(s, x.ledger[last].payloads) && Encoded(s, x.ledger[last].payloads, 0)
    ensures Finished(s, x, Finish(s, x), last)
  {
    hide SlotOk, Finish, Finished, WireOk, SeqOf, Lawful, Open, Closed, Construct, CanConstruct;
    CurrentIsClosable(s, x);
    TableFits(s, |x.ledger[last].payloads|);
    ConstructYieldsParity(s, x.ledger[last].payloads, 0);
    FinishShape(s, x, x.ledger[last], last);
  }

  /** Closing the current chunk sends its first parity shard and begins an empty chunk. */
  lemma {:induction false} FinishKeeps(s: Scheme, x: Tx)
    requires TxInv(s, x) && x.ledger[|x.ledger| - 1].payloads != []
    ensures TxIdle(s, Finish(s, x))
  {
    hide RingOk, WireOk, LedgerOk, Finish, Finished, OpenChunk, Closable, Encoded;
    var last := |x.ledger| - 1;
    assert Intact(x) by {
      TxInvIntact(s, x);
    }
    FinishDoes(s, x, last);
    var y := Finish(s, x);
    FinishRing(s, x, y, last);
    FinishedWire(s, x, y, last);
    FinishedLedger(s, x, y, last);
  }

  lemma TxInvIntact(s: Scheme, x: Tx)
    requires RingOk(s, x)
    ensures Intact(x)
  {
  }

  // ---------- Draining ----------

  /** Every slot's budget can be read and is not negative. */
  lemma BudgetsReadable(s: Scheme, x: Tx)
    requires RingOk(s, x)
    ensures AllReadable(s, x.ring)
    ensures forall i :: 0 <= i < RING ==> Headroom(s, x.ring[i], x.epoch) >= 0
  {
    forall i | 0 <= i < RING ensures Readable(s, x.ring[i]) && Headroom(s, x.ring[i], x.epoch) >= 0 {
      assert i != x.cur ==> SlotOk(s, x, i);
    }
  }

  /** What one more parity shard of slot `i`, which holds chunk `k`, does. */
  ghost predicate Drained(s: Scheme, x: Tx, y: Tx, i: nat, k: nat)
    requires i < |x.ring| && k < |x.ledger| && Encoded(s, x.ledger[k].payloads, x.ledger[k].parity)
  {
    var c := x.ledger[k];
    && y.ring == x.ring[i := x.ring[i].(ef := Some(Closed(s, c.payloads, c.parity + 1)),
                                        enabled := c.parity + 1 < ParitySum(s, |c.payloads|))]
    && y.ledger == x.ledger[k := c.(parity := c.parity + 1)]
    && y.tags == x.tags + [Parity(k, c.parity)]
    && y.wire == x.wire + [ParityDatagram(s, k, c.payloads, c.parity)]
    && y.cur == x.cur && y.nextSeq == x.nextSeq && y.epoch == x.epoch && y.sentThisEpoch == x.sentThisEpoch
    && y.plain == x.plain && !y.crashed
  }

  lemma SendFecShape(s: Scheme, x: Tx, i: nat, k: nat)
    requires Intact(x) && i < RING && k < |x.ledger| && k == ChunkAt(x, i)
    requires x.ring[i].ef.Some? && x.ring[i].seqNo == SeqOf(k)
    requires Yields(s, x.ring[i].ef.value, x.ledger[k].payloads, x.ledger[k].parity)
    ensures Drained(s, x, SendFec(s, x, i), i, k)
  {
    hide Construct, Closed, CanConstruct, ParityBody, PackPacket, SeqOf;
  }

  lemma {:induction false} DrainedRing(s: Scheme, x: Tx, y: Tx, i: nat, k: nat)
    requires RingOk(s, x) && i < RING && k < |x.ledger| - 1 && k == ChunkAt(x, i) && i != x.cur
    requires DrainingSlot(s, x.ring[i], x.ledger[k], SeqOf(k), x.epoch) && x.ring[i].enabled
    requires x.ledger[k].parity <= Schedule(x.ring[i], x.epoch)
    requires Encoded(s, x.ledger[k].payloads, x.ledger[k].parity) && Drained(s, x, y, i, k)
    ensures RingOk(s, y)
    ensures Readable(s, x.ring[i]) && Readable(s, y.ring[i])
    ensures Headroom(s, y.ring[i], y.epoch) == Headroom(s, x.ring[i], x.epoch) - 1
  {
    assert Schedule(y.ring[i], y.epoch) == Schedule(x.ring[i], x.epoch);
    assert DrainingSlot(s, y.ring[i], y.ledger[k], SeqOf(k), y.epoch);
    forall j | 0 <= j < RING && j != y.cur ensures SlotOk(s, y, j) {
      if j != i {
        SlotFramed(s, x, y, j);
      }
    }
  }

  lemma DrainedLedger(s: Scheme, x: Tx, y: Tx, i: nat, k: nat)
    requires LedgerOk(s, x.ledger) && i < |x.ring| && k < |x.ledger| - 1
    requires x.ledger[k].parity < ParitySum(s, |x.ledger[k].payloads|)
    requires Encoded(s, x.ledger[k].payloads, x.ledger[k].parity) && Drained(s, x, y, i, k)
    ensures LedgerOk(s, y.ledger)
  {
  }

  lemma HeadroomMeansDraining(s: Scheme, x: Tx, i: nat) returns (k: nat)
    requires RingOk(s, x) && i < RING && Readable(s, x.ring[i]) && Headroom(s, x.ring[i], x.epoch) > 0
    ensures i != x.cur && k == ChunkAt(x, i) && k < |x.ledger| - 1
    ensures DrainingSlot(s, x.ring[i], x.ledger[k], SeqOf(k), x.epoch) && x.ring[i].enabled
    ensures x.ledger[k].parity <= Schedule(x.ring[i], x.epoch)
  {
    assert i != x.cur ==> SlotOk(s, x, i);
    k := ChunkAt(x, i);
  }

  lemma DrainedWire(s: Scheme, x: Tx, y: Tx, i: nat, k: nat)
    requires WireOk(s, x) && i < |x.ring| && k < |x.ledger| && ClosedChunk(s, x.ledger[k])
    requires x.ledger[k].parity < ParitySum(s, |x.ledger[k].payloads|)
    requires Encoded(s, x.ledger[k].payloads, x.ledger[k].parity) && Drained(s, x, y, i, k)
    ensures WireOk(s, y)
  {
    WireGrows(s, x, y, Parity(k, x.ledger[k].parity));
  }

  /** As long as a slot has headroom, sending one of its parity shards is safe and uses up one unit of it. */
  lemma SendFecKeeps(s: Scheme, x: Tx, i: nat)
    requires TxInv(s, x) && i < RING && Readable(s, x.ring[i]) && Headroom(s, x.ring[i], x.epoch) > 0
    ensures var y := SendFec(s, x, i);
            && TxInv(s, y) && y.cur == x.cur && y.epoch == x.epoch && |y.ledger| == |x.ledger|
            && y.ledger[|y.ledger| - 1] == x.ledger[|x.ledger| - 1]
            && Readable(s, y.ring[i]) && Headroom(s, y.ring[i], y.epoch) == Headroom(s, x.ring[i], x.epoch) - 1
            && forall j :: 0 <= j < RING && j != i ==> y.ring[j] == x.ring[j]
  {
    var k := HeadroomMeansDraining(s, x, i);
    var y := SendFec(s, x, i);
    ConstructYieldsParity(s, x.ledger[k].payloads, x.ledger[k].parity);
    SendFecShape(s, x, i, k);
    DrainedRing(s, x, y, i, k);
    DrainedLedger(s, x, y, i, k);
    DrainedWire(s, x, y, i, k);
  }

  lemma {:induction false} SendAllWrites(s: Scheme, x: Tx, order: seq<nat>)
    requires Intact(x) && !SendAll(s, x, order).crashed
    ensures |SendAll(s, x, order).wire| == |x.wire| + |order| && Intact(SendAll(s, x, order))
  {
    hide SendFec;
    if order != [] {
      var n := |order| - 1;
      SendFecWrites(s, SendAll(s, x, order[..n]), order[n]);
      SendAllWrites(s, x, order[..n]);
    }
  }

  lemma SendFecWrites(s: Scheme, x: Tx, i: nat)
    ensures x.crashed ==> SendFec(s, x, i).crashed
    ensures Intact(x) && !SendFec(s, x, i).crashed ==>
              Intact(SendFec(s, x, i)) && |SendFec(s, x, i).wire| == |x.wire| + 1
  {
    hide PackPacket, Construct, CanConstruct;
  }

  ghost predicate WithinBudget(s: Scheme, x: Tx, order: seq<nat>)
    requires |x.ring| == RING && AllReadable(s, x.ring)
  {
    forall i: nat :: multiset(order)[i] <= if i < RING then Headroom(s, x.ring[i], x.epoch) else 0
  }

  /** A send order within every slot's budget is safe from beginning to end. */
  lemma {:induction false} SendAllKeeps(s: Scheme, x: Tx, order: seq<nat>)
    requires TxInv(s, x) && AllReadable(s, x.ring) && WithinBudget(s, x, order)
    ensures var y := SendAll(s, x, order);
            && TxInv(s, y) && y.cur == x.cur && y.epoch == x.epoch && |y.ledger| == |x.ledger|
            && y.ledger[|y.ledger| - 1] == x.ledger[|x.ledger| - 1]
            && AllReadable(s, y.ring)
            && forall i :: 0 <= i < RING ==>
                 Headroom(s, y.ring[i], y.epoch) == Headroom(s, x.ring[i], x.epoch) - multiset(order)[i]
  {
    hide LedgerOk, WireOk, SlotOk, FillingSlot, Headroom, SendFec;
    if order != [] {
      var n := |order| - 1;
      var init: seq<nat> := order[..n];
      var i: nat := order[n];
      assert order == init + [i];
      BudgetsReadable(s, x);
      assert WithinBudget(s, x, init);
      SendAllKeeps(s, x, init);
      assert multiset(order)[i] == multiset(init)[i] + 1;
      var y := SendAll(s, x, init);
      SendFecKeeps(s, y, i);
      var z := SendFec(s, y, i);
      forall j: nat | 0 <= j < RING
        ensures Readable(s, z.ring[j])
        ensures Headroom(s, z.ring[j], z.epoch) == Headroom(s, x.ring[j], x.epoch) - multiset(order)[j]
      {
        assert j != i ==> z.ring[j] == y.ring[j];
        assert j != i ==> multiset(order)[j] == multiset(init)[j];
      }
    }
  }

  /** The order an epoch sends in never asks a slot for more than it has. */
  lemma GuidanceWithinBudget(s: Scheme, x: Tx, quota: nat)
    requires |x.ring| == RING && AllReadable(s, x.ring) && quota > 0
    requires forall i :: 0 <= i < RING ==> Headroom(s, x.ring[i], x.epoch) >= 0
    ensures WithinBudget(s, x, RoundRobin(Guidance(s, x.ring, x.epoch, quota)))
  {
    EpochBudget.GuidanceIsBounded(s, x.ring, x.epoch, quota);
    var g := Guidance(s, x.ring, x.epoch, quota);
    forall i: nat ensures multiset(RoundRobin(g))[i] <= if i < RING then Headroom(s, x.ring[i], x.epoch) else 0 {
      EpochBudget.RoundRobinServes(g, i);
    }
  }

  lemma EpochEndKeeps(s: Scheme, x: Tx)
    requires TxInv(s, x)
    ensures TxInv(s, x.(epoch := x.epoch + 1, sentThisEpoch := 0))
  {
    var y := x.(epoch := x.epoch + 1, sentThisEpoch := 0);
    forall i | 0 <= i < RING && i != y.cur ensures SlotOk(s, y, i) {
      assert SlotOk(s, x, i);
      if ChunkAt(x, i) >= 0 {
        EpochBudget.ScheduleGrows(x.ring[i], x.epoch);
      }
    }
  }

  lemma PacketKeeps(s: Scheme, x: Tx, payload: bytes, fecEnabled: bool)
    requires TxIdle(s, x)
    ensures TxIdle(s, OnPacket(s, x, payload, fecEnabled))
  {
    if fecEnabled {
      AddPacketKeeps(s, x, payload);
      var y := AddPacket(x, payload);
      if y.ring[y.cur].dataShardWithin >= MAX_DATA {
        FinishKeeps(s, y);
      }
    } else {
      PlainKeeps(s, x, payload);
    }
  }

  /** Draining is a send order within budget. */
  lemma {:induction false} DrainOrder(s: Scheme, x: Tx) returns (order: seq<nat>)
    requires |x.ring| == RING && AllReadable(s, x.ring)
    requires forall i :: 0 <= i < RING ==> Headroom(s, x.ring[i], x.epoch) >= 0
    ensures WithinBudget(s, x, order) && Drain(s, x) == SendAll(s, x, order)
  {
    hide RoundRobin, Guidance, Headroom, SendFec;
    var quota := SOFT_LIMIT - x.sentThisEpoch;
    if quota <= 0 {
      order := [];
    } else {
      GuidanceWithinBudget(s, x, quota);
      order := RoundRobin(Guidance(s, x.ring, x.epoch, quota));
    }
  }

  lemma {:induction false} DrainKeeps(s: Scheme, x: Tx)
    requires TxIdle(s, x)
    ensures TxIdle(s, Drain(s, x)) && |Drain(s, x).ledger| == |x.ledger|
  {
    BudgetsReadable(s, x);
    var order := DrainOrder(s, x);
    SendAllKeeps(s, x, order);
  }

  lemma FilledChunk(s: Scheme, x: Tx)
    requires TxIdle(s, x)
    ensures Intact(x) && (x.ring[x.cur].dataShardWithin != 0 ==> x.ledger[|x.ledger| - 1].payloads != [])
  {
    hide WireOk, LedgerOk, SlotOk;
  }

  lemma EpochEndIsIdle(s: Scheme, x: Tx)
    requires TxIdle(s, x)
    ensures TxIdle(s, x.(epoch := x.epoch + 1, sentThisEpoch := 0))
  {
    EpochEndKeeps(s, x);
    hide TxInv;
  }

  /** A chunk that holds data is closed when the epoch ends. */
  lemma {:induction false} FinishIfFilled(s: Scheme, x: Tx)
    requires TxIdle(s, x) && Intact(x)
    ensures TxIdle(s, if x.ring[x.cur].dataShardWithin != 0 then Finish(s, x) else x)
  {
    hide Finish, RingOk, WireOk, LedgerOk;
    FilledChunk(s, x);
    if x.ring[x.cur].dataShardWithin != 0 {
      FinishKeeps(s, x);
    }
  }

  lemma {:induction false} EpochKeeps(s: Scheme, x: Tx)
    requires TxIdle(s, x)
    ensures TxIdle(s, OnEpoch(s, x))
  {
    hide TxIdle, Finish, Drain;
    FilledChunk(s, x);
    FinishIfFilled(s, x);
    var y := if x.ring[x.cur].dataShardWithin != 0 then Finish(s, x) else x;
    DrainKeeps(s, y);
    EpochEndIsIdle(s, Drain(s, y));
  }
}
