/**
  The sender told by its events alone: which packets share a chunk, how old each chunk is, and how much parity has gone
  out for it. Nothing here looks at the ring of slots or at its schedule.
 */
module EpochTraffic {
  import opened Bytes
  import opened ErasureCode
  import opened Facility
  import opened Chunk
  import opened Sender
  import opened SenderInvariant
  import opened FecSession
  import opened FecTheorems
  import EpochBudget

  // ---------- What the events tell ----------

  /**
    `chunks` holds the packets of every chunk, the last one still open, `ages` the number of epoch timers since the
    last packet of each chunk, and `sent` the number of protected datagrams of this epoch before parity is drained.
   */
  datatype Told = Told(chunks: seq<seq<bytes>>, ages: seq<nat>, sent: nat)

  predicate WellTold(t: Told) {
    |t.chunks| == |t.ages| > 0
  }

  function Older(ages: seq<nat>): (r: seq<nat>)
    ensures |r| == |ages| && forall k :: 0 <= k < |r| ==> r[k] == ages[k] + 1
  {
    seq(|ages|, k requires 0 <= k < |ages| => ages[k] + 1)
  }

  /** The open chunk is closed with one parity shard. */
  function TellClose(t: Told): (r: Told)
    requires WellTold(t)
    ensures WellTold(r)
  {
    Told(t.chunks + [[]], t.ages + [0], t.sent + 1)
  }

  function TellPacket(t: Told, payload: bytes): (r: Told)
    requires WellTold(t)
    ensures WellTold(r)
  {
    var last := |t.chunks| - 1;
    Told(t.chunks[last := t.chunks[last] + [payload]], t.ages[last := 0], t.sent + 1)
  }

  /** A chunk is closed when it holds forty packets, and at the epoch timer when it holds any. */
  function TellOne(t: Told, e: Event): (r: Told)
    requires WellTold(t)
    ensures WellTold(r)
  {
    match e
    case Submit(payload, fecEnabled) =>
      if !fecEnabled then t
      else
        var u := TellPacket(t, payload);
        if |u.chunks[|u.chunks| - 1]| >= MAX_DATA then TellClose(u) else u
    case EpochTimer =>
      var u := if t.chunks[|t.chunks| - 1] != [] then TellClose(t) else t;
      Told(u.chunks, Older(u.ages), 0)
    case Deliver(_) => t
  }

  function Tell(events: seq<Event>): (t: Told)
    ensures WellTold(t)
  {
    if events == [] then Told([[]], [0], 0) else TellOne(Tell(events[..|events| - 1]), events[|events| - 1])
  }

  // ---------- The sender follows its events ----------

  ghost predicate SameChunks(x: Tx, t: Told) {
    && |x.ledger| == |t.chunks| == |t.ages| && x.sentThisEpoch == t.sent
    && forall k :: 0 <= k < |x.ledger| ==> x.ledger[k].payloads == t.chunks[k]
  }

  /** The slot of a chunk in the ring is the remainder of its number, and its clock started with its last packet. */
  ghost predicate SlotClock(x: Tx, t: Told, k: nat)
    requires k < |x.ledger| && |x.ring| == RING
  {
    |x.ledger| - RING <= k < |t.ages| && (k == |x.ledger| - 1 ==> x.ledger[k].payloads != []) ==>
      x.epoch == x.ring[k % RING].initialEpoch + t.ages[k]
  }

  ghost predicate Clocks(x: Tx, t: Told) {
    |x.ring| == RING && x.ledger != [] && x.cur == (|x.ledger| - 1) % RING
    && forall k :: 0 <= k < |x.ledger| ==> SlotClock(x, t, k)
  }

  /** How much parity may have gone out `n` timers after a chunk's last packet; `r` is what follows the first shard. */
  ghost predicate Paced(parity: nat, r: int, n: nat) {
    if n == 0 then parity <= 1 else 2 * RING * (parity - 1) <= 2 * (n - 1) * r + RING
  }

  ghost predicate PacedChunk(s: Scheme, c: ChunkLog, n: nat) {
    InTable(s, |c.payloads|) && Paced(c.parity, ParitySum(s, |c.payloads|) - 1, n)
  }

  ghost predicate AllPaced(s: Scheme, ledger: seq<ChunkLog>, ages: seq<nat>) {
    |ledger| == |ages| && forall k :: 0 <= k < |ledger| - 1 ==> PacedChunk(s, ledger[k], ages[k])
  }

  ghost predicate Follows(s: Scheme, x: Tx, t: Told) {
    SameChunks(x, t) && Clocks(x, t) && AllPaced(s, x.ledger, t.ages)
  }

  lemma StartFollows(s: Scheme)
    ensures Follows(s, Init(), Tell([]))
  {
  }

  // ---------- Packets ----------

  lemma AddPacketChanges(s: Scheme, x: Tx, payload: bytes)
    requires TxIdle(s, x)
    ensures var y, last := AddPacket(x, payload), |x.ledger| - 1;
            && !y.crashed && y.cur == x.cur < RING == |x.ring|
            && y.epoch == x.epoch && y.sentThisEpoch == x.sentThisEpoch + 1
            && y.ledger == x.ledger[last := x.ledger[last].(payloads := x.ledger[last].payloads + [payload])]
            && |y.ring| == RING && y.ring[x.cur].initialEpoch == x.epoch
            && y.ring[x.cur].dataShardWithin == |x.ledger[last].payloads| + 1
            && forall i :: 0 <= i < RING && i != x.cur ==> y.ring[i] == x.ring[i]
  {
    hide PackPacket, AddData, WireOk, LedgerOk, SlotOk;
  }

  lemma {:induction false} AddPacketFollows(s: Scheme, x: Tx, t: Told, payload: bytes)
    requires TxIdle(s, x) && Follows(s, x, t) && WellTold(t)
    ensures Follows(s, AddPacket(x, payload), TellPacket(t, payload))
  {
    AddPacketChanges(s, x, payload);
    hide TxIdle, AddPacket, PacedChunk;
    var y, u := AddPacket(x, payload), TellPacket(t, payload);
    forall k | 0 <= k < |y.ledger| ensures SlotClock(y, u, k) {
      assert SlotClock(x, t, k);
      if |x.ledger| - RING <= k < |x.ledger| - 1 {
        TurnsApart(k, |x.ledger| - 1);
      }
    }
  }

  lemma FinishChanges(s: Scheme, x: Tx)
    requires TxInv(s, x) && x.ledger[|x.ledger| - 1].payloads != []
    ensures var y, last := Finish(s, x), |x.ledger| - 1;
            && !y.crashed && x.cur < RING == |x.ring| && y.cur == (if x.cur + 1 == RING then 0 else x.cur + 1)
            && y.epoch == x.epoch && y.sentThisEpoch == x.sentThisEpoch + 1
            && y.ledger == x.ledger[last := x.ledger[last].(parity := 1)] + [ChunkLog([], 0)]
            && |y.ring| == RING
            && forall i :: 0 <= i < RING && i != y.cur ==> y.ring[i].initialEpoch == x.ring[i].initialEpoch
    ensures InTable(s, |x.ledger[|x.ledger| - 1].payloads|) && ParitySum(s, |x.ledger[|x.ledger| - 1].payloads|) >= 1
  {
    hide RingOk, LedgerOk, WireOk, Finish, ParityDatagram, JustClosed, Lawful, NextSeq;
    TxInvIntact(s, x);
    FinishDoes(s, x, |x.ledger| - 1);
    TableFits(s, |x.ledger[|x.ledger| - 1].payloads|);
    FinishSends(s, x);
    SameClock(s, x.ring[x.cur], x.ledger[|x.ledger| - 1].payloads);
  }

  lemma SameClock(s: Scheme, slot: Slot, payloads: seq<bytes>)
    requires InTable(s, |payloads|)
    ensures JustClosed(s, slot, payloads).initialEpoch == slot.initialEpoch
  {
  }

  lemma FinishSends(s: Scheme, x: Tx)
    requires Intact(x) && !Finish(s, x).crashed
    ensures Finish(s, x).sentThisEpoch == x.sentThisEpoch + 1
  {
    hide PackPacket, Construct, CanConstruct;
  }

  lemma NextTurn(n: nat)
    ensures (n + 1) % RING == if n % RING + 1 == RING then 0 else n % RING + 1
  {
  }

  lemma TurnsApart(j: nat, k: nat)
    requires j < k < j + RING
    ensures j % RING != k % RING
  {
  }

  lemma {:induction false} FinishFollows(s: Scheme, x: Tx, t: Told)
    requires TxInv(s, x) && x.ledger[|x.ledger| - 1].payloads != [] && Follows(s, x, t) && WellTold(t)
    ensures Follows(s, Finish(s, x), TellClose(t))
  {
    hide TxInv, Finish, ParitySum, PacedChunk, Clocks;
    CurrentCount(s, x);
    FinishChanges(s, x);
    FinishPaces(s, x.ledger, t.ages, Finish(s, x).ledger);
    FinishClocks(s, x, t);
  }

  lemma {:induction false} FinishClocks(s: Scheme, x: Tx, t: Told)
    requires TxInv(s, x) && x.ledger[|x.ledger| - 1].payloads != [] && WellTold(t)
    requires Clocks(x, t) && |x.ledger| == |t.ages|
    ensures Clocks(Finish(s, x), TellClose(t))
  {
    hide TxInv, Finish, ParitySum;
    CurrentCount(s, x);
    FinishChanges(s, x);
    var y, u, last := Finish(s, x), TellClose(t), |x.ledger| - 1;
    NextTurn(last);
    forall k | 0 <= k < |y.ledger| ensures SlotClock(y, u, k) {
      if |y.ledger| - RING <= k <= last {
        assert SlotClock(x, t, k);
        TurnsApart(k, last + 1);
      }
    }
  }

  lemma {:induction false} FinishPaces(s: Scheme, ledger: seq<ChunkLog>, ages: seq<nat>, more: seq<ChunkLog>)
    requires ledger != [] && AllPaced(s, ledger, ages)
    requires InTable(s, |ledger[|ledger| - 1].payloads|) && ParitySum(s, |ledger[|ledger| - 1].payloads|) >= 1
    requires var last := |ledger| - 1; more == ledger[last := ledger[last].(parity := 1)] + [ChunkLog([], 0)]
    ensures AllPaced(s, more, ages + [0])
  {
    hide PacedChunk;
    forall k | 0 <= k < |more| - 1 ensures PacedChunk(s, more[k], (ages + [0])[k]) {
      if k == |ledger| - 1 {
        OneShardIsPaced(s, more[k], ages[k]);
      } else {
        assert PacedChunk(s, ledger[k], ages[k]);
      }
    }
  }

  lemma OneShardIsPaced(s: Scheme, c: ChunkLog, n: nat)
    requires InTable(s, |c.payloads|) && c.parity == 1 && ParitySum(s, |c.payloads|) >= 1
    ensures PacedChunk(s, c, n)
  {
    var r := ParitySum(s, |c.payloads|) - 1;
    if n > 0 {
      EpochBudget.MulMonotone(r, 0, n - 1);
      assert (n - 1) * r == r * (n - 1);
    }
  }

  // ---------- Which chunk a slot holds ----------

  /** The newest of `n` chunks whose number leaves remainder `i`; negative if there is none yet. */
  function NewestIn(n: nat, i: nat): int {
    n - 1 - (n - 1 - i) % RING
  }

  lemma SlotHoldsNewest(x: Tx, i: nat)
    requires x.ledger != [] && x.cur == (|x.ledger| - 1) % RING && i < RING
    ensures ChunkAt(x, i) == NewestIn(|x.ledger|, i) && ChunkAt(x, i) % RING == i
  {
  }

  lemma NewestAt(n: nat, k: nat)
    requires n - RING <= k < n
    ensures NewestIn(n, k % RING) == k
  {
  }

  // ---------- Draining ----------

  lemma {:induction false} SendFecDrains(s: Scheme, x: Tx, i: nat) returns (k: nat)
    requires TxInv(s, x) && i < RING && Readable(s, x.ring[i]) && Headroom(s, x.ring[i], x.epoch) > 0
    ensures i != x.cur && k == ChunkAt(x, i) && k < |x.ledger| - 1
    ensures Encoded(s, x.ledger[k].payloads, x.ledger[k].parity) && Drained(s, x, SendFec(s, x, i), i, k)
  {
    hide WireOk, LedgerOk, SlotOk, FillingSlot, Headroom, SendFec, Schedule, Construct, CanConstruct, Drained;
    k := HeadroomMeansDraining(s, x, i);
    ConstructYieldsParity(s, x.ledger[k].payloads, x.ledger[k].parity);
    SendFecShape(s, x, i, k);
  }

  /** What a send order does: every chunk in the ring gets as many shards as its slot is named. */
  ghost predicate Fed(x: Tx, y: Tx, order: seq<nat>) {
    && y.cur == x.cur && y.epoch == x.epoch && y.sentThisEpoch == x.sentThisEpoch && y.plain == x.plain
    && |y.ledger| == |x.ledger| && |y.ring| == |x.ring| == RING && |y.wire| == |x.wire| + |order|
    && (forall i :: 0 <= i < RING ==> y.ring[i].initialEpoch == x.ring[i].initialEpoch)
    && (forall k :: 0 <= k < |x.ledger| ==> y.ledger[k] == Gains(x.ledger, order, k))
  }

  ghost function Gains(ledger: seq<ChunkLog>, order: seq<nat>, k: nat): ChunkLog
    requires k < |ledger|
  {
    if k < |ledger| - RING then ledger[k]
    else ledger[k].(parity := ledger[k].parity + multiset(order)[k % RING])
  }

  lemma {:induction false} DrainedFeeds(s: Scheme, x: Tx, y: Tx, z: Tx, init: seq<nat>, i: nat, k: nat)
    requires Fed(x, y, init) && i < RING && x.cur < RING && k < |y.ledger|
    requires x.ledger != [] && x.cur == (|x.ledger| - 1) % RING && k == ChunkAt(y, i)
    requires Encoded(s, y.ledger[k].payloads, y.ledger[k].parity) && Drained(s, y, z, i, k)
    ensures Fed(x, z, init + [i])
  {
    hide Encoded, ParityDatagram, Closed;
    SlotHoldsNewest(y, i);
    forall m | 0 <= m < |x.ledger| ensures z.ledger[m] == Gains(x.ledger, init + [i], m) {
      if m >= |x.ledger| - RING {
        NewestAt(|x.ledger|, m);
        CountOne(init, i, m % RING);
      }
    }
  }

  lemma CountOne(init: seq<nat>, i: nat, j: nat)
    ensures multiset(init + [i])[j] == multiset(init)[j] + if i == j then 1 else 0
  {
  }

  lemma {:induction false} SendAllFeeds(s: Scheme, x: Tx, order: seq<nat>)
    requires TxInv(s, x) && AllReadable(s, x.ring) && WithinBudget(s, x, order)
    requires x.cur == (|x.ledger| - 1) % RING
    ensures Fed(x, SendAll(s, x, order), order)
  {
    hide LedgerOk, WireOk, SlotOk, FillingSlot, Headroom, SendFec, Fed, Drained, Encoded;
    if order == [] {
      NothingFed(x);
    } else {
      var n := |order| - 1;
      var init: seq<nat> := order[..n];
      var i: nat := order[n];
      assert order == init + [i];
      BudgetsReadable(s, x);
      CountOne(init, i, i);
      assert WithinBudget(s, x, init);
      SendAllKeeps(s, x, init);
      SendAllFeeds(s, x, init);
      var y := SendAll(s, x, init);
      var k := SendFecDrains(s, y, i);
      DrainedFeeds(s, x, y, SendFec(s, y, i), init, i, k);
    }
  }

  lemma NothingFed(x: Tx)
    requires |x.ring| == RING
    ensures Fed(x, x, [])
  {
  }

  lemma {:induction false} DrainFollows(s: Scheme, x: Tx, t: Told) returns (order: seq<nat>)
    requires TxIdle(s, x) && Follows(s, x, t)
    ensures SameChunks(Drain(s, x), t) && Clocks(Drain(s, x), t) && Fed(x, Drain(s, x), order)
    ensures x.sentThisEpoch >= SOFT_LIMIT ==> order == []
    ensures AllReadable(s, x.ring)
    ensures x.sentThisEpoch < SOFT_LIMIT ==>
              order == RoundRobin(Guidance(s, x.ring, x.epoch, SOFT_LIMIT - x.sentThisEpoch))
  {
    hide LedgerOk, WireOk, SlotOk, FillingSlot, Headroom, SendFec, RoundRobin, Guidance, PacedChunk;
    BudgetsReadable(s, x);
    var quota := SOFT_LIMIT - x.sentThisEpoch;
    if quota <= 0 {
      order := [];
      NothingFed(x);
    } else {
      order := RoundRobin(Guidance(s, x.ring, x.epoch, quota));
      GuidanceWithinBudget(s, x, quota);
      SendAllFeeds(s, x, order);
    }
    FedFollows(s, x, t, Drain(s, x), order);
  }

  lemma FedFollows(s: Scheme, x: Tx, t: Told, y: Tx, order: seq<nat>)
    requires Follows(s, x, t) && Fed(x, y, order)
    ensures SameChunks(y, t) && Clocks(y, t)
  {
    hide PacedChunk;
    forall k | 0 <= k < |y.ledger| ensures SlotClock(y, t, k) {
      assert SlotClock(x, t, k);
    }
  }

  /** The schedule of a slot, read with the age of its chunk. */
  lemma {:induction false} ScheduleIsPaced(s: Scheme, slot: Slot, c: ChunkLog, seqNo: nat, epoch: nat, age: nat)
    requires DrainingSlot(s, slot, c, seqNo, epoch) && epoch == slot.initialEpoch + age
    ensures PacedChunk(s, c, age + 1)
  {
    EpochBudget.ScheduleGrows(slot, epoch);
    hide Schedule, Closed, Paced;
    PaceArithmetic(c.parity, slot.initialRemain, age, age * slot.initialRemain, Schedule(slot, epoch));
  }

  lemma PaceArithmetic(parity: nat, r: int, age: nat, product: int, released: int)
    requires product == age * r && 2 * RING * released <= 2 * product + RING && parity - 1 <= released
    ensures Paced(parity, r, age + 1)
  {
    assert 2 * age * r == 2 * product;
  }

  lemma {:induction false} StaysPaced(s: Scheme, c: ChunkLog, age: nat)
    requires ClosedChunk(s, c) && PacedChunk(s, c, age)
    ensures PacedChunk(s, c, age + 1)
  {
    if age > 0 {
      var r := ParitySum(s, |c.payloads|) - 1;
      EpochBudget.MulMonotone(r, age - 1, age);
      assert age * r == r * age && (age - 1) * r == r * (age - 1);
    }
  }

  lemma {:induction false} ClosedSlot(s: Scheme, x: Tx, k: nat)
    requires TxInv(s, x) && x.cur == (|x.ledger| - 1) % RING && |x.ledger| - RING <= k < |x.ledger| - 1
    ensures k % RING < |x.ring| && DrainingSlot(s, x.ring[k % RING], x.ledger[k], SeqOf(k), x.epoch)
  {
    hide LedgerOk, WireOk, DrainingSlot, FillingSlot;
    NewestAt(|x.ledger|, k);
    TurnsApart(k, |x.ledger| - 1);
    SlotHoldsNewest(x, k % RING);
    assert SlotOk(s, x, k % RING);
  }

  lemma ClosedInLedger(s: Scheme, x: Tx, k: nat)
    requires TxInv(s, x) && k < |x.ledger| - 1
    ensures ClosedChunk(s, x.ledger[k])
  {
    hide RingOk, WireOk, ClosedChunk;
  }

  /** After draining, one timer later, no chunk is ahead of its pace. */
  lemma {:induction false} DrainedIsPaced(s: Scheme, x: Tx, t: Told, y: Tx, order: seq<nat>, k: nat)
    requires Follows(s, x, t) && WellTold(t) && Fed(x, y, order) && TxInv(s, y) && Clocks(y, t) && k < |y.ledger| - 1
    ensures PacedChunk(s, y.ledger[k], t.ages[k] + 1)
  {
    hide TxInv, PacedChunk, DrainingSlot, ClosedChunk;
    if k < |x.ledger| - RING {
      assert PacedChunk(s, x.ledger[k], t.ages[k]);
      ClosedInLedger(s, y, k);
      StaysPaced(s, y.ledger[k], t.ages[k]);
    } else {
      ClosedSlot(s, y, k);
      assert SlotClock(y, t, k);
      ScheduleIsPaced(s, y.ring[k % RING], y.ledger[k], SeqOf(k), y.epoch, t.ages[k]);
    }
  }

  lemma {:induction false} EndFollows(s: Scheme, x: Tx, t: Told, y: Tx, order: seq<nat>)
    requires Follows(s, x, t) && WellTold(t) && Fed(x, y, order) && TxInv(s, y)
    requires SameChunks(y, t) && Clocks(y, t)
    ensures Follows(s, y.(epoch := y.epoch + 1, sentThisEpoch := 0), Told(t.chunks, Older(t.ages), 0))
  {
    hide TxInv, PacedChunk, Fed;
    var z, u := y.(epoch := y.epoch + 1, sentThisEpoch := 0), Told(t.chunks, Older(t.ages), 0);
    forall k | 0 <= k < |z.ledger| ensures SlotClock(z, u, k) {
      assert SlotClock(y, t, k);
    }
    forall k | 0 <= k < |z.ledger| - 1 ensures PacedChunk(s, z.ledger[k], u.ages[k]) {
      DrainedIsPaced(s, x, t, y, order, k);
    }
  }

  // ---------- Whole events ----------

  lemma {:induction false} PacketFollows(s: Scheme, x: Tx, t: Told, payload: bytes, fecEnabled: bool)
    requires TxIdle(s, x) && Follows(s, x, t) && WellTold(t)
    ensures Follows(s, OnPacket(s, x, payload, fecEnabled), TellOne(t, Submit(payload, fecEnabled)))
  {
    hide PacedChunk, Finish, LedgerOk, WireOk, SlotOk, AddPacket;
    if fecEnabled {
      AddPacketChanges(s, x, payload);
      AddPacketKeeps(s, x, payload);
      AddPacketFollows(s, x, t, payload);
      var y := AddPacket(x, payload);
      if y.ring[y.cur].dataShardWithin >= MAX_DATA {
        FinishFollows(s, y, TellPacket(t, payload));
      }
    } else {
      PlainFollows(s, x, t, payload);
    }
  }

  lemma PlainFollows(s: Scheme, x: Tx, t: Told, payload: bytes)
    requires Follows(s, x, t)
    ensures Follows(s, SendPlain(x, payload), t)
  {
    hide PacedChunk, PackPacket;
    var y := SendPlain(x, payload);
    forall k | 0 <= k < |y.ledger| ensures SlotClock(y, t, k) {
      assert SlotClock(x, t, k);
    }
  }

  /** The chunk that holds data is closed before an epoch ends. */
  function Closing(t: Told): (u: Told)
    requires WellTold(t)
    ensures WellTold(u)
  {
    if t.chunks[|t.chunks| - 1] != [] then TellClose(t) else t
  }

  /** The sender when it begins to drain. */
  function AtDrain(s: Scheme, x: Tx): Tx
    requires Intact(x)
  {
    if x.ring[x.cur].dataShardWithin != 0 then Finish(s, x) else x
  }

  lemma CurrentCount(s: Scheme, x: Tx)
    requires TxInv(s, x)
    ensures Intact(x) && x.ring[x.cur].dataShardWithin == |x.ledger[|x.ledger| - 1].payloads|
  {
    hide LedgerOk, WireOk, SlotOk;
  }

  lemma {:induction false} ClosingFollows(s: Scheme, x: Tx, t: Told)
    requires TxIdle(s, x) && Follows(s, x, t) && WellTold(t)
    ensures Intact(x) && TxIdle(s, AtDrain(s, x)) && Follows(s, AtDrain(s, x), Closing(t))
  {
    CurrentCount(s, x);
    FinishIfFilled(s, x);
    hide PacedChunk, Finish, RingOk, LedgerOk, WireOk;
    if x.ring[x.cur].dataShardWithin != 0 {
      FinishFollows(s, x, t);
    }
  }

  lemma {:induction false} EpochFollows(s: Scheme, x: Tx, t: Told)
    requires TxIdle(s, x) && Follows(s, x, t) && WellTold(t)
    ensures Follows(s, OnEpoch(s, x), TellOne(t, EpochTimer))
  {
    hide TxIdle, Follows, Drain, Finish, Fed, SameChunks, Clocks, TellClose, RoundRobin, Guidance, AllReadable;
    ClosingFollows(s, x, t);
    var y := AtDrain(s, x);
    var order := DrainFollows(s, y, Closing(t));
    DrainKeeps(s, y);
    IdleHolds(s, Drain(s, y));
    EndFollows(s, y, Closing(t), Drain(s, y), order);
  }

  lemma {:induction false} RunFollows(s: Scheme, events: seq<Event>)
    requires Lawful(s)
    ensures Follows(s, Run(s, events).tx, Tell(events))
  {
    hide TxIdle, OnPacket, OnEpoch, Follows, TellOne;
    if events == [] {
      StartFollows(s);
    } else {
      var n := |events| - 1;
      var x, t := Run(s, events[..n]), Tell(events[..n]);
      SenderKeeps(s, events[..n]);
      RunFollows(s, events[..n]);
      match events[n]
      case Submit(payload, fecEnabled) => PacketFollows(s, x.tx, t, payload, fecEnabled);
      case EpochTimer => EpochFollows(s, x.tx, t);
      case Deliver(_) => TellDelivery(t, events[n]);
    }
  }

  lemma TellDelivery(t: Told, e: Event)
    requires WellTold(t) && e.Deliver?
    ensures TellOne(t, e) == t
  {
  }
}
