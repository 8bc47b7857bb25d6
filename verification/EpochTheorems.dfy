/**
  What the sender writes, told by its events: which shards are on the wire, and how many parity shards of which chunk
  an epoch adds.
 */
module EpochTheorems {
  import opened Bytes
  import opened Bits
  import opened ErasureCode
  import opened Facility
  import opened Sender
  import opened SenderInvariant
  import opened FecSession
  import opened FecTheorems
  import opened EpochTraffic
  import opened EpochBudget
  import opened Chunk

  /**
    The chunks and the traffic of the epoch follow from the events: forty packets or an epoch timer close a chunk, and
    every protected packet and every closing counts as one datagram.
   */
  lemma {:induction false} EventsDecideChunks(s: Scheme, events: seq<Event>)
    requires Lawful(s)
    ensures var x, t := Run(s, events).tx, Tell(events);
            && x.sentThisEpoch == t.sent && |x.ledger| == |t.chunks|
            && forall k :: 0 <= k < |x.ledger| ==> x.ledger[k].payloads == t.chunks[k]
  {
    hide Run, Tell;
    RunFollows(s, events);
  }

  /**
    Parity is spread over the epochs: `n` timers after the last packet of a chunk, at most the n - 1 thirtieths of what
    follows its first shard, rounded to the nearest, have gone out.
   */
  lemma {:induction false} ParityIsPaced(s: Scheme, events: seq<Event>, k: nat)
    requires Lawful(s) && k < |Run(s, events).tx.ledger| - 1
    ensures var c, ages := Run(s, events).tx.ledger[k], Tell(events).ages;
            && k < |ages| && InTable(s, |c.payloads|)
            && var n, r := ages[k], ParitySum(s, |c.payloads|) - 1;
               if n == 0 then c.parity <= 1 else 2 * RING * (c.parity - 1) <= 2 * (n - 1) * r + RING
  {
    hide Run, Tell, ParitySum;
    RunFollows(s, events);
    assert PacedChunk(s, Run(s, events).tx.ledger[k], Tell(events).ages[k]);
  }

  // ---------- What is due ----------

  /** Of `r` shards, as many as are due after `n` of the ring's epochs: the nearest to the n-th thirtieths of them. */
  function Due(r: nat, n: nat): int {
    var share := (2 * n * r + RING) / (2 * RING);
    if share < r then share else r
  }

  /** What is due of chunk `k` and has not been sent; nothing for the open chunk. */
  function Owed(s: Scheme, ledger: seq<ChunkLog>, ages: seq<nat>, k: int): int {
    if 0 <= k < |ledger| - 1 && k < |ages| && InTable(s, |ledger[k].payloads|)
       && ParitySum(s, |ledger[k].payloads|) >= 1
    then Due(ParitySum(s, |ledger[k].payloads|) - 1, ages[k]) - (ledger[k].parity - 1)
    else 0
  }

  /** What is owed by the newest chunks, one for each remainder by the ring's size. */
  function Owings(s: Scheme, ledger: seq<ChunkLog>, ages: seq<nat>): (u: seq<int>)
    ensures |u| == RING && forall i :: 0 <= i < RING ==> u[i] == Owed(s, ledger, ages, NewestIn(|ledger|, i))
  {
    seq(RING, i requires 0 <= i < RING => Owed(s, ledger, ages, NewestIn(|ledger|, i)))
  }

  function Gain(l: seq<ChunkLog>, l': seq<ChunkLog>, k: int): int {
    if 0 <= k < |l| && k < |l'| then l'[k].parity - l[k].parity else 0
  }

  function GainsPerSlot(l: seq<ChunkLog>, l': seq<ChunkLog>): (g: seq<int>)
    ensures |g| == RING && forall i :: 0 <= i < RING ==> g[i] == Gain(l, l', NewestIn(|l|, i))
  {
    seq(RING, i requires 0 <= i < RING => Gain(l, l', NewestIn(|l|, i)))
  }

  lemma {:induction false} DueIsScheduled(slot: Slot, epoch: nat, age: nat)
    requires epoch == slot.initialEpoch + age && slot.initialRemain >= 0
    ensures var r := slot.initialRemain;
            Due(r, age) == if Schedule(slot, epoch) < r then Schedule(slot, epoch) else r
  {
    var r := slot.initialRemain;
    MulMonotone(r, 0, age);
    var a := age * r;
    assert a >= 0 && 2 * age * r == 2 * a;
    assert RoundDiv(a, RING) == (2 * a + RING) / (2 * RING);
    hide RoundDiv;
  }

  /** The allowance of a slot is what its chunk owes. */
  lemma {:induction false} DrainingOwes(s: Scheme, slot: Slot, c: ChunkLog, seqNo: nat, epoch: nat, age: nat)
    requires DrainingSlot(s, slot, c, seqNo, epoch) && epoch == slot.initialEpoch + age
    ensures InTable(s, |c.payloads|) && ParitySum(s, |c.payloads|) >= 1 && Readable(s, slot)
    ensures Headroom(s, slot, epoch) == Due(ParitySum(s, |c.payloads|) - 1, age) - (c.parity - 1)
  {
    DueIsScheduled(slot, epoch, age);
    hide Due, Schedule;
  }

  lemma {:induction false} SlotOwes(s: Scheme, x: Tx, t: Told, i: nat)
    requires TxInv(s, x) && Follows(s, x, t) && i < RING && Readable(s, x.ring[i])
    ensures Headroom(s, x.ring[i], x.epoch) == Owed(s, x.ledger, t.ages, NewestIn(|x.ledger|, i))
  {
    hide LedgerOk, WireOk, PacedChunk, DrainingSlot, Due;
    SlotHoldsNewest(x, i);
    var k := ChunkAt(x, i);
    if i != x.cur && k >= 0 {
      ClosedSlot(s, x, k);
      assert SlotClock(x, t, k);
      DrainingOwes(s, x.ring[i], x.ledger[k], SeqOf(k), x.epoch, t.ages[k]);
    } else if i != x.cur {
      assert SlotOk(s, x, i);
    }
  }

  lemma {:induction false} RingOwes(s: Scheme, x: Tx, t: Told)
    requires TxInv(s, x) && Follows(s, x, t) && AllReadable(s, x.ring)
    ensures |x.ring| == RING && Unlocks(s, x.ring, x.epoch) == Owings(s, x.ledger, t.ages)
  {
    hide TxInv, Follows, Headroom, Owed, Readable;
    assert |x.ring| == RING by {
      RingSize(s, x);
    }
    forall i | 0 <= i < RING
      ensures Headroom(s, x.ring[i], x.epoch) == Owed(s, x.ledger, t.ages, NewestIn(|x.ledger|, i))
    {
      assert Readable(s, x.ring[i]);
      SlotOwes(s, x, t, i);
    }
  }

  lemma RingSize(s: Scheme, x: Tx)
    requires TxInv(s, x)
    ensures |x.ring| == RING && x.ledger != []
  {
    hide LedgerOk, WireOk, SlotOk, FillingSlot;
  }

  // ---------- What an epoch adds ----------

  /** Nothing but parity shards of the newest chunks. */
  ghost predicate OnlyParity(l: seq<ChunkLog>, l': seq<ChunkLog>) {
    && |l| == |l'|
    && (forall k :: 0 <= k < |l| ==> l'[k].payloads == l[k].payloads)
    && (forall k :: 0 <= k < |l| ==> (k < |l| - RING || k == |l| - 1 ==> l'[k] == l[k]))
  }

  /** The shards that an epoch adds, with `quota` datagrams left for it. */
  ghost predicate PaysOut(s: Scheme, l: seq<ChunkLog>, ages: seq<nat>, quota: int, l': seq<ChunkLog>) {
    OnlyParity(l, l') && if quota <= 0 then l' == l else FairShares(Owings(s, l, ages), GainsPerSlot(l, l'), quota)
  }

  lemma {:induction false} FedGains(x: Tx, y: Tx, order: seq<nat>, i: nat)
    requires Fed(x, y, order) && x.ledger != [] && i < RING && NewestIn(|x.ledger|, i) >= 0
    ensures Gain(x.ledger, y.ledger, NewestIn(|x.ledger|, i)) == multiset(order)[i]
  {
    var k := NewestIn(|x.ledger|, i);
    assert k % RING == i;
    assert y.ledger[k] == Gains(x.ledger, order, k);
  }

  lemma {:induction false} FedPays(x: Tx, y: Tx, g: seq<int>)
    requires x.ledger != [] && |g| == RING && NonNegative(g) && Fed(x, y, RoundRobin(g))
    requires forall i :: 0 <= i < RING && NewestIn(|x.ledger|, i) < 0 ==> g[i] == 0
    ensures GainsPerSlot(x.ledger, y.ledger) == g
  {
    hide Fed, RoundRobin, Gain, NewestIn;
    forall i: nat | i < RING ensures Gain(x.ledger, y.ledger, NewestIn(|x.ledger|, i)) == g[i] {
      RoundRobinServes(g, i);
      if NewestIn(|x.ledger|, i) >= 0 {
        FedGains(x, y, RoundRobin(g), i);
      } else {
        NoGain(x.ledger, y.ledger, NewestIn(|x.ledger|, i));
      }
    }
  }

  lemma NoGain(l: seq<ChunkLog>, l': seq<ChunkLog>, k: int)
    requires k < 0
    ensures Gain(l, l', k) == 0
  {
  }

  lemma {:induction false} DrainPaysOut(s: Scheme, x: Tx, t: Told)
    requires TxIdle(s, x) && Follows(s, x, t)
    ensures var y := Drain(s, x);
            && PaysOut(s, x.ledger, t.ages, SOFT_LIMIT - x.sentThisEpoch, y.ledger)
            && |y.wire| == |x.wire| + Sum(GainsPerSlot(x.ledger, y.ledger))
  {
    var order := DrainFollows(s, x, t);
    IdleHolds(s, x);
    RingSize(s, x);
    DrainKeeps(s, x);
    IdleHolds(s, Drain(s, x));
    FedOnlyParity(s, x, Drain(s, x), order);
    var y, quota := Drain(s, x), SOFT_LIMIT - x.sentThisEpoch;
    hide TxIdle, Follows, Drain, Fed, RoundRobin, Guidance, OnlyParity, SameChunks, Clocks;
    if quota > 0 {
      RingOwes(s, x, t);
      BudgetsOf(s, x);
      GuidanceIsBounded(s, x.ring, x.epoch, quota);
      var g := Guidance(s, x.ring, x.epoch, quota);
      FedPays(x, y, g);
      RoundRobinLength(g);
      FedWrites(x, y, RoundRobin(g));
    } else {
      DrainIsIdle(s, x);
      NoGains(x.ledger);
    }
  }

  lemma FedWrites(x: Tx, y: Tx, order: seq<nat>)
    requires Fed(x, y, order)
    ensures |y.wire| == |x.wire| + |order|
  {
  }

  lemma DrainIsIdle(s: Scheme, x: Tx)
    requires x.sentThisEpoch >= SOFT_LIMIT
    ensures Drain(s, x) == x
  {
  }

  lemma {:induction false} NoGains(l: seq<ChunkLog>)
    ensures Sum(GainsPerSlot(l, l)) == 0
  {
    ZerosSumUp(GainsPerSlot(l, l));
  }

  lemma ZerosSumUp(u: seq<int>)
    requires forall i :: 0 <= i < |u| ==> u[i] == 0
    ensures Sum(u) == 0
  {
    if u != [] {
      ZerosSumUp(u[..|u| - 1]);
    }
  }

  lemma BudgetsOf(s: Scheme, x: Tx)
    requires TxInv(s, x)
    ensures |x.ring| == RING && AllReadable(s, x.ring)
    ensures forall i :: 0 <= i < RING ==> Headroom(s, x.ring[i], x.epoch) >= 0
  {
    hide LedgerOk, WireOk, SlotOk, FillingSlot, Headroom;
    BudgetsReadable(s, x);
  }

  lemma FedOnlyParity(s: Scheme, x: Tx, y: Tx, order: seq<nat>)
    requires TxInv(s, x) && TxInv(s, y) && Fed(x, y, order)
    ensures OnlyParity(x.ledger, y.ledger)
  {
    hide RingOk, WireOk, ClosedChunk;
    assert x.ledger[|x.ledger| - 1].parity == 0 == y.ledger[|x.ledger| - 1].parity;
  }

  /** The ledger once the chunk that holds data has been closed with its first parity shard. */
  function ClosedLedger(ledger: seq<ChunkLog>): seq<ChunkLog>
    requires ledger != []
  {
    var last := |ledger| - 1;
    if ledger[last].payloads != [] then ledger[last := ledger[last].(parity := 1)] + [ChunkLog([], 0)] else ledger
  }

  lemma {:induction false} AtDrainWrites(s: Scheme, x: Tx)
    requires TxIdle(s, x) && Intact(x)
    ensures var y := AtDrain(s, x);
            y.ledger == ClosedLedger(x.ledger) && |y.wire| == |x.wire| + |y.ledger| - |x.ledger|
  {
    CurrentCount(s, x);
    if x.ring[x.cur].dataShardWithin != 0 {
      FinishDoes(s, x, |x.ledger| - 1);
    }
    hide TxIdle, Finish, ParityDatagram, JustClosed;
  }

  /** What the epoch timer makes of a sender, in terms of the events before it. */
  ghost predicate EpochPays(s: Scheme, x: Tx, t: Told, y: Tx)
    requires WellTold(t)
  {
    && x.ledger != []
    && PaysOut(s, ClosedLedger(x.ledger), Closing(t).ages, SOFT_LIMIT - Closing(t).sent, y.ledger)
    && |y.wire| == |x.wire| + |y.ledger| - |x.ledger| + Sum(GainsPerSlot(ClosedLedger(x.ledger), y.ledger))
  }

  lemma {:induction false} TimerPays(s: Scheme, x: Tx, t: Told)
    requires TxIdle(s, x) && Follows(s, x, t) && WellTold(t)
    ensures EpochPays(s, x, t, OnEpoch(s, x))
  {
    hide TxIdle, Follows, PaysOut, Drain, Finish, GainsPerSlot, ClosedLedger, Closing, Sum;
    ClosingFollows(s, x, t);
    AtDrainWrites(s, x);
    DrainKeeps(s, AtDrain(s, x));
    DrainPaysOut(s, AtDrain(s, x), Closing(t));
    SentIsTold(s, AtDrain(s, x), Closing(t));
  }

  /**
    What the epoch timer sends. The chunk that holds data is closed first. Then, if the quota of forty datagrams covers
    what is due of the newest chunks, exactly that goes out; otherwise every chunk gets the nearest whole number to its
    scaled share, and all of them together the quota but for half a shard per slot. Everything else stays as it was.
   */
  lemma {:induction false} EpochPaysWhatIsDue(s: Scheme, events: seq<Event>)
    requires Lawful(s)
    ensures EpochPays(s, Run(s, events).tx, Tell(events), Run(s, events + [EpochTimer]).tx)
  {
    var x := Run(s, events).tx;
    hide EpochPays, OnEpoch;
    assert Run(s, events + [EpochTimer]).tx == OnEpoch(s, x) by {
      RunSnoc(s, events, EpochTimer);
    }
    SenderKeeps(s, events);
    RunFollows(s, events);
    hide Run, Tell, TxIdle, Follows;
    TimerPays(s, x, Tell(events));
  }

  lemma SentIsTold(s: Scheme, x: Tx, t: Told)
    requires Follows(s, x, t)
    ensures x.sentThisEpoch == t.sent
  {
  }

  /** Whether the quota covers what is due when the timer fires. */
  ghost predicate QuotaCovers(s: Scheme, ledger: seq<ChunkLog>, t: Told) {
    Sum(Owings(s, ledger, t.ages)) <= SOFT_LIMIT - t.sent
  }

  /** A closed chunk has sent its first parity shard and what is due of the rest, `age` timers after its last packet. */
  ghost predicate UpToDate(s: Scheme, c: ChunkLog, age: nat) {
    && InTable(s, |c.payloads|) && ParitySum(s, |c.payloads|) >= 1
    && c.parity == 1 + Due(ParitySum(s, |c.payloads|) - 1, age)
  }

  lemma {:induction false} PaidInFull(
    s: Scheme, l: seq<ChunkLog>, ages: seq<nat>, quota: nat, l': seq<ChunkLog>, k: nat)
    requires quota > 0 && PaysOut(s, l, ages, quota, l') && Sum(Owings(s, l, ages)) <= quota
    requires |l| - RING <= k < |l| - 1 && k < |ages|
    requires InTable(s, |l[k].payloads|) && ParitySum(s, |l[k].payloads|) >= 1
    ensures k < |l'| && UpToDate(s, l'[k], ages[k])
  {
    hide Due, Sum, ParitySum, NewestIn;
    NewestAt(|l|, k);
    assert Owings(s, l, ages)[k % RING] == Owed(s, l, ages, k);
    assert GainsPerSlot(l, l')[k % RING] == Gain(l, l', k);
  }

  /** After an epoch whose quota covers what is due, the newest closed chunks have sent exactly what is due of them. */
  lemma {:induction false} CoveredEpochCatchesUp(s: Scheme, events: seq<Event>, k: nat)
    requires Lawful(s) && Run(s, events).tx.ledger != []
    requires var l, t := ClosedLedger(Run(s, events).tx.ledger), Closing(Tell(events));
             t.sent < SOFT_LIMIT && QuotaCovers(s, l, t) && |l| - RING <= k < |l| - 1
    ensures var y, ages := Run(s, events + [EpochTimer]).tx, Closing(Tell(events)).ages;
            k < |y.ledger| && k < |ages| && UpToDate(s, y.ledger[k], ages[k])
  {
    hide UpToDate, Run, Tell, Closing, ClosedLedger, PaysOut, Sum, Owings, GainsPerSlot, ParitySum;
    var x, y, t := Run(s, events).tx, Run(s, events + [EpochTimer]).tx, Closing(Tell(events));
    var l := ClosedLedger(x.ledger);
    EpochPaysWhatIsDue(s, events);
    AgesAtDrain(s, events);
    PaidIsParity(s, l, t.ages, SOFT_LIMIT - t.sent, y.ledger);
    KnownChunk(s, events + [EpochTimer], k);
    PaidInFull(s, l, t.ages, SOFT_LIMIT - t.sent, y.ledger, k);
  }

  lemma PaidIsParity(s: Scheme, l: seq<ChunkLog>, ages: seq<nat>, quota: int, l': seq<ChunkLog>)
    requires PaysOut(s, l, ages, quota, l')
    ensures |l'| == |l| && forall k :: 0 <= k < |l| ==> l'[k].payloads == l[k].payloads
  {
  }

  lemma {:induction false} AgesAtDrain(s: Scheme, events: seq<Event>)
    requires Lawful(s)
    ensures Run(s, events).tx.ledger != []
    ensures |Closing(Tell(events)).ages| == |ClosedLedger(Run(s, events).tx.ledger)|
  {
    RunFollows(s, events);
    hide Run, Tell, AllPaced;
  }

  lemma {:induction false} KnownChunk(s: Scheme, events: seq<Event>, k: nat)
    requires Lawful(s) && k < |Run(s, events).tx.ledger| - 1
    ensures var c := Run(s, events).tx.ledger[k]; InTable(s, |c.payloads|) && ParitySum(s, |c.payloads|) >= 1
  {
    SenderKeeps(s, events);
    hide Run;
    ClosedChunksHold(s, Run(s, events).tx);
    TableFits(s, |Run(s, events).tx.ledger[k].payloads|);
  }

  /** An epoch whose quota does not cover what is due uses it up, but for half a shard per slot. */
  lemma {:induction false} ScarceEpochUsesItsQuota(s: Scheme, events: seq<Event>)
    requires Lawful(s) && Run(s, events).tx.ledger != []
    requires var t := Closing(Tell(events));
             t.sent < SOFT_LIMIT && !QuotaCovers(s, ClosedLedger(Run(s, events).tx.ledger), t)
    ensures var x, y, t := Run(s, events).tx, Run(s, events + [EpochTimer]).tx, Closing(Tell(events));
            var n := |y.wire| - |x.wire| - (|y.ledger| - |x.ledger|);
            2 * (SOFT_LIMIT - t.sent) <= 2 * n + RING && 2 * n < 4 * (SOFT_LIMIT - t.sent) + RING
  {
    hide Run, Tell, Owings, GainsPerSlot, ClosedLedger, Closing, Sum;
    EpochPaysWhatIsDue(s, events);
  }

  // ---------- Everything is on the wire ----------

  /** Every shard that the ledger counts, and every unprotected payload, is among the datagrams. */
  ghost predicate AllWritten(x: Tx) {
    forall tag :: TagOk(x.ledger, x.plain, tag) ==> tag in x.tags
  }

  lemma WrittenGrows(x: Tx, y: Tx, tag: Tag)
    requires AllWritten(x) && y.tags == x.tags + [tag]
    requires forall other :: TagOk(y.ledger, y.plain, other) ==> other == tag || TagOk(x.ledger, x.plain, other)
    ensures AllWritten(y)
  {
  }

  lemma PacketWritten(s: Scheme, x: Tx, payload: bytes)
    requires TxInv(s, x) && AllWritten(x)
    ensures AllWritten(AddPacket(x, payload))
  {
    AddPacketWrites(s, x, payload);
    hide TxInv, AddPacket;
    WrittenGrows(x, AddPacket(x, payload), Data(|x.ledger| - 1, |x.ledger[|x.ledger| - 1].payloads|));
  }

  lemma {:induction false} FinishWritten(s: Scheme, x: Tx)
    requires TxInv(s, x) && AllWritten(x) && x.ledger[|x.ledger| - 1].payloads != []
    ensures AllWritten(Finish(s, x))
  {
    var last, y := |x.ledger| - 1, Finish(s, x);
    FinishDoes(s, x, last);
    hide TxInv, Finish, ParityDatagram, JustClosed, Encoded, Closable, AllWritten, TagOk;
    ClosedTags(x.ledger, x.plain);
    WrittenGrows(x, y, Parity(last, 0));
  }

  lemma ClosedTags(ledger: seq<ChunkLog>, plain: seq<bytes>)
    requires ledger != []
    ensures var last := |ledger| - 1;
            forall tag :: TagOk(ledger[last := ledger[last].(parity := 1)] + [ChunkLog([], 0)], plain, tag) ==>
                            tag == Parity(last, 0) || TagOk(ledger, plain, tag)
  {
  }

  lemma {:induction false} DrainedWritten(s: Scheme, x: Tx, y: Tx, i: nat, k: nat)
    requires AllWritten(x) && i < |x.ring| && k < |x.ledger| && Encoded(s, x.ledger[k].payloads, x.ledger[k].parity)
    requires Drained(s, x, y, i, k)
    ensures AllWritten(y)
  {
    hide ParityDatagram, Encoded, Closed;
    WrittenGrows(x, y, Parity(k, x.ledger[k].parity));
  }

  lemma {:induction false} SendAllWritten(s: Scheme, x: Tx, order: seq<nat>)
    requires TxInv(s, x) && AllReadable(s, x.ring) && WithinBudget(s, x, order) && AllWritten(x)
    ensures AllWritten(SendAll(s, x, order))
  {
    hide LedgerOk, WireOk, SlotOk, FillingSlot, Headroom, SendFec, Drained, Encoded, AllWritten;
    if order != [] {
      var n := |order| - 1;
      var init: seq<nat> := order[..n];
      var i: nat := order[n];
      assert order == init + [i];
      BudgetsReadable(s, x);
      CountOne(init, i, i);
      assert WithinBudget(s, x, init);
      SendAllKeeps(s, x, init);
      SendAllWritten(s, x, init);
      var y := SendAll(s, x, init);
      var k := SendFecDrains(s, y, i);
      DrainedWritten(s, y, SendFec(s, y, i), i, k);
    }
  }

  lemma {:induction false} EpochWritten(s: Scheme, x: Tx)
    requires TxIdle(s, x) && AllWritten(x)
    ensures AllWritten(OnEpoch(s, x))
  {
    CurrentCount(s, x);
    FinishIfFilled(s, x);
    var y := AtDrain(s, x);
    hide RingOk, LedgerOk, WireOk, Finish, AllWritten, SendAll;
    if x.ring[x.cur].dataShardWithin != 0 {
      FinishWritten(s, x);
    }
    BudgetsOf(s, y);
    var order := DrainOrder(s, y);
    SendAllWritten(s, y, order);
    hide Drain;
    ClockIsNotWritten(Drain(s, y));
  }

  lemma ClockIsNotWritten(x: Tx)
    requires AllWritten(x)
    ensures AllWritten(x.(epoch := x.epoch + 1, sentThisEpoch := 0))
  {
  }

  lemma {:induction false} PacketEventWritten(s: Scheme, x: Tx, payload: bytes, fecEnabled: bool)
    requires TxIdle(s, x) && AllWritten(x)
    ensures AllWritten(OnPacket(s, x, payload, fecEnabled))
  {
    CurrentCount(s, x);
    if fecEnabled {
      var y := AddPacket(x, payload);
      AddPacketKeeps(s, x, payload);
      PacketWritten(s, x, payload);
      CurrentCount(s, y);
      hide RingOk, LedgerOk, WireOk, Finish, AllWritten, AddPacket;
      if y.ring[y.cur].dataShardWithin >= MAX_DATA {
        FinishWritten(s, y);
      }
    } else {
      hide PackPacket;
      WrittenGrows(x, SendPlain(x, payload), Plain(|x.plain|));
    }
  }

  /** Every payload has been written as a datagram of its own, and so has every parity shard that the ledger counts. */
  lemma {:induction false} EverythingIsWritten(s: Scheme, events: seq<Event>, tag: Tag)
    requires Lawful(s)
    ensures var x := Run(s, events).tx; TagOk(x.ledger, x.plain, tag) <==> tag in x.tags
  {
    hide Run, TagOk;
    SenderKeeps(s, events);
    RunWritten(s, events);
    var x := Run(s, events).tx;
    IdleHolds(s, x);
    hide RingOk, LedgerOk, Render;
    if tag in x.tags {
      var i :| 0 <= i < |x.tags| && x.tags[i] == tag;
    }
  }

  lemma {:induction false} RunWritten(s: Scheme, events: seq<Event>)
    requires Lawful(s)
    ensures AllWritten(Run(s, events).tx)
  {
    hide TxIdle, OnPacket, OnEpoch;
    if events != [] {
      var n := |events| - 1;
      var x := Run(s, events[..n]);
      hide AllWritten;
      SenderKeeps(s, events[..n]);
      RunWritten(s, events[..n]);
      match events[n]
      case Submit(payload, fecEnabled) => PacketEventWritten(s, x.tx, payload, fecEnabled);
      case EpochTimer => EpochWritten(s, x.tx);
      case Deliver(_) =>
    }
  }

  // ---------- The bytes of a datagram ----------

  /** The datagram begins with the sequence number and the shard number, both big-endian. */
  ghost predicate HasHead(datagram: bytes, seqNo: nat, id: nat) {
    |datagram| >= 6 && BigEndian(datagram[..4], seqNo) && BigEndian(datagram[4..6], id)
  }

  lemma {:induction false} PacketHasHead(seqNo: nat, id: nat, body: bytes)
    requires seqNo < 0x1_0000_0000 && id < 0x1_0000
    ensures HasHead(PackPacket(seqNo, id, body), seqNo, id) && PackPacket(seqNo, id, body)[6..] == body
  {
    hide BigEndian, PackUint32, PackUint16;
    SmallId(id);
    var d := PackPacket(seqNo, id, body);
    assert d[..4] == PackUint32(seqNo) && d[4..6] == PackUint16(id);
    Uint32IsBigEndian(seqNo);
    Uint16IsBigEndian(id);
  }

  /** The payload, behind its length in two bytes if it fits 15 bits. */
  ghost predicate IsWrapped(body: bytes, payload: bytes) {
    |body| == 2 + |payload| && body[2..] == payload && (|payload| < 32768 ==> BigEndian(body[..2], |payload|))
  }

  lemma {:induction false} WrapIsWrapped(payload: bytes)
    ensures IsWrapped(Wrap(payload), payload)
  {
    hide BigEndian, PackUint16;
    if |payload| < 32768 {
      assert Wrap(payload)[..2] == PackUint16(|payload|);
      Uint16IsBigEndian(|payload|);
    }
  }

  /**
    What a datagram of a run looks like, byte by byte: the sequence number of its chunk, or 0 without protection, its
    shard number, and then the payload, behind its length in a shard.
   */
  lemma {:induction false} DatagramsOnTheWire(s: Scheme, events: seq<Event>, n: nat)
    requires Lawful(s) && n < |Run(s, events).tx.tags| == |Run(s, events).tx.wire|
    ensures var x := Run(s, events).tx;
            match x.tags[n]
            case Data(k, j) =>
              && k < |x.ledger| && j < |x.ledger[k].payloads|
              && HasHead(x.wire[n], SeqOf(k), j) && IsWrapped(x.wire[n][6..], x.ledger[k].payloads[j])
            case Parity(k, j) => k < |x.ledger| && HasHead(x.wire[n], SeqOf(k), |x.ledger[k].payloads| + j)
            case Plain(j) => j < |x.plain| && HasHead(x.wire[n], 0, 0) && x.wire[n][6..] == x.plain[j]
  {
    SenderKeeps(s, events);
    hide Run, PackPacket, HasHead, IsWrapped, SeqOf, RingOk, LedgerOk, ParityBody;
    var x := Run(s, events).tx;
    match x.tags[n]
    case Data(k, j) =>
      WireData(s, x, n, k, j);
      PacketHasHead(SeqOf(k), j, Wrap(x.ledger[k].payloads[j]));
      WrapIsWrapped(x.ledger[k].payloads[j]);
    case Parity(k, j) =>
      WireParity(s, x, n, k, j);
      TableFits(s, |x.ledger[k].payloads|);
      PacketHasHead(SeqOf(k), |x.ledger[k].payloads| + j, ParityBody(s, x.ledger[k].payloads, j));
    case Plain(j) =>
      assert TagOk(x.ledger, x.plain, x.tags[n]);
      PacketHasHead(0, 0, x.plain[j]);
  }
}
