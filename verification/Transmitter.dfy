/**
  The sender as the program runs it: a ring of holders, each with its own error-correction object, and counters
  that the event loop updates in place. Every handler is proved to do what `Sender` says, without a panic.
 */
module Transmitter {
  import opened Bytes
  import opened ErasureCode
  import opened Sender
  import opened SenderInvariant
  import EpochBudget
  import Facility
  import Rs = RsFacility

  datatype ChunkHolder = ChunkHolder(
    ef: Rs.ErrorCorrection?, enabled: bool, dataShardWithin: nat,
    seqNo: nat, initialEpoch: nat, initialRemain: int)

  class PacketAssembly {
    const scheme: Scheme
    const slots: array<ChunkHolder>
    var cur: nat
    var nextSeq: nat
    var epoch: nat
    var sentThisEpoch: nat
    /** The datagrams handed to the connection. */
    var wire: seq<bytes>
    /** The state that `Sender` speaks about, with its history. */
    ghost var model: Tx

    ghost function Objects(): set<Rs.ErrorCorrection>
      reads slots
    {
      set i | 0 <= i < slots.Length && slots[i].ef != null :: slots[i].ef
    }

    /** Every holder has an error-correction object of its own. */
    ghost predicate Separate()
      reads slots
    {
      && slots.Length == RING
      && (forall i :: 0 <= i < RING && slots[i].ef != null ==> slots[i].ef.scheme == scheme)
      && (forall i, j :: 0 <= i < j < RING && slots[i].ef != null ==> slots[i].ef != slots[j].ef)
    }

    /** Holder `i` is what the model says it is. */
    ghost predicate Mirrors(i: nat, slot: Slot)
      requires i < slots.Length
      reads slots, slots[i].ef
    {
      var h := slots[i];
      && (if h.ef == null then slot.ef == None else slot.ef == Some(h.ef.View()))
      && slot.enabled == h.enabled && slot.dataShardWithin == h.dataShardWithin && slot.seqNo == h.seqNo
      && slot.initialEpoch == h.initialEpoch && slot.initialRemain == h.initialRemain
    }

    ghost predicate Valid()
      reads this, slots, Objects()
    {
      && Separate() && !model.crashed && |model.ring| == RING
      && (forall i :: 0 <= i < RING ==> Mirrors(i, model.ring[i]))
      && model.cur == cur && model.nextSeq == nextSeq && model.epoch == epoch && model.sentThisEpoch == sentThisEpoch
      && model.wire == wire
    }

    constructor (scheme: Scheme)
      ensures this.scheme == scheme && Valid() && model == Init() && fresh(slots) && fresh(Objects())
    {
      this.scheme := scheme;
      slots := new ChunkHolder[RING](_ => ChunkHolder(null, false, 0, 0, 0, 0));
      cur, nextSeq, epoch, sentThisEpoch, wire := 0, 1, 0, 0, [];
      model := Init();
      new;
      var ef := new Rs.ErrorCorrection(scheme);
      slots[0] := ChunkHolder(ef, false, 0, 0, 0, 0);
    }

    method PackAndSend(seqNo: nat, id: nat, body: bytes)
      requires seqNo < 0x1_0000_0000
      modifies this`wire
      ensures wire == old(wire) + [PackPacket(seqNo, id, body)]
    {
      wire := wire + [PackPacket(seqNo, id, body)];
    }

    method TxWithoutFec(payload: bytes)
      requires Valid()
      modifies this`wire, this`model
      ensures Valid() && model == SendPlain(old(model), payload)
    {
      model := SendPlain(model, payload);
      PackAndSend(0, 0, payload);
    }

    // ---------- Parity shards ----------

    /** One shard from the object of slot `i`. */
    method Construct(i: nat) returns (id: nat, body: bytes, more: bool)
      requires Separate() && i < RING && slots[i].ef != null
      requires Facility.CanConstruct(scheme, slots[i].ef.View())
      modifies slots[i].ef
      ensures (slots[i].ef.View(), id, body, more) == Facility.Construct(scheme, old(slots[i].ef.View()))
      ensures Facility.InTable(scheme, slots[i].ef.total)
    {
      var r := slots[i].ef.ConstructReconstructShard();
      id, body, more := r.value.0, r.value.1, r.value.2;
    }

    /** Puts a new object into holder `i`. */
    method Renew(i: nat, ghost ring: seq<Slot>)
      requires Separate() && i < RING == |ring| && ring[i] == FRESH_SLOT
      requires forall j :: 0 <= j < RING && j != i ==> Mirrors(j, ring[j])
      modifies slots
      ensures Separate() && fresh(Objects() - old(Objects()))
      ensures forall j :: 0 <= j < RING ==> Mirrors(j, ring[j])
    {
      var ef := new Rs.ErrorCorrection(scheme);
      slots[i] := ChunkHolder(ef, false, 0, 0, 0, 0);
    }

    /** The first parity shard of the current slot's chunk, which begins to drain. */
    method CloseSlot(ghost y: Tx)
      requires Valid() && Intact(model) && !Finish(scheme, model).crashed && y == Finish(scheme, model)
      modifies this`wire, this`sentThisEpoch, slots, Objects()
      ensures Separate() && Objects() == old(Objects())
      ensures |y.ring| == RING && forall j :: 0 <= j < RING && j != y.cur ==> Mirrors(j, y.ring[j])
      ensures wire == y.wire && sentThisEpoch == y.sentThisEpoch
    {
      hide Facility.Construct, Facility.CanConstruct, PackPacket, Finish;
      FinishEffect(scheme, model);
      var id, body, more := Construct(cur);
      PackAndSend(nextSeq, id, body);
      sentThisEpoch := sentThisEpoch + 1;
      slots[cur] := slots[cur].(enabled := more, initialRemain := slots[cur].ef.MaxShardYieldRemaining());
      assert forall j :: 0 <= j < RING ==> slots[j].ef == old(slots[j].ef);
    }

    /** The next slot and the next sequence number. */
    method Advance()
      requires cur < RING && nextSeq < 0x1_0000_0000
      modifies this`cur, this`nextSeq
      ensures cur == (if old(cur) + 1 == RING then 0 else old(cur) + 1) && nextSeq == NextSeq(old(nextSeq))
    {
      cur := cur + 1;
      if cur == RING {
        cur := 0;
      }
      nextSeq := if nextSeq == 0xFFFF_FFFF then 0 else nextSeq + 1;
      if nextSeq == 0 {
        nextSeq := 1;
      }
    }

    method FinishThisSeq()
      requires Valid() && Intact(model) && !Finish(scheme, model).crashed
      modifies this, slots, Objects()
      ensures Valid() && fresh(Objects() - old(Objects())) && model == Finish(scheme, old(model))
    {
      hide Facility.Construct, Facility.CanConstruct, PackPacket, Finish, NextSeq;
      FinishEffect(scheme, model);
      ghost var y := Finish(scheme, model);
      CloseSlot(y);
      Advance();
      Renew(cur, y.ring);
      model := y;
    }

    method SendFecPacket(i: nat)
      requires Valid() && Intact(model) && !SendFec(scheme, model, i).crashed
      modifies this, slots, Objects()
      ensures Valid() && Objects() == old(Objects()) && model == SendFec(scheme, old(model), i)
    {
      hide Facility.Construct, Facility.CanConstruct, PackPacket, ChunkAt;
      model := SendFec(scheme, model, i);
      var id, body, more := Construct(i);
      PackAndSend(slots[i].seqNo, id, body);
      slots[i] := slots[i].(enabled := more);
      assert forall j :: 0 <= j < RING ==> slots[j].ef == old(slots[j].ef);
    }

    // ---------- What to send ----------

    function GetRemainingShard(i: nat): (n: int)
      requires i < slots.Length
      requires slots[i].enabled ==> slots[i].ef != null && Facility.InTable(slots[i].ef.scheme, slots[i].ef.total)
      reads slots, slots[i].ef
    {
      if !slots[i].enabled then 0 else slots[i].ef.MaxShardYieldRemaining()
    }

    function GetReleasedShard(i: nat): (n: int)
      requires i < slots.Length
      reads this, slots
    {
      if !slots[i].enabled then 0
      else RoundDiv((epoch - slots[i].initialEpoch) * slots[i].initialRemain, RING)
    }

    function GetSentShard(i: nat): (n: int)
      requires i < slots.Length
      requires slots[i].enabled ==> slots[i].ef != null && Facility.InTable(slots[i].ef.scheme, slots[i].ef.total)
      reads slots, slots[i].ef
    {
      if !slots[i].enabled then 0 else slots[i].initialRemain - GetRemainingShard(i)
    }

    method HeadroomOf(i: nat) returns (diff: int)
      requires Valid() && i < RING && Readable(scheme, model.ring[i])
      ensures diff == Headroom(scheme, model.ring[i], epoch)
    {
      assert Mirrors(i, model.ring[i]);
      diff := GetReleasedShard(i) - GetSentShard(i);
      var remainShard := GetRemainingShard(i);
      if diff > remainShard {
        diff := remainShard;
      }
    }

    /** How many parity shards each slot sends. */
    method SelectPacketToSend(quota: nat) returns (unlocks: seq<int>)
      requires Valid() && AllReadable(scheme, model.ring) && quota > 0
      ensures unlocks == Guidance(scheme, model.ring, epoch, quota)
      ensures (forall i :: 0 <= i < RING ==> Headroom(scheme, model.ring[i], epoch) >= 0) ==>
                EpochBudget.FairShares(Unlocks(scheme, model.ring, epoch), unlocks, quota)
    {
      unlocks := SelectShares(quota);
      hide RoundDiv, Headroom, Readable, Guidance, EpochBudget.FairShares;
      if forall i :: 0 <= i < RING ==> Headroom(scheme, model.ring[i], epoch) >= 0 {
        EpochBudget.GuidanceIsBounded(scheme, model.ring, epoch, quota);
      }
    }

    /** The two passes over the ring. */
    method SelectShares(quota: nat) returns (unlocks: seq<int>)
      requires Valid() && AllReadable(scheme, model.ring) && quota > 0
      ensures unlocks == Guidance(scheme, model.ring, epoch, quota)
    {
      hide RoundDiv, Headroom, Readable;
      unlocks := seq(RING, _ => 0);
      var totalUnlocks := 0;
      ghost var all := Unlocks(scheme, model.ring, epoch);
      for i := 0 to RING
        invariant |unlocks| == RING && (forall j :: 0 <= j < i ==> unlocks[j] == all[j])
        invariant totalUnlocks == Sum(all[..i])
      {
        var diff := HeadroomOf(i);
        totalUnlocks := totalUnlocks + diff;
        unlocks := unlocks[i := diff];
        assert all[..i + 1][..i] == all[..i];
      }
      assert all[..RING] == all == unlocks;
      if totalUnlocks <= quota {
        return;
      }
      assert quota <= totalUnlocks;
      var scale := totalUnlocks / quota;
      for i := 0 to RING
        invariant |unlocks| == RING
        invariant forall j :: 0 <= j < RING ==> unlocks[j] == if j < i then RoundDiv(all[j], scale) else all[j]
      {
        unlocks := unlocks[i := RoundDiv(unlocks[i], scale)];
      }
      assert unlocks == Scaled(all, scale);
    }

    // ---------- Round robin ----------

    /** In the middle of a turn: slot `i` sends its shard. */
    method ServeSlot(i: nat, ghost x: Tx, ghost guidance: seq<int>)
      requires Valid() && Intact(x) && i < RING == |guidance| && guidance[i] > 0
      requires !SendAll(scheme, x, Positives(guidance)).crashed && model == SendAll(scheme, x, Positives(guidance[..i]))
      modifies this, slots, Objects()
      ensures Valid() && Objects() == old(Objects()) && model == SendAll(scheme, x, Positives(guidance[..i + 1]))
    {
      hide SendFec, SendAll, Positives, Intact;
      NextIsSafe(scheme, x, guidance, i);
      SendFecPacket(i);
    }

    /** One turn over the ring: every slot with something left sends one shard. */
    method Sweep(guidance: seq<int>) returns (more: bool, rest: seq<int>)
      requires Valid() && |guidance| == RING && Intact(model)
      requires !SendAll(scheme, model, Positives(guidance)).crashed
      modifies this, slots, Objects()
      ensures Valid() && Objects() == old(Objects()) && model == SendAll(scheme, old(model), Positives(guidance))
      ensures rest == Decrement(guidance) && (more <==> Positives(guidance) != [])
    {
      hide SendFec, SendAll, Positives, Intact, Swept, Decrement;
      ghost var x := model;
      more, rest := false, guidance;
      SendNothing(scheme, x);
      NoPositives(guidance);
      SweptNothing(guidance);
      for i := 0 to RING
        invariant Valid() && Objects() == old(Objects()) && rest == Swept(guidance, i)
        invariant model == SendAll(scheme, x, Positives(guidance[..i])) && (more <==> Positives(guidance[..i]) != [])
      {
        PositivesNext(guidance, i);
        SweptNext(guidance, i);
        if rest[i] > 0 {
          rest := rest[i := rest[i] - 1];
          ServeSlot(i, x, guidance);
          more := true;
        }
      }
      SweptAll(guidance);
    }

    method SendGuided(guidance: seq<int>)
      requires Valid() && |guidance| == RING && Intact(model)
      requires !SendAll(scheme, model, RoundRobin(guidance)).crashed
      modifies this, slots, Objects()
      ensures Valid() && Objects() == old(Objects()) && model == SendAll(scheme, old(model), RoundRobin(guidance))
    {
      hide SendFec, SendAll, Load, Positives;
      ghost var x := model;
      ghost var served: seq<nat> := [];
      var more, rest := true, guidance;
      SendNothing(scheme, x);
      while more
        invariant Valid() && Objects() == old(Objects()) && |rest| == RING
        invariant served + RoundRobin(rest) == RoundRobin(guidance)
        invariant model == SendAll(scheme, x, served) && (!more ==> RoundRobin(rest) == [])
        decreases Load(rest), more
      {
        TurnIsSafe(scheme, x, served, rest);
        served := served + Positives(rest);
        more, rest := Sweep(rest);
      }
      assert served == RoundRobin(guidance);
    }

    // ---------- Events ----------

    /** Parity shards of older chunks, as far as this epoch's quota goes. */
    method DrainSlots()
      requires Valid() && TxIdle(scheme, model)
      modifies this, slots, Objects()
      ensures Valid() && Objects() == old(Objects()) && model == Drain(scheme, old(model))
    {
      hide SendAll, RoundRobin, Guidance, AllReadable, WireOk, LedgerOk, SlotOk, FillingSlot;
      DrainKeeps(scheme, model);
      BudgetsReadable(scheme, model);
      var quota := SOFT_LIMIT - sentThisEpoch;
      if quota > 0 {
        var guidance := SelectPacketToSend(quota);
        SendGuided(guidance);
      }
    }

    /** The epoch timer fires. */
    method OnEpochTimer()
      requires Valid() && TxIdle(scheme, model)
      modifies this, slots, Objects()
      ensures Valid() && fresh(Objects() - old(Objects()))
      ensures model == OnEpoch(scheme, old(model)) && TxIdle(scheme, model)
    {
      hide Finish, Drain, WireOk, LedgerOk, SlotOk, FillingSlot;
      EpochKeeps(scheme, model);
      assert Mirrors(cur, model.ring[cur]);
      if slots[cur].dataShardWithin != 0 {
        FinishKeepsFrom(scheme, model);
        FinishThisSeq();
      }
      DrainSlots();
      model := model.(epoch := model.epoch + 1, sentThisEpoch := 0);
      epoch := epoch + 1;
      sentThisEpoch := 0;
    }

    /** A packet to send, with protection on or off. */
    method OnOutgoing(payload: bytes, fecEnabled: bool)
      requires Valid() && TxIdle(scheme, model)
      modifies this, slots, Objects()
      ensures Valid() && fresh(Objects() - old(Objects()))
      ensures model == OnPacket(scheme, old(model), payload, fecEnabled) && TxIdle(scheme, model)
    {
      hide Finish, WireOk, LedgerOk, SlotOk;
      PacketKeeps(scheme, model, payload, fecEnabled);
      if !fecEnabled {
        TxWithoutFec(payload);
        return;
      }
      AddPacketKeeps(scheme, model, payload);
      AddToChunk(payload);
      assert Mirrors(cur, model.ring[cur]);
      if slots[cur].dataShardWithin >= MAX_DATA {
        FinishKeepsFrom(scheme, model);
        FinishThisSeq();
      }
    }

    method AddToChunk(payload: bytes)
      requires Valid() && Intact(model) && !AddPacket(model, payload).crashed
      modifies this, slots, Objects()
      ensures Valid() && Objects() == old(Objects()) && model == AddPacket(old(model), payload)
    {
      hide Facility.AddData, PackPacket;
      model := AddPacket(model, payload);
      var id, body := slots[cur].ef.AddData(payload);
      slots[cur] := slots[cur].(dataShardWithin := slots[cur].dataShardWithin + 1, seqNo := nextSeq,
                                initialEpoch := epoch, initialRemain := 0);
      PackAndSend(nextSeq, id, body);
      sentThisEpoch := sentThisEpoch + 1;
      assert forall j :: 0 <= j < RING ==> slots[j].ef == old(slots[j].ef);
    }
  }

  /** What closing the current chunk does to the program's own variables. */
  lemma FinishEffect(s: Scheme, x: Tx)
    requires Intact(x) && !Finish(s, x).crashed
    ensures x.ring[x.cur].ef.Some? && Facility.CanConstruct(s, x.ring[x.cur].ef.value)
    ensures var y := Finish(s, x);
            var (ef, id, body, more) := Facility.Construct(s, x.ring[x.cur].ef.value);
            && Facility.InTable(s, ef.total)
            && y.ring == x.ring[x.cur := x.ring[x.cur].(ef := Some(ef), enabled := more,
                                                        initialRemain := Facility.ParitySum(s,
                                                            ef.total) - ef.shardInput)]
                         [y.cur := FRESH_SLOT]
            && y.cur == (if x.cur + 1 == RING then 0 else x.cur + 1)
            && y.wire == x.wire + [PackPacket(x.nextSeq, id, body)]
            && y.nextSeq == NextSeq(x.nextSeq) && y.epoch == x.epoch && y.sentThisEpoch == x.sentThisEpoch + 1
  {
    hide PackPacket;
  }

  lemma FinishKeepsFrom(s: Scheme, x: Tx)
    requires TxInv(s, x) && x.ring[x.cur].dataShardWithin != 0
    ensures Intact(x) && TxIdle(s, Finish(s, x)) && !Finish(s, x).crashed
  {
    hide Finish, WireOk;
    FinishKeeps(s, x);
    TxInvIntact(s, Finish(s, x));
  }

  lemma SendNothing(s: Scheme, x: Tx)
    ensures SendAll(s, x, []) == x
  {
  }

  /** A whole turn can be served if the rest of the order does not panic. */
  lemma {:induction false} TurnIsSafe(s: Scheme, x: Tx, served: seq<nat>, g: seq<int>)
    requires Intact(x) && !SendAll(s, x, served + RoundRobin(g)).crashed
    ensures var y := SendAll(s, x, served);
            && Intact(y) && !SendAll(s, y, Positives(g)).crashed
            && SendAll(s, y, Positives(g)) == SendAll(s, x, served + Positives(g))
            && Load(Decrement(g)) == Load(g) - |Positives(g)|
            && RoundRobin(g) == Positives(g) + RoundRobin(Decrement(g))
  {
    hide SendFec, SendAll, Positives;
    DecrementLoad(g);
    var rest := if Positives(g) == [] then [] else RoundRobin(Decrement(g));
    if Positives(g) == [] {
      NothingPositive(g);
      assert Decrement(g) == g;
    }
    ServedSoFar(s, x, served, Positives(g));
    assert served + RoundRobin(g) == served + Positives(g) + rest;
    ServedSoFar(s, x, served + Positives(g), rest);
    SendAllWrites(s, x, served);
  }

  /** What comes before a send order that does not panic does not panic. */
  lemma ServedSoFar(s: Scheme, x: Tx, a: seq<nat>, b: seq<nat>)
    ensures SendAll(s, SendAll(s, x, a), b) == SendAll(s, x, a + b)
    ensures SendAll(s, x, a).crashed ==> SendAll(s, x, a + b).crashed
    decreases |b|
  {
    hide SendFec;
    if b == [] {
      assert a + b == a;
    } else {
      var n := |b| - 1;
      assert (a + b)[..|a + b| - 1] == a + b[..n];
      ServedSoFar(s, x, a, b[..n]);
      SendFecWrites(s, SendAll(s, x, a + b[..n]), b[n]);
    }
  }

  lemma NoPositives(g: seq<int>)
    ensures Positives(g[..0]) == []
  {
  }

  lemma {:induction false} NothingPositive(g: seq<int>)
    requires Positives(g) == []
    ensures forall i :: 0 <= i < |g| ==> g[i] <= 0
  {
    if g != [] {
      var n := |g| - 1;
      assert Positives(g[..n]) == [] && g[n] <= 0;
      NothingPositive(g[..n]);
      assert forall i :: 0 <= i < n ==> g[..n][i] == g[i];
    }
  }

  /** The guidance in the middle of a turn. */
  ghost function Swept(g: seq<int>, i: nat): (r: seq<int>)
    requires i <= |g|
    ensures |r| == |g|
  {
    Decrement(g)[..i] + g[i..]
  }

  lemma SweptNothing(g: seq<int>)
    ensures Swept(g, 0) == g
  {
  }

  lemma SweptNext(g: seq<int>, i: nat)
    requires i < |g|
    ensures Swept(g, i)[i] == g[i]
    ensures Swept(g, i + 1) == if g[i] > 0 then Swept(g, i)[i := g[i] - 1] else Swept(g, i)
  {
    var d := Decrement(g);
    assert d[i] == if g[i] > 0 then g[i] - 1 else g[i];
    hide Decrement;
    assert d[..i + 1] == d[..i] + [d[i]] && g[i..] == [g[i]] + g[i + 1..];
  }

  lemma SweptAll(g: seq<int>)
    ensures Swept(g, |g|) == Decrement(g) && g[..|g|] == g
  {
    assert g[|g|..] == [];
  }

  lemma PositivesNext(g: seq<int>, i: nat)
    requires i < |g|
    ensures Positives(g[..i + 1]) == if g[i] > 0 then Positives(g[..i]) + [i] else Positives(g[..i])
  {
    assert g[..i + 1][..i] == g[..i];
  }

  lemma {:induction false} PositivesSplit(g: seq<int>, i: nat)
    requires i <= |g|
    ensures Positives(g[..i]) <= Positives(g)
  {
    if i == |g| {
      assert g[..i] == g;
    } else {
      var n := |g| - 1;
      assert g[..n][..i] == g[..i];
      PositivesSplit(g[..n], i);
    }
  }

  lemma StepIsSafe(s: Scheme, x: Tx, a: seq<nat>, i: nat, rest: seq<nat>)
    requires Intact(x) && !SendAll(s, x, a + [i] + rest).crashed
    ensures var y := SendAll(s, x, a);
            Intact(y) && !SendFec(s, y, i).crashed && SendFec(s, y, i) == SendAll(s, x, a + [i])
  {
    hide SendFec;
    ServedSoFar(s, x, a + [i], rest);
    assert (a + [i])[..|a|] == a;
    SendFecWrites(s, SendAll(s, x, a), i);
    SendAllWrites(s, x, a);
  }

  /** In the middle of a turn that does not panic, the next slot can be served. */
  lemma {:induction false} NextIsSafe(s: Scheme, x: Tx, g: seq<int>, i: nat)
    requires Intact(x) && i < |g| && g[i] > 0 && !SendAll(s, x, Positives(g)).crashed
    ensures var y := SendAll(s, x, Positives(g[..i]));
            Intact(y) && !SendFec(s, y, i).crashed && SendFec(s, y, i) == SendAll(s, x, Positives(g[..i + 1]))
  {
    hide SendFec, SendAll, Intact;
    var a, b := Positives(g[..i]), Positives(g[..i + 1]);
    assert g[..i + 1][..i] == g[..i];
    assert b == a + [i];
    PositivesSplit(g, i + 1);
    assert Positives(g) == a + [i] + Positives(g)[|b|..];
    StepIsSafe(s, x, a, i, Positives(g)[|b|..]);
  }
}
