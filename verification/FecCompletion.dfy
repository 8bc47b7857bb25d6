/**
  When the receiver is done with a chunk, told by what has been delivered.
 */
module FecCompletion {
  import opened Bytes
  import opened ErasureCode
  import opened Chunk
  import opened Sender
  import opened SenderInvariant
  import opened FecSession
  import R = Receiver

  /** The session as it was when only the first `m` datagrams had been delivered, except that the sender has gone on. */
  function Earlier(x: Session, m: nat): Session
    requires m <= |x.deliveries|
  {
    x.(deliveries := x.deliveries[..m])
  }

  /** Enough shards for reconstruction, and something for it to restore. */
  ghost predicate Restorable(payloads: seq<bytes>, ids: set<nat>) {
    Ready(payloads, ids) && |DataIds(ids, |payloads|)| < |payloads|
  }

  ghost predicate RestorableAfter(x: Session, k: nat, m: nat)
    requires m <= |x.deliveries| && k < |x.tx.ledger|
  {
    Restorable(x.tx.ledger[k].payloads, Arrived(Earlier(x, m), k))
  }

  /** At some moment a parity shard and enough shards of the chunk had arrived while a data shard was still missing. */
  ghost predicate Completed(x: Session, k: nat) {
    k < |x.tx.ledger| && exists m :: 0 <= m <= |x.deliveries| && RestorableAfter(x, k, m)
  }

  ghost predicate Done(x: Session, k: nat) {
    R.HolderOf(x.rx, SeqOf(k)).doneAll
  }

  // ---------- Sender steps ----------

  lemma {:induction false} RestorableStays(s: Scheme, x: Session, y: Session, k: nat, m: nat)
    requires Inv(s, x) && Grows(x.tx, y.tx) && y.deliveries == x.deliveries && k < |x.tx.ledger| && m <= |x.deliveries|
    ensures k < |y.tx.ledger| && (RestorableAfter(y, k, m) <==> RestorableAfter(x, k, m))
  {
    hide R.HolderOk, ChunkOk, RingOk, LedgerOk, Arrived, DataIds;
    HistoryLines(s, x);
    var a, b := Earlier(x, m), Earlier(y, m);
    assert forall i :: 0 <= i < |x.tx.tags| ==> TagOk(x.tx.ledger, x.tx.plain, x.tx.tags[i]);
    forall n | n in a.deliveries ensures n < |a.tx.wire| {
      assert n in x.deliveries;
    }
    ArrivedIsStable(a, b, k);
    if x.tx.ledger[k].parity == 0 {
      NoParityYet(x.tx.ledger[k].payloads, Arrived(a, k));
      assert |x.tx.ledger[k].payloads| <= |y.tx.ledger[k].payloads|;
      NoParityYet(y.tx.ledger[k].payloads, Arrived(a, k));
    }
  }

  lemma NoParityYet(payloads: seq<bytes>, ids: set<nat>)
    requires forall id :: id in ids ==> id < |payloads|
    ensures !Restorable(payloads, ids)
  {
  }

  lemma {:induction false} SenderLeavesCompletion(s: Scheme, x: Session, y: Session, k: nat)
    requires Inv(s, x) && Grows(x.tx, y.tx) && y.rx == x.rx && y.deliveries == x.deliveries && k < |x.tx.ledger|
    ensures Completed(y, k) <==> Completed(x, k)
  {
    hide Inv, RestorableAfter, Grows;
    forall m | 0 <= m <= |x.deliveries|
      ensures k < |y.tx.ledger| && (RestorableAfter(y, k, m) <==> RestorableAfter(x, k, m))
    {
      RestorableStays(s, x, y, k, m);
    }
    LedgerGrows(x.tx, y.tx);
  }

  lemma LedgerGrows(x: Tx, y: Tx)
    requires Grows(x, y)
    ensures |x.ledger| <= |y.ledger|
  {
  }

  lemma {:induction false} NewChunkIsOpen(s: Scheme, x: Session, y: Session, k: nat)
    requires Inv(s, x) && Grows(x.tx, y.tx) && y.rx == x.rx && y.deliveries == x.deliveries
    requires |x.tx.ledger| <= k < |y.tx.ledger| <= SEQ_CYCLE
    ensures !Done(y, k) && !Completed(y, k)
  {
    NewChunkIsUnheld(s, x, k);
    forall m | 0 <= m <= |y.deliveries| ensures !RestorableAfter(y, k, m) {
      NothingArrived(s, x, y, k, m);
      NoParityYet(y.tx.ledger[k].payloads, {});
    }
  }

  lemma NewChunkIsUnheld(s: Scheme, x: Session, k: nat)
    requires Inv(s, x) && |x.tx.ledger| <= k < SEQ_CYCLE
    ensures SeqOf(k) !in x.rx.holders
  {
    forall j | 0 <= j < |x.tx.ledger| ensures SeqOf(j) != SeqOf(k) {
      SeqOfInjective(j, k);
    }
  }

  lemma NothingArrived(s: Scheme, x: Session, y: Session, k: nat, m: nat)
    requires Inv(s, x) && Grows(x.tx, y.tx) && y.deliveries == x.deliveries && |x.tx.ledger| <= k && m <= |y.deliveries|
    ensures Arrived(Earlier(y, m), k) == {}
  {
    hide R.HolderOk, ChunkOk, RingOk, LedgerOk;
    HistoryLines(s, x);
    forall n | n in Earlier(y, m).deliveries ensures n < |x.tx.tags| && !OfChunk(y.tx.tags[n], k) {
      var i :| 0 <= i < m && y.deliveries[i] == n;
      assert TagOk(x.tx.ledger, x.tx.plain, x.tx.tags[x.deliveries[i]]);
    }
  }

  // ---------- Deliveries ----------

  lemma WholeIsEarlier(x: Session)
    ensures Earlier(x, |x.deliveries|) == x
  {
    assert x.deliveries[..|x.deliveries|] == x.deliveries;
  }

  /** One more delivery adds one more moment. */
  lemma {:induction false} CompletedSnoc(x: Session, y: Session, n: nat, k: nat)
    requires y.tx == x.tx && y.deliveries == x.deliveries + [n] && k < |x.tx.ledger|
    ensures Completed(y, k) <==> Completed(x, k) || Restorable(x.tx.ledger[k].payloads, Arrived(y, k))
  {
    hide Arrived, Restorable;
    var d := |x.deliveries|;
    WholeIsEarlier(y);
    forall m | 0 <= m <= d ensures RestorableAfter(y, k, m) <==> RestorableAfter(x, k, m) {
      assert y.deliveries[..m] == x.deliveries[..m];
      SameArrivals(Earlier(x, m), Earlier(y, m), k);
    }
    assert RestorableAfter(y, k, d + 1) <==> Restorable(x.tx.ledger[k].payloads, Arrived(y, k));
  }

  lemma SameArrivals(x: Session, y: Session, k: nat)
    requires x.tx == y.tx && x.deliveries == y.deliveries
    ensures Arrived(x, k) == Arrived(y, k)
  {
  }

  /** A shard of a chunk that is not done: the chunk is done now exactly if something can be restored. */
  lemma {:induction false} ShardCompletes(s: Scheme, x: Session, n: nat, k: nat)
    requires Inv(s, x) && n < |x.tx.wire| && OfChunk(x.tx.tags[n], k) && k < |x.tx.ledger| && !Done(x, k)
    ensures var y := Step(s, x, Deliver(n));
            Done(y, k) <==> Restorable(x.tx.ledger[k].payloads, Arrived(y, k))
  {
    hide R.Receive, R.HolderOk, R.Accept, R.BodyOf, SeqOf, Arrived, Emitted, TxIdle, Issued, ShardId, RxInv;
    DeliverShardShape(s, x, n, k);
    HistoryLines(s, x);
    var y := Step(s, x, Deliver(n));
    var id, payloads := ShardId(x.tx.ledger, x.tx.tags[n]), x.tx.ledger[k].payloads;
    var h := R.HolderOf(x.rx, SeqOf(k));
    HolderOfChunk(s, x, k);
    ArrivedGrows(x, y, n, k);
    ArrivedIssued(s, y, k);
    R.AcceptAnswers(s, SeqOf(k), payloads, Arrived(x, k), h, Emitted(x.rx.out, SeqOf(k)), id);
    assert y.rx.holders[SeqOf(k)] == R.Accept(s, SeqOf(k), h, id, R.BodyOf(s, payloads, id)).0;
  }

  lemma {:induction false} DoneStays(s: Scheme, x: Session, n: nat, k: nat)
    requires Inv(s, x) && n < |x.tx.wire| && OfChunk(x.tx.tags[n], k) && k < |x.tx.ledger| && Done(x, k)
    ensures Done(Step(s, x, Deliver(n)), k)
  {
    hide R.Receive, SeqOf, Arrived, TxIdle, RxInv, R.BodyOf;
    DeliverShardShape(s, x, n, k);
  }

  /** A datagram that is no shard of chunk `k` leaves its holder alone. */
  lemma {:induction false} OthersLeaveTheChunk(s: Scheme, x: Session, n: nat, k: nat)
    requires Inv(s, x) && |x.tx.ledger| <= SEQ_CYCLE && n < |x.tx.wire| && !OfChunk(x.tx.tags[n], k)
    requires k < |x.tx.ledger|
    ensures var y := Step(s, x, Deliver(n)); (Done(y, k) <==> Done(x, k)) && Arrived(y, k) == Arrived(x, k)
  {
    hide R.Receive, TxIdle, RxInv, R.BodyOf, Arrived, R.Accept;
    HistoryLines(s, x);
    ArrivedGrows(x, Step(s, x, Deliver(n)), n, k);
    if x.tx.tags[n].Plain? {
      DeliverPlainShape(s, x, n);
    } else {
      var j := x.tx.tags[n].chunk;
      DeliverShardShape(s, x, n, j);
      SeqOfInjective(if j < k then j else k, if j < k then k else j);
    }
  }

  lemma {:induction false} DeliveryCompletes(s: Scheme, x: Session, n: nat, k: nat)
    requires Inv(s, x) && |x.tx.ledger| <= SEQ_CYCLE && n < |x.tx.wire| && k < |x.tx.ledger|
    requires Done(x, k) <==> Completed(x, k)
    ensures var y := Step(s, x, Deliver(n)); Done(y, k) <==> Completed(y, k)
  {
    hide Inv, Done, Completed, R.Receive, Arrived, Restorable;
    var y := Step(s, x, Deliver(n));
    CompletedSnoc(x, y, n, k);
    if OfChunk(TagAt(s, x, n), k) {
      if Done(x, k) {
        DoneStays(s, x, n, k);
      } else {
        ShardCompletes(s, x, n, k);
      }
    } else {
      OthersLeaveTheChunk(s, x, n, k);
      WholeIsRestorable(x, k);
    }
  }

  ghost function TagAt(s: Scheme, x: Session, n: nat): Tag
    requires Inv(s, x) && n < |x.tx.wire|
    ensures n < |x.tx.tags| && TagAt(s, x, n) == x.tx.tags[n]
  {
    HistoryLines(s, x);
    x.tx.tags[n]
  }

  lemma WholeIsRestorable(x: Session, k: nat)
    requires k < |x.tx.ledger|
    ensures Restorable(x.tx.ledger[k].payloads, Arrived(x, k)) ==> Completed(x, k)
  {
    hide Arrived, Restorable;
    WholeIsEarlier(x);
    assert RestorableAfter(x, k, |x.deliveries|) <==> Restorable(x.tx.ledger[k].payloads, Arrived(x, k));
  }

  // ---------- Runs ----------

  lemma {:induction false} NothingIsDone(s: Scheme, k: nat)
    requires k < |Run(s, []).tx.ledger|
    ensures !Done(Run(s, []), k) && !Completed(Run(s, []), k)
  {
    var x := Run(s, []);
    forall m | 0 <= m <= |x.deliveries| ensures !RestorableAfter(x, k, m) {
      assert Arrived(Earlier(x, m), k) == {};
      NoParityYet(x.tx.ledger[k].payloads, {});
    }
  }

  /**
    In every run: the receiver is done with a chunk exactly when at some moment a parity shard and enough shards of
    the chunk had arrived while a data shard was still missing.
   */
  lemma {:induction false} DoneExactlyWhenCompleted(s: Scheme, events: seq<Event>, k: nat)
    requires Lawful(s) && Admissible(events) && |Run(s, events).tx.ledger| <= SEQ_CYCLE
    requires k < |Run(s, events).tx.ledger|
    ensures Done(Run(s, events), k) <==> Completed(Run(s, events), k)
  {
    hide Inv, Done, Completed, OnPacket, OnEpoch, R.Receive, Grows;
    if events == [] {
      NothingIsDone(s, k);
    } else {
      var n := |events| - 1;
      var x, e := Run(s, events[..n]), events[n];
      var y := Run(s, events);
      LedgerNeverShrinks(s, x, e);
      RunKeeps(s, events[..n]);
      StepKeeps(s, x, e);
      if k < |x.tx.ledger| {
        DoneExactlyWhenCompleted(s, events[..n], k);
        if e.Deliver? {
          if e.index < |x.tx.wire| {
            DeliveryCompletes(s, x, e.index, k);
          }
        } else {
          SenderLeavesCompletion(s, x, y, k);
          SenderLeavesDone(x, y, k);
        }
      } else {
        NewChunkIsOpen(s, x, y, k);
      }
    }
  }

  lemma SenderLeavesDone(x: Session, y: Session, k: nat)
    requires y.rx == x.rx
    ensures Done(y, k) <==> Done(x, k)
  {
  }
}
