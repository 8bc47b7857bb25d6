/**
  The session with a Reed-Solomon code in place of the abstract one: the theorems without any assumption about the
  code, and a run in which reconstruction does all the work.
 */
module FecInstance {
  import opened Bytes
  import opened ErasureCode
  import opened Facility
  import opened Chunk
  import opened Sender
  import opened SenderInvariant
  import opened FecSession
  import opened FecTheorems
  import R = Receiver
  import ReedSolomon
  import ReadFeed

  /** With Reed-Solomon parity and the program's parity table, any sufficient set of shards delivers its chunk. */
  lemma {:induction false} ReedSolomonDelivers(events: seq<Event>, k: nat, j: nat)
    requires Admissible(events) && |Run(ReedSolomon.Code(), events).tx.ledger| <= SEQ_CYCLE
    requires var x := Run(ReedSolomon.Code(), events);
             k < |x.tx.ledger| && j < |x.tx.ledger[k].payloads| <= |Arrived(x, k)|
    ensures var x := Run(ReedSolomon.Code(), events);
            && !x.tx.crashed && !x.rx.crashed
            && R.Emission(SeqOf(k), j, x.tx.ledger[k].payloads[j]) in x.rx.out
            && forall e :: e in x.rx.out ==> IsGenuine(x.tx, e)
  {
    hide Run, ReedSolomon.Code, Arrived, SeqOf, IsGenuine;
    ReedSolomon.CodeIsLawful();
    OnlyGenuinePayloads(ReedSolomon.Code(), events);
    EnoughShardsDeliverTheChunk(ReedSolomon.Code(), events, k, j);
  }

  // ---------- Which chunks survive ----------

  /** With the shipped table, chunks of up to 23 packets have at least as much parity as data. */
  lemma ShippedParity(t: nat)
    requires 1 <= t <= MAX_DATA
    ensures InTable(ReedSolomon.Code(), t)
    ensures t <= ParitySum(ReedSolomon.Code(), t) <==> t <= 23
  {
    assert ParitySum(ReedSolomon.Code(), t) == DEFAULT_TABLE[t - 1];
  }

  /**
    A chunk of up to 23 packets survives all loss and reordering that leaves enough shards exactly when it is
    short.
   */
  lemma {:induction false} SmallChunksSurviveExactlyWhenShort(payloads: seq<bytes>)
    requires 1 <= |payloads| <= 23
    ensures InTable(ReedSolomon.Code(), |payloads|)
    ensures ReadFeed.SurvivesReading(ReedSolomon.Code(), payloads) <==> Short(payloads)
  {
    hide ReedSolomon.Code, ReadFeed.SurvivesReading, Lawful;
    ShippedParity(|payloads|);
    ReedSolomon.CodeIsLawful();
    ReadFeed.SurvivesReadingExactlyWhenShort(ReedSolomon.Code(), payloads);
  }

  /**
    A chunk of any size: payloads of these lengths survive, whatever they hold, exactly when all have 1 to 1640
    bytes.
   */
  lemma {:induction false} ChunksSurviveExactlyByLength(lengths: seq<nat>)
    requires 1 <= |lengths| <= MAX_DATA
    ensures InTable(ReedSolomon.Code(), |lengths|)
    ensures ReadFeed.LengthsSurvive(ReedSolomon.Code(), lengths)
            <==> forall i :: 0 <= i < |lengths| ==> 1 <= lengths[i] <= MAX_PAYLOAD
  {
    hide ReedSolomon.Code, ReadFeed.LengthsSurvive, Lawful, ColumnLaw;
    ShippedParity(|lengths|);
    ReedSolomon.CodeIsLawful();
    ReedSolomon.CodeWorksByColumns();
    ReadFeed.LengthsSurviveExactlyWhenShort(ReedSolomon.Code(), lengths);
  }

  // ---------- A packet restored from parity alone ----------

  lemma {:induction false} OneParity(s: Scheme, x: Tx, payload: bytes)
    requires TxIdle(s, x) && x.ledger == [ChunkLog([payload], 0)] && x.tags == [Data(0, 0)]
    ensures var y := OnEpoch(s, x);
            && |y.tags| >= 2 && y.tags[1] == Parity(0, 0)
            && |y.ledger| == 2 && y.ledger[0].payloads == [payload]
  {
    hide Finish, Drain, SlotOk, WireOk;
    FinishDoes(s, x, 0);
    var y := Finish(s, x);
    FinishKeeps(s, x);
    DrainKeeps(s, y);
    DrainGrows(s, y);
  }

  /** The receiver's facility after a parity shard, perhaps cut, has come first. */
  lemma LoneParityArrives(id: nat, body: bytes)
    requires id == 1 && |body| >= 2 && body[..2] == PackInt16(-1)
    ensures AddShard(FRESH, id, body) == (State([None, Some(body[2..])], 0, 1, 1), true, None)
  {
    Int16RoundTrip(-1);
    var buffer := Extend([], 2);
    assert buffer[1 := Some(body[2..])] == [None, Some(body[2..])];
  }

  function LoneBuffer(n: nat, c: bytes): (buffer: seq<Option<bytes>>)
    requires n >= 2
    ensures |buffer| == n && forall i :: 0 <= i < n ==> buffer[i] == if i == 1 then Some(c) else None
  {
    Extend([None, Some(c)], n)
  }

  lemma LoneBufferIsPadded(n: nat, c: bytes)
    requires n >= 2
    ensures var buffer := LoneBuffer(n, c);
            Width(buffer) == |c| && PadAll(buffer, |c|, true) == buffer && Present(buffer) == {1}
                && OfWidth(buffer, |c|)
  {
    var buffer := LoneBuffer(n, c);
    assert SizeOf(buffer[1]) == |c|;
    hide Extend;
  }

  /** Reconstruction from parity of a single packet, as far as it was read. */
  lemma LoneReconstruct(s: Scheme, c: bytes)
    requires Lawful(s)
    ensures var r := Reconstruct(s, State([None, Some(c)], 0, 1, 1)).1;
            var data := s.recover(1, ParitySum(s, 1), LoneBuffer(1 + ParitySum(s, 1), c));
            && (data.Some? ==> forall i :: 0 <= i < |data.value| ==> |data.value[i]| == |c|)
            && (r.Recovered? ==>
                  data.Some? && Strippable(data.value) && r.payloads == StripAll(data.value) && |r.payloads| == 1)
            && (data.Some? && |data.value| == 1 && Strippable(data.value) ==> r.Recovered?)
  {
    TableFits(s, 1);
    LoneBufferIsPadded(1 + ParitySum(s, 1), c);
    hide Extend, Width, PadAll, Present, RecoveryLaw, EncoderLaw;
  }

  lemma StripShortens(shard: bytes)
    requires |shard| >= 2
    ensures |Strip(shard)| <= |shard| - 2
  {
  }

  lemma LoneWidth(payload: bytes)
    ensures ShardWidth([payload]) == |payload| + 2
  {
    WidthBound([payload], |payload|);
    var all := Somes(Wrapped([payload]));
    assert SizeOf(all[0]) == |payload| + 2;
  }

  lemma {:induction false} UncutParityRestores(s: Scheme, payload: bytes, c: bytes)
    requires Closable(s, [payload]) && |ParityShards(s, [payload])| == ParitySum(s, 1) && |payload| <= MAX_PAYLOAD
    requires c == ParityShards(s, [payload])[0]
    ensures Reconstruct(s, State([None, Some(c)], 0, 1, 1)).1 == Recovered([payload])
  {
    LoneReconstruct(s, c);
    hide Reconstruct, Strip, Lawful, ParityShards, Width, PadAll;
    var n := 1 + ParitySum(s, 1);
    assert Kept(s, [payload], 1) == c;
    assert HoldsWord(s, [payload], {1}, LoneBuffer(n, c));
    assert 1 in ParityIds({1}, 1);
    RecoverFromAny(s, [payload], {1}, LoneBuffer(n, c));
    LoneBufferIsPadded(n, c);
    StripAllPadded([payload]);
  }

  lemma {:induction false} CutParityDoesNot(s: Scheme, payload: bytes, c: bytes)
    requires Lawful(s) && |c| == MAX_PAYLOAD + 2 && |payload| > MAX_PAYLOAD
    ensures Reconstruct(s, State([None, Some(c)], 0, 1, 1)).1 != Recovered([payload])
  {
    LoneReconstruct(s, c);
    hide Reconstruct, Strip, Lawful;
    var r := Reconstruct(s, State([None, Some(c)], 0, 1, 1)).1;
    if r.Recovered? {
      var data := s.recover(1, ParitySum(s, 1), LoneBuffer(1 + ParitySum(s, 1), c)).value;
      StripShortens(data[0]);
      assert r.payloads[0] == Strip(data[0]);
    }
  }

  /** The parity shard of one packet gives it back exactly if it came through uncut. */
  lemma {:induction false} LoneParityRestores(s: Scheme, payload: bytes, c: bytes)
    requires Closable(s, [payload]) && |ParityShards(s, [payload])| == ParitySum(s, 1)
    requires c == R.ReadPart(ParityBody(s, [payload], 0))[2..]
    ensures Reconstruct(s, State([None, Some(c)], 0, 1, 1)).1 == Recovered([payload]) <==> |payload| <= MAX_PAYLOAD
  {
    WidthFacts(s, [payload]);
    LoneWidth(payload);
    hide Reconstruct, Lawful, ParityShards, PackInt16;
    var shard, h := ParityShards(s, [payload])[0], PackInt16(-1);
    assert |shard| == |payload| + 2;
    if |payload| <= MAX_PAYLOAD {
      assert (h + shard)[2..] == shard;
      UncutParityRestores(s, payload, c);
    } else {
      CutParityDoesNot(s, payload, c);
    }
  }

  /** What the receiver puts out when parity of a single packet is all it ever gets. */
  lemma {:induction false} LoneParityAnswers(s: Scheme, payload: bytes)
    requires Closable(s, [payload]) && |ParityShards(s, [payload])| == ParitySum(s, 1)
    ensures R.Emission(1, 0, payload) in R.OnShard(s, R.INIT, 1, 1, R.ReadPart(ParityBody(s, [payload], 0))).out
            <==> |payload| <= MAX_PAYLOAD
  {
    var body := R.ReadPart(ParityBody(s, [payload], 0));
    assert body[..2] == PackInt16(-1);
    LoneParityArrives(1, body);
    LoneParityRestores(s, payload, body[2..]);
    hide Reconstruct, AddShard, ParityBody;
    var r := Reconstruct(s, State([None, Some(body[2..])], 0, 1, 1)).1;
    if r.Recovered? && |r.payloads| == 1 {
      R.MissingIsTheRest(1, r.payloads, R.NewHolder().doneBitmap, 0);
    }
  }

  /**
    A packet whose data shard is lost comes out of its first parity shard exactly when it has at most 1640 bytes.
    With one byte more, the receiver's read buffer cuts the parity shard.
   */
  lemma {:induction false} ParityAloneRestoresExactly(payload: bytes)
    ensures var x := Run(ReedSolomon.Code(), [Submit(payload, true), EpochTimer, Deliver(1)]);
            && x.deliveries == [1] && |x.tx.tags| > 1 && x.tx.tags[1].Parity?
            && (R.Emission(1, 0, payload) in x.rx.out <==> |payload| <= MAX_PAYLOAD)
  {
    hide OnPacket, OnEpoch, R.Receive, ReedSolomon.Code, TxIdle, R.OnShard, ParityBody;
    var s := ReedSolomon.Code();
    ReedSolomon.CodeIsLawful();
    var a, b, c := Submit(payload, true), EpochTimer, Deliver(1);
    assert Run(s, []) == Session(Init(), R.INIT, []);
    RunSnoc(s, [], a);
    RunSnoc(s, [a], b);
    RunSnoc(s, [a, b], c);
    assert [] + [a] == [a] && [a] + [b] == [a, b] && [a, b] + [c] == [a, b, c];
    FirstPacket(s, payload);
    SenderKeeps(s, [a]);
    OneParity(s, Run(s, [a]).tx, payload);
    SenderKeeps(s, [a, b]);
    var x := Run(s, [a, b]);
    WireIsTagged(s, x.tx);
    WireParity(s, x.tx, 1, 0, 0);
    ReceiveReadsHead(s, R.INIT, 1, 1, ParityBody(s, [payload], 0));
    WidthFacts(s, [payload]);
    LoneParityAnswers(s, payload);
  }

  lemma WireIsTagged(s: Scheme, x: Tx)
    requires TxIdle(s, x)
    ensures |x.wire| == |x.tags| && TxInv(s, x)
  {
  }
}
