/**
  Sender, network and receiver together. The network may lose, delay, reorder and repeat datagrams.

  The theorems hold for every erasure code that obeys its law, every sequence of events, and every
  choice of payloads of admissible length, as long as the 32-bit sequence number has not wrapped.
 */
module FecSession {
  import opened Bytes
  import opened ErasureCode
  import opened Facility
  import opened Chunk
  import opened Sender
  import opened SenderInvariant
  import R = Receiver

  /** `deliveries` lists the wire positions of the datagrams handed to the receiver, in order. */
  datatype Session = Session(tx: Tx, rx: R.Rx, deliveries: seq<nat>)

  datatype Event =
    | Submit(payload: bytes, fecEnabled: bool)
    | EpochTimer
    | Deliver(index: nat)

  function Step(s: Scheme, x: Session, e: Event): Session {
    match e
    case Submit(payload, fecEnabled) => x.(tx := OnPacket(s, x.tx, payload, fecEnabled))
    case EpochTimer => x.(tx := OnEpoch(s, x.tx))
    case Deliver(n) =>
      if n < |x.tx.wire| then
        x.(rx := R.Receive(s, x.rx, x.tx.wire[n]), deliveries := x.deliveries + [n])
      else x
  }

  function Run(s: Scheme, events: seq<Event>): Session {
    if events == [] then Session(Init(), R.INIT, [])
    else Step(s, Run(s, events[..|events| - 1]), events[|events| - 1])
  }

  lemma RunSnoc(s: Scheme, events: seq<Event>, e: Event)
    ensures Run(s, events + [e]) == Step(s, Run(s, events), e)
  {
    assert (events + [e])[..|events|] == events;
  }

  /** Protected payloads have 1 to 1640 bytes. */
  ghost predicate Fitting(e: Event) {
    e.Submit? && e.fecEnabled ==> 1 <= |e.payload| <= MAX_PAYLOAD
  }

  ghost predicate Admissible(events: seq<Event>) {
    forall i :: 0 <= i < |events| ==> Fitting(events[i])
  }

  // ---------- Growth of the sender's history ----------

  ghost predicate Grows(x: Tx, y: Tx) {
    x.tags <= y.tags && x.wire <= y.wire && x.plain <= y.plain && Extends(x.ledger, y.ledger)
  }

  lemma GrowsTransitively(x: Tx, y: Tx, z: Tx)
    requires Grows(x, y) && Grows(y, z)
    ensures Grows(x, z)
  {
    assert forall k :: 0 <= k < |x.ledger| ==> x.ledger[k].payloads <= y.ledger[k].payloads;
  }

  lemma FinishGrows(s: Scheme, x: Tx)
    requires Intact(x)
    ensures Grows(x, Finish(s, x))
  {
    hide PackPacket, Construct, CanConstruct, NextSeq;
  }

  lemma SendFecGrows(s: Scheme, x: Tx, i: nat)
    ensures Grows(x, SendFec(s, x, i))
  {
    hide PackPacket, Construct, CanConstruct;
  }

  lemma {:induction false} SendAllGrows(s: Scheme, x: Tx, order: seq<nat>)
    ensures Grows(x, SendAll(s, x, order))
  {
    if order != [] {
      var n := |order| - 1;
      SendAllGrows(s, x, order[..n]);
      SendFecGrows(s, SendAll(s, x, order[..n]), order[n]);
      GrowsTransitively(x, SendAll(s, x, order[..n]), SendAll(s, x, order));
    }
  }

  lemma DrainGrows(s: Scheme, x: Tx)
    ensures Grows(x, Drain(s, x))
  {
    var quota := SOFT_LIMIT - x.sentThisEpoch;
    if quota > 0 && AllReadable(s, x.ring) {
      SendAllGrows(s, x, RoundRobin(Guidance(s, x.ring, x.epoch, quota)));
    }
  }

  lemma EpochGrows(s: Scheme, x: Tx)
    ensures Grows(x, OnEpoch(s, x))
  {
    if Intact(x) {
      var y := if x.ring[x.cur].dataShardWithin != 0 then Finish(s, x) else x;
      FinishGrows(s, x);
      DrainGrows(s, y);
      GrowsTransitively(x, y, Drain(s, y));
    }
  }

  lemma AddPacketGrows(x: Tx, payload: bytes)
    requires Intact(x) && x.ledger[|x.ledger| - 1].parity == 0
    ensures Grows(x, AddPacket(x, payload))
  {
    hide PackPacket, AddData;
  }

  lemma UnprotectedGrows(x: Tx, payload: bytes)
    ensures Grows(x, x) && Grows(x, SendPlain(x, payload))
  {
  }

  lemma {:induction false} PacketGrows(s: Scheme, x: Tx, payload: bytes, fecEnabled: bool)
    requires TxIdle(s, x)
    ensures Grows(x, OnPacket(s, x, payload, fecEnabled))
  {
    hide SlotOk, WireOk, Lawful, Finish, Grows;
    assert Grows(x, x) && Grows(x, SendPlain(x, payload)) by {
      UnprotectedGrows(x, payload);
    }
    if fecEnabled {
      AddPacketGrows(x, payload);
      var y := AddPacket(x, payload);
      if !y.crashed && y.ring[y.cur].dataShardWithin >= MAX_DATA {
        FinishGrows(s, y);
        GrowsTransitively(x, y, Finish(s, y));
      }
    }
  }

  // ---------- Invariant ----------

  /** The payloads of all chunks, in order. */
  function Flatten(ledger: seq<ChunkLog>): seq<bytes> {
    if ledger == [] then [] else Flatten(ledger[..|ledger| - 1]) + ledger[|ledger| - 1].payloads
  }

  lemma {:induction false} ShortChunk(ledger: seq<ChunkLog>, k: nat)
    requires k < |ledger| && Short(Flatten(ledger))
    ensures Short(ledger[k].payloads) && Sendable(ledger[k].payloads)
  {
    var n := |ledger| - 1;
    var init := Flatten(ledger[..n]);
    if k < n {
      assert forall i :: 0 <= i < |init| ==> init[i] == Flatten(ledger)[i];
      ShortChunk(ledger[..n], k);
    } else {
      forall i | 0 <= i < |ledger[n].payloads| ensures 1 <= |ledger[n].payloads[i]| <= MAX_PAYLOAD {
        assert Flatten(ledger)[|init| + i] == ledger[n].payloads[i];
      }
    }
  }

  predicate OfChunk(tag: Tag, k: nat) {
    !tag.Plain? && tag.chunk == k
  }

  function ShardId(ledger: seq<ChunkLog>, tag: Tag): nat {
    match tag
    case Data(_, j) => j
    case Parity(k, j) => if k < |ledger| then |ledger[k].payloads| + j else j
    case Plain(_) => 0
  }

  /** The distinct shard numbers of chunk `k` that have reached the receiver. */
  function Arrived(x: Session, k: nat): set<nat> {
    set n | n in x.deliveries && n < |x.tx.tags| && OfChunk(x.tx.tags[n], k) :: ShardId(x.tx.ledger, x.tx.tags[n])
  }

  /** The payload numbers put out under sequence number `seqNo`. */
  function Emitted(out: seq<R.Emission>, seqNo: nat): set<nat> {
    set e | e in out && e.seqNo == seqNo :: e.id
  }

  ghost predicate ChunkOk(s: Scheme, x: Session, k: nat)
    requires k < |x.tx.ledger|
  {
    var seqNo := SeqOf(k);
    if seqNo in x.rx.holders then
      && R.HolderOk(s, x.tx.ledger[k].payloads, Arrived(x, k), x.rx.holders[seqNo], Emitted(x.rx.out, seqNo))
      && (x.rx.holders[seqNo].doneAll ==> x.tx.ledger[k].parity > 0)
    else Arrived(x, k) == {} && Emitted(x.rx.out, seqNo) == {}
  }

  /**
    An emission is a payload of the chunk and the position it was found under, or what is read of an unprotected
    one.
   */
  ghost predicate IsGenuine(x: Tx, e: R.Emission) {
    if e.seqNo == 0 then exists j :: 0 <= j < |x.plain| && e.payload == R.ReadPart(x.plain[j])
    else exists k :: 0 <= k < |x.ledger| && e.seqNo == SeqOf(k)
                     && e.id < |x.ledger[k].payloads| && e.payload == x.ledger[k].payloads[e.id]
  }

  ghost predicate RxInv(s: Scheme, x: Session) {
    && !x.rx.crashed
    && (forall n :: n in x.deliveries ==> n < |x.tx.wire|)
    && (forall k :: 0 <= k < |x.tx.ledger| ==> ChunkOk(s, x, k))
    && (forall q :: q in x.rx.holders ==> exists k :: 0 <= k < |x.tx.ledger| && q == SeqOf(k))
    && (forall e :: e in x.rx.out ==> IsGenuine(x.tx, e))
  }

  ghost predicate Inv(s: Scheme, x: Session) {
    TxIdle(s, x.tx) && RxInv(s, x) && Short(Flatten(x.tx.ledger))
  }

  // ---------- Sender steps ----------

  lemma HistoryLines(s: Scheme, x: Session)
    requires Inv(s, x)
    ensures |x.tx.wire| == |x.tx.tags| && TxInv(s, x.tx) && Grows(x.tx, x.tx) && !x.rx.crashed
    ensures forall i :: 0 <= i < |x.deliveries| ==>
              x.deliveries[i] < |x.tx.tags| && TagOk(x.tx.ledger, x.tx.plain, x.tx.tags[x.deliveries[i]])
    ensures forall j :: 0 <= j < |x.tx.tags| && x.tx.tags[j].Plain? ==> x.tx.tags[j].index < |x.tx.plain|
  {
    forall i | 0 <= i < |x.deliveries|
      ensures x.deliveries[i] < |x.tx.tags| && TagOk(x.tx.ledger, x.tx.plain, x.tx.tags[x.deliveries[i]])
    {
      assert x.deliveries[i] in x.deliveries;
    }
    assert forall j :: 0 <= j < |x.tx.tags| ==> TagOk(x.tx.ledger, x.tx.plain, x.tx.tags[j]);
  }

  lemma ArrivedIsStable(x: Session, y: Session, k: nat)
    requires k < |x.tx.ledger| && Grows(x.tx, y.tx) && y.deliveries == x.deliveries
    requires |x.tx.wire| == |x.tx.tags| && forall n :: n in x.deliveries ==> n < |x.tx.wire|
    requires forall i :: 0 <= i < |x.tx.tags| ==> TagOk(x.tx.ledger, x.tx.plain, x.tx.tags[i])
    ensures Arrived(y, k) == Arrived(x, k)
    ensures x.tx.ledger[k].parity == 0 ==> forall id :: id in Arrived(x, k) ==> id < |x.tx.ledger[k].payloads|
  {
    forall n | n in x.deliveries
      ensures n < |x.tx.tags| && y.tx.tags[n] == x.tx.tags[n]
      ensures ShardId(y.tx.ledger, x.tx.tags[n]) == ShardId(x.tx.ledger, x.tx.tags[n])
    {
      assert TagOk(x.tx.ledger, x.tx.plain, x.tx.tags[n]);
    }
  }

  /** A chunk that is still open may gain payloads without disturbing what the receiver holds. */
  lemma HolderStable(s: Scheme, old_: ChunkLog, new_: ChunkLog, ids: set<nat>, h: R.Holder, emitted: set<nat>)
    requires R.HolderOk(s, old_.payloads, ids, h, emitted) && (h.doneAll ==> old_.parity > 0)
    requires old_.payloads <= new_.payloads && (old_.parity > 0 ==> old_.payloads == new_.payloads)
    requires old_.parity == 0 ==> forall id :: id in ids ==> id < |old_.payloads|
    requires Lawful(s) && Sendable(new_.payloads) && |new_.payloads| <= MAX_DATA
    ensures R.HolderOk(s, new_.payloads, ids, h, emitted)
  {
    if old_.parity == 0 {
      assert DataIds(ids, |new_.payloads|) == DataIds(ids, |old_.payloads|);
      assert ParityIds(ids, |new_.payloads|) == ParityIds(ids, |old_.payloads|);
      assert Holds(s, new_.payloads, ids, h.ef.buffer);
    }
  }

  lemma {:induction false} SenderStepKeeps(s: Scheme, x: Session, y: Session)
    requires Inv(s, x) && TxInv(s, y.tx) && Grows(x.tx, y.tx)
    requires y.rx == x.rx && y.deliveries == x.deliveries && |y.tx.ledger| <= SEQ_CYCLE
    requires Short(Flatten(y.tx.ledger))
    ensures RxInv(s, y)
  {
    hide Arrived, Emitted, SeqOf, R.HolderOk, Short, Flatten, RingOk, LedgerOk, Grows;
    forall k | 0 <= k < |y.tx.ledger| ensures ChunkOk(s, y, k) {
      if k < |x.tx.ledger| {
        KnownChunkKeeps(s, x, y, k);
      } else {
        NewChunkUntouched(s, x, y, k);
      }
    }
    StillGenuine(x, y);
    StillOnTheWire(s, x, y);
  }

  lemma StillOnTheWire(s: Scheme, x: Session, y: Session)
    requires RxInv(s, x) && Grows(x.tx, y.tx) && y.rx == x.rx && y.deliveries == x.deliveries
    ensures forall n :: n in y.deliveries ==> n < |y.tx.wire|
    ensures forall q :: q in y.rx.holders ==> exists k :: 0 <= k < |y.tx.ledger| && q == SeqOf(k)
  {
    hide ChunkOk, IsGenuine, SeqOf;
  }

  lemma StillGenuine(x: Session, y: Session)
    requires Grows(x.tx, y.tx) && y.rx == x.rx && forall e :: e in x.rx.out ==> IsGenuine(x.tx, e)
    ensures forall e :: e in y.rx.out ==> IsGenuine(y.tx, e)
  {
    forall e | e in y.rx.out ensures IsGenuine(y.tx, e) {
      GenuineStays(x.tx, y.tx, e);
    }
  }

  lemma GenuineStays(x: Tx, y: Tx, e: R.Emission)
    requires Grows(x, y) && IsGenuine(x, e)
    ensures IsGenuine(y, e)
  {
    hide SeqOf, R.ReadPart;
    if e.seqNo == 0 {
      var j :| 0 <= j < |x.plain| && e.payload == R.ReadPart(x.plain[j]);
      assert y.plain[j] == x.plain[j];
    } else {
      var k :| 0 <= k < |x.ledger| && e.seqNo == SeqOf(k)
               && e.id < |x.ledger[k].payloads| && e.payload == x.ledger[k].payloads[e.id];
      assert x.ledger[k].payloads <= y.ledger[k].payloads;
    }
  }

  lemma {:induction false} KnownChunkKeeps(s: Scheme, x: Session, y: Session, k: nat)
    requires Inv(s, x) && TxInv(s, y.tx) && Grows(x.tx, y.tx) && y.rx == x.rx && y.deliveries == x.deliveries
    requires Short(Flatten(y.tx.ledger)) && k < |x.tx.ledger|
    ensures k < |y.tx.ledger| && ChunkOk(s, y, k)
  {
    hide Arrived, Emitted, SeqOf, R.HolderOk, Short, Flatten, RingOk;
    assert ChunkOk(s, x, k);
    ArrivedIsStable(x, y, k);
    ShortChunk(y.tx.ledger, k);
    assert k < |y.tx.ledger| - 1 ==> ClosedChunk(s, y.tx.ledger[k]);
    if SeqOf(k) in x.rx.holders {
      var h, emitted := x.rx.holders[SeqOf(k)], Emitted(x.rx.out, SeqOf(k));
      HolderStable(s, x.tx.ledger[k], y.tx.ledger[k], Arrived(x, k), h, emitted);
    }
  }

  lemma NewChunkUntouched(s: Scheme, x: Session, y: Session, k: nat)
    requires Inv(s, x) && Grows(x.tx, y.tx) && y.rx == x.rx && y.deliveries == x.deliveries
    requires |x.tx.ledger| <= k < |y.tx.ledger| <= SEQ_CYCLE
    ensures ChunkOk(s, y, k)
  {
    forall j | 0 <= j < |x.tx.ledger| ensures SeqOf(j) != SeqOf(k) {
      SeqOfInjective(j, k);
    }
    forall e | e in x.rx.out ensures e.seqNo != SeqOf(k) {
      assert IsGenuine(x.tx, e);
    }
    forall n | n in x.deliveries ensures n < |x.tx.tags| && !OfChunk(y.tx.tags[n], k) {
      assert TagOk(x.tx.ledger, x.tx.plain, x.tx.tags[n]);
    }
  }

  // ---------- Deliveries ----------

  lemma SmallId(id: nat)
    requires id < 0x1_0000
    ensures id % 0x1_0000 == id
  {
  }

  lemma {:induction false} ReceiveReadsHead(s: Scheme, x: R.Rx, seqNo: nat, id: nat, body: bytes)
    requires seqNo < 0x1_0000_0000 && id < 0x1_0000 && !x.crashed
    ensures R.Receive(s, x, PackPacket(seqNo, id, body))
         == if seqNo == 0 then x.(out := x.out + [R.Emission(0, 0, R.ReadPart(body))])
            else R.OnShard(s, x, seqNo, id, R.ReadPart(body))
  {
    hide UnpackUint16, UnpackUint32, R.OnShard, R.ReadPart, PackPacket, PackUint16, PackUint32;
    Uint32RoundTrip(seqNo);
    Uint16RoundTrip(id);
    DatagramParts(seqNo, id, body);
  }

  /** What is read of a datagram: its head, which is never cut, and what is read of its body. */
  lemma DatagramParts(seqNo: nat, id: nat, body: bytes)
    requires seqNo < 0x1_0000_0000 && id < 0x1_0000
    ensures var d := PackPacket(seqNo, id, body);
            var r := if |d| > R.READ_BUFFER then d[..R.READ_BUFFER] else d;
            |r| >= 6 && r[..4] == PackUint32(seqNo) && r[4..6] == PackUint16(id) && r[6..] == R.ReadPart(body)
  {
    SmallId(id);
    hide PackUint16, PackUint32;
    Parts(PackUint32(seqNo), PackUint16(id), body);
  }

  lemma Parts(a: bytes, b: bytes, body: bytes)
    requires |a| == 4 && |b| == 2
    ensures var d := a + b + body;
            var r := if |d| > R.READ_BUFFER then d[..R.READ_BUFFER] else d;
            |r| >= 6 && r[..4] == a && r[4..6] == b && r[6..] == R.ReadPart(body)
  {
    var d := a + b + body;
    var r := if |d| > R.READ_BUFFER then d[..R.READ_BUFFER] else d;
    if |d| > R.READ_BUFFER {
      CutBehind(a + b, body, R.READ_BUFFER);
    }
    assert r == a + b + R.ReadPart(body);
    hide R.ReadPart;
    ThreeParts(a, b, R.ReadPart(body));
  }

  lemma CutBehind(h: bytes, body: bytes, k: nat)
    requires |h| <= k <= |h| + |body|
    ensures (h + body)[..k] == h + body[..k - |h|]
  {
  }

  lemma ThreeParts(a: bytes, b: bytes, c: bytes)
    ensures var d := a + b + c;
            d[..|a|] == a && d[|a|..|a| + |b|] == b && d[|a| + |b|..] == c
  {
    var d := a + b + c;
    assert d[..|a|] == a;
    assert d[|a|..|a| + |b|] == b;
    assert d[|a| + |b|..] == c;
  }

  lemma WireData(s: Scheme, x: Tx, n: nat, k: nat, j: nat)
    requires TxInv(s, x) && n < |x.tags| && x.tags[n] == Data(k, j)
    ensures k < |x.ledger| && j < |x.ledger[k].payloads| <= MAX_DATA
    ensures x.wire[n] == PackPacket(SeqOf(k), j, Wrap(x.ledger[k].payloads[j]))
  {
    assert TagOk(x.ledger, x.plain, x.tags[n]);
    assert k < |x.ledger| - 1 ==> ClosedChunk(s, x.ledger[k]);
  }

  lemma WireParity(s: Scheme, x: Tx, n: nat, k: nat, j: nat)
    requires TxInv(s, x) && n < |x.tags| && x.tags[n] == Parity(k, j)
    ensures k < |x.ledger| && ClosedChunk(s, x.ledger[k]) && j < x.ledger[k].parity
    ensures Encoded(s, x.ledger[k].payloads, j) && x.wire[n] == ParityDatagram(s, k, x.ledger[k].payloads, j)
  {
    hide RingOk, Lawful;
    assert TagOk(x.ledger, x.plain, x.tags[n]);
    assert ClosedChunk(s, x.ledger[k]);
    WidthFacts(s, x.ledger[k].payloads);
  }

  /** A protected datagram on the wire is the shard of the chunk that its tag names. */
  lemma WireShard(s: Scheme, x: Tx, n: nat, k: nat)
    requires TxInv(s, x) && n < |x.tags| && OfChunk(x.tags[n], k)
    ensures k < |x.ledger|
    ensures var payloads, id := x.ledger[k].payloads, ShardId(x.ledger, x.tags[n]);
            && x.wire[n] == PackPacket(SeqOf(k), id, R.BodyOf(s, payloads, id))
            && (id < |payloads| <==> x.tags[n].Data?)
            && id < 256
            && (id >= |payloads| ==> x.ledger[k].parity > 0
                                     && InTable(s, |payloads|) && id < |payloads| + ParitySum(s, |payloads|))
  {
    hide RingOk, LedgerOk, WireOk, Lawful;
    if x.tags[n].Data? {
      WireData(s, x, n, k, x.tags[n].index);
    } else {
      WireParity(s, x, n, k, x.tags[n].index);
      TableFits(s, |x.ledger[k].payloads|);
    }
  }

  lemma ArrivedIssued(s: Scheme, x: Session, k: nat)
    requires TxInv(s, x.tx) && k < |x.tx.ledger| && Short(Flatten(x.tx.ledger))
    ensures Issued(s, x.tx.ledger[k].payloads, Arrived(x, k))
    ensures ParityIds(Arrived(x, k), |x.tx.ledger[k].payloads|) != {} ==> x.tx.ledger[k].parity > 0
  {
    var c := x.tx.ledger[k];
    ShortChunk(x.tx.ledger, k);
    assert k < |x.tx.ledger| - 1 ==> ClosedChunk(s, c);
    forall id | id in Arrived(x, k)
      ensures id >= |c.payloads| ==> InTable(s, |c.payloads|) && id < |c.payloads| + ParitySum(s, |c.payloads|)
      ensures id >= |c.payloads| ==> c.parity > 0
    {
      var n :| n in x.deliveries && n < |x.tx.tags| && OfChunk(x.tx.tags[n], k)
          && id == ShardId(x.tx.ledger, x.tx.tags[n]);
      WireShard(s, x.tx, n, k);
    }
  }

  lemma ArrivedGrows(x: Session, y: Session, n: nat, k: nat)
    requires y.tx == x.tx && y.deliveries == x.deliveries + [n] && n < |x.tx.tags|
    ensures OfChunk(x.tx.tags[n], k) ==> Arrived(y, k) == Arrived(x, k) + {ShardId(x.tx.ledger, x.tx.tags[n])}
    ensures !OfChunk(x.tx.tags[n], k) ==> Arrived(y, k) == Arrived(x, k)
  {
    forall m ensures m in y.deliveries <==> m in x.deliveries || m == n {}
  }

  lemma EmittedGrows(out: seq<R.Emission>, es: seq<R.Emission>, seqNo: nat)
    ensures Emitted(out + es, seqNo) == Emitted(out, seqNo) + Emitted(es, seqNo)
    ensures (forall e :: e in es ==> e.seqNo != seqNo) ==> Emitted(out + es, seqNo) == Emitted(out, seqNo)
    ensures (forall e :: e in es ==> e.seqNo == seqNo) ==> Emitted(es, seqNo) == R.Ids(es)
  {
    forall e ensures e in out + es <==> e in out || e in es {}
  }

  lemma DeliverPlainShape(s: Scheme, x: Session, n: nat)
    requires Inv(s, x) && n < |x.tx.wire| && x.tx.tags[n].Plain?
    ensures x.tx.tags[n].index < |x.tx.plain|
    ensures Step(s, x, Deliver(n)).rx
         == x.rx.(out := x.rx.out + [R.Emission(0, 0, R.ReadPart(x.tx.plain[x.tx.tags[n].index]))])
  {
    assert TagOk(x.tx.ledger, x.tx.plain, x.tx.tags[n]);
    ReceiveReadsHead(s, x.rx, 0, 0, x.tx.plain[x.tx.tags[n].index]);
  }

  lemma PlainAnswerKeeps(s: Scheme, x: Session, y: Session, n: nat, e: R.Emission)
    requires RxInv(s, x) && n < |x.tx.wire| == |x.tx.tags| && x.tx.tags[n].Plain?
    requires y.tx == x.tx && y.deliveries == x.deliveries + [n] && y.rx == x.rx.(out := x.rx.out + [e])
    requires e.seqNo == 0 && IsGenuine(x.tx, e)
    ensures RxInv(s, y)
  {
    hide R.HolderOk;
    forall k | 0 <= k < |y.tx.ledger| ensures ChunkOk(s, y, k) {
      assert ChunkOk(s, x, k);
      ArrivedGrows(x, y, n, k);
      EmittedGrows(x.rx.out, [e], SeqOf(k));
    }
    forall f | f in y.rx.out ensures IsGenuine(y.tx, f) {
      assert f in x.rx.out ==> IsGenuine(x.tx, f);
    }
  }

  /** What a shard of chunk `k` does to the receiver. */
  ghost predicate ShardAnswered(s: Scheme, x: Session, y: Session, k: nat, id: nat, es: seq<R.Emission>)
    requires k < |x.tx.ledger|
  {
    var seqNo, payloads := SeqOf(k), x.tx.ledger[k].payloads;
    && y.tx == x.tx && !y.rx.crashed
    && (forall q :: q in y.rx.holders <==> q in x.rx.holders || q == seqNo)
    && (forall q :: q in x.rx.holders && q != seqNo ==> y.rx.holders[q] == x.rx.holders[q])
    && y.rx.out == x.rx.out + es && R.Genuine(seqNo, payloads, es)
    && ChunkOk(s, y, k)
  }

  lemma {:induction false} OtherChunksKeep(
    s: Scheme, x: Session, y: Session, n: nat, k: nat, id: nat, es: seq<R.Emission>)
    requires Inv(s, x) && |x.tx.ledger| <= SEQ_CYCLE && n < |x.tx.wire| && OfChunk(x.tx.tags[n], k) && k < |x.tx.ledger|
    requires y.deliveries == x.deliveries + [n] && ShardAnswered(s, x, y, k, id, es)
    ensures RxInv(s, y)
  {
    hide R.HolderOk;
    forall j | 0 <= j < |y.tx.ledger| ensures ChunkOk(s, y, j) {
      if j != k {
        assert ChunkOk(s, x, j);
        SeqOfInjective(if j < k then j else k, if j < k then k else j);
        ArrivedGrows(x, y, n, j);
        EmittedGrows(x.rx.out, es, SeqOf(j));
      }
    }
    forall e | e in y.rx.out ensures IsGenuine(y.tx, e) {
      if e in es {
        assert e.seqNo == SeqOf(k);
      }
    }
  }

  lemma HolderOfChunk(s: Scheme, x: Session, k: nat)
    requires Inv(s, x) && k < |x.tx.ledger|
    ensures R.HolderOk(s, x.tx.ledger[k].payloads, Arrived(x, k), R.HolderOf(x.rx, SeqOf(k)), Emitted(x.rx.out,
            SeqOf(k)))
    ensures R.HolderOf(x.rx, SeqOf(k)).doneAll ==> x.tx.ledger[k].parity > 0
  {
    assert ChunkOk(s, x, k);
    var c := x.tx.ledger[k];
    ShortChunk(x.tx.ledger, k);
    assert k < |x.tx.ledger| - 1 ==> ClosedChunk(s, c);
    if SeqOf(k) !in x.rx.holders {
      R.NewHolderOk(s, c.payloads);
    }
  }

  /** What the receiver puts out for shard `id` of chunk `k`. */
  function Answer(s: Scheme, x: Session, k: nat, id: nat): seq<R.Emission>
    requires k < |x.tx.ledger|
  {
    var h := R.HolderOf(x.rx, SeqOf(k));
    if h.doneAll then [] else R.Accept(s, SeqOf(k), h, id, R.BodyOf(s, x.tx.ledger[k].payloads, id)).1
  }

  lemma {:induction false} DeliverShardShape(s: Scheme, x: Session, n: nat, k: nat)
    requires Inv(s, x) && n < |x.tx.wire| && OfChunk(x.tx.tags[n], k)
    ensures k < |x.tx.ledger|
    ensures Step(s, x, Deliver(n)).rx
         == R.OnShard(s, x.rx, SeqOf(k), ShardId(x.tx.ledger, x.tx.tags[n]),
                      R.BodyOf(s, x.tx.ledger[k].payloads, ShardId(x.tx.ledger, x.tx.tags[n])))
  {
    hide PackPacket, R.Receive, R.OnShard, SeqOf;
    WireShard(s, x.tx, n, k);
    ShortChunk(x.tx.ledger, k);
    var id := ShardId(x.tx.ledger, x.tx.tags[n]);
    R.BodyFits(s, x.tx.ledger[k].payloads, id);
    ReceiveReadsHead(s, x.rx, SeqOf(k), id, R.BodyOf(s, x.tx.ledger[k].payloads, id));
  }

  lemma EmittedAfter(
    out: seq<R.Emission>, es: seq<R.Emission>, seqNo: nat, payloads: seq<bytes>, ids: set<nat>, id: nat)
    requires Emitted(out, seqNo) == DataIds(ids, |payloads|) && R.Genuine(seqNo, payloads, es)
    requires R.Direct(seqNo, payloads, id) <= es
    ensures Emitted(out + es, seqNo) == DataIds(ids + {id}, |payloads|) + R.Ids(es)
  {
    EmittedGrows(out, es, seqNo);
    CountsGrow(ids, id, |payloads|);
    var first := R.Direct(seqNo, payloads, id);
    assert id < |payloads| ==> first[0] in es && first[0].id == id;
  }

  lemma {:induction false} AcceptedChunkOk(
    s: Scheme, x: Session, y: Session, k: nat, id: nat, r: (R.Holder, seq<R.Emission>, bool))
    requires k < |x.tx.ledger| && y.tx == x.tx
    requires ParityIds(Arrived(y, k), |x.tx.ledger[k].payloads|) != {} ==> x.tx.ledger[k].parity > 0
    requires Emitted(x.rx.out, SeqOf(k)) == DataIds(Arrived(x, k), |x.tx.ledger[k].payloads|)
    requires Arrived(y, k) == Arrived(x, k) + {id}
    requires R.Answers(s, SeqOf(k), x.tx.ledger[k].payloads, Arrived(y, k), id, r)
    requires y.rx == R.Rx(x.rx.holders[SeqOf(k) := r.0], x.rx.out + r.1, r.2)
    ensures ShardAnswered(s, x, y, k, id, r.1)
  {
    hide R.HolderOk, R.Unrepeated, R.Genuine, R.Direct, Arrived, Emitted, SeqOf, DataIds, ParityIds, R.Ids;
    EmittedAfter(x.rx.out, r.1, SeqOf(k), x.tx.ledger[k].payloads, Arrived(x, k), id);
  }

  lemma OpenChunkEmitted(s: Scheme, x: Session, k: nat)
    requires Inv(s, x) && k < |x.tx.ledger| && !R.HolderOf(x.rx, SeqOf(k)).doneAll
    ensures Emitted(x.rx.out, SeqOf(k)) == DataIds(Arrived(x, k), |x.tx.ledger[k].payloads|)
  {
    HolderOfChunk(s, x, k);
  }

  lemma DoneChunkAnswers(s: Scheme, x: Session, y: Session, k: nat, id: nat)
    requires Inv(s, x) && k < |x.tx.ledger| && R.HolderOf(x.rx, SeqOf(k)).doneAll && y.tx == x.tx
    requires y.rx == x.rx.(holders := x.rx.holders[SeqOf(k) := R.HolderOf(x.rx, SeqOf(k))])
    ensures ShardAnswered(s, x, y, k, id, [])
  {
    hide Arrived, SeqOf;
    HolderOfChunk(s, x, k);
    assert y.rx.out == x.rx.out + [];
  }

  /** A shard of any chunk, new or repeated, early or late. */
  lemma {:induction false} DeliverShardKeeps(s: Scheme, x: Session, n: nat, k: nat)
    requires Inv(s, x) && |x.tx.ledger| <= SEQ_CYCLE && n < |x.tx.wire| && OfChunk(x.tx.tags[n], k)
    ensures k < |x.tx.ledger|
    ensures RxInv(s, Step(s, x, Deliver(n)))
    ensures Step(s, x, Deliver(n)).rx.out == x.rx.out + Answer(s, x, k, ShardId(x.tx.ledger, x.tx.tags[n]))
  {
    hide R.Receive, R.HolderOk, R.Accept, R.BodyOf, SeqOf, Arrived, Emitted, TxIdle, R.Answers, Issued, ShardId;
    DeliverShardShape(s, x, n, k);
    HistoryLines(s, x);
    var y := Step(s, x, Deliver(n));
    var id, payloads := ShardId(x.tx.ledger, x.tx.tags[n]), x.tx.ledger[k].payloads;
    var h := R.HolderOf(x.rx, SeqOf(k));
    HolderOfChunk(s, x, k);
    ArrivedGrows(x, y, n, k);
    ArrivedIssued(s, y, k);
    if h.doneAll {
      DoneChunkAnswers(s, x, y, k, id);
      OtherChunksKeep(s, x, y, n, k, id, []);
    } else {
      R.AcceptAnswers(s, SeqOf(k), payloads, Arrived(x, k), h, Emitted(x.rx.out, SeqOf(k)), id);
      var r := R.Accept(s, SeqOf(k), h, id, R.BodyOf(s, payloads, id));
      OpenChunkEmitted(s, x, k);
      AcceptedChunkOk(s, x, y, k, id, r);
      OtherChunksKeep(s, x, y, n, k, id, r.1);
    }
  }

  // ---------- What went in ----------

  ghost predicate SamePayloads(a: seq<ChunkLog>, b: seq<ChunkLog>) {
    |a| == |b| && forall k :: 0 <= k < |a| ==> a[k].payloads == b[k].payloads
  }

  lemma {:induction false} FlattenPointwise(a: seq<ChunkLog>, b: seq<ChunkLog>)
    requires SamePayloads(a, b)
    ensures Flatten(a) == Flatten(b)
  {
    if a != [] {
      FlattenPointwise(a[..|a| - 1], b[..|b| - 1]);
    }
  }

  ghost predicate SameInputs(x: Tx, y: Tx) {
    y.plain == x.plain && Flatten(y.ledger) == Flatten(x.ledger)
  }

  lemma FinishInputs(s: Scheme, x: Tx)
    requires Intact(x)
    ensures SameInputs(x, Finish(s, x))
  {
    var y := Finish(s, x);
    var n := |x.ledger|;
    if !y.crashed {
      assert SamePayloads(x.ledger, y.ledger[..n]);
      FlattenPointwise(x.ledger, y.ledger[..n]);
    }
  }

  lemma {:induction false} SendAllInputs(s: Scheme, x: Tx, order: seq<nat>)
    ensures SameInputs(x, SendAll(s, x, order))
  {
    if order != [] {
      var y := SendAll(s, x, order[..|order| - 1]);
      SendAllInputs(s, x, order[..|order| - 1]);
      FlattenPointwise(y.ledger, SendFec(s, y, order[|order| - 1]).ledger);
    }
  }

  lemma {:induction false} DrainInputs(s: Scheme, x: Tx)
    ensures SameInputs(x, Drain(s, x))
  {
    var quota := SOFT_LIMIT - x.sentThisEpoch;
    if quota > 0 && AllReadable(s, x.ring) {
      SendAllInputs(s, x, RoundRobin(Guidance(s, x.ring, x.epoch, quota)));
    }
  }

  lemma {:induction false} EpochInputs(s: Scheme, x: Tx)
    ensures SameInputs(x, OnEpoch(s, x))
  {
    hide Drain, Finish;
    if Intact(x) {
      FinishInputs(s, x);
      DrainInputs(s, x);
      DrainInputs(s, Finish(s, x));
    }
  }

  lemma AddPacketInputs(x: Tx, payload: bytes)
    requires Intact(x) && x.ring[x.cur].ef.Some?
    ensures var y := AddPacket(x, payload); y.plain == x.plain && Flatten(y.ledger) == Flatten(x.ledger) + [payload]
  {
    var y := AddPacket(x, payload);
    var last := |x.ledger| - 1;
    assert y.ledger[..last] == x.ledger[..last];
  }

  lemma {:induction false} PacketInputs(s: Scheme, x: Tx, payload: bytes, fecEnabled: bool)
    requires TxIdle(s, x)
    ensures var y := OnPacket(s, x, payload, fecEnabled);
            if fecEnabled then y.plain == x.plain && Flatten(y.ledger) == Flatten(x.ledger) + [payload]
            else y.plain == x.plain + [payload] && Flatten(y.ledger) == Flatten(x.ledger)
  {
    hide SlotOk, WireOk, Lawful, Finish;
    if fecEnabled {
      AddPacketInputs(x, payload);
      var y := AddPacket(x, payload);
      FinishInputs(s, y);
    }
  }

  // ---------- Runs ----------

  lemma {:induction false} StepKeeps(s: Scheme, x: Session, e: Event)
    requires Inv(s, x) && Fitting(e) && |Step(s, x, e).tx.ledger| <= SEQ_CYCLE
    ensures Inv(s, Step(s, x, e)) && Grows(x.tx, Step(s, x, e).tx)
  {
    hide TxIdle, RxInv, OnPacket, OnEpoch, R.Receive, Grows, Flatten;
    var y := Step(s, x, e);
    HistoryLines(s, x);
    match e
    case Submit(payload, fecEnabled) =>
      PacketKeeps(s, x.tx, payload, fecEnabled);
      PacketGrows(s, x.tx, payload, fecEnabled);
      PacketInputs(s, x.tx, payload, fecEnabled);
      IdleHolds(s, y.tx);
      SenderStepKeeps(s, x, y);
    case EpochTimer =>
      EpochKeeps(s, x.tx);
      EpochGrows(s, x.tx);
      EpochInputs(s, x.tx);
      IdleHolds(s, y.tx);
      SenderStepKeeps(s, x, y);
    case Deliver(n) =>
      if n < |x.tx.wire| {
        if x.tx.tags[n].Plain? {
          DeliverPlainShape(s, x, n);
          PlainAnswerKeeps(s, x, y, n, R.Emission(0, 0, R.ReadPart(x.tx.plain[x.tx.tags[n].index])));
        } else {
          DeliverShardKeeps(s, x, n, x.tx.tags[n].chunk);
        }
      }
  }

  lemma IdleHolds(s: Scheme, x: Tx)
    requires TxIdle(s, x)
    ensures TxInv(s, x)
  {
  }

  lemma {:induction false} LedgerNeverShrinks(s: Scheme, x: Session, e: Event)
    ensures |x.tx.ledger| <= |Step(s, x, e).tx.ledger|
  {
    EpochGrows(s, x.tx);
  }

  lemma {:induction false} RunKeeps(s: Scheme, events: seq<Event>)
    requires Lawful(s) && Admissible(events) && |Run(s, events).tx.ledger| <= SEQ_CYCLE
    ensures Inv(s, Run(s, events))
  {
    if events == [] {
      InitIdle(s);
      var x := Run(s, events);
      forall k | 0 <= k < |x.tx.ledger| ensures ChunkOk(s, x, k) {}
    } else {
      var n := |events| - 1;
      LedgerNeverShrinks(s, Run(s, events[..n]), events[n]);
      RunKeeps(s, events[..n]);
      StepKeeps(s, Run(s, events[..n]), events[n]);
    }
  }
}
