/**
  The sending half of the packet assembly: chunks are filled, closed with one parity shard, and
  drained over later epochs from a ring of slots.

  `Tx` carries, beside the program's own variables, the history that the theorems speak about:
  the datagrams written so far (`wire`), which shard each of them is (`tags`), the payloads and the number
  of parity shards of every chunk ever begun (`ledger`), and the payloads sent without protection (`plain`).
  A Go panic sets `crashed`.
 */
module Sender {
  import opened Bytes
  import opened ErasureCode
  import opened Facility

  const RING := 30
  const SOFT_LIMIT := 40

  datatype Slot = Slot(
    ef: Option<State>, enabled: bool, dataShardWithin: nat,
    seqNo: nat, initialEpoch: nat, initialRemain: int)

  datatype ChunkLog = ChunkLog(payloads: seq<bytes>, parity: nat)

  datatype Tag = Data(chunk: nat, index: nat) | Parity(chunk: nat, index: nat) | Plain(index: nat)

  datatype Tx = Tx(
    ring: seq<Slot>, cur: nat, nextSeq: nat, epoch: nat, sentThisEpoch: nat,
    wire: seq<bytes>, tags: seq<Tag>, ledger: seq<ChunkLog>, plain: seq<bytes>, crashed: bool)

  const FRESH_SLOT := Slot(Some(Facility.FRESH), false, 0, 0, 0, 0)
  const UNUSED_SLOT := Slot(None, false, 0, 0, 0, 0)

  function Init(): Tx {
    Tx([FRESH_SLOT] + seq(RING - 1, _ => UNUSED_SLOT), 0, 1, 0, 0, [], [], [ChunkLog([], 0)], [], false)
  }

  // ---------- Wire ----------

  /** The head is a uint32 sequence number and a uint16 shard number. */
  function PackPacket(seqNo: nat, id: nat, body: bytes): (b: bytes)
    requires seqNo < 0x1_0000_0000
    ensures |b| == 6 + |body|
  {
    PackUint32(seqNo) + PackUint16(id % 0x1_0000) + body
  }

  /** The uint32 counter skips zero, which marks unprotected datagrams. */
  function NextSeq(n: nat): nat
    requires n < 0x1_0000_0000
  {
    var m := if n == 0xFFFF_FFFF then 0 else n + 1;
    if m == 0 then 1 else m
  }

  // ---------- Rounding ----------

  /** `math.Round(a / b)`: halves are rounded away from zero. */
  function RoundDiv(a: int, b: nat): int
    requires b > 0
  {
    if a >= 0 then (2 * a + b) / (2 * b) else -((-2 * a + b) / (2 * b))
  }

  // ---------- Shard budget ----------

  /** When reading a slot's budget does not panic. */
  predicate Readable(s: Scheme, slot: Slot) {
    slot.enabled ==> slot.ef.Some? && InTable(s, slot.ef.value.total)
  }

  function Remaining(s: Scheme, slot: Slot): int
    requires Readable(s, slot)
  {
    if !slot.enabled then 0 else ParitySum(s, slot.ef.value.total) - slot.ef.value.shardInput
  }

  /** The number of parity shards an enabled slot may have sent by `epoch`. */
  function Schedule(slot: Slot, epoch: nat): int {
    RoundDiv((epoch - slot.initialEpoch) * slot.initialRemain, RING)
  }

  function Released(slot: Slot, epoch: nat): int {
    if !slot.enabled then 0 else Schedule(slot, epoch)
  }

  function Sent(s: Scheme, slot: Slot): int
    requires Readable(s, slot)
  {
    if !slot.enabled then 0 else slot.initialRemain - Remaining(s, slot)
  }

  /** What a slot may send in this epoch. */
  function Headroom(s: Scheme, slot: Slot, epoch: nat): int
    requires Readable(s, slot)
  {
    var diff := Released(slot, epoch) - Sent(s, slot);
    if diff > Remaining(s, slot) then Remaining(s, slot) else diff
  }

  predicate AllReadable(s: Scheme, ring: seq<Slot>) {
    forall i :: 0 <= i < |ring| ==> Readable(s, ring[i])
  }

  function Unlocks(s: Scheme, ring: seq<Slot>, epoch: nat): (u: seq<int>)
    requires AllReadable(s, ring)
    ensures |u| == |ring|
    ensures forall i :: 0 <= i < |u| ==> u[i] == Headroom(s, ring[i], epoch)
  {
    seq(|ring|, i requires 0 <= i < |ring| => Headroom(s, ring[i], epoch))
  }

  function Sum(u: seq<int>): int {
    if u == [] then 0 else Sum(u[..|u| - 1]) + u[|u| - 1]
  }

  function Scaled(u: seq<int>, scale: nat): (g: seq<int>)
    requires scale > 0
    ensures |g| == |u|
    ensures forall i :: 0 <= i < |g| ==> g[i] == RoundDiv(u[i], scale)
  {
    seq(|u|, i requires 0 <= i < |u| => RoundDiv(u[i], scale))
  }

  /** `SelectPacketToSend`: how many parity shards each slot sends in this epoch. */
  function Guidance(s: Scheme, ring: seq<Slot>, epoch: nat, quota: nat): (g: seq<int>)
    requires AllReadable(s, ring) && quota > 0
    ensures |g| == |ring|
  {
    var u := Unlocks(s, ring, epoch);
    if Sum(u) <= quota then u else Scaled(u, Sum(u) / quota)
  }

  // ---------- Send order ----------

  /** The slots with something left to send, in ring order. */
  function Positives(g: seq<int>): seq<nat> {
    if g == [] then []
    else
      var n := |g| - 1;
      Positives(g[..n]) + if g[n] > 0 then [n] else []
  }

  function Decrement(g: seq<int>): (r: seq<int>)
    ensures |r| == |g|
    ensures forall i :: 0 <= i < |g| ==> r[i] == if g[i] > 0 then g[i] - 1 else g[i]
  {
    seq(|g|, i requires 0 <= i < |g| => if g[i] > 0 then g[i] - 1 else g[i])
  }

  /** The total that is left to send: the measure that ends the round-robin loop. */
  function Load(g: seq<int>): (n: nat)
  {
    if g == [] then 0
    else Load(g[..|g| - 1]) + if g[|g| - 1] > 0 then g[|g| - 1] else 0
  }

  lemma DecrementPrefix(g: seq<int>, n: nat)
    requires n <= |g|
    ensures Decrement(g)[..n] == Decrement(g[..n])
  {
  }

  lemma {:induction false} DecrementLoad(g: seq<int>)
    ensures Load(Decrement(g)) == Load(g) - |Positives(g)|
  {
    if g != [] {
      var n := |g| - 1;
      DecrementPrefix(g, n);
      DecrementLoad(g[..n]);
      var d := Decrement(g);
      assert d[n] == if g[n] > 0 then g[n] - 1 else g[n];
      hide Decrement;
    }
  }

  /** The slots in the order the round-robin loop serves them. */
  function RoundRobin(g: seq<int>): seq<nat>
    decreases Load(g)
  {
    if Positives(g) == [] then []
    else
      DecrementLoad(g);
      Positives(g) + RoundRobin(Decrement(g))
  }

  // ---------- Steps ----------

  /** The chunk that slot `i` holds, or a negative number if it never held one. */
  function ChunkAt(x: Tx, i: nat): int {
    |x.ledger| - 1 - (if i <= x.cur then x.cur - i else x.cur + RING - i)
  }

  function Write(x: Tx, datagram: bytes, tag: Tag): Tx {
    x.(wire := x.wire + [datagram], tags := x.tags + [tag])
  }

  predicate Intact(x: Tx) {
    !x.crashed && |x.ring| == RING && x.cur < RING && x.ledger != [] && x.nextSeq < 0x1_0000_0000
  }

  function SendPlain(x: Tx, payload: bytes): Tx {
    Write(x.(plain := x.plain + [payload]), PackPacket(0, 0, payload), Plain(|x.plain|))
  }

  /** Closes the chunk of the current slot and opens the next one. */
  function Finish(s: Scheme, x: Tx): Tx
    requires Intact(x)
  {
    var slot := x.ring[x.cur];
    if slot.ef.None? || !CanConstruct(s, slot.ef.value) then x.(crashed := true)
    else
      var (ef, id, body, more) := Construct(s, slot.ef.value);
      var last := |x.ledger| - 1;
      var y := Write(x, PackPacket(x.nextSeq, id, body), Parity(last, x.ledger[last].parity));
      var closed := slot.(ef := Some(ef), enabled := more,
                          initialRemain := ParitySum(s, ef.total) - ef.shardInput);
      var next := if x.cur + 1 == RING then 0 else x.cur + 1;
      y.(ring := x.ring[x.cur := closed][next := FRESH_SLOT],
         cur := next,
         sentThisEpoch := x.sentThisEpoch + 1,
         nextSeq := NextSeq(x.nextSeq),
         ledger := x.ledger[last := x.ledger[last].(parity := x.ledger[last].parity + 1)] + [ChunkLog([], 0)])
  }

  /** A packet arrives while protection is on. */
  function AddPacket(x: Tx, payload: bytes): Tx
    requires Intact(x)
  {
    var slot := x.ring[x.cur];
    if slot.ef.None? then x.(crashed := true)
    else
      var (ef, id, body) := AddData(slot.ef.value, payload);
      var last := |x.ledger| - 1;
      var y := Write(x, PackPacket(x.nextSeq, id, body), Data(last, |x.ledger[last].payloads|));
      var filled := slot.(ef := Some(ef), dataShardWithin := slot.dataShardWithin + 1, seqNo := x.nextSeq,
                          initialEpoch := x.epoch, initialRemain := 0);
      y.(ring := x.ring[x.cur := filled],
         sentThisEpoch := x.sentThisEpoch + 1,
         ledger := x.ledger[last := x.ledger[last].(payloads := x.ledger[last].payloads + [payload])])
  }

  function OnPacket(s: Scheme, x: Tx, payload: bytes, fecEnabled: bool): Tx
  {
    if !Intact(x) then x
    else if !fecEnabled then SendPlain(x, payload)
    else
      var y := AddPacket(x, payload);
      if !y.crashed && y.ring[y.cur].dataShardWithin >= MAX_DATA then Finish(s, y) else y
  }

  /** One more parity shard of slot `i`. */
  function SendFec(s: Scheme, x: Tx, i: nat): Tx
  {
    if !Intact(x) then x
    else if i >= RING || x.ring[i].ef.None? || !CanConstruct(s, x.ring[i].ef.value)
         || x.ring[i].seqNo >= 0x1_0000_0000 || !(0 <= ChunkAt(x, i) < |x.ledger|) then
      x.(crashed := true)
    else
      var slot := x.ring[i];
      var (ef, id, body, more) := Construct(s, slot.ef.value);
      var k := ChunkAt(x, i);
      var y := Write(x, PackPacket(slot.seqNo, id, body), Parity(k, x.ledger[k].parity));
      y.(ring := x.ring[i := slot.(ef := Some(ef), enabled := more)],
         ledger := x.ledger[k := x.ledger[k].(parity := x.ledger[k].parity + 1)])
  }

  function SendAll(s: Scheme, x: Tx, order: seq<nat>): Tx {
    if order == [] then x else SendFec(s, SendAll(s, x, order[..|order| - 1]), order[|order| - 1])
  }

  /** Parity shards of older chunks, as far as this epoch's quota goes. */
  function Drain(s: Scheme, x: Tx): Tx {
    var quota := SOFT_LIMIT - x.sentThisEpoch;
    if quota <= 0 then x
    else if !AllReadable(s, x.ring) then x.(crashed := true)
    else SendAll(s, x, RoundRobin(Guidance(s, x.ring, x.epoch, quota)))
  }

  /** The epoch timer fires. */
  function OnEpoch(s: Scheme, x: Tx): Tx {
    if !Intact(x) then x
    else
      var y := Drain(s, if x.ring[x.cur].dataShardWithin != 0 then Finish(s, x) else x);
      y.(epoch := y.epoch + 1, sentThisEpoch := 0)
  }
}
