/**
  The error-correction facility of one chunk, as a value: what each operation does to the
  shard buffer and the counters, and what a chunk looks like to an honest sender and receiver.
 */
module Facility {
  import opened Bytes
  import opened ErasureCode

  /** `total` is zero while the number of data shards is unknown. A missing buffer entry is Go's nil. */
  datatype State = State(buffer: seq<Option<bytes>>, dataInput: nat, shardInput: nat, total: int)

  const FRESH := State([], 0, 0, 0)

  /** What `Reconstruct` hands back. `Crash` stands for a Go panic. */
  datatype Recon = NotReady | Crash | Recovered(payloads: seq<bytes>)

  predicate InTable(s: Scheme, t: int) {
    1 <= t <= |s.table|
  }

  function ParitySum(s: Scheme, t: int): nat
    requires InTable(s, t)
  {
    s.table[t - 1]
  }

  // ---------- Buffers ----------

  function Extend(buffer: seq<Option<bytes>>, n: nat): (r: seq<Option<bytes>>)
    ensures |r| == if |buffer| < n then n else |buffer|
    ensures forall i :: 0 <= i < |r| ==> r[i] == if i < |buffer| then buffer[i] else None
  {
    if |buffer| < n then buffer + seq(n - |buffer|, _ => None) else buffer
  }

  function SizeOf(b: Option<bytes>): nat {
    if b.Some? then |b.value| else 0
  }

  /** The length of the longest entry. */
  function Width(buffer: seq<Option<bytes>>): (w: nat)
    ensures forall i :: 0 <= i < |buffer| ==> SizeOf(buffer[i]) <= w
    ensures w == 0 || exists i :: 0 <= i < |buffer| && SizeOf(buffer[i]) == w
  {
    if buffer == [] then 0
    else
      var n := |buffer| - 1;
      var w := Width(buffer[..n]);
      if SizeOf(buffer[n]) > w then SizeOf(buffer[n]) else w
  }

  function PadTo(b: bytes, width: nat): (r: bytes)
    ensures b <= r
    ensures |r| == if |b| < width then width else |b|
  {
    if |b| < width then b + seq(width - |b|, _ => 0) else b
  }

  /** A padded entry; a nil entry is skipped or becomes a zero shard. */
  function PadEntry(b: Option<bytes>, width: nat, skipNil: bool): Option<bytes> {
    match b
    case Some(v) => Some(PadTo(v, width))
    case None => if skipNil then None else Some(PadTo([], width))
  }

  /** Pads every entry to `width`. */
  function PadAll(buffer: seq<Option<bytes>>, width: nat, skipNil: bool): (r: seq<Option<bytes>>)
    ensures |r| == |buffer| && forall i :: 0 <= i < |r| ==> r[i] == PadEntry(buffer[i], width, skipNil)
  {
    seq(|buffer|, i requires 0 <= i < |buffer| => PadEntry(buffer[i], width, skipNil))
  }

  // ---------- Sender ----------

  function Wrap(payload: bytes): (b: bytes)
    ensures |b| == 2 + |payload|
  {
    PackInt16(ToInt16(|payload|)) + payload
  }

  function AddData(f: State, payload: bytes): (r: (State, nat, bytes)) {
    var id := f.dataInput;
    var buffer := Extend(f.buffer, id + 1)[id := Some(Wrap(payload))];
    (f.(buffer := buffer, dataInput := id + 1), id, Wrap(payload))
  }

  function Values(buffer: seq<Option<bytes>>): (r: seq<bytes>)
    ensures |r| == |buffer|
  {
    seq(|buffer|, i requires 0 <= i < |buffer| => if buffer[i].Some? then buffer[i].value else [])
  }

  function Somes(shards: seq<bytes>): (r: seq<Option<bytes>>)
    ensures |r| == |shards|
  {
    seq(|shards|, i requires 0 <= i < |shards| => Some(shards[i]))
  }

  /** The first call of `ConstructReconstructShard`: fixes the chunk and computes all its parity shards. */
  function Close(s: Scheme, f: State): State
    requires InTable(s, f.dataInput) && |f.buffer| == f.dataInput
  {
    var p := ParitySum(s, f.dataInput);
    var data := PadAll(f.buffer, Width(f.buffer), false);
    f.(buffer := data + Somes(s.parity(Values(data), p)), total := f.dataInput)
  }

  /** When `ConstructReconstructShard` does not panic. */
  predicate CanConstruct(s: Scheme, f: State) {
    if f.total == 0 then
      InTable(s, f.dataInput) && |f.buffer| == f.dataInput && f.dataInput + f.shardInput < |Close(s, f).buffer|
    else
      InTable(s, f.total) && f.total + f.shardInput < |f.buffer|
  }

  function Construct(s: Scheme, f: State): (r: (State, nat, bytes, bool))
    requires CanConstruct(s, f)
  {
    var g := if f.total == 0 then Close(s, f) else f;
    var id := g.total + g.shardInput;
    var body := if g.buffer[id].Some? then g.buffer[id].value else [];
    (g.(shardInput := g.shardInput + 1), id, PackInt16(ToInt16(-g.total)) + body,
     g.shardInput + 1 < ParitySum(s, g.total))
  }

  // ---------- Receiver ----------

  /** `done` and the payload that can be emitted at once. */
  function AddShard(f: State, id: nat, data: bytes): (r: (State, bool, Option<bytes>)) {
    var g := f.(buffer := Extend(f.buffer, id + 1));
    if |data| < 2 then (g, false, None)
    else
      var len := UnpackInt16(data[..2]);
      var isNew := g.buffer[id].None?;
      if len <= 0 then
        var h := g.(total := ToInt16(-len),
                    buffer := if isNew then g.buffer[id := Some(data[2..])] else g.buffer,
                    shardInput := if isNew then g.shardInput + 1 else g.shardInput);
        (h, h.total <= h.dataInput + h.shardInput, None)
      else
        var h := g.(buffer := if isNew then g.buffer[id := Some(data)] else g.buffer,
                    dataInput := if isNew then g.dataInput + 1 else g.dataInput);
        (h, h.total != 0 && h.total <= h.dataInput + h.shardInput, Some(data[2..]))
  }

  /** Reads the length header and at most that many bytes. */
  function Strip(shard: bytes): bytes
    requires |shard| >= 2
  {
    var len := UnpackInt16(shard[..2]);
    if len <= 0 then [] else if len <= |shard| - 2 then shard[2..2 + len] else shard[2..]
  }

  predicate Strippable(shards: seq<bytes>) {
    forall i :: 0 <= i < |shards| ==> |shards[i]| >= 2
  }

  function StripAll(shards: seq<bytes>): (r: seq<bytes>)
    requires Strippable(shards)
    ensures |r| == |shards|
    ensures forall i :: 0 <= i < |r| ==> r[i] == Strip(shards[i])
  {
    seq(|shards|, i requires 0 <= i < |shards| => Strip(shards[i]))
  }

  function Reconstruct(s: Scheme, f: State): (State, Recon) {
    if f.total == 0 || f.total > f.dataInput + f.shardInput || f.dataInput >= f.total then (f, NotReady)
    else if !InTable(s, f.total) then (f, Crash)
    else
      var p := ParitySum(s, f.total);
      var buffer := Extend(f.buffer, f.total + p);
      var padded := PadAll(buffer, Width(buffer), true);
      match s.recover(f.total, p, padded)
      case None => (f.(buffer := padded), NotReady)
      case Some(data) =>
        if |data| != f.total || !Strippable(data) then (f.(buffer := padded), Crash)
        else (f.(buffer := Somes(StripAll(data)) + padded[f.total..]), Recovered(StripAll(data)))
  }
}
