/**
  The error-correction facility of one chunk as the program keeps it: a shard buffer and three counters that
  every call updates in place. Each method is proved to do what the matching function of `Facility` says.
 */
module RsFacility {
  import opened Bytes
  import opened ErasureCode
  import Facility

  class ErrorCorrection {
    const scheme: Scheme
    var buffer: seq<Option<bytes>>
    var dataInput: nat
    var shardInput: nat
    var total: int

    function View(): Facility.State
      reads this
    {
      Facility.State(buffer, dataInput, shardInput, total)
    }

    constructor (scheme: Scheme)
      ensures this.scheme == scheme && View() == Facility.FRESH
    {
      this.scheme := scheme;
      buffer, dataInput, shardInput, total := [], 0, 0, 0;
    }

    method GrowTo(n: nat)
      modifies this`buffer
      ensures buffer == Facility.Extend(old(buffer), n)
    {
      if |buffer| < n {
        buffer := buffer + seq(n - |buffer|, _ => None);
      }
    }

    method AddData(data: bytes) returns (id: nat, wrapped: bytes)
      modifies this
      ensures (View(), id, wrapped) == Facility.AddData(old(View()), data)
    {
      id := dataInput;
      GrowTo(id + 1);
      wrapped := Facility.Wrap(data);
      buffer := buffer[id := Some(wrapped)];
      dataInput := dataInput + 1;
    }

    /** The longest of the first `n` entries. */
    method Longest(n: nat) returns (w: nat)
      requires n <= |buffer|
      ensures w == Facility.Width(buffer[..n])
    {
      hide Facility.Width;
      w := 0;
      WidthOfNone(buffer);
      for i := 0 to n
        invariant w == Facility.Width(buffer[..i])
      {
        WidthSnoc(buffer, i);
        var size := Facility.SizeOf(buffer[i]);
        if size > w {
          w := size;
        }
      }
    }

    /** Pads the entries to the width of the longest one. */
    method MatchSize(skipNil: bool)
      requires !skipNil ==> 0 <= total <= |buffer|
      modifies this`buffer
      ensures var known := if skipNil then old(buffer) else old(buffer)[..total];
              buffer == Facility.PadAll(old(buffer), Facility.Width(known), skipNil)
    {
      hide Facility.Width, Facility.PadTo, Facility.PadAll;
      assert buffer[..|buffer|] == buffer;
      var maxSize := Longest(if skipNil then |buffer| else total);
      ghost var was := buffer;
      for i := 0 to |buffer|
        invariant |buffer| == |was|
        invariant forall j :: 0 <= j < |was| ==>
                    buffer[j] == if j < i then Facility.PadEntry(was[j], maxSize, skipNil) else was[j]
      {
        if skipNil && buffer[i].None? {
          continue;
        }
        var entry := if buffer[i].Some? then buffer[i].value else [];
        buffer := buffer[i := Some(Facility.PadTo(entry, maxSize))];
      }
      assert buffer == Facility.PadAll(was, maxSize, skipNil);
    }

    /** `Encode`: overwrites the parity entries with the parity of the data entries. */
    method Encode(p: nat)
      requires 0 <= total <= |buffer|
      modifies this`buffer
      ensures buffer == old(buffer)[..total] + Facility.Somes(scheme.parity(Facility.Values(old(buffer)[..total]), p))
    {
      buffer := buffer[..total] + Facility.Somes(scheme.parity(Facility.Values(buffer[..total]), p));
    }

    /** Fixes the number of data shards and computes all parity shards. */
    method CloseChunk()
      requires Facility.InTable(scheme, dataInput) && |buffer| == dataInput
      modifies this`buffer, this`total
      ensures View() == Facility.Close(scheme, old(View()))
    {
      ghost var was := buffer;
      total := dataInput;
      var p := Facility.ParitySum(scheme, total);
      buffer := buffer + seq(p, _ => None);
      assert buffer[..total] == was;
      MatchSize(false);
      assert buffer[..total] == Facility.PadAll(was, Facility.Width(was), false);
      Encode(p);
    }

    /** The next parity shard; the first call closes the chunk. No answer stands for a panic. */
    method ConstructReconstructShard() returns (r: Option<(nat, bytes, bool)>)
      modifies this
      ensures r.Some? <==> Facility.CanConstruct(scheme, old(View()))
      ensures r.Some? ==> (View(), r.value.0, r.value.1, r.value.2) == Facility.Construct(scheme, old(View()))
    {
      hide Facility.Close, PackInt16;
      if total == 0 {
        if !Facility.InTable(scheme, dataInput) || |buffer| != dataInput {
          return None;
        }
        CloseChunk();
        ClosedTotal(scheme, old(View()));
      }
      if !Facility.InTable(scheme, total) || total + shardInput >= |buffer| {
        return None;
      }
      var id := total + shardInput;
      shardInput := shardInput + 1;
      var more := shardInput < Facility.ParitySum(scheme, total);
      var shard := PackInt16(ToInt16(-total)) + if buffer[id].Some? then buffer[id].value else [];
      r := Some((id, shard, more));
    }

    function MaxShardYieldRemaining(): int
      requires Facility.InTable(scheme, total)
      reads this
    {
      Facility.ParitySum(scheme, total) - shardInput
    }

    method AddShard(id: nat, data: bytes) returns (done: bool, encoded: Option<bytes>)
      modifies this
      ensures (View(), done, encoded) == Facility.AddShard(old(View()), id, data)
    {
      GrowTo(id + 1);
      if |data| < 2 {
        return false, None;
      }
      var len := UnpackInt16(data[..2]);
      if len <= 0 {
        total := ToInt16(-len);
        if buffer[id].None? {
          buffer := buffer[id := Some(data[2..])];
          shardInput := shardInput + 1;
        }
        return total <= dataInput + shardInput, None;
      }
      if buffer[id].None? {
        dataInput := dataInput + 1;
        buffer := buffer[id := Some(data)];
      }
      done := false;
      if total != 0 {
        done := total <= dataInput + shardInput;
      }
      encoded := Some(data[2..]);
    }

    /** `ReconstructData`: fills in the missing data entries, or leaves the buffer alone. */
    method RecoverData(p: nat) returns (data: Option<seq<bytes>>)
      requires 0 <= total
      ensures data == scheme.recover(total, p, buffer)
    {
      data := scheme.recover(total, p, buffer);
    }

    method Reconstruct() returns (r: Facility.Recon)
      modifies this`buffer
      ensures (View(), r) == Facility.Reconstruct(scheme, old(View()))
    {
      hide Facility.Width, Facility.PadAll, Facility.Strip, Facility.StripAll, Facility.Extend, Facility.Somes,
           Facility.Values, Facility.PadEntry;
      if total == 0 || total > dataInput + shardInput || dataInput >= total {
        return Facility.NotReady;
      }
      if !Facility.InTable(scheme, total) {
        return Facility.Crash;
      }
      var p := Facility.ParitySum(scheme, total);
      GrowTo(total + p);
      MatchSize(true);
      var recovered := RecoverData(p);
      if recovered.None? {
        return Facility.NotReady;
      }
      var data := recovered.value;
      if |data| != total || exists i :: 0 <= i < |data| && |data[i]| < 2 {
        return Facility.Crash;
      }
      r := TakePayloads(data);
    }

    /** Replaces the data entries by the payloads of the recovered shards. */
    method TakePayloads(data: seq<bytes>) returns (r: Facility.Recon)
      requires |data| == total <= |buffer| && Facility.Strippable(data)
      modifies this`buffer
      ensures buffer == Facility.Somes(Facility.StripAll(data)) + old(buffer)[total..]
      ensures r == Facility.Recovered(Facility.StripAll(data))
    {
      hide Facility.Strip, Facility.StripAll, Facility.Somes;
      ghost var tail := buffer[total..];
      buffer := Facility.Somes(data) + buffer[total..];
      assert buffer[..total] == Facility.Somes(data) && buffer[total..] == tail;
      StripEntries(data);
      assert buffer[..total] == Facility.Somes(Facility.StripAll(data));
      ValuesOfSomes(Facility.StripAll(data));
      r := Facility.Recovered(Facility.Values(buffer[..total]));
    }

    /** Cuts every data entry down to the payload that its header announces. */
    method StripEntries(data: seq<bytes>)
      requires |data| == total <= |buffer| && Facility.Strippable(data) && buffer[..total] == Facility.Somes(data)
      modifies this`buffer
      ensures buffer == Facility.Somes(Facility.StripAll(data)) + old(buffer)[total..]
    {
      ghost var was := buffer;
      for i := 0 to total
        invariant |buffer| == |was| && buffer[total..] == was[total..]
        invariant forall j :: 0 <= j < i ==> buffer[j] == Some(Facility.Strip(data[j]))
        invariant forall j :: i <= j < total ==> buffer[j] == Some(data[j])
      {
        buffer := buffer[i := Some(Facility.Strip(buffer[i].value))];
      }
      assert buffer[..total] == Facility.Somes(Facility.StripAll(data));
      assert buffer == buffer[..total] + buffer[total..];
    }
  }

  lemma ClosedTotal(s: Scheme, f: Facility.State)
    requires Facility.InTable(s, f.dataInput) && |f.buffer| == f.dataInput
    ensures var g := Facility.Close(s, f);
            g.total == f.dataInput && g.shardInput == f.shardInput && g.dataInput == f.dataInput
  {
  }

  lemma WidthOfNone(buffer: seq<Option<bytes>>)
    ensures Facility.Width(buffer[..0]) == 0
  {
  }

  lemma WidthSnoc(buffer: seq<Option<bytes>>, i: nat)
    requires i < |buffer|
    ensures var w, size := Facility.Width(buffer[..i]), Facility.SizeOf(buffer[i]);
            Facility.Width(buffer[..i + 1]) == if size > w then size else w
  {
    assert buffer[..i + 1][..i] == buffer[..i];
  }

  lemma ValuesOfSomes(shards: seq<bytes>)
    ensures Facility.Values(Facility.Somes(shards)) == shards
  {
  }
}
