/**
  The receiver as the program runs it: one holder object per sequence number, updated in place by every datagram.
  Proved to do what `Receiver` says for every datagram, well-formed or not.
 */
module Reassembly {
  import opened Bytes
  import opened ErasureCode
  import opened Receiver
  import Facility
  import Rs = RsFacility

  lemma NothingMissing(seqNo: nat, payloads: seq<bytes>, doneBitmap: seq<bool>)
    requires |payloads| <= |doneBitmap|
    ensures Missing(seqNo, payloads, doneBitmap, |payloads|) == []
  {
  }

  class ChunkHolder {
    const ef: Rs.ErrorCorrection
    var doneAll: bool
    var doneBitmap: seq<bool>

    ghost function View(): Holder
      reads this, ef
    {
      Holder(ef.View(), doneAll, doneBitmap)
    }

    constructor (scheme: Scheme)
      ensures View() == NewHolder() && fresh(ef) && ef.scheme == scheme
    {
      ef := new Rs.ErrorCorrection(scheme);
      doneAll, doneBitmap := false, seq(MAX_DATA, _ => false);
    }

    /** Puts out the reconstructed payloads that the bitmap does not have yet. */
    method EmitMissing(seqNo: nat, payloads: seq<bytes>) returns (es: seq<Emission>, panicked: bool)
      ensures panicked == (|payloads| > |doneBitmap|)
      ensures es == Missing(seqNo, if panicked then payloads[..|doneBitmap|] else payloads, doneBitmap, 0)
    {
      hide Missing;
      es := [];
      ghost var known := if |payloads| > |doneBitmap| then payloads[..|doneBitmap|] else payloads;
      for i := 0 to |payloads|
        invariant i <= |known|
        invariant es + Missing(seqNo, known, doneBitmap, i) == Missing(seqNo, known, doneBitmap, 0)
      {
        if i >= |doneBitmap| {
          NothingMissing(seqNo, known, doneBitmap);
          return es, true;
        }
        MissingStep(seqNo, known, doneBitmap, i);
        if !doneBitmap[i] {
          es := es + [Emission(seqNo, i, payloads[i])];
        }
      }
      NothingMissing(seqNo, known, doneBitmap);
      panicked := false;
    }

    /** A shard for this chunk, which is not done. */
    method Take(seqNo: nat, id: nat, payload: bytes) returns (es: seq<Emission>, panicked: bool)
      requires !doneAll
      modifies this, ef
      ensures (View(), es, panicked) == Accept(ef.scheme, seqNo, old(View()), id, payload)
    {
      hide Facility.AddShard, Facility.Reconstruct, Missing;
      es, panicked := [], false;
      var done, data := ef.AddShard(id, payload);
      if data.Some? {
        es := [Emission(seqNo, id, data.value)];
        if id >= |doneBitmap| {
          return es, true;
        }
        doneBitmap := doneBitmap[id := true];
      }
      if done {
        var recon := ef.Reconstruct();
        if recon.Crash? {
          return es, true;
        }
        if recon.Recovered? {
          var missing;
          missing, panicked := EmitMissing(seqNo, recon.payloads);
          es := es + missing;
          doneAll := !panicked;
        }
      }
    }
  }

  class Reassembler {
    const scheme: Scheme
    var holders: map<nat, ChunkHolder>
    var out: seq<Emission>
    var crashed: bool
    /** The state that `Receiver` speaks about. */
    ghost var model: Rx

    ghost function Objects(): set<object>
      reads this
    {
      (set k | k in holders :: holders[k] as object) + (set k | k in holders :: holders[k].ef as object)
    }

    /** No two sequence numbers share a holder or an error-correction object. */
    ghost predicate Separate()
      reads this
    {
      && (forall k :: k in holders ==> holders[k].ef.scheme == scheme)
      && (forall j, k :: j in holders && k in holders && j != k ==>
            holders[j] != holders[k] && holders[j].ef != holders[k].ef)
    }

    ghost predicate Valid()
      reads this, Objects()
    {
      && Separate() && model.holders.Keys == holders.Keys
      && (forall k :: k in holders ==> holders[k].View() == model.holders[k])
      && model.out == out && model.crashed == crashed
    }

    constructor (scheme: Scheme)
      ensures this.scheme == scheme && Valid() && model == INIT && Objects() == {}
    {
      this.scheme := scheme;
      holders, out, crashed := map[], [], false;
      model := INIT;
    }

    /** The holder of a sequence number, made when there is none. */
    method HolderFor(seqNo: nat) returns (h: ChunkHolder)
      requires Valid()
      modifies this`holders, this`model
      ensures Valid() && fresh(Objects() - old(Objects()))
      ensures seqNo in holders && h == holders[seqNo] && h.View() == HolderOf(old(model), seqNo)
      ensures model == old(model).(holders := old(model).holders[seqNo := HolderOf(old(model), seqNo)])
    {
      if seqNo in holders {
        h := holders[seqNo];
        assert model.holders[seqNo := model.holders[seqNo]] == model.holders;
      } else {
        h := new ChunkHolder(scheme);
        Register(seqNo, h);
      }
    }

    method Register(seqNo: nat, h: ChunkHolder)
      requires Valid() && seqNo !in holders && h.View() == NewHolder() && h.ef.scheme == scheme
      requires forall k :: k in holders ==> holders[k] != h && holders[k].ef != h.ef
      modifies this`holders, this`model
      ensures Valid() && holders == old(holders)[seqNo := h]
      ensures model == old(model).(holders := old(model).holders[seqNo := NewHolder()])
    {
      holders := holders[seqNo := h];
      model := model.(holders := model.holders[seqNo := NewHolder()]);
    }

    /** A shard for a known chunk that is not done: only its holder changes. */
    method Deliver(seqNo: nat, id: nat, payload: bytes, ghost x: Rx)
      requires Valid() && seqNo in holders && !holders[seqNo].doneAll && x.out == out
      requires model.holders == x.holders[seqNo := HolderOf(x, seqNo)]
      modifies this`out, this`crashed, this`model, holders[seqNo], holders[seqNo].ef
      ensures Valid() && model == OnShard(scheme, x, seqNo, id, payload)
    {
      hide Accept, NewHolder;
      var es, panicked := holders[seqNo].Take(seqNo, id, payload);
      out := out + es;
      crashed := panicked;
      model := OnShard(scheme, x, seqNo, id, payload);
      ghost var h := holders[seqNo].View();
      assert model == Rx(x.holders[seqNo := h], out, crashed);
      forall k | k in holders ensures holders[k].View() == model.holders[k] {
        assert k != seqNo ==> holders[k].View() == old(holders[k].View());
      }
    }

    method OnProtected(seqNo: nat, id: nat, payload: bytes)
      requires Valid() && !crashed
      modifies this, Objects()
      ensures Valid() && fresh(Objects() - old(Objects())) && model == OnShard(scheme, old(model), seqNo, id, payload)
    {
      hide Accept, NewHolder;
      ghost var x := model;
      var h := HolderFor(seqNo);
      if !h.doneAll {
        Deliver(seqNo, id, payload, x);
      }
    }

    /** One datagram from the connection. */
    method OnDatagram(datagram: bytes)
      requires Valid() && !crashed
      modifies this, Objects()
      ensures Valid() && fresh(Objects() - old(Objects())) && model == Receive(scheme, old(model), datagram)
    {
      hide OnShard, UnpackUint32, UnpackUint16;
      var d := if |datagram| > READ_BUFFER then datagram[..READ_BUFFER] else datagram;
      var seqNo, id, payload := 0, 0, [];
      if |d| >= 6 {
        seqNo, id, payload := UnpackUint32(d[..4]), UnpackUint16(d[4..6]), d[6..];
      }
      if seqNo == 0 {
        out := out + [Emission(0, 0, payload)];
        model := model.(out := model.out + [Emission(0, 0, payload)]);
      } else {
        OnProtected(seqNo, id, payload);
      }
    }
  }
}
