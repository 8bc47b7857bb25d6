/**
  The Reed-Solomon library as the rest of the program sees it: a systematic code with one law.
 */
module ErasureCode {
  import opened Bytes

  /**
    `parity(data, p)` is `Encode`: the `p` parity shards of equally wide data shards.
    `recover(t, p, shards)` is `ReconstructData` on `t + p` optional shards.
    `table` is the parity lookup table: entry `t - 1` is the number of parity shards for `t` data shards.
   */
  datatype Scheme = Scheme(
    parity: (seq<bytes>, nat) -> seq<bytes>,
    recover: (nat, nat, seq<Option<bytes>>) -> Option<seq<bytes>>,
    table: seq<nat>)

  ghost predicate Uniform(shards: seq<bytes>, width: nat) {
    forall i :: 0 <= i < |shards| ==> |shards[i]| == width
  }

  function Present(shards: seq<Option<bytes>>): (ids: set<nat>)
    ensures forall i :: i in ids <==> 0 <= i < |shards| && shards[i].Some?
  {
    set i: nat | i < |shards| && shards[i].Some?
  }

  /** Every shard that is there is the shard of the code word at its place. */
  ghost predicate Subword(shards: seq<Option<bytes>>, word: seq<bytes>) {
    && |shards| == |word|
    && forall i :: 0 <= i < |shards| && shards[i].Some? ==> shards[i].value == word[i]
  }

  ghost predicate Encodes(data: seq<bytes>, p: nat, width: nat) {
    1 <= |data| && 1 <= p && |data| + p <= 256 && 1 <= width && Uniform(data, width)
  }

  /** Parity shards are as many and as wide as asked for. */
  ghost predicate EncoderLaw(s: Scheme) {
    forall data: seq<bytes>, p: nat, width: nat :: Encodes(data, p, width) ==>
      |s.parity(data, p)| == p && Uniform(s.parity(data, p), width)
  }

  /** Any `|data|` shards of a code word determine the data shards. */
  ghost predicate RecoveryLaw(s: Scheme) {
    forall data: seq<bytes>, p: nat, width: nat, shards: seq<Option<bytes>> ::
      Encodes(data, p, width)
      && Subword(shards, data + s.parity(data, p))
      && |Present(shards)| >= |data|
      ==> s.recover(|data|, p, shards) == Some(data)
  }

  /** Recovered shards are as wide as those they come from. */
  ghost predicate WidthLaw(s: Scheme) {
    forall t: nat, p: nat, shards: seq<Option<bytes>>, width: nat ::
      Present(shards) != {} && OfWidth(shards, width) && s.recover(t, p, shards).Some?
      ==> Uniform(s.recover(t, p, shards).value, width)
  }

  ghost predicate OfWidth(shards: seq<Option<bytes>>, width: nat) {
    forall i :: 0 <= i < |shards| && shards[i].Some? ==> |shards[i].value| == width
  }

  /** Parity works column by column: data that agree up to a column have parity that agrees up to it. */
  ghost predicate ColumnLaw(s: Scheme) {
    forall a: seq<bytes>, b: seq<bytes>, p: nat, width: nat, c: nat
      {:trigger Encodes(a, p, width), Encodes(b, p, width), SameColumns(a, b, c)} ::
      Encodes(a, p, width) && Encodes(b, p, width) && SameColumns(a, b, c)
      ==> SameColumns(s.parity(a, p), s.parity(b, p), c)
  }

  ghost predicate SameColumns(a: seq<bytes>, b: seq<bytes>, c: nat) {
    |a| == |b| && forall i :: 0 <= i < |a| ==> c <= |a[i]| && c <= |b[i]| && a[i][..c] == b[i][..c]
  }

  /** The most data shards that a chunk can have. */
  const MAX_DATA := 40

  ghost predicate TableLaw(table: seq<nat>) {
    |table| >= MAX_DATA && forall i :: 0 <= i < |table| ==> 1 <= table[i] && i + 1 + table[i] <= 256
  }

  ghost predicate Lawful(s: Scheme) {
    EncoderLaw(s) && RecoveryLaw(s) && WidthLaw(s) && TableLaw(s.table)
  }

  /** The table shipped with the program, in its eight rows of ten entries. */
  const DEFAULT_TABLE: seq<nat> :=
    [4, 7, 8, 9, 11, 12, 13, 14, 15, 16]
    + [16, 17, 17, 18, 19, 19, 20, 20, 21, 21]
    + [22, 22, 23, 23, 24, 24, 25, 25, 26, 26]
    + [27, 27, 27, 27, 28, 28, 28, 28, 29, 29]
    + [29, 29, 30, 30, 30, 30, 31, 31, 31, 31]
    + [32, 32, 32, 32, 32, 32, 32, 32, 33, 33]
    + [33, 33, 33, 33, 33, 33, 34, 34, 34, 34]
    + [34, 34, 34, 34, 35, 35, 35, 35, 35, 35]

  lemma DefaultTableIsLawful()
    ensures TableLaw(DEFAULT_TABLE) && |DEFAULT_TABLE| == 80
  {
  }
}
