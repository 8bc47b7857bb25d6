/**
  A Reed-Solomon code over the field with 256 elements, byte column by byte column: the data shards are the values
  of a polynomial at the first points, the parity shards its values at the points after them. It obeys the law of
  `ErasureCode`, so that what is proved from the law is not empty.
 */
module ReedSolomon {
  import opened Bytes
  import opened ErasureCode
  import opened GaloisField

  // ---------- Polynomials ----------

  /** Horner's rule, the leading coefficient first. */
  ghost function Eval(c: seq<Elem>, x: Elem): Elem {
    if c == [] then ZERO else Add(Mul(x, Eval(c[..|c| - 1], x)), c[|c| - 1])
  }

  lemma AddIsZero(a: Elem, b: Elem)
    ensures Add(a, b) == ZERO <==> a == b
  {
  }

  lemma EvalSnoc(c: seq<Elem>, last: Elem, x: Elem)
    ensures Eval(c + [last], x) == Add(Mul(x, Eval(c, x)), last)
  {
    assert (c + [last])[..|c|] == c;
  }

  /** Division by `x - r`. */
  ghost function Quotient(c: seq<Elem>, r: Elem): (q: seq<Elem>)
    requires c != []
    ensures |q| == |c| - 1
  {
    var n := |c| - 1;
    if n == 0 then [] else Quotient(c[..n], r) + [Eval(c[..n], r)]
  }

  /** x u + r v == (x + r) q' for u + v == (x + r) q. */
  lemma {:induction false} DivisionStep(x: Elem, r: Elem, u: Elem, v: Elem, q: Elem)
    requires Add(u, v) == Mul(Add(x, r), q)
    ensures Add(Mul(x, u), Mul(r, v)) == Mul(Add(x, r), Add(Mul(x, q), v))
  {
    hide Mul;
    var s := Add(x, r);
    MulDistributes(s, Mul(x, q), v);
    MulAssociates(s, x, q);
    MulCommutes(s, x);
    MulAssociates(x, s, q);
    MulDistributes(x, u, v);
    MulCommutes(s, v);
    MulDistributes(v, x, r);
    MulCommutes(v, x);
    MulCommutes(v, r);
  }

  lemma {:induction false} Division(c: seq<Elem>, r: Elem, x: Elem)
    requires c != []
    ensures Add(Eval(c, x), Eval(c, r)) == Mul(Add(x, r), Eval(Quotient(c, r), x))
  {
    hide Mul, Add;
    var n := |c| - 1;
    var u, v := Eval(c[..n], x), Eval(c[..n], r);
    CancelLast(Mul(x, u), Mul(r, v), c[n]);
    if n == 0 {
      MulZero(x);
      MulZero(r);
      MulZero(Add(x, r));
      SumOfZeros();
    } else {
      Division(c[..n], r, x);
      var q := Quotient(c[..n], r);
      DivisionStep(x, r, u, v, Eval(q, x));
      EvalSnoc(q, v, x);
    }
  }

  lemma CancelLast(a: Elem, b: Elem, c: Elem)
    ensures Add(Add(a, c), Add(b, c)) == Add(a, b)
  {
  }

  // ---------- Roots ----------

  function Point(i: nat): Elem
    requires i < 256
  {
    ToElem(i)
  }

  lemma {:induction false} PointsDiffer(i: nat, j: nat)
    requires i < 256 && j < 256 && i != j
    ensures Point(i) != Point(j)
  {
    ByteRoundTrip(i);
    ByteRoundTrip(j);
  }

  ghost predicate RootAt(c: seq<Elem>, i: nat) {
    i < 256 && Eval(c, Point(i)) == ZERO
  }

  /** A polynomial with as many roots as coefficients vanishes everywhere. */
  lemma {:induction false} TooManyRoots(c: seq<Elem>, roots: set<nat>, x: Elem)
    requires |roots| >= |c| && forall i :: i in roots ==> RootAt(c, i)
    ensures Eval(c, x) == ZERO
    decreases |c|
  {
    hide Mul, Add, Quotient;
    if c != [] {
      var k :| k in roots;
      var r := Point(k);
      var q := Quotient(c, r);
      forall i | i in roots - {k} ensures RootAt(q, i) {
        assert RootAt(c, i) && RootAt(c, k);
        Division(c, r, Point(i));
        PointsDiffer(i, k);
        SumOfZeros();
        AddIsZero(Point(i), r);
        if Eval(q, Point(i)) != ZERO {
          MulNotZero(Add(Point(i), r), Eval(q, Point(i)));
        }
      }
      TooManyRoots(q, roots - {k}, x);
      Division(c, r, x);
      MulZero(Add(x, r));
      AddIsZero(Eval(c, x), Eval(c, r));
      assert RootAt(c, k);
    }
  }

  lemma SumOfZeros()
    ensures Add(ZERO, ZERO) == ZERO
  {
  }

  ghost function Difference(c: seq<Elem>, d: seq<Elem>): (e: seq<Elem>)
    requires |c| == |d|
    ensures |e| == |c|
  {
    seq(|c|, i requires 0 <= i < |c| => Add(c[i], d[i]))
  }

  lemma Shuffle(a: Elem, b: Elem, c: Elem, d: Elem)
    ensures Add(Add(a, b), Add(c, d)) == Add(Add(a, c), Add(b, d))
  {
  }

  lemma SumStep(x: Elem, a: Elem, b: Elem, c: Elem, d: Elem)
    ensures Add(Mul(x, Add(a, b)), Add(c, d)) == Add(Add(Mul(x, a), c), Add(Mul(x, b), d))
  {
    hide Mul, Add;
    MulDistributes(x, a, b);
    Shuffle(Mul(x, a), Mul(x, b), c, d);
  }

  lemma {:induction false} EvalDifference(c: seq<Elem>, d: seq<Elem>, x: Elem)
    requires |c| == |d|
    ensures Eval(Difference(c, d), x) == Add(Eval(c, x), Eval(d, x))
  {
    hide Mul, Add;
    SumOfZeros();
    if c != [] {
      var n := |c| - 1;
      assert Difference(c, d)[..n] == Difference(c[..n], d[..n]);
      EvalDifference(c[..n], d[..n], x);
      SumStep(x, Eval(c[..n], x), Eval(d[..n], x), c[n], d[n]);
    }
  }

  /** Two polynomials that agree at as many points as they have coefficients agree everywhere. */
  lemma AgreeEverywhere(c: seq<Elem>, d: seq<Elem>, at: set<nat>, x: Elem)
    requires |c| == |d| <= |at|
    requires forall i :: i in at ==> i < 256 && Eval(c, Point(i)) == Eval(d, Point(i))
    ensures Eval(c, x) == Eval(d, x)
  {
    hide Eval, Add, Difference;
    forall i | i in at ensures RootAt(Difference(c, d), i) {
      EvalDifference(c, d, Point(i));
      AddIsZero(Eval(c, Point(i)), Eval(d, Point(i)));
    }
    TooManyRoots(Difference(c, d), at, x);
    EvalDifference(c, d, x);
    AddIsZero(Eval(c, x), Eval(d, x));
  }

  // ---------- Interpolation ----------

  /** (x - r) q + y. */
  ghost function TimesLinear(q: seq<Elem>, r: Elem, y: Elem): (c: seq<Elem>)
    ensures |c| == |q| + 1
  {
    if q == [] then [y]
    else
      var m := |q| - 1;
      TimesLinear(q[..m], r, q[m]) + [Add(y, Mul(r, q[m]))]
  }

  lemma {:induction false} LinearStep(x: Elem, r: Elem, e: Elem, k: Elem, y: Elem)
    ensures Add(Mul(x, Add(Mul(Add(x, r), e), k)), Add(y, Mul(r, k))) == Add(Mul(Add(x, r), Add(Mul(x, e), k)), y)
  {
    hide Mul;
    var s := Add(x, r);
    MulDistributes(x, Mul(s, e), k);
    MulAssociates(x, s, e);
    MulCommutes(x, s);
    MulAssociates(s, x, e);
    MulDistributes(s, Mul(x, e), k);
    MulCommutes(s, k);
    MulDistributes(k, x, r);
    MulCommutes(k, x);
    MulCommutes(k, r);
  }

  lemma {:induction false} EvalTimesLinear(q: seq<Elem>, r: Elem, y: Elem, x: Elem)
    ensures Eval(TimesLinear(q, r, y), x) == Add(Mul(Add(x, r), Eval(q, x)), y)
  {
    hide Mul, Add;
    if q == [] {
      MulZero(Add(x, r));
      MulZero(x);
      assert [y][..0] == [];
    } else {
      var m := |q| - 1;
      EvalTimesLinear(q[..m], r, q[m], x);
      EvalSnoc(TimesLinear(q[..m], r, q[m]), Add(y, Mul(r, q[m])), x);
      LinearStep(x, r, Eval(q[..m], x), q[m], y);
    }
  }

  /** The slopes towards the last point. */
  ghost function Slopes(ys: seq<Elem>): (r: seq<Elem>)
    requires 0 < |ys| <= 256
    ensures |r| == |ys| - 1
  {
    var n := |ys| - 1;
    seq(n, i requires 0 <= i < n =>
      PointsDiffer(i, n);
      AddIsZero(Point(i), Point(n));
      Mul(Add(ys[i], ys[n]), Inv(Add(Point(i), Point(n)))))
  }

  /** The polynomial with the given values at the first points. */
  ghost function Interpolate(ys: seq<Elem>): (c: seq<Elem>)
    requires |ys| <= 256
    ensures |c| == |ys|
    decreases |ys|
  {
    if ys == [] then []
    else
      var n := |ys| - 1;
      TimesLinear(Interpolate(Slopes(ys)), Point(n), ys[n])
  }

  /** d == x + r: d ((a + y) / d) + y == a. */
  lemma SlopeStep(d: Elem, a: Elem, y: Elem)
    requires d != ZERO
    ensures Add(Mul(d, Mul(Add(a, y), Inv(d))), y) == a
  {
    hide Mul, Inv;
    MulCommutes(Add(a, y), Inv(d));
    MulAssociates(d, Inv(d), Add(a, y));
    MulInv(d);
    MulCommutes(ONE, Add(a, y));
    MulOne(Add(a, y));
  }

  lemma {:induction false} InterpolateMeets(ys: seq<Elem>, i: nat)
    requires i < |ys| <= 256
    ensures Eval(Interpolate(ys), Point(i)) == ys[i]
    decreases |ys|
  {
    hide Mul, Add, Eval, TimesLinear;
    var n := |ys| - 1;
    var q, x, r := Interpolate(Slopes(ys)), Point(i), Point(n);
    EvalTimesLinear(q, r, ys[n], x);
    if i == n {
      AddIsZero(x, r);
      MulZero(Eval(q, x));
      PlusNothing(ys[n]);
    } else {
      InterpolateMeets(Slopes(ys), i);
      PointsDiffer(i, n);
      AddIsZero(x, r);
      SlopeStep(Add(x, r), ys[i], ys[n]);
    }
  }

  lemma PlusNothing(a: Elem)
    ensures Add(ZERO, a) == a
  {
  }

  // ---------- Shards ----------

  /** Equally wide data shards that a code word can be made of. */
  ghost predicate Encodable(data: seq<bytes>, p: nat) {
    data != [] && Encodes(data, p, |data[0]|)
  }

  ghost function Column(data: seq<bytes>, j: nat): (ys: seq<Elem>)
    requires forall i :: 0 <= i < |data| ==> j < |data[i]|
    ensures |ys| == |data| && forall i :: 0 <= i < |data| ==> ys[i] == ToElem(data[i][j])
  {
    seq(|data|, i requires 0 <= i < |data| => ToElem(data[i][j]))
  }

  /** The byte of shard `i` in column `j`. */
  ghost function ByteAt(data: seq<bytes>, p: nat, i: nat, j: nat): byte
    requires Encodable(data, p) && i < |data| + p && j < |data[0]|
  {
    ToByte(Eval(Interpolate(Column(data, j)), Point(i)))
  }

  ghost function ParityShard(data: seq<bytes>, p: nat, k: nat): (b: bytes)
    requires Encodable(data, p) && k < p
    ensures |b| == |data[0]| && forall j :: 0 <= j < |b| ==> b[j] == ByteAt(data, p, |data| + k, j)
  {
    seq(|data[0]|, j requires 0 <= j < |data[0]| => ByteAt(data, p, |data| + k, j))
  }

  ghost function Parity(data: seq<bytes>, p: nat): (r: seq<bytes>)
    ensures Encodable(data, p) ==> |r| == p && forall k :: 0 <= k < p ==> r[k] == ParityShard(data, p, k)
  {
    if Encodable(data, p) then seq(p, k requires 0 <= k < p => ParityShard(data, p, k)) else []
  }

  /** Every column of a code word is a polynomial: data and parity shards are its values. */
  lemma {:induction false} ColumnIsPolynomial(data: seq<bytes>, p: nat, i: nat, j: nat)
    requires Encodable(data, p) && i < |data| + p && j < |data[0]|
    ensures var word := data + Parity(data, p);
            |word[i]| == |data[0]| && ToElem(word[i][j]) == Eval(Interpolate(Column(data, j)), Point(i))
  {
    hide Eval, Interpolate, Point, ToElem, ToByte;
    if i < |data| {
      InterpolateMeets(Column(data, j), i);
    } else {
      ElemRoundTrip(Eval(Interpolate(Column(data, j)), Point(i)));
    }
  }

  ghost predicate Fits(data: seq<bytes>, t: nat, p: nat, shards: seq<Option<bytes>>) {
    |data| == t && Encodable(data, p) && Subword(shards, data + Parity(data, p))
  }

  lemma SameWidth(a: seq<bytes>, b: seq<bytes>, t: nat, p: nat, shards: seq<Option<bytes>>)
    requires Fits(a, t, p, shards) && Fits(b, t, p, shards) && |Present(shards)| >= t
    ensures |a[0]| == |b[0]|
  {
    hide Parity, ByteAt;
    var i :| i in Present(shards);
    ColumnIsPolynomial(a, p, i, 0);
    ColumnIsPolynomial(b, p, i, 0);
  }

  lemma SameByte(a: seq<bytes>, b: seq<bytes>, t: nat, p: nat, shards: seq<Option<bytes>>, i: nat, j: nat)
    requires Fits(a, t, p, shards) && Fits(b, t, p, shards) && |Present(shards)| >= t
    requires i < t && |a[0]| == |b[0]| && j < |a[0]|
    ensures a[i][j] == b[i][j]
  {
    hide Eval, Interpolate, Point, ToElem, ToByte, Parity;
    var c, d := Interpolate(Column(a, j)), Interpolate(Column(b, j));
    forall k | k in Present(shards) ensures k < 256 && Eval(c, Point(k)) == Eval(d, Point(k)) {
      ColumnIsPolynomial(a, p, k, j);
      ColumnIsPolynomial(b, p, k, j);
    }
    AgreeEverywhere(c, d, Present(shards), Point(i));
    ColumnIsPolynomial(a, p, i, j);
    ColumnIsPolynomial(b, p, i, j);
    ByteRoundTrip(a[i][j]);
    ByteRoundTrip(b[i][j]);
  }

  /** As many shards as there are data shards leave no choice. */
  lemma ShardsDetermineData(a: seq<bytes>, b: seq<bytes>, t: nat, p: nat, shards: seq<Option<bytes>>)
    requires Fits(a, t, p, shards) && Fits(b, t, p, shards) && |Present(shards)| >= t
    ensures a == b
  {
    hide Parity, Subword;
    SameWidth(a, b, t, p, shards);
    forall i | 0 <= i < t ensures a[i] == b[i] {
      forall j | 0 <= j < |a[0]| ensures a[i][j] == b[i][j] {
        SameByte(a, b, t, p, shards, i, j);
      }
    }
  }

  ghost function Recover(t: nat, p: nat, shards: seq<Option<bytes>>): Option<seq<bytes>> {
    if |Present(shards)| >= t && exists data :: Fits(data, t, p, shards) then
      var data :| Fits(data, t, p, shards);
      Some(data)
    else None
  }

  /** The code with the program's own parity table. */
  ghost function Code(): Scheme {
    Scheme((data, p) => Parity(data, p), (t, p, shards) => Recover(t, p, shards), DEFAULT_TABLE)
  }

  lemma CodeEncodes(data: seq<bytes>, p: nat, width: nat)
    requires Encodes(data, p, width)
    ensures Encodable(data, p) && width == |data[0]|
    ensures |Parity(data, p)| == p && Uniform(Parity(data, p), width)
  {
  }

  lemma CodeRecovers(data: seq<bytes>, p: nat, width: nat, shards: seq<Option<bytes>>)
    requires Encodes(data, p, width) && Subword(shards, data + Parity(data, p)) && |Present(shards)| >= |data|
    ensures Recover(|data|, p, shards) == Some(data)
  {
    hide Parity, Subword;
    CodeEncodes(data, p, width);
    assert Fits(data, |data|, p, shards);
    var r := Recover(|data|, p, shards);
    assert r.Some? && Fits(r.value, |data|, p, shards);
    ShardsDetermineData(r.value, data, |data|, p, shards);
  }

  /** A parity byte depends on its own column only. */
  lemma {:induction false} ParityByteFromColumn(
    a: seq<bytes>, b: seq<bytes>, p: nat, width: nat, c: nat, k: nat, j: nat)
    requires Encodes(a, p, width) && Encodes(b, p, width) && SameColumns(a, b, c) && k < p && j < c
    ensures Encodable(a, p) && Encodable(b, p) && c <= width == |a[0]| == |b[0]|
    ensures ByteAt(a, p, |a| + k, j) == ByteAt(b, p, |a| + k, j)
  {
    hide Eval, Interpolate, Point, ToElem, ToByte;
    forall i | 0 <= i < |a| ensures a[i][j] == b[i][j] {
      assert a[i][..c][j] == b[i][..c][j];
    }
    assert Column(a, j) == Column(b, j);
  }

  lemma {:induction false} ParityColumns(a: seq<bytes>, b: seq<bytes>, p: nat, width: nat, c: nat)
    requires Encodes(a, p, width) && Encodes(b, p, width) && SameColumns(a, b, c)
    ensures SameColumns(Parity(a, p), Parity(b, p), c)
  {
    hide ByteAt;
    CodeEncodes(a, p, width);
    CodeEncodes(b, p, width);
    forall k | 0 <= k < p ensures c <= width && Parity(a, p)[k][..c] == Parity(b, p)[k][..c] {
      forall j | 0 <= j < c ensures c <= width && Parity(a, p)[k][j] == Parity(b, p)[k][j] {
        ParityByteFromColumn(a, b, p, width, c, k, j);
      }
      assert c <= |a[0]|;
    }
  }

  lemma {:induction false} CodeWorksByColumns()
    ensures ColumnLaw(Code())
  {
    hide Parity, Recover, SameColumns, Encodes;
    forall a: seq<bytes>, b: seq<bytes>, p: nat, width: nat, c: nat
      {:trigger Encodes(a, p, width), Encodes(b, p, width), SameColumns(a, b, c)} |
      Encodes(a, p, width) && Encodes(b, p, width) && SameColumns(a, b, c)
      ensures SameColumns(Parity(a, p), Parity(b, p), c)
    {
      ParityColumns(a, b, p, width, c);
    }
  }

  lemma CodeKeepsWidth(t: nat, p: nat, shards: seq<Option<bytes>>, width: nat)
    requires Present(shards) != {} && OfWidth(shards, width) && Recover(t, p, shards).Some?
    ensures Uniform(Recover(t, p, shards).value, width)
  {
    hide Parity, ByteAt;
    var data := Recover(t, p, shards).value;
    assert Fits(data, t, p, shards);
    var i :| i in Present(shards);
    if 0 < |data[0]| {
      ColumnIsPolynomial(data, p, i, 0);
    }
  }

  /** The law that the error correction relies on can be met, with the program's own parity table. */
  lemma CodeIsLawful()
    ensures Lawful(Code()) && Code().table == DEFAULT_TABLE
  {
    hide Parity, Recover;
    DefaultTableIsLawful();
    hide TableLaw;
    forall data: seq<bytes>, p: nat, width: nat | Encodes(data, p, width)
      ensures |Parity(data, p)| == p && Uniform(Parity(data, p), width)
    {
      CodeEncodes(data, p, width);
    }
    forall data: seq<bytes>, p: nat, width: nat, shards: seq<Option<bytes>> |
      Encodes(data, p, width) && Subword(shards, data + Parity(data, p)) && |Present(shards)| >= |data|
      ensures Recover(|data|, p, shards) == Some(data)
    {
      CodeRecovers(data, p, width, shards);
    }
    forall t: nat, p: nat, shards: seq<Option<bytes>>, width: nat |
      Present(shards) != {} && OfWidth(shards, width) && Recover(t, p, shards).Some?
      ensures Uniform(Recover(t, p, shards).value, width)
    {
      CodeKeepsWidth(t, p, shards, width);
    }
  }
}
