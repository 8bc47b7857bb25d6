/**
  The field with 256 elements, as polynomials over bits modulo x^8 + x^4 + x^3 + x^2 + 1. Multiplication is built
  from doubling alone: doubling is linear and runs through all nonzero elements, so a product is a number of doublings.
 */
module GaloisField {
  import opened Bytes

  datatype Elem = Elem(b0: bool, b1: bool, b2: bool, b3: bool, b4: bool, b5: bool, b6: bool, b7: bool)

  const ZERO := Elem(false, false, false, false, false, false, false, false)
  const ONE := Elem(true, false, false, false, false, false, false, false)

  function Add(a: Elem, b: Elem): Elem {
    Elem(a.b0 != b.b0, a.b1 != b.b1, a.b2 != b.b2, a.b3 != b.b3, a.b4 != b.b4, a.b5 != b.b5, a.b6 != b.b6, a.b7 != b.b7)
  }

  /** Multiplication by x. */
  function Times2(a: Elem): Elem {
    Elem(a.b7, a.b0, a.b1 != a.b7, a.b2 != a.b7, a.b3 != a.b7, a.b4, a.b5, a.b6)
  }

  function Shift(a: Elem, n: nat): Elem {
    if n == 0 then a else Times2(Shift(a, n - 1))
  }

  // ---------- Bytes as elements ----------

  function Append(n: nat, low: bool): nat {
    2 * n + if low then 1 else 0
  }

  function Odd(n: nat): bool {
    n % 2 == 1
  }

  function Half(n: nat): nat {
    n / 2
  }

  function ToByte(v: Elem): byte {
    Append(Append(Append(Append(Append(Append(Append(Append(0, v.b7), v.b6), v.b5), v.b4), v.b3), v.b2), v.b1), v.b0)
  }

  function ToElem(n: byte): Elem {
    var n1 := Half(n);
    var n2 := Half(n1);
    var n3 := Half(n2);
    var n4 := Half(n3);
    var n5 := Half(n4);
    var n6 := Half(n5);
    var n7 := Half(n6);
    Elem(Odd(n), Odd(n1), Odd(n2), Odd(n3), Odd(n4), Odd(n5), Odd(n6), Odd(n7))
  }

  lemma SplitLow(n: nat)
    ensures Append(Half(n), Odd(n)) == n
  {
  }

  lemma TopIsZero(n: nat)
    requires n < 256
    ensures Half(Half(Half(Half(Half(Half(Half(Half(n)))))))) == 0
  {
  }

  lemma {:induction false} ByteRoundTrip(n: byte)
    ensures ToByte(ToElem(n)) == n
  {
    var n4 := Half(Half(Half(Half(n))));
    var n7 := Half(Half(Half(n4)));
    TopIsZero(n);
    hide Odd, Half, Append;
    SplitLow(n7);
    SplitLow(Half(Half(n4)));
    SplitLow(Half(n4));
    SplitLow(n4);
    SplitLow(Half(Half(Half(n))));
    SplitLow(Half(Half(n)));
    SplitLow(Half(n));
    SplitLow(n);
  }

  lemma SplitAppended(n: nat, low: bool)
    ensures Odd(Append(n, low)) == low && Half(Append(n, low)) == n
  {
  }

  lemma {:induction false} ElemRoundTrip(v: Elem)
    ensures ToElem(ToByte(v)) == v
  {
    hide Append, Odd, Half;
    var n7 := Append(0, v.b7);
    var n6 := Append(n7, v.b6);
    var n5 := Append(n6, v.b5);
    var n4 := Append(n5, v.b4);
    var n3 := Append(n4, v.b3);
    var n2 := Append(n3, v.b2);
    var n1 := Append(n2, v.b1);
    SplitAppended(0, v.b7);
    SplitAppended(n7, v.b6);
    SplitAppended(n6, v.b5);
    SplitAppended(n5, v.b4);
    SplitAppended(n4, v.b3);
    SplitAppended(n3, v.b2);
    SplitAppended(n2, v.b1);
    SplitAppended(n1, v.b0);
  }

  lemma Times2Sum(a: Elem, b: Elem)
    ensures Times2(Add(a, b)) == Add(Times2(a), Times2(b))
  {
  }

  lemma Times2Injective(a: Elem, b: Elem)
    requires Times2(a) == Times2(b)
    ensures a == b
  {
  }

  // ---------- Powers of two ----------

  lemma {:induction false} ShiftTwice(a: Elem, m: nat, n: nat)
    ensures Shift(Shift(a, m), n) == Shift(a, m + n)
  {
    if n > 0 {
      ShiftTwice(a, m, n - 1);
    }
  }

  lemma {:induction false} ShiftSum(a: Elem, b: Elem, n: nat)
    ensures Shift(Add(a, b), n) == Add(Shift(a, n), Shift(b, n))
  {
    hide Add, Times2;
    if n > 0 {
      ShiftSum(a, b, n - 1);
      Times2Sum(Shift(a, n - 1), Shift(b, n - 1));
    }
  }

  lemma {:induction false} ShiftInjective(a: Elem, b: Elem, n: nat)
    requires Shift(a, n) == Shift(b, n)
    ensures a == b
  {
    if n > 0 {
      Times2Injective(Shift(a, n - 1), Shift(b, n - 1));
      ShiftInjective(a, b, n - 1);
    }
  }

  lemma {:induction false} ShiftZero(n: nat)
    ensures Shift(ZERO, n) == ZERO
  {
    if n > 0 {
      ShiftZero(n - 1);
    }
  }

  /** Four doublings at once. */
  function Doubled4(a: Elem): Elem {
    Elem(
      a.b4,
      a.b5,
      a.b4 != a.b6,
      (a.b4 != a.b5) != a.b7,
      ((a.b0 != a.b4) != a.b5) != a.b6,
      ((a.b1 != a.b5) != a.b6) != a.b7,
      (a.b2 != a.b6) != a.b7,
      a.b3 != a.b7)
  }

  lemma Shift4(a: Elem)
    ensures Shift(a, 4) == Doubled4(a)
  {
    assert Shift(a, 1) == Times2(a);
    assert Shift(a, 2) == Times2(Times2(a));
    assert Shift(a, 3) == Times2(Times2(Times2(a)));
  }

  /** Eight doublings at once. */
  function Doubled8(a: Elem): Elem {
    Elem(
      ((a.b0 != a.b4) != a.b5) != a.b6,
      ((a.b1 != a.b5) != a.b6) != a.b7,
      (((a.b0 != a.b2) != a.b4) != a.b5) != a.b7,
      ((a.b0 != a.b1) != a.b3) != a.b4,
      ((a.b0 != a.b1) != a.b2) != a.b6,
      ((a.b1 != a.b2) != a.b3) != a.b7,
      (a.b2 != a.b3) != a.b4,
      (a.b3 != a.b4) != a.b5)
  }

  lemma Shift8(a: Elem)
    ensures Shift(a, 8) == Doubled8(a)
  {
    Shift4(a);
    Shift4(Shift(a, 4));
    ShiftTwice(a, 4, 4);
    hide Shift;
  }

  /** Sixteen doublings at once. */
  function Doubled16(a: Elem): Elem {
    Elem(
      (a.b2 != a.b5) != a.b7,
      a.b3 != a.b6,
      ((a.b0 != a.b2) != a.b4) != a.b5,
      ((((a.b0 != a.b1) != a.b2) != a.b3) != a.b6) != a.b7,
      ((a.b1 != a.b3) != a.b4) != a.b5,
      ((a.b2 != a.b4) != a.b5) != a.b6,
      (((a.b0 != a.b3) != a.b5) != a.b6) != a.b7,
      ((a.b1 != a.b4) != a.b6) != a.b7)
  }

  lemma Doubled8Twice(a: Elem)
    ensures Doubled8(Doubled8(a)) == Doubled16(a)
  {
  }

  lemma Shift16(a: Elem)
    ensures Shift(a, 16) == Doubled16(a)
  {
    hide Shift, Doubled8, Doubled16;
    Shift8(a);
    Shift8(Doubled8(a));
    ShiftTwice(a, 8, 8);
    Doubled8Twice(a);
  }

  /** Seventeen doublings at once. */
  function Doubled17(a: Elem): Elem {
    Elem(
      ((a.b1 != a.b4) != a.b6) != a.b7,
      (a.b2 != a.b5) != a.b7,
      ((a.b1 != a.b3) != a.b4) != a.b7,
      ((((a.b0 != a.b1) != a.b2) != a.b5) != a.b6) != a.b7,
      ((a.b0 != a.b2) != a.b3) != a.b4,
      ((a.b1 != a.b3) != a.b4) != a.b5,
      ((a.b2 != a.b4) != a.b5) != a.b6,
      (((a.b0 != a.b3) != a.b5) != a.b6) != a.b7)
  }

  lemma Shift17(a: Elem)
    ensures Shift(a, 17) == Doubled17(a)
  {
    Shift16(a);
    assert Shift(a, 17) == Times2(Shift(a, 16));
    hide Shift;
  }

  lemma Next17(n: nat, a: Elem, b: Elem)
    requires Shift(ONE, n) == a && Doubled17(a) == b
    ensures Shift(ONE, n + 17) == b
  {
    hide Doubled17;
    Shift17(a);
    ShiftTwice(ONE, n, 17);
  }

  /** The powers of two at the multiples of 17 come back to one at 255 and not before. */
  lemma SeventeenthPowers()
    ensures Shift(ONE, 17) == Elem(false, false, false, true, true, false, false, true)
    ensures Shift(ONE, 51) != ONE && Shift(ONE, 85) != ONE && Shift(ONE, 255) == ONE
  {
    hide Shift;
    var p1 := Elem(false, false, false, true, true, false, false, true);
    var p2 := Elem(false, true, true, true, false, false, true, false);
    var p3 := Elem(false, true, false, true, false, false, false, false);
    var p4 := Elem(true, false, false, true, true, false, false, true);
    var p5 := Elem(false, true, true, false, true, false, true, true);
    var p6 := Elem(false, false, true, false, false, false, true, false);
    var p7 := Elem(true, true, false, false, true, false, false, true);
    var p8 := Elem(true, true, true, true, false, false, true, false);
    var p9 := Elem(false, true, false, false, true, false, false, true);
    var p10 := Elem(true, true, true, false, true, false, true, true);
    var p11 := Elem(false, false, true, true, true, false, true, true);
    var p12 := Elem(true, false, true, true, true, false, true, true);
    var p13 := Elem(true, false, true, false, false, false, true, false);
    var p14 := Elem(true, true, false, true, false, false, false, false);
    ShiftByNone();
    Next17(0, ONE, p1);
    Next17(17, p1, p2);
    Next17(34, p2, p3);
    Next17(51, p3, p4);
    Next17(68, p4, p5);
    Next17(85, p5, p6);
    Next17(102, p6, p7);
    Next17(119, p7, p8);
    Next17(136, p8, p9);
    Next17(153, p9, p10);
    Next17(170, p10, p11);
    Next17(187, p11, p12);
    Next17(204, p12, p13);
    Next17(221, p13, p14);
    Next17(238, p14, ONE);
  }

  lemma ShiftByNone()
    ensures Shift(ONE, 0) == ONE && Shift(ONE, 2) == Elem(false, false, true, false, false, false, false, false)
  {
  }

  lemma FifteenthPower()
    ensures Shift(ONE, 15) != ONE
  {
    SeventeenthPowers();
    ShiftByNone();
    ShiftTwice(ONE, 15, 2);
  }

  lemma {:induction false} Multiples(d: nat, k: nat)
    requires Shift(ONE, d) == ONE
    ensures Shift(ONE, d * k) == ONE
  {
    if k > 0 {
      Multiples(d, k - 1);
      ShiftTwice(ONE, d * (k - 1), d);
      assert d * k == d * (k - 1) + d;
    }
  }

  lemma MultipleOf(d: nat, n: nat)
    requires d > 0 && Shift(ONE, d) == ONE && n % d == 0
    ensures Shift(ONE, n) == ONE
  {
    Multiples(d, n / d);
    assert d * (n / d) == n;
  }

  /** A proper divisor of 255 divides 15, 51 or 85. */
  lemma {:induction false} DivisorsOf255(d: nat)
    requires 0 < d < 255 && 255 % d == 0
    ensures 15 % d == 0 || 51 % d == 0 || 85 % d == 0
  {
    var k := 255 / d;
    assert d * k == 255;
    assert d < 16 || k < 16 by {
      if d >= 16 && k >= 16 {
        ProductGrows(d, k);
      }
    }
    if k < 16 {
      assert k in {1, 2, 3, 4, 5, 6, 7, 8, 9, 10, 11, 12, 13, 14, 15};
    } else {
      assert d in {1, 2, 3, 4, 5, 6, 7, 8, 9, 10, 11, 12, 13, 14, 15};
    }
  }

  lemma ProductGrows(d: nat, k: nat)
    requires d >= 16 && k >= 16
    ensures d * k >= 256
  {
    assert d * k >= 16 * k;
  }

  lemma NoDivisorReturns(d: nat)
    requires 0 < d < 255 && 255 % d == 0
    ensures Shift(ONE, d) != ONE
  {
    if Shift(ONE, d) == ONE {
      hide Shift;
      DivisorsOf255(d);
      SeventeenthPowers();
      FifteenthPower();
      if 15 % d == 0 {
        MultipleOf(d, 15);
      } else if 51 % d == 0 {
        MultipleOf(d, 51);
      } else {
        MultipleOf(d, 85);
      }
    }
  }

  lemma RemainderReturns(d: nat)
    requires 0 < d < 255 && Shift(ONE, d) == ONE
    ensures Shift(ONE, 255 % d) == ONE
  {
    hide Shift;
    var r := 255 % d;
    Multiples(d, 255 / d);
    assert d * (255 / d) == 255 - r;
    ShiftTwice(ONE, 255 - r, r);
    SeventeenthPowers();
  }

  /** The powers of two do not come back to one before the 255th. */
  lemma {:induction false} NoEarlyReturn(d: nat)
    requires 0 < d < 255
    ensures Shift(ONE, d) != ONE
  {
    hide Shift;
    if 255 % d == 0 {
      NoDivisorReturns(d);
    } else if Shift(ONE, d) == ONE {
      RemainderReturns(d);
      NoEarlyReturn(255 % d);
    }
  }

  lemma PowersDiffer(i: nat, j: nat)
    requires i < j < 255
    ensures Shift(ONE, i) != Shift(ONE, j)
  {
    hide Shift;
    ShiftTwice(ONE, j - i, i);
    if Shift(ONE, i) == Shift(ONE, j) {
      ShiftInjective(ONE, Shift(ONE, j - i), i);
      NoEarlyReturn(j - i);
    }
  }

  // ---------- Every nonzero element is a power of two ----------

  function Powers(n: nat): set<int> {
    if n == 0 then {} else Powers(n - 1) + {ToByte(Shift(ONE, n - 1))}
  }

  lemma {:induction false} PowersAre(n: nat, v: int)
    ensures v in Powers(n) ==> exists i :: 0 <= i < n && v == ToByte(Shift(ONE, i))
  {
    if n > 0 {
      PowersAre(n - 1, v);
    }
  }

  lemma {:induction false} PowersCount(n: nat)
    requires n <= 255
    ensures |Powers(n)| == n
  {
    hide Shift, ToByte;
    if n > 0 {
      PowersCount(n - 1);
      var v := ToByte(Shift(ONE, n - 1));
      if v in Powers(n - 1) {
        PowersAre(n - 1, v);
        var i :| 0 <= i < n - 1 && v == ToByte(Shift(ONE, i));
        ElemRoundTrip(Shift(ONE, i));
        ElemRoundTrip(Shift(ONE, n - 1));
        PowersDiffer(i, n - 1);
      }
    }
  }

  function Upto(n: nat): (r: set<int>)
    ensures forall v :: v in r <==> 1 <= v <= n
    ensures |r| == n
  {
    if n == 0 then {} else Upto(n - 1) + {n}
  }

  lemma PowerIsNotZero(n: nat)
    ensures Shift(ONE, n) != ZERO
  {
    ShiftZero(n);
    if Shift(ONE, n) == ZERO {
      ShiftInjective(ONE, ZERO, n);
    }
  }

  lemma ByteIsZero(v: Elem)
    ensures ToByte(v) == 0 <==> v == ZERO
  {
    ElemRoundTrip(v);
    assert ToByte(ZERO) == 0;
    hide ToByte, ToElem;
  }

  lemma {:induction false} PowersAreAll()
    ensures Powers(255) == Upto(255)
  {
    hide Shift, ToByte, Powers;
    PowersCount(255);
    forall v | v in Powers(255) ensures v in Upto(255) {
      PowersAre(255, v);
      var i :| 0 <= i < 255 && v == ToByte(Shift(ONE, i));
      PowerIsNotZero(i);
      ByteIsZero(Shift(ONE, i));
    }
    hide Upto;
    SameSizeSubset(Powers(255), Upto(255));
  }

  lemma SameSizeSubset(a: set<int>, b: set<int>)
    requires a <= b && |a| == |b|
    ensures a == b
  {
    assert |b - a| == |b| - |a|;
  }

  lemma IsPower(a: Elem)
    requires a != ZERO
    ensures exists n: nat :: n < 255 && Shift(ONE, n) == a
  {
    hide Shift, ToByte, Powers;
    PowersAreAll();
    ByteIsZero(a);
    assert ToByte(a) in Powers(255);
    PowersAre(255, ToByte(a));
    var n :| 0 <= n < 255 && ToByte(a) == ToByte(Shift(ONE, n));
    ElemRoundTrip(a);
    ElemRoundTrip(Shift(ONE, n));
  }

  // ---------- Multiplication ----------

  ghost function Log(a: Elem): (n: nat)
    requires a != ZERO
    ensures n < 255 && Shift(ONE, n) == a
  {
    IsPower(a);
    var n: nat :| n < 255 && Shift(ONE, n) == a;
    n
  }

  ghost function Mul(a: Elem, b: Elem): Elem {
    if a == ZERO then ZERO else Shift(b, Log(a))
  }

  ghost function Inv(a: Elem): Elem
    requires a != ZERO
  {
    Shift(ONE, 255 - Log(a))
  }

  lemma MulZero(a: Elem)
    ensures Mul(a, ZERO) == ZERO && Mul(ZERO, a) == ZERO
  {
    if a != ZERO {
      ShiftZero(Log(a));
    }
  }

  lemma ShiftSwap(m: nat, n: nat)
    ensures Shift(Shift(ONE, m), n) == Shift(Shift(ONE, n), m)
  {
    hide Shift;
    ShiftTwice(ONE, m, n);
    ShiftTwice(ONE, n, m);
  }

  lemma MulCommutes(a: Elem, b: Elem)
    ensures Mul(a, b) == Mul(b, a)
  {
    hide Shift;
    MulZero(a);
    MulZero(b);
    if a != ZERO && b != ZERO {
      ShiftSwap(Log(b), Log(a));
    }
  }

  lemma MulNotZero(a: Elem, b: Elem)
    requires a != ZERO && b != ZERO
    ensures Mul(a, b) != ZERO
  {
    hide Shift;
    ShiftZero(Log(a));
    if Mul(a, b) == ZERO {
      ShiftInjective(b, ZERO, Log(a));
    }
  }

  lemma MulAssociates(a: Elem, b: Elem, c: Elem)
    ensures Mul(Mul(a, b), c) == Mul(a, Mul(b, c))
  {
    hide Shift;
    if a == ZERO || b == ZERO || c == ZERO {
      MulZero(a);
      MulZero(b);
      MulZero(c);
      MulZero(Mul(a, b));
    } else {
      MulNotZero(a, b);
      MulCommutes(Mul(a, b), c);
      MulCommutes(b, c);
      ShiftTwice(b, Log(a), Log(c));
      ShiftTwice(b, Log(c), Log(a));
    }
  }

  lemma MulDistributes(a: Elem, b: Elem, c: Elem)
    ensures Mul(a, Add(b, c)) == Add(Mul(a, b), Mul(a, c))
  {
    if a != ZERO {
      ShiftSum(b, c, Log(a));
    }
  }

  lemma MulOne(a: Elem)
    ensures Mul(a, ONE) == a
  {
  }

  lemma MulInv(a: Elem)
    requires a != ZERO
    ensures Mul(a, Inv(a)) == ONE
  {
    hide Shift;
    ShiftTwice(ONE, 255 - Log(a), Log(a));
    SeventeenthPowers();
  }
}
