/** Bitwise operations on natural numbers. */
module Bits {
  import opened Bytes

  function Xor(a: nat, b: nat): nat
    decreases a + b
  {
    if a == 0 && b == 0 then 0 else (a % 2 + b % 2) % 2 + 2 * Xor(a / 2, b / 2)
  }

  function BitOr(a: nat, b: nat): nat {
    if a == 0 then b
    else if b == 0 then a
    else 2 * BitOr(a / 2, b / 2) + if a % 2 == 1 || b % 2 == 1 then 1 else 0
  }

  function BitAnd(a: nat, b: nat): nat {
    if a == 0 || b == 0 then 0
    else 2 * BitAnd(a / 2, b / 2) + if a % 2 == 1 && b % 2 == 1 then 1 else 0
  }

  /** `x >> n`. */
  function Shr(x: nat, n: nat): nat
    decreases n
  {
    if n == 0 then x else Shr(x / 2, n - 1)
  }

  function Bit(x: nat, i: nat): bool
    decreases i
  {
    if i == 0 then x % 2 == 1 else Bit(x / 2, i - 1)
  }

  function Pow2(k: nat): (p: nat)
    ensures p > 0
  {
    if k == 0 then 1 else 2 * Pow2(k - 1)
  }

  lemma LowDigit(d: nat, q: nat)
    requires d < 2
    ensures (d + 2 * q) % 2 == d && (d + 2 * q) / 2 == q
  {
  }

  lemma XorDigits(a: nat, b: nat)
    ensures Xor(a, b) % 2 == (a % 2 + b % 2) % 2 && Xor(a, b) / 2 == Xor(a / 2, b / 2)
  {
    if a != 0 || b != 0 {
      var d, q := (a % 2 + b % 2) % 2, Xor(a / 2, b / 2);
      assert Xor(a, b) == d + 2 * q;
      LowDigit(d, q);
    }
  }

  lemma Halves(x: nat, y: nat)
    requires x % 2 == y % 2 && x / 2 == y / 2
    ensures x == y
  {
  }

  lemma ParityTwice(p: nat, q: nat)
    requires p < 2 && q < 2
    ensures ((p + q) % 2 + q) % 2 == p
  {
  }

  lemma {:induction false} XorTwice(a: nat, m: nat)
    ensures Xor(Xor(a, m), m) == a
    decreases a + m
  {
    if a != 0 || m != 0 {
      XorTwice(a / 2, m / 2);
      XorDigits(a, m);
      XorDigits(Xor(a, m), m);
      hide Xor;
      ParityTwice(a % 2, m % 2);
      Halves(Xor(Xor(a, m), m), a);
    }
  }

  lemma {:induction false} XorBound(a: nat, b: nat, k: nat)
    requires a < Pow2(k) && b < Pow2(k)
    ensures Xor(a, b) < Pow2(k)
  {
    if k > 0 {
      XorBound(a / 2, b / 2, k - 1);
    }
  }

  lemma {:induction false} Pow2Sum(j: nat, k: nat)
    ensures Pow2(j + k) == Pow2(j) * Pow2(k)
  {
    if j > 0 {
      Pow2Sum(j - 1, k);
    }
  }

  function XorByte(a: byte, b: byte): (r: byte)
  {
    XorByteBound(a, b);
    Xor(a, b)
  }

  lemma XorByteBound(a: byte, b: byte)
    ensures Xor(a, b) < 256
  {
    assert Pow2(8) == 256;
    XorBound(a, b, 8);
  }

  // ---------- Or and shift, bit by bit ----------

  lemma OrDigits(a: nat, b: nat)
    ensures BitOr(a, b) % 2 == (if a % 2 == 1 || b % 2 == 1 then 1 else 0) && BitOr(a, b) / 2 == BitOr(a / 2, b / 2)
  {
    if a != 0 && b != 0 {
      LowDigit(if a % 2 == 1 || b % 2 == 1 then 1 else 0, BitOr(a / 2, b / 2));
    }
  }

  lemma {:induction false} BitOfOr(a: nat, b: nat, i: nat)
    ensures Bit(BitOr(a, b), i) <==> Bit(a, i) || Bit(b, i)
    decreases i
  {
    OrDigits(a, b);
    if i > 0 {
      BitOfOr(a / 2, b / 2, i - 1);
    }
  }

  /** Exclusive or flips the bits that are set in the mask. */
  lemma {:induction false} BitOfXor(a: nat, b: nat, i: nat)
    ensures Bit(Xor(a, b), i) <==> Bit(a, i) != Bit(b, i)
    decreases i
  {
    XorDigits(a, b);
    if i > 0 {
      BitOfXor(a / 2, b / 2, i - 1);
    }
  }

  lemma {:induction false} BitOfShift(x: nat, n: nat, i: nat)
    ensures Bit(Shr(x, n), i) == Bit(x, i + n)
    decreases n
  {
    if n > 0 {
      BitOfShift(x / 2, n - 1, i);
    }
  }

  lemma {:induction false} OrBound(a: nat, b: nat, k: nat)
    requires a < Pow2(k) && b < Pow2(k)
    ensures BitOr(a, b) < Pow2(k)
  {
    OrDigits(a, b);
    if k > 0 {
      OrBound(a / 2, b / 2, k - 1);
    }
  }

  lemma {:induction false} ShrBound(x: nat, n: nat)
    ensures Shr(x, n) <= x
    decreases n
  {
    if n > 0 {
      ShrBound(x / 2, n - 1);
    }
  }

  /** A number whose lowest `k` bits are all set, and no other. */
  lemma {:induction false} AllSet(x: nat, k: nat)
    requires x < Pow2(k) && forall i :: 0 <= i < k ==> Bit(x, i)
    ensures x == Pow2(k) - 1
  {
    if k > 0 {
      assert Bit(x, 0);
      forall i | 0 <= i < k - 1 ensures Bit(x / 2, i) {
        assert Bit(x, i + 1);
      }
      AllSet(x / 2, k - 1);
    }
  }

  /** The number of binary digits. */
  function Length(x: nat): nat {
    if x == 0 then 0 else 1 + Length(x / 2)
  }

  lemma {:induction false} LengthIs(x: nat)
    ensures x < Pow2(Length(x))
    ensures x > 0 ==> Pow2(Length(x) - 1) <= x && Bit(x, Length(x) - 1)
  {
    if x > 1 {
      LengthIs(x / 2);
    }
  }

  lemma {:induction false} LengthBound(x: nat, k: nat)
    ensures x < Pow2(k) <==> Length(x) <= k
    decreases k
  {
    if k > 0 && x > 0 {
      LengthBound(x / 2, k - 1);
    }
  }

  lemma Pow2Is32()
    ensures Pow2(31) == 0x8000_0000 && Pow2(32) == 0x1_0000_0000
  {
    assert Pow2(8) == 0x100;
    Pow2Sum(8, 8);
    Pow2Sum(16, 16);
    assert Pow2(32) == 2 * Pow2(31);
  }

  // ---------- Masks ----------

  lemma AndDigits(a: nat, b: nat)
    ensures BitAnd(a, b) == 2 * BitAnd(a / 2, b / 2) + if a % 2 == 1 && b % 2 == 1 then 1 else 0
  {
  }

  lemma OnesDigits(p: nat)
    requires p > 0
    ensures (2 * p - 1) / 2 == p - 1 && (2 * p - 1) % 2 == 1
  {
  }

  lemma RemainderDigits(x: nat, p: nat)
    requires p > 0
    ensures x % (2 * p) == x % 2 + 2 * ((x / 2) % p)
  {
    var h := x / 2;
    var q, r := h / p, x % 2 + 2 * (h % p);
    assert x == x % 2 + 2 * h && h == q * p + h % p;
    assert x == q * (2 * p) + r;
    RemainderIsUnique(x, 2 * p, q, r);
  }

  lemma Multiples(d: int, n: nat)
    ensures d >= 1 ==> d * n >= n
    ensures d <= -1 ==> d * n <= 0 - n
  {
  }

  lemma {:induction false} RemainderIsUnique(a: nat, n: nat, q: nat, r: nat)
    requires n > 0 && a == q * n + r && r < n
    ensures a % n == r
  {
    var d := a / n - q;
    assert d * n == r - a % n;
    Multiples(d, n);
  }

  lemma MaskStep(x: nat, p: nat)
    requires p > 0 && BitAnd(x / 2, p - 1) == (x / 2) % p
    ensures BitAnd(x, 2 * p - 1) == x % (2 * p)
  {
    OnesDigits(p);
    AndDigits(x, 2 * p - 1);
    RemainderDigits(x, p);
    hide BitAnd;
  }

  /** Masking with all ones takes the remainder by a power of two. */
  lemma {:induction false} MaskIsRemainder(x: nat, k: nat)
    ensures BitAnd(x, Pow2(k) - 1) == x % Pow2(k)
    decreases k
  {
    if k > 0 {
      MaskIsRemainder(x / 2, k - 1);
      hide BitAnd;
      MaskStep(x, Pow2(k - 1));
    }
  }

  // ---------- Big-endian bytes, bit by bit ----------

  lemma QuotientDigits(x: nat, p: nat)
    requires p > 0
    ensures x / (2 * p) == x / 2 / p
  {
    var h := x / 2;
    var q, r := h / p, x % 2 + 2 * (h % p);
    assert x == x % 2 + 2 * h && h == q * p + h % p;
    assert x == q * (2 * p) + r;
    RemainderIsUnique(x, 2 * p, q, r);
    QuotientIsUnique(x, 2 * p, q, r);
  }

  lemma {:induction false} QuotientIsUnique(a: nat, n: nat, q: nat, r: nat)
    requires n > 0 && a == q * n + r && r < n
    ensures a / n == q
  {
    var d := a / n - q;
    assert d * n == r - a % n;
    Multiples(d, n);
  }

  lemma {:induction false} BitOfQuotient(x: nat, k: nat, q: nat, i: nat)
    requires q == x / Pow2(k)
    ensures Bit(q, i) == Bit(x, i + k)
    decreases k
  {
    if k > 0 {
      QuotientDigits(x, Pow2(k - 1));
      BitOfQuotient(x / 2, k - 1, q, i);
    }
  }

  lemma {:induction false} BitOfRemainder(x: nat, k: nat, i: nat)
    requires i < k
    ensures Bit(x % Pow2(k), i) == Bit(x, i)
    decreases k
  {
    var p := Pow2(k - 1);
    RemainderDigits(x, p);
    LowDigit(x % 2, (x / 2) % p);
    if i > 0 {
      BitOfRemainder(x / 2, k - 1, i - 1);
    }
  }

  lemma Uint16Bits(n: nat, j: nat, i: nat)
    requires n < 0x1_0000 && j < 2 && i < 8
    ensures Bit(PackUint16(n)[j], i) == Bit(n, 8 * (1 - j) + i)
  {
    assert Pow2(8) == 256;
    BitOfQuotient(n, 8, n / 256, i);
    BitOfRemainder(n, 8, i);
    hide Bit;
  }

  /** Byte `j` of a packed number holds its bits from 8 * (3 - j) on. */
  lemma {:induction false} Uint32Bits(n: nat, j: nat, i: nat)
    requires n < 0x1_0000_0000 && j < 4 && i < 8
    ensures Bit(PackUint32(n)[j], i) == Bit(n, 8 * (3 - j) + i)
  {
    hide Bit, PackUint16;
    assert Pow2(16) == 0x1_0000 by {
      assert Pow2(8) == 0x100;
      Pow2Sum(8, 8);
    }
    if j < 2 {
      Uint16Bits(n / 0x1_0000, j, i);
      BitOfQuotient(n, 16, n / 0x1_0000, 8 * (1 - j) + i);
    } else {
      Uint16Bits(n % 0x1_0000, j - 2, i);
      BitOfRemainder(n, 16, 8 * (3 - j) + i);
    }
  }

  /** The bytes hold the number, highest bits first. */
  ghost predicate BigEndian(b: bytes, n: nat) {
    forall j, i :: 0 <= j < |b| && 0 <= i < 8 ==> (Bit(b[j], i) <==> Bit(n, 8 * (|b| - 1 - j) + i))
  }

  lemma {:induction false} Uint16IsBigEndian(n: nat)
    requires n < 0x1_0000
    ensures BigEndian(PackUint16(n), n)
  {
    hide Bit, PackUint16;
    var b := PackUint16(n);
    forall j, i | 0 <= j < |b| && 0 <= i < 8 ensures Bit(b[j], i) <==> Bit(n, 8 * (|b| - 1 - j) + i) {
      Uint16Bits(n, j, i);
    }
  }

  lemma {:induction false} Uint32IsBigEndian(n: nat)
    requires n < 0x1_0000_0000
    ensures BigEndian(PackUint32(n), n)
  {
    hide Bit, PackUint32;
    var b := PackUint32(n);
    forall j, i | 0 <= j < |b| && 0 <= i < 8 ensures Bit(b[j], i) <==> Bit(n, 8 * (|b| - 1 - j) + i) {
      Uint32Bits(n, j, i);
    }
  }
}
