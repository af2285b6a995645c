// Machine words as integers: 64-bit two's complement values, bitwise operators
// defined bit by bit, and the powers of two that index a hash table.
module Words {
  const TWO_63: int := 0x8000_0000_0000_0000
  const TWO_64: int := 0x1_0000_0000_0000_0000

  // A signed 64-bit value: an LLVM i64, a C int64_t, a Rust i64.
  type Int64 = x: int | -TWO_63 <= x < TWO_63

  // The bit pattern of a 64-bit word: a pointer, a C size_t or unsigned long.
  type Word = x: int | 0 <= x < TWO_64

  type Byte = x: int | 0 <= x < 256

  // Reduction of an exact result to the signed 64-bit value with the same low bits.
  function Wrap(x: int): (r: Int64)
    ensures -TWO_63 <= x < TWO_63 ==> r == x
    ensures r % TWO_64 == x % TWO_64
  {
    (x + TWO_63) % TWO_64 - TWO_63
  }

  function Unsigned(x: Int64): (r: Word)
    ensures Signed(r) == x
  {
    if x < 0 then x + TWO_64 else x
  }

  function Signed(w: Word): (r: Int64)
    ensures r % TWO_64 == w
  {
    if w < TWO_63 then w else w - TWO_64
  }

  // The bitwise operators on bit patterns, lowest bit first.
  function BitAnd(x: nat, y: nat): (r: nat)
    ensures r <= y
    decreases y
  {
    if y == 0 then 0 else (if x % 2 == 1 && y % 2 == 1 then 1 else 0) + 2 * BitAnd(x / 2, y / 2)
  }

  function BitOr(x: nat, y: nat): (r: nat)
    decreases x + y
  {
    if x + y == 0 then 0 else (if x % 2 == 1 || y % 2 == 1 then 1 else 0) + 2 * BitOr(x / 2, y / 2)
  }

  function BitXor(x: nat, y: nat): (r: nat)
    decreases x + y
  {
    if x + y == 0 then 0 else (if x % 2 != y % 2 then 1 else 0) + 2 * BitXor(x / 2, y / 2)
  }

  function Pow2(k: nat): (r: nat)
    ensures r > 0
  {
    if k == 0 then 1 else 2 * Pow2(k - 1)
  }

  lemma {:induction false} BitsBelowPow2(x: nat, y: nat, n: nat)
    requires x < Pow2(n) && y < Pow2(n)
    ensures BitOr(x, y) < Pow2(n)
    ensures BitXor(x, y) < Pow2(n)
    decreases n
  {
    if n > 0 {
      BitsBelowPow2(x / 2, y / 2, n - 1);
    }
  }

  lemma Pow2Values()
    ensures Pow2(3) == 8
    ensures Pow2(63) == TWO_63
    ensures Pow2(64) == TWO_64
  {
    Pow2Sum(8, 8);
    Pow2Sum(16, 16);
    Pow2Sum(32, 31);
    Pow2Sum(16, 15);
    Pow2Sum(8, 7);
    assert Pow2(7) == 128;
    assert Pow2(8) == 256;
  }

  lemma {:induction false} Pow2Sum(a: nat, b: nat)
    ensures Pow2(a + b) == Pow2(a) * Pow2(b)
  {
    if a > 0 {
      Pow2Sum(a - 1, b);
    }
  }

  lemma {:induction false} Pow2Monotone(a: nat, b: nat)
    requires a <= b
    ensures Pow2(a) <= Pow2(b)
    ensures a < b ==> 2 * Pow2(a) <= Pow2(b)
    decreases b - a
  {
    if a < b {
      Pow2Monotone(a, b - 1);
    }
  }

  function And(x: Int64, y: Int64): (r: Int64) {
    Signed(BitAnd(Unsigned(x), Unsigned(y)))
  }

  function Or(x: Int64, y: Int64): (r: Int64) {
    Pow2Values();
    BitsBelowPow2(Unsigned(x), Unsigned(y), 64);
    Signed(BitOr(Unsigned(x), Unsigned(y)))
  }

  function Xor(x: Int64, y: Int64): (r: Int64) {
    Pow2Values();
    BitsBelowPow2(Unsigned(x), Unsigned(y), 64);
    Signed(BitXor(Unsigned(x), Unsigned(y)))
  }

  function Shl1(x: Int64): (r: Int64) {
    Wrap(2 * x)
  }

  // Arithmetic shift right: Dafny's division by a positive divisor rounds down.
  function AShr1(x: Int64): (r: Int64) {
    x / 2
  }

  // Masking with 2^k - 1 keeps the remainder modulo 2^k.
  lemma {:induction false} MaskIsRemainder(x: nat, k: nat)
    ensures BitAnd(x, Pow2(k) - 1) == x % Pow2(k)
    decreases k
  {
    if k > 0 {
      MaskIsRemainder(x / 2, k - 1);
      MaskStep(x, Pow2(k - 1));
    }
  }

  // Masking with an odd number keeps the lowest bit.
  lemma MaskOdd(x: nat, half: nat)
    ensures BitAnd(x, 2 * half + 1) == x % 2 + 2 * BitAnd(x / 2, half)
  {
    var y := 2 * half + 1;
    assert y / 2 == half && y % 2 == 1;
  }

  lemma MaskStep(x: nat, m: nat)
    requires m > 0 && BitAnd(x / 2, m - 1) == (x / 2) % m
    ensures BitAnd(x, 2 * m - 1) == x % (2 * m)
  {
    hide BitAnd;
    MaskOdd(x, m - 1);
    HalveRemainder(x, m);
  }

  lemma HalveRemainder(x: int, m: nat)
    requires m > 0
    ensures x % (2 * m) == x % 2 + 2 * ((x / 2) % m)
  {
    var h := x / 2;
    var q, r := h / m, h % m;
    assert x == x % 2 + 2 * h;
    assert h == q * m + r;
    assert x == q * (2 * m) + (x % 2 + 2 * r);
    RemainderUnique(x, 2 * m, q, x % 2 + 2 * r);
  }

  lemma RemainderUnique(x: int, d: int, q: int, r: int)
    requires d > 0 && 0 <= r < d && x == q * d + r
    ensures x % d == r && x / d == q
  {
    Divide(x, d);
    QuotientUnique(d, q, r, x / d, x % d);
  }

  lemma Divide(x: int, d: int)
    requires d > 0
    ensures x == (x / d) * d + x % d && 0 <= x % d < d
  {
  }

  lemma QuotientUnique(d: int, q: int, r: int, q': int, r': int)
    requires 0 <= r < d && 0 <= r' < d && q * d + r == q' * d + r'
    ensures q == q' && r == r'
  {
    if q < q' {
      ScaleUp(q' - q, d);
    } else if q' < q {
      ScaleUp(q - q', d);
    }
  }

  lemma ScaleUp(k: int, d: int)
    requires k >= 1 && d >= 0
    ensures k * d >= d
  {
  }

  // ----- Single bits -----

  function Bit(w: nat, k: nat): (b: nat)
    ensures b < 2
  {
    w / Pow2(k) % 2
  }

  lemma {:induction false} BitZero(k: nat)
    ensures Bit(0, k) == 0
  {
    assert 0 / Pow2(k) == 0;
  }

  // Bit k + 1 is bit k of the half.
  lemma HigherBit(w: nat, k: nat)
    ensures Bit(w, k + 1) == Bit(w / 2, k)
  {
    var h, d := w / 2, Pow2(k);
    Divide(h, d);
    RemainderUnique(w, 2 * d, h / d, 2 * (h % d) + w % 2);
  }

  lemma LowestBit(w: nat)
    ensures Bit(w, 0) == w % 2
  {
  }

  // What the operators do to each bit.
  lemma {:induction false} BitsOfAnd(x: nat, y: nat, k: nat)
    ensures Bit(BitAnd(x, y), k) == if Bit(x, k) == 1 && Bit(y, k) == 1 then 1 else 0
    decreases y
  {
    hide Bit;
    if y == 0 {
      BitZero(k);
    } else if k == 0 {
      LowestBit(x);
      LowestBit(y);
      LowestBit(BitAnd(x, y));
    } else {
      BitsOfAnd(x / 2, y / 2, k - 1);
      HigherBit(x, k - 1);
      HigherBit(y, k - 1);
      HigherBit(BitAnd(x, y), k - 1);
    }
  }

  lemma {:induction false} BitsOfOr(x: nat, y: nat, k: nat)
    ensures Bit(BitOr(x, y), k) == if Bit(x, k) == 1 || Bit(y, k) == 1 then 1 else 0
    decreases x + y
  {
    hide Bit;
    if x + y == 0 {
      BitZero(k);
    } else if k == 0 {
      LowestBit(x);
      LowestBit(y);
      LowestBit(BitOr(x, y));
    } else {
      BitsOfOr(x / 2, y / 2, k - 1);
      HigherBit(x, k - 1);
      HigherBit(y, k - 1);
      HigherBit(BitOr(x, y), k - 1);
    }
  }

  lemma {:induction false} BitsOfXor(x: nat, y: nat, k: nat)
    ensures Bit(BitXor(x, y), k) == if Bit(x, k) != Bit(y, k) then 1 else 0
    decreases x + y
  {
    hide Bit;
    if x + y == 0 {
      BitZero(k);
    } else if k == 0 {
      LowestBit(x);
      LowestBit(y);
      LowestBit(BitXor(x, y));
    } else {
      BitsOfXor(x / 2, y / 2, k - 1);
      HigherBit(x, k - 1);
      HigherBit(y, k - 1);
      HigherBit(BitXor(x, y), k - 1);
    }
  }

  // The same for 64-bit values.
  lemma AndBits(a: Int64, b: Int64, k: nat)
    ensures Bit(Unsigned(And(a, b)), k) == if Bit(Unsigned(a), k) == 1 && Bit(Unsigned(b), k) == 1 then 1 else 0
  {
    BitsOfAnd(Unsigned(a), Unsigned(b), k);
  }

  lemma OrBits(a: Int64, b: Int64, k: nat)
    ensures Bit(Unsigned(Or(a, b)), k) == if Bit(Unsigned(a), k) == 1 || Bit(Unsigned(b), k) == 1 then 1 else 0
  {
    Pow2Values();
    BitsBelowPow2(Unsigned(a), Unsigned(b), 64);
    BitsOfOr(Unsigned(a), Unsigned(b), k);
  }

  lemma XorBits(a: Int64, b: Int64, k: nat)
    ensures Bit(Unsigned(Xor(a, b)), k) == if Bit(Unsigned(a), k) != Bit(Unsigned(b), k) then 1 else 0
  {
    Pow2Values();
    BitsBelowPow2(Unsigned(a), Unsigned(b), 64);
    BitsOfXor(Unsigned(a), Unsigned(b), k);
  }

  lemma {:induction false} BitXorTwice(x: nat, y: nat)
    ensures BitXor(BitXor(x, y), y) == x
    decreases x + y
  {
    if x + y > 0 {
      BitXorTwice(x / 2, y / 2);
      assert BitXor(x, y) / 2 == BitXor(x / 2, y / 2);
    }
  }

  // Exclusive or with the same value twice changes nothing.
  lemma XorTwice(a: Int64, b: Int64)
    ensures Xor(Xor(a, b), b) == a
  {
    Pow2Values();
    BitsBelowPow2(Unsigned(a), Unsigned(b), 64);
    BitXorTwice(Unsigned(a), Unsigned(b));
  }

  // The three masks the tagging code uses.
  lemma AndOne(x: Int64)
    ensures And(x, 1) == x % 2
  {
    MaskIsRemainder(Unsigned(x), 1);
  }

  lemma AndThree(x: Int64)
    ensures And(x, 3) == x % 4
  {
    var u := Unsigned(x);
    assert BitAnd(u, 3) == u % 4 by {
      MaskIsRemainder(u, 2);
      assert Pow2(2) == 4;
    }
    hide BitAnd, Pow2;
    assert u % 4 == x % 4;
  }

  lemma OrOne(x: Int64)
    requires x % 2 == 0
    ensures Or(x, 1) == x + 1
  {
    OrZero(Unsigned(x) / 2);
  }

  lemma {:induction false} OrZero(x: nat)
    ensures BitOr(x, 0) == x
  {
    if x > 0 {
      OrZero(x / 2);
    }
  }
}
