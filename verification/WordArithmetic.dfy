/** 32-bit words as numbers: exclusive or, shifts, and rotations. */
module WordArithmetic {
  import opened Bits

  type word = w: nat | w < INT witness 0

  /** The exclusive or of the low n bits of a and b. */
  function Xor(a: nat, b: nat, n: nat): nat
    decreases n, a
  {
    if n == 0 then 0 else 2 * Xor(a / 2, b / 2, n - 1) + (a + b) % 2
  }

  lemma {:induction false} XorRange(a: nat, b: nat, n: nat)
    ensures Xor(a, b, n) < Pow2(n)
    decreases n
  {
    if n > 0 { XorRange(a / 2, b / 2, n - 1); }
  }

  lemma {:induction false} XorTwice(a: nat, b: nat, n: nat)
    requires a < Pow2(n)
    ensures Xor(Xor(a, b, n), b, n) == a
    decreases n
  {
    if n > 0 {
      XorTwice(a / 2, b / 2, n - 1);
      XorDigits(Xor(a / 2, b / 2, n - 1), a, b);
    }
  }

  lemma {:induction false} XorDigits(x: nat, a: nat, b: nat)
    ensures var v := 2 * x + (a + b) % 2; v / 2 == x && v % 2 == (a + b) % 2 && (v + b) % 2 == a % 2
  {
  }

  /** Bit i of a number, the lowest being bit 0. */
  predicate Bit(v: nat, i: nat)
    decreases i, v
  {
    if i == 0 then v % 2 == 1 else Bit(v / 2, i - 1)
  }

  /** A bit is set in the exclusive or when it is set in one of the numbers and not in both. */
  lemma {:induction false} XorBit(a: nat, b: nat, n: nat, i: nat)
    ensures Bit(Xor(a, b, n), i) <==> i < n && Bit(a, i) != Bit(b, i)
    decreases n, i
  {
    if n == 0 {
      ZeroBit(i);
    } else {
      XorDigits(Xor(a / 2, b / 2, n - 1), a, b);
      if i > 0 { XorBit(a / 2, b / 2, n - 1, i - 1); }
    }
  }

  lemma {:induction false} ZeroBit(i: nat)
    ensures !Bit(0, i)
  {
    if i > 0 { ZeroBit(i - 1); }
  }

  function XorWords(x: word, y: word): word
  {
    XorRange(x, y, 32);
    WordSizes();
    Xor(x, y, 32)
  }

  function Plus(x: word, y: word): word
  {
    (x + y) % INT
  }

  /** x shifted left; the bits that no longer fit are lost. */
  function ShiftLeft(x: word, n: nat): word
    decreases n, x
  {
    if n == 0 then x else ShiftLeft(2 * x % INT, n - 1)
  }

  function ShiftRight(x: word, n: nat): word
  {
    ShrLess(x, n);
    Shr(x, n)
  }

  lemma {:induction false} DoubledRest(x: nat, p: nat)
    requires p > 0
    ensures 2 * x % INT * p % INT == x * (2 * p) % INT
  {
    var q, y := 2 * x / INT, 2 * x % INT;
    assert 2 * x == INT * q + y;
    ProductSum(x, p, q, y);
    MulNonNeg(y, p);
    DivUnique(x * (2 * p), INT, q * p + y * p / INT, y * p % INT);
  }

  lemma {:induction false} ProductSum(x: int, p: int, q: int, y: int)
    requires 2 * x == INT * q + y
    ensures x * (2 * p) == INT * (q * p) + y * p
  {
    MulAssoc(x, 2, p);
    MulAssoc(INT, q, p);
    Commute(2, x);
    Commute(INT * q + y, p);
    MulDistrib(p, INT * q, y);
    Commute(p, INT * q);
    Commute(p, y);
  }

  lemma {:induction false} ShiftLeftIsProduct(x: word, n: nat)
    ensures ShiftLeft(x, n) == x * Pow2(n) % INT
    decreases n
  {
    if n > 0 {
      ShiftLeftIsProduct(2 * x % INT, n - 1);
      DoubledRest(x, Pow2(n - 1));
    }
  }

  lemma {:induction false} ShrLess(x: nat, n: nat)
    ensures Shr(x, n) <= x
    decreases n
  {
    if n > 0 { ShrLess(x / 2, n - 1); }
  }

  function RotateLeft(x: word, n: nat): word
    requires n < 32
  {
    XorWords(ShiftLeft(x, n), ShiftRight(x, 32 - n))
  }

  function RotateRight(x: word, n: nat): word
    requires n < 32
  {
    XorWords(ShiftRight(x, n), ShiftLeft(x, 32 - n))
  }

  // What rotations do to numbers.

  /** The low k bits are zero. */
  predicate LowZeros(v: nat, k: nat)
    decreases k, v
  {
    k == 0 || (v % 2 == 0 && LowZeros(v / 2, k - 1))
  }

  lemma {:induction false} ShiftedZeros(v: nat, k: nat, c: nat)
    requires c == v * Pow2(k)
    ensures LowZeros(c, k)
    decreases k
  {
    if k > 0 {
      var half := v * Pow2(k - 1);
      assert c == 2 * half by { MulAssoc(v, 2, Pow2(k - 1)); MulAssoc(2, v, Pow2(k - 1)); }
      MulNonNeg(v, Pow2(k - 1));
      ShiftedZeros(v, k - 1, half);
    }
  }

  /** Numbers that have no bits in common are added. */
  lemma {:induction false} XorApart(a: nat, c: nat, k: nat, n: nat)
    requires a < Pow2(k) && k <= n && c < Pow2(n) && LowZeros(c, k)
    ensures Xor(a, c, n) == a + c == Xor(c, a, n)
    decreases n
  {
    if n > 0 {
      if k == 0 {
        XorNothing(c, n);
      } else {
        XorApart(a / 2, c / 2, k - 1, n - 1);
      }
    }
  }

  lemma {:induction false} XorNothing(b: nat, n: nat)
    requires b < Pow2(n)
    ensures Xor(0, b, n) == b == Xor(b, 0, n)
  {
    if n > 0 { XorNothing(b / 2, n - 1); }
  }

  lemma {:induction false} Commute(a: int, b: int)
    ensures a * b == b * a
  {
  }

  lemma {:induction false} ProductParts(x: nat, p: nat, q: nat, hi: nat, lo: nat)
    requires p > 0 && x == q * hi + lo && lo < q
    ensures x * p == (p * q) * hi + lo * p && 0 <= lo * p < p * q
  {
    MulDistrib(p, q * hi, lo);
    MulAssoc(p, q, hi);
    Commute(p, x);
    Commute(p, lo);
    BelowProduct(p, q, 0, lo);
  }

  lemma {:induction false} DivParts(x: nat, d: nat)
    requires d > 0
    ensures x == d * (x / d) + x % d && 0 <= x % d < d && 0 <= x / d
  {
    MulApart(d, x / d);
  }

  lemma {:induction false} ProductRest(x: nat, p: nat, q: nat, d: nat)
    requires p > 0 && q > 0 && d == p * q && d > 0
    ensures x * p % d == x % q * p && 0 <= x % q * p < d
  {
    var hi, lo := x / q, x % q;
    DivParts(x, q);
    ProductParts(x, p, q, hi, lo);
    DivUnique(x * p, d, hi, lo * p);
  }

  /** The low bits shifted left. */
  lemma {:induction false} ShiftedLeft(x: word, n: nat)
    requires n <= 32
    ensures ShiftLeft(x, n) == x % Pow2(32 - n) * Pow2(n) < INT
  {
    WordSizes();
    Pow2Add(n, 32 - n);
    ShiftLeftIsProduct(x, n);
    ProductRest(x, Pow2(n), Pow2(32 - n), INT);
  }

  lemma {:induction false} QuotientBelow(x: int, p: int, q: int, hi: int, lo: int)
    requires p > 0 && x == p * hi + lo && 0 <= lo < p && 0 <= x < p * q
    ensures 0 <= hi < q
  {
    MulApart(p, hi);
    if hi >= q {
      MulNonNeg(p, hi - q);
      MulDistrib(p, q, hi - q);
    }
  }

  lemma {:induction false} QuotientLess(x: word, n: nat)
    requires n <= 32
    ensures 0 <= x / Pow2(n) < Pow2(32 - n)
  {
    WordSizes();
    Pow2Add(n, 32 - n);
    DivParts(x, Pow2(n));
    QuotientBelow(x, Pow2(n), Pow2(32 - n), x / Pow2(n), x % Pow2(n));
  }

  /** Rotating to the right puts the low n bits in front of the others. */
  lemma {:induction false} RotatedRight(x: word, n: nat)
    requires n < 32
    ensures RotateRight(x, n) == x / Pow2(n) + x % Pow2(n) * Pow2(32 - n)
  {
    WordSizes();
    ShiftedLeft(x, 32 - n);
    ShrIsDiv(x, n);
    QuotientLess(x, n);
    ShiftedZeros(x % Pow2(n), 32 - n, ShiftLeft(x, 32 - n));
    XorApart(x / Pow2(n), ShiftLeft(x, 32 - n), 32 - n, 32);
  }

  /** Rotating to the left puts the high n bits behind the others. */
  lemma {:induction false} RotatedLeft(x: word, n: nat)
    requires n < 32
    ensures RotateLeft(x, n) == x % Pow2(32 - n) * Pow2(n) + x / Pow2(32 - n)
  {
    WordSizes();
    ShiftedLeft(x, n);
    ShrIsDiv(x, 32 - n);
    QuotientLess(x, 32 - n);
    ShiftedZeros(x % Pow2(32 - n), n, ShiftLeft(x, n));
    XorApart(x / Pow2(32 - n), ShiftLeft(x, n), n, 32);
  }

  /** The two parts that a rotation puts together. */
  lemma {:induction false} RotatedParts(x: nat, p: nat, q: nat)
    requires p > 0 && q > 0 && 0 <= x / p < q
    ensures var r := x / p + x % p * q; r % q == x / p && r / q == x % p && r % q * p + r / q == x
  {
    var hi, lo := x / p, x % p;
    Commute(lo, q);
    DivUnique(hi + lo * q, q, lo, hi);
    Commute(hi, p);
  }

  /** Each rotation undoes the other. */
  lemma {:induction false} RotateBack(x: word, n: nat)
    requires n < 32
    ensures RotateLeft(RotateRight(x, n), n) == x && RotateRight(RotateLeft(x, n), n) == x
  {
    QuotientLess(x, n);
    QuotientLess(x, 32 - n);
    RotatedRight(x, n);
    RotatedLeft(RotateRight(x, n), n);
    RotatedParts(x, Pow2(n), Pow2(32 - n));
    RotatedLeft(x, n);
    RotatedRight(RotateLeft(x, n), n);
    RotatedParts(x, Pow2(32 - n), Pow2(n));
  }
}
