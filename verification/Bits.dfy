/** Bit strings, most significant bit first, and the numbers they stand for. */
module Bits {

  type byte = b: int | 0 <= b < 256

  /** Equality, as a fact to be passed on rather than taken apart. */
  predicate Same<T(==)>(x: T, y: T)
  {
    x == y
  }

  function Copies<T>(x: T, n: nat): (r: seq<T>)
    ensures |r| == n
  {
    seq(n, _ => x)
  }

  function Pow2(n: nat): (p: nat)
    ensures p > 0
  {
    if n == 0 then 1 else 2 * Pow2(n - 1)
  }

  /** The low n bits of v. */
  function ToBits(v: nat, n: nat): (s: seq<bool>)
    ensures |s| == n
    decreases n, v
  {
    if n == 0 then [] else ToBits(v / 2, n - 1) + [v % 2 == 1]
  }

  /** v shifted right by n bits. */
  function Shr(v: nat, n: nat): nat
    decreases n, v
  {
    if n == 0 then v else Shr(v / 2, n - 1)
  }

  function Value(s: seq<bool>): nat
  {
    if s == [] then 0 else 2 * Value(s[..|s| - 1]) + (if s[|s| - 1] then 1 else 0)
  }

  function Zeros(n: nat): (s: seq<bool>)
    ensures |s| == n
    ensures forall i | 0 <= i < n :: !s[i]
  {
    seq(n, _ => false)
  }

  /** The bits of a byte string, in order. */
  function ByteBits(bytes: seq<byte>): (s: seq<bool>)
    ensures |s| == 8 * |bytes|
  {
    if bytes == [] then [] else ByteBits(bytes[..|bytes| - 1]) + ToBits(bytes[|bytes| - 1], 8)
  }

  lemma {:induction false} Pow2Add(m: nat, n: nat)
    ensures Pow2(m + n) == Pow2(m) * Pow2(n)
  {
    if m == 0 {
    } else {
      Pow2Add(m - 1, n);
      calc {
        Pow2(m + n);
        2 * Pow2(m - 1 + n);
        2 * (Pow2(m - 1) * Pow2(n));
        (2 * Pow2(m - 1)) * Pow2(n);
      }
    }
  }

  lemma {:induction false} Pow2Mono(m: nat, n: nat)
    requires m <= n
    ensures Pow2(m) <= Pow2(n)
  {
    if m < n { Pow2Mono(m, n - 1); }
  }

  lemma {:induction false} ShrIsDiv(v: nat, n: nat)
    ensures Shr(v, n) == v / Pow2(n)
    decreases n
  {
    if n > 0 {
      ShrIsDiv(v / 2, n - 1);
      DivDiv(v, 2, Pow2(n - 1));
    }
  }

  lemma {:induction false} DivDiv(v: nat, a: nat, b: nat)
    requires a > 0 && b > 0
    ensures a * b > 0 && v / a / b == v / (a * b)
  {
    var q, r := v / a, v % a;
    var q', r' := q / b, q % b;
    MulPositive(a, b);
    MulDistrib(a, b * q', r');
    MulAssoc(a, b, q');
    BelowProduct(a, b, r, r');
    DivUnique(v, a * b, q', a * r' + r);
  }

  lemma {:induction false} MulPositive(a: int, b: int)
    requires a > 0 && b > 0
    ensures a * b > 0
  {
  }

  lemma {:induction false} BelowProduct(a: int, b: int, r: int, r': int)
    requires 0 <= r < a && 0 <= r' < b
    ensures 0 <= a * r' + r < a * b
  {
    MulNonNeg(a, r');
    MulNonNeg(a, b - 1 - r');
    MulDistrib(a, r', b - 1 - r');
    MulDistrib(a, b, -1);
  }

  lemma {:induction false} MulApart(d: int, k: int)
    requires d > 0
    ensures k >= 1 ==> d * k >= d
    ensures k <= -1 ==> d * k <= -d
  {
  }

  /** Quotient and remainder are determined by the division equation. */
  lemma {:induction false} DivUnique(v: int, d: int, q: int, r: int)
    requires d > 0 && 0 <= r < d && v == d * q + r
    ensures v / d == q && v % d == r
  {
    var q', r' := v / d, v % d;
    assert d * (q - q') == r' - r;
    MulApart(d, q - q');
  }

  lemma {:induction false} SeqAssoc<T>(a: seq<T>, b: seq<T>, c: seq<T>)
    ensures (a + b) + c == a + (b + c)
  {
  }

  /** A list is a first part and the rest. */
  predicate Parts<T(==)>(all: seq<T>, first: seq<T>, rest: seq<T>)
  {
    if first == [] then all == rest else all != [] && all[0] == first[0] && Parts(all[1..], first[1..], rest)
  }

  lemma {:induction false} PartsAre<T>(all: seq<T>, first: seq<T>, rest: seq<T>)
    ensures Parts(all, first, rest) <==> all == first + rest
  {
    if first == [] {
      assert first + rest == rest;
    } else {
      if all != [] {
        PartsAre(all[1..], first[1..], rest);
        assert all == [all[0]] + all[1..];
      }
      assert first + rest == [first[0]] + (first[1..] + rest);
      assert (first + rest)[1..] == first[1..] + rest;
    }
  }

  /** Some of the rest is put to the first part. */
  lemma {:induction false} PartsNext<T>(all: seq<T>, first: seq<T>, x: seq<T>, rest: seq<T>)
    requires Parts(all, first, x + rest)
    ensures Parts(all, first + x, rest)
  {
    PartsAre(all, first, x + rest);
    SeqAssoc(first, x, rest);
    PartsAre(all, first + x, rest);
  }

  lemma {:induction false} PartsAt<T>(all: seq<T>, first: seq<T>, x: T, rest: seq<T>)
    requires Parts(all, first, [x] + rest)
    ensures |first| < |all| && all[|first|] == x
  {
    PartsAre(all, first, [x] + rest);
  }

  /** The low m+n bits are the m bits above the low n, then the low n. */
  lemma {:induction false} SplitBits(v: nat, m: nat, n: nat)
    ensures ToBits(v, m + n) == ToBits(Shr(v, n), m) + ToBits(v, n)
    decreases n
  {
    if n > 0 {
      SplitBits(v / 2, m, n - 1);
      SeqAssoc(ToBits(Shr(v, n), m), ToBits(v / 2, n - 1), [v % 2 == 1]);
    }
  }

  /** Only the value modulo 2^n matters for the low n bits. */
  lemma {:induction false} LowBits(v: nat, w: nat, n: nat)
    requires v % Pow2(n) == w % Pow2(n)
    ensures ToBits(v, n) == ToBits(w, n)
    decreases n
  {
    if n > 0 {
      HalfMod(v, n);
      HalfMod(w, n);
      LowBits(v / 2, w / 2, n - 1);
    }
  }

  lemma {:induction false} HalfMod(v: nat, n: nat)
    requires n > 0
    ensures v % Pow2(n) == 2 * (v / 2 % Pow2(n - 1)) + v % 2
  {
    var p := Pow2(n - 1);
    var h := v / 2;
    assert h == p * (h / p) + h % p;
    assert v == 2 * h + v % 2;
    assert v == (2 * p) * (h / p) + (2 * (h % p) + v % 2);
    DivUnique(v, 2 * p, h / p, 2 * (h % p) + v % 2);
  }

  /** Reducing modulo a larger power of two keeps the low bits. */
  lemma {:induction false} ReduceBits(v: nat, n: nat, w: nat)
    requires n <= w
    ensures ToBits(v % Pow2(w), n) == ToBits(v, n)
  {
    ModMod(v, w, n);
    LowBits(v % Pow2(w), v, n);
  }

  lemma {:induction false} MulCancel(a: int, b: int, q: int)
    requires q > 0 && a * q <= b * q
    ensures a <= b
  {
  }

  lemma {:induction false} MulAssoc(a: int, b: int, c: int)
    ensures (a * b) * c == a * (b * c)
  {
  }

  lemma {:induction false} ModFactor(v: int, p: int, k: int, d: int)
    requires p > 0 && k > 0 && d == p * k && d > 0
    ensures v % d % p == v % p
  {
    var q, u := v / d, v % d;
    assert v == d * q + u;
    MulAssoc(p, k, q);
    var t := k * q;
    assert v == p * t + u;
    var r, e := u % p, u / p;
    assert u == p * e + r;
    MulDistrib(p, t, e);
    DivUnique(v, p, t + e, r);
  }

  lemma {:induction false} MulDistrib(a: int, b: int, c: int)
    ensures a * (b + c) == a * b + a * c
  {
  }

  lemma {:induction false} MulAddOne(a: int, b: int)
    ensures (a + 1) * b == a * b + b
  {
  }

  lemma {:induction false} ModMod(v: nat, w: nat, n: nat)
    requires n <= w
    ensures v % Pow2(w) % Pow2(n) == v % Pow2(n)
  {
    Pow2Add(w - n, n);
    ModFactor(v, Pow2(n), Pow2(w - n), Pow2(w));
  }

  /** x shifted left by b bits, with c put in the freed bits. */
  function ShiftIn(x: nat, b: nat, c: nat): nat
  {
    MulNonNeg(x, Pow2(b));
    x * Pow2(b) + c
  }

  lemma {:induction false} MulNonNeg(a: int, b: int)
    requires a >= 0 && b >= 0
    ensures a * b >= 0
  {
  }

  lemma {:induction false} ShiftInHigh(x: nat, b: nat, c: nat)
    requires c < Pow2(b)
    ensures Shr(ShiftIn(x, b, c), b) == x
    ensures ShiftIn(x, b, c) % Pow2(b) == c % Pow2(b)
  {
    var y, p := ShiftIn(x, b, c), Pow2(b);
    ShrIsDiv(y, b);
    DivUnique(y, p, x, c);
    DivUnique(c, p, 0, c);
  }

  /** Shifting in b bits holding c appends those bits, whatever the word size w. */
  lemma {:induction false} AppendBits(x: nat, n: nat, c: nat, b: nat, w: nat)
    requires c < Pow2(b) && n + b <= w
    ensures ToBits(ShiftIn(x, b, c) % Pow2(w), n + b) == ToBits(x, n) + ToBits(c, b)
  {
    var y := ShiftIn(x, b, c);
    ShiftInHigh(x, b, c);
    ReduceBits(y, n + b, w);
    SplitBits(y, n, b);
    LowBits(y, c, b);
  }

  /** The moduli of the `long` and `int` registers that hold pending bits. */
  const LONG: nat := 0x1_0000_0000_0000_0000
  const INT: nat := 0x1_0000_0000

  lemma {:induction false} SquarePow2(n: nat, p: nat)
    requires Pow2(n) == p
    ensures Pow2(2 * n) == p * p
  {
    Pow2Add(n, n);
  }

  lemma {:induction false} WordSizes()
    ensures Pow2(64) == LONG && Pow2(32) == INT
  {
    SquarePow2(8, 0x100);
    SquarePow2(16, 0x1_0000);
    SquarePow2(32, 0x1_0000_0000);
  }

  lemma {:induction false} AppendLong(x: nat, n: nat, c: nat, b: nat)
    requires c < Pow2(b) && n + b <= 64
    ensures ToBits(ShiftIn(x, b, c) % LONG, n + b) == ToBits(x, n) + ToBits(c, b)
  {
    WordSizes();
    AppendBits(x, n, c, b, 64);
  }

  lemma {:induction false} AppendInt(x: nat, n: nat, c: nat, b: nat)
    requires c < Pow2(b) && n + b <= 32
    ensures ToBits(ShiftIn(x, b, c) % INT, n + b) == ToBits(x, n) + ToBits(c, b)
  {
    WordSizes();
    AppendBits(x, n, c, b, 32);
  }

  lemma {:induction false} ValueBound(s: seq<bool>)
    ensures Value(s) < Pow2(|s|)
  {
    if s != [] { ValueBound(s[..|s| - 1]); }
  }

  lemma {:induction false} ValueOfBits(v: nat, n: nat)
    ensures Value(ToBits(v, n)) == v % Pow2(n)
    decreases n
  {
    if n > 0 {
      var s := ToBits(v, n);
      assert s[..n - 1] == ToBits(v / 2, n - 1);
      ValueOfBits(v / 2, n - 1);
      HalfMod(v, n);
    }
  }

  lemma {:induction false} BitsOfValue(s: seq<bool>)
    ensures ToBits(Value(s), |s|) == s
  {
    if s != [] {
      BitsOfValue(s[..|s| - 1]);
      assert Value(s) / 2 == Value(s[..|s| - 1]);
    }
  }

  lemma {:induction false} ValueConcat(a: seq<bool>, b: seq<bool>)
    ensures Value(a + b) == Value(a) * Pow2(|b|) + Value(b)
    decreases |b|
  {
    if b == [] {
      assert a + b == a;
    } else {
      var b' := b[..|b| - 1];
      assert (a + b)[..|a + b| - 1] == a + b';
      ValueConcat(a, b');
      calc {
        2 * (Value(a) * Pow2(|b'|));
        Value(a) * (2 * Pow2(|b'|));
        Value(a) * Pow2(|b|);
      }
    }
  }

  /** The value of a prefix is the value of the whole shifted right. */
  lemma {:induction false} PrefixValue(s: seq<bool>, n: nat)
    requires n <= |s|
    ensures Value(s[..n]) == Value(s) / Pow2(|s| - n)
    ensures Value(s[n..]) == Value(s) % Pow2(|s| - n)
  {
    assert s == s[..n] + s[n..];
    ValueConcat(s[..n], s[n..]);
    ValueBound(s[n..]);
    DivUnique(Value(s), Pow2(|s| - n), Value(s[..n]), Value(s[n..]));
  }

  lemma {:induction false} ZerosValue(s: seq<bool>)
    ensures Value(s) == 0 <==> s == Zeros(|s|)
  {
    if s != [] {
      var t := s[..|s| - 1];
      ZerosValue(t);
      assert s == t + [s[|s| - 1]];
      assert Zeros(|s|)[..|t|] == Zeros(|t|);
      assert Zeros(|s|) == Zeros(|t|) + [false];
    }
  }

  lemma {:induction false} ByteBitsConcat(a: seq<byte>, b: seq<byte>)
    ensures ByteBits(a + b) == ByteBits(a) + ByteBits(b)
    decreases |b|
  {
    if b == [] {
      assert a + b == a;
    } else {
      var b', last := b[..|b| - 1], ToBits(b[|b| - 1], 8);
      assert (a + b)[..|a + b| - 1] == a + b';
      ByteBitsConcat(a, b');
      assert (ByteBits(a) + ByteBits(b')) + last == ByteBits(a) + (ByteBits(b') + last);
    }
  }

  /** The concatenation of the given strings. */
  function Flatten<T>(parts: seq<seq<T>>): seq<T>
  {
    if parts == [] then [] else parts[0] + Flatten(parts[1..])
  }

  lemma {:induction false} FlattenConcat<T>(a: seq<seq<T>>, b: seq<seq<T>>)
    ensures Flatten(a + b) == Flatten(a) + Flatten(b)
  {
    if a == [] {
      assert a + b == b;
    } else {
      assert (a + b)[1..] == a[1..] + b;
      FlattenConcat(a[1..], b);
      SeqAssoc(a[0], Flatten(a[1..]), Flatten(b));
    }
  }

  lemma {:induction false} FlattenSnoc<T>(a: seq<seq<T>>, last: seq<T>)
    ensures Flatten(a + [last]) == Flatten(a) + last
  {
    FlattenConcat(a, [last]);
    assert Flatten([last]) == last + [];
  }
}
