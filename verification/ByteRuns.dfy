/** The runs of each byte's bits, as the program keeps them: a list of decimal digits. */
module ByteRuns {
  import opened Bits

  const BYTES := 256

  /** The digits of the table entries for the bytes whose upper half is h. */
  function Row(h: nat): (r: seq<nat>)
    requires h < 16
    ensures |r| == 16
  {
    match h
    case 0 => [8, 71, 611, 62, 512, 5111, 521, 53, 413, 4121, 41111, 4112, 422, 4211, 431, 44]
    case 1 => [314, 3131, 31211, 3122, 31112, 311111, 31121, 3113, 323, 3221, 32111, 3212, 332, 3311, 341, 35]
    case 2 => [215, 2141, 21311, 2132, 21212, 212111, 21221, 2123, 21113, 211121, 2111111, 211112, 21122, 211211,
               21131, 2114]
    case 3 => [224, 2231, 22211, 2222, 22112, 221111, 22121, 2213, 233, 2321, 23111, 2312, 242, 2411, 251, 26]
    case 4 => [116, 1151, 11411, 1142, 11312, 113111, 11321, 1133, 11213, 112121, 1121111, 112112, 11222, 112211,
               11231, 1124]
    case 5 => [11114, 111131, 1111211, 111122, 1111112, 11111111, 1111121, 111113, 11123, 111221, 1112111, 111212,
               11132, 111311, 11141, 1115]
    case 6 => [125, 1241, 12311, 1232, 12212, 122111, 12221, 1223, 12113, 121121, 1211111, 121112, 12122, 121211,
               12131, 1214]
    case 7 => [134, 1331, 13211, 1322, 13112, 131111, 13121, 1313, 143, 1421, 14111, 1412, 152, 1511, 161, 17]
    case 8 => [17, 161, 1511, 152, 1412, 14111, 1421, 143, 1313, 13121, 131111, 13112, 1322, 13211, 1331, 134]
    case 9 => [1214, 12131, 121211, 12122, 121112, 1211111, 121121, 12113, 1223, 12221, 122111, 12212, 1232, 12311,
               1241, 125]
    case 10 => [1115, 11141, 111311, 11132, 111212, 1112111, 111221, 11123, 111113, 1111121, 11111111, 1111112, 111122,
                1111211, 111131, 11114]
    case 11 => [1124, 11231, 112211, 11222, 112112, 1121111, 112121, 11213, 1133, 11321, 113111, 11312, 1142, 11411,
                1151, 116]
    case 12 => [26, 251, 2411, 242, 2312, 23111, 2321, 233, 2213, 22121, 221111, 22112, 2222, 22211, 2231, 224]
    case 13 => [2114, 21131, 211211, 21122, 211112, 2111111, 211121, 21113, 2123, 21221, 212111, 21212, 2132, 21311,
                2141, 215]
    case 14 => [35, 341, 3311, 332, 3212, 32111, 3221, 323, 3113, 31121, 311111, 31112, 3122, 31211, 3131, 314]
    case _ => [44, 431, 4211, 422, 4112, 41111, 4121, 413, 53, 521, 5111, 512, 62, 611, 71, 8]
  }

  function Entry(c: nat): nat
    requires c < BYTES
  {
    Row(c / 16)[c % 16]
  }

  /** The lengths of the runs of equal bits. */
  function BitRuns(bits: seq<bool>): (r: seq<int>)
    requires bits != []
    ensures r != []
  {
    var n := |bits|;
    if n == 1 then [1]
    else
      var r := BitRuns(bits[..n - 1]);
      if bits[n - 1] == bits[n - 2] then r[|r| - 1 := r[|r| - 1] + 1] else r + [1]
  }

  /** One more bit after the runs with digits d, the last of which has colour last. */
  function WithBit(d: nat, last: nat, bit: nat): nat
  {
    if bit == last then d + 1 else 10 * d + 1
  }

  /** The runs of the low n bits of v, one digit each. */
  function RunDigits(v: nat, n: nat): nat
    requires n > 0
    decreases n, v
  {
    if n == 1 then 1 else WithBit(RunDigits(v / 2, n - 1), v / 2 % 2, v % 2)
  }

  function Digits(d: nat): (r: seq<int>)
    ensures r != [] && r[|r| - 1] == d % 10
  {
    if d < 10 then [d] else Digits(d / 10) + [d % 10]
  }

  lemma {:induction false} DigitsNext(d: nat)
    requires d > 0
    ensures Digits(10 * d + 1) == Digits(d) + [1]
    ensures d % 10 < 9 ==> Digits(d + 1) == Digits(d)[|Digits(d)| - 1 := d % 10 + 1]
  {
  }

  lemma {:induction false} BitRunsNext(bits: seq<bool>, b: bool, r: seq<int>)
    requires bits != [] && r == BitRuns(bits)
    ensures BitRuns(bits + [b]) == if b == bits[|bits| - 1] then r[|r| - 1 := r[|r| - 1] + 1] else r + [1]
  {
    assert (bits + [b])[..|bits|] == bits;
  }

  lemma {:induction false} DigitsStep(d: nat, n: nat, last: nat, b: nat, r: seq<int>)
    requires d > 0 && 1 <= d % 10 <= n < 9 && r == Digits(d)
    ensures var e := WithBit(d, last, b);
      && e > 0 && 1 <= e % 10 <= n + 1
      && Digits(e) == if b == last then r[|r| - 1 := r[|r| - 1] + 1] else r + [1]
  {
    DigitsNext(d);
  }

  /** One more bit adds to the digits as it does to the runs. */
  lemma {:induction false} BitStep(d: nat, n: nat, last: nat, b: nat, bits: seq<bool>, r: seq<int>, e: nat,
                                   more: seq<bool>)
    requires d > 0 && 1 <= d % 10 <= n < 9 && last < 2 && b < 2
    requires bits != [] && bits[|bits| - 1] == (last == 1) && r == Digits(d) && r == BitRuns(bits)
    requires e == WithBit(d, last, b) && more == bits + [b == 1]
    ensures e > 0 && 1 <= e % 10 <= n + 1 && Digits(e) == BitRuns(more)
  {
    DigitsStep(d, n, last, b, r);
    BitRunsNext(bits, b == 1, r);
  }

  lemma {:induction false} LastBit(v: nat, n: nat)
    requires n > 0
    ensures ToBits(v, n) != [] && ToBits(v, n)[n - 1] == (v % 2 == 1)
  {
  }

  lemma {:induction false} OneBit(v: nat)
    ensures RunDigits(v, 1) == 1 && Digits(1) == [1] && BitRuns(ToBits(v, 1)) == [1]
  {
    assert |ToBits(v, 1)| == 1;
  }

  /** The digits are the runs. */
  lemma {:induction false} DigitsAreRuns(v: nat, n: nat)
    requires 1 <= n <= 9
    ensures RunDigits(v, n) > 0 && 1 <= RunDigits(v, n) % 10 <= n
    ensures Digits(RunDigits(v, n)) == BitRuns(ToBits(v, n))
    decreases n
  {
    if n == 1 {
      OneBit(v);
    } else {
      var h, m := v / 2, n - 1;
      DigitsAreRuns(h, m);
      LastBit(h, m);
      BitStep(RunDigits(h, m), m, h % 2, v % 2, ToBits(h, m), Digits(RunDigits(h, m)), RunDigits(v, n), ToBits(v, n));
    }
  }

  /** Four more bits. */
  function Four(d: nat, last: nat, b3: nat, b2: nat, b1: nat, b0: nat): nat
  {
    WithBit(WithBit(WithBit(WithBit(d, last, b3), b3, b2), b2, b1), b1, b0)
  }

  lemma {:induction false} BitDigits(v: nat, h: nat, b: nat, last: nat, n: nat, d: nat)
    requires v == 2 * h + b && b < 2 && n > 0 && last == h % 2 && d == RunDigits(h, n)
    ensures RunDigits(v, n + 1) == WithBit(d, last, b) && v % 2 == b
  {
  }

  lemma {:induction false} FourDigits(h: nat, b3: nat, b2: nat, b1: nat, b0: nat, a: nat, b: nat, c: nat, v: nat,
                                      last: nat, n: nat, d: nat)
    requires b3 < 2 && b2 < 2 && b1 < 2 && b0 < 2
    requires a == 2 * h + b3 && b == 2 * a + b2 && c == 2 * b + b1 && v == 2 * c + b0
    requires last == h % 2 && n > 0 && d == RunDigits(h, n)
    ensures RunDigits(v, n + 4) == Four(d, last, b3, b2, b1, b0)
  {
    BitDigits(a, h, b3, last, n, d);
    BitDigits(b, a, b2, b3, n + 1, WithBit(d, last, b3));
    BitDigits(c, b, b1, b2, n + 2, WithBit(WithBit(d, last, b3), b3, b2));
    BitDigits(v, c, b0, b1, n + 3, WithBit(WithBit(WithBit(d, last, b3), b3, b2), b2, b1));
  }

  /** The digits for the sixteen bytes whose upper half has the digits d and ends in last. */
  function Sixteen(d: nat, last: nat): (r: seq<nat>)
    ensures |r| == 16
  {
    [Four(d, last, 0, 0, 0, 0), Four(d, last, 0, 0, 0, 1),
     Four(d, last, 0, 0, 1, 0), Four(d, last, 0, 0, 1, 1),
     Four(d, last, 0, 1, 0, 0), Four(d, last, 0, 1, 0, 1),
     Four(d, last, 0, 1, 1, 0), Four(d, last, 0, 1, 1, 1),
     Four(d, last, 1, 0, 0, 0), Four(d, last, 1, 0, 0, 1),
     Four(d, last, 1, 0, 1, 0), Four(d, last, 1, 0, 1, 1),
     Four(d, last, 1, 1, 0, 0), Four(d, last, 1, 1, 0, 1),
     Four(d, last, 1, 1, 1, 0), Four(d, last, 1, 1, 1, 1)]
  }

  lemma {:induction false} SixteenAt(d: nat, last: nat, b3: nat, b2: nat, b1: nat, b0: nat)
    requires b3 < 2 && b2 < 2 && b1 < 2 && b0 < 2
    ensures Sixteen(d, last)[8 * b3 + 4 * b2 + 2 * b1 + b0] == Four(d, last, b3, b2, b1, b0)
  {
  }

  /** The digits for half a byte. */
  function Upper(h: nat): nat
    requires h < 16
  {
    match h
    case 0 => 4
    case 1 => 31
    case 2 => 211
    case 3 => 22
    case 4 => 112
    case 5 => 1111
    case 6 => 121
    case 7 => 13
    case 8 => 13
    case 9 => 121
    case 10 => 1111
    case 11 => 112
    case 12 => 22
    case 13 => 211
    case 14 => 31
    case _ => 4
  }

  lemma {:induction false} UpperRight(h: nat)
    requires h < 16
    ensures Upper(h) == RunDigits(h, 4)
  {
    var a, b, c := h / 8, h / 4, h / 2;
    BitDigits(b, a, b % 2, a, 1, 1);
    BitDigits(c, b, c % 2, b % 2, 2, WithBit(1, a, b % 2));
    BitDigits(h, c, h % 2, c % 2, 3, WithBit(WithBit(1, a, b % 2), b % 2, c % 2));
  }

  lemma {:induction false} LowRows(h: nat)
    requires 0 <= h < 8
    ensures Row(h) == Sixteen(Upper(h), h % 2)
  {
  }

  lemma {:induction false} HighRows(h: nat)
    requires 8 <= h < 16
    ensures Row(h) == Sixteen(Upper(h), h % 2)
  {
  }

  lemma {:induction false} RowRight(h: nat)
    requires h < 16
    ensures Row(h) == Sixteen(Upper(h), h % 2)
  {
    if h < 8 { LowRows(h); } else { HighRows(h); }
  }

  lemma {:induction false} RowEntry(row: seq<nat>, h: nat, d: nat, b3: nat, b2: nat, b1: nat, b0: nat, i: nat)
    requires row == Sixteen(d, h % 2) && d == RunDigits(h, 4)
    requires b3 < 2 && b2 < 2 && b1 < 2 && b0 < 2 && i == 8 * b3 + 4 * b2 + 2 * b1 + b0
    ensures i < 16 && row[i] == RunDigits(16 * h + i, 8)
  {
    SixteenAt(d, h % 2, b3, b2, b1, b0);
    FourDigits(h, b3, b2, b1, b0, 2 * h + b3, 4 * h + 2 * b3 + b2, 8 * h + 4 * b3 + 2 * b2 + b1, 16 * h + i, h % 2, 4,
               d);
  }

  lemma {:induction false} RowEntries(row: seq<nat>, h: nat, d: nat, i: nat)
    requires row == Sixteen(d, h % 2) && d == RunDigits(h, 4) && i < 16
    ensures row[i] == RunDigits(16 * h + i, 8)
  {
    RowEntry(row, h, d, i / 8, i / 4 % 2, i / 2 % 2, i % 2, i);
  }

  /** The table holds the runs of every byte. */
  lemma {:induction false} TableRight(c: nat)
    requires c < BYTES
    ensures Digits(Entry(c)) == BitRuns(ToBits(c, 8))
  {
    var h := c / 16;
    RowRight(h);
    UpperRight(h);
    RowEntries(Row(h), h, Upper(h), c % 16);
    DigitsAreRuns(c, 8);
  }

  lemma {:induction false} RunsPositive(bits: seq<bool>)
    requires bits != []
    ensures forall i | 0 <= i < |BitRuns(bits)| :: BitRuns(bits)[i] > 0
    ensures |BitRuns(bits)| <= |bits|
  {
    if |bits| > 1 { RunsPositive(bits[..|bits| - 1]); }
  }

  // The table in one string.

  /** The runs of each byte. */
  function AllRuns(): (es: seq<seq<int>>)
    ensures |es| == BYTES
  {
    seq(BYTES, c requires 0 <= c < BYTES => Digits(Entry(c)))
  }

  /** Entries one after the other, each ended by a zero. */
  function Packed(es: seq<seq<int>>): seq<int>
  {
    if es == [] then [] else Packed(es[..|es| - 1]) + (es[|es| - 1] + [0])
  }

  function StartOf(es: seq<seq<int>>, k: nat): nat
    requires k <= |es|
  {
    |Packed(es[..k])|
  }

  predicate NoZero(e: seq<int>)
  {
    forall i | 0 <= i < |e| :: e[i] != 0
  }

  predicate NoZeros(es: seq<seq<int>>)
  {
    forall c | 0 <= c < |es| :: NoZero(es[c])
  }

  /** Entry e stands at p. */
  predicate Points(text: seq<int>, p: nat, e: seq<int>)
  {
    p + |e| < |text| && text[p..p + |e|] == e && text[p + |e|] == 0
  }

  lemma {:induction false} PackedPrefix(es: seq<seq<int>>, k: nat)
    requires k <= |es|
    ensures StartOf(es, k) <= |Packed(es)| && Packed(es)[..StartOf(es, k)] == Packed(es[..k])
    decreases |es|
  {
    if k == |es| {
      assert es[..k] == es;
    } else {
      var init := es[..|es| - 1];
      PackedPrefix(init, k);
      assert init[..k] == es[..k];
    }
  }

  lemma {:induction false} EntryAt(es: seq<seq<int>>, k: nat)
    requires k < |es|
    ensures StartOf(es, k + 1) == StartOf(es, k) + |es[k]| + 1 <= |Packed(es)|
    ensures Points(Packed(es), StartOf(es, k), es[k])
  {
    var s, e, text := Packed(es[..k]), es[k], Packed(es);
    PackedPrefix(es, k + 1);
    assert es[..k + 1][..k] == es[..k];
    assert text[..|s| + |e| + 1] == s + (e + [0]);
    assert text[|s|..|s| + |e|] == (s + (e + [0]))[|s|..|s| + |e|] == e;
    assert text[|s| + |e|] == (s + (e + [0]))[|s| + |e|];
  }

  /** Between the start of an entry and the next only the last element is a zero. */
  lemma {:induction false} ZeroAt(es: seq<seq<int>>, k: nat, p: nat)
    requires NoZeros(es) && k < |es| && StartOf(es, k) <= p < StartOf(es, k + 1)
    ensures p < |Packed(es)| && (Packed(es)[p] == 0 <==> p + 1 == StartOf(es, k + 1))
  {
    EntryAt(es, k);
    var at, e := StartOf(es, k), es[k];
    if p < at + |e| {
      assert Packed(es)[p] == Packed(es)[at..at + |e|][p - at];
    }
  }

  /** Find where each entry begins. */
  method InitTable(text: seq<int>, ghost es: seq<seq<int>>) returns (rltab: array<nat>)
    requires text == Packed(es) && |es| == BYTES && NoZeros(es)
    ensures fresh(rltab) && rltab.Length == BYTES
    ensures forall c | 0 <= c < BYTES :: Points(text, rltab[c], es[c])
  {
    rltab := new nat[BYTES];
    rltab[0] := 0;
    var i := 0;
    for p := 0 to |text|
      invariant 0 <= i < BYTES && forall k | 0 <= k <= i :: rltab[k] == StartOf(es, k)
      invariant i + 1 < BYTES ==> StartOf(es, i) <= p < StartOf(es, i + 1)
    {
      if i + 1 < BYTES { ZeroAt(es, i, p); EntryAt(es, i + 1); }
      if text[p] == 0 && i < 255 {
        i := i + 1;
        rltab[i] := p + 1;
      }
    }
    if i + 1 < BYTES { EntryAt(es, i); }
    forall c | 0 <= c < BYTES ensures Points(text, rltab[c], es[c]) {
      EntryAt(es, c);
    }
  }

  lemma {:induction false} AllRunsRight()
    ensures NoZeros(AllRuns())
    ensures forall c | 0 <= c < BYTES :: AllRuns()[c] == BitRuns(ToBits(c, 8))
  {
    forall c | 0 <= c < BYTES ensures AllRuns()[c] == BitRuns(ToBits(c, 8)) {
      TableRight(c);
    }
    forall c | 0 <= c < BYTES ensures NoZero(AllRuns()[c]) {
      RunsPositive(ToBits(c, 8));
    }
  }
}
