/** The T.4 one-dimensional code tables and what makes a table decodable. */
module T4Tables {
  import opened Bits

  datatype Colour = White | Black

  type width = w: int | 0 <= w <= 13

  datatype T4Code = T4Code(code: nat, bits: width, rlen: nat)

  const CODES := 104
  const TERMINATING := 64

  /** Codes for white runs: 64 terminating codes, 40 make-up codes, end mark. */
  const WTAB: seq<T4Code> :=
    ([T4Code(53, 8, 0), T4Code(7, 6, 1), T4Code(7, 4, 2), T4Code(8, 4, 3), T4Code(11, 4, 4), T4Code(12, 4, 5)] +
     [T4Code(14, 4, 6), T4Code(15, 4, 7), T4Code(19, 5, 8), T4Code(20, 5, 9), T4Code(7, 5, 10), T4Code(8, 5, 11)] +
     [T4Code(8, 6, 12), T4Code(3, 6, 13), T4Code(52, 6, 14), T4Code(53, 6, 15), T4Code(42, 6, 16), T4Code(43, 6, 17)] +
     [T4Code(39, 7, 18), T4Code(12, 7, 19), T4Code(8, 7, 20), T4Code(23, 7, 21), T4Code(3, 7, 22), T4Code(4, 7, 23)]) +
    ([T4Code(40, 7, 24), T4Code(43, 7, 25), T4Code(19, 7, 26), T4Code(36, 7, 27), T4Code(24, 7, 28), T4Code(2, 8, 29)] +
     [T4Code(3, 8, 30), T4Code(26, 8, 31), T4Code(27, 8, 32), T4Code(18, 8, 33), T4Code(19, 8, 34), T4Code(20, 8, 35)] +
     [T4Code(21, 8, 36), T4Code(22, 8, 37), T4Code(23, 8, 38), T4Code(40, 8, 39), T4Code(41, 8, 40),
      T4Code(42, 8, 41)] +
     [T4Code(43, 8, 42), T4Code(44, 8, 43), T4Code(45, 8, 44), T4Code(4, 8, 45), T4Code(5, 8, 46), T4Code(10, 8, 47)]) +
    ([T4Code(11, 8, 48), T4Code(82, 8, 49), T4Code(83, 8, 50), T4Code(84, 8, 51), T4Code(85, 8, 52),
      T4Code(36, 8, 53)] +
     [T4Code(37, 8, 54), T4Code(88, 8, 55), T4Code(89, 8, 56), T4Code(90, 8, 57), T4Code(91, 8, 58),
      T4Code(74, 8, 59)] +
     [T4Code(75, 8, 60), T4Code(50, 8, 61), T4Code(51, 8, 62), T4Code(52, 8, 63), T4Code(27, 5, 64),
      T4Code(18, 5, 128)] +
     [T4Code(23, 6, 192), T4Code(55, 7, 256), T4Code(54, 8, 320), T4Code(55, 8, 384), T4Code(100, 8, 448),
      T4Code(101, 8, 512)]) +
    ([T4Code(104, 8, 576), T4Code(103, 8, 640), T4Code(204, 9, 704), T4Code(205, 9, 768), T4Code(210, 9, 832),
      T4Code(211, 9, 896)] +
     [T4Code(212, 9, 960), T4Code(213, 9, 1024), T4Code(214, 9, 1088), T4Code(215, 9, 1152), T4Code(216, 9, 1216),
      T4Code(217, 9, 1280)] +
     [T4Code(218, 9, 1344), T4Code(219, 9, 1408), T4Code(152, 9, 1472), T4Code(153, 9, 1536), T4Code(154, 9, 1600),
      T4Code(24, 6, 1664)] +
     [T4Code(155, 9, 1728), T4Code(8, 11, 1792), T4Code(12, 11, 1856), T4Code(13, 11, 1920), T4Code(18, 12, 1984),
      T4Code(19, 12, 2048)]) +
    ([T4Code(20, 12, 2112), T4Code(21, 12, 2176), T4Code(22, 12, 2240), T4Code(23, 12, 2304), T4Code(28, 12, 2368),
      T4Code(29, 12, 2432)] +
     [T4Code(30, 12, 2496), T4Code(31, 12, 2560), T4Code(0, 0, 0)])

  /** Codes for black runs, in the same order. */
  const BTAB: seq<T4Code> :=
    ([T4Code(55, 10, 0), T4Code(2, 3, 1), T4Code(3, 2, 2), T4Code(2, 2, 3), T4Code(3, 3, 4), T4Code(3, 4, 5)] +
     [T4Code(2, 4, 6), T4Code(3, 5, 7), T4Code(5, 6, 8), T4Code(4, 6, 9), T4Code(4, 7, 10), T4Code(5, 7, 11)] +
     [T4Code(7, 7, 12), T4Code(4, 8, 13), T4Code(7, 8, 14), T4Code(24, 9, 15), T4Code(23, 10, 16), T4Code(24, 10, 17)] +
     [T4Code(8, 10, 18), T4Code(103, 11, 19), T4Code(104, 11, 20), T4Code(108, 11, 21), T4Code(55, 11, 22),
      T4Code(40, 11, 23)]) +
    ([T4Code(23, 11, 24), T4Code(24, 11, 25), T4Code(202, 12, 26), T4Code(203, 12, 27), T4Code(204, 12, 28),
      T4Code(205, 12, 29)] +
     [T4Code(104, 12, 30), T4Code(105, 12, 31), T4Code(106, 12, 32), T4Code(107, 12, 33), T4Code(210, 12, 34),
      T4Code(211, 12, 35)] +
     [T4Code(212, 12, 36), T4Code(213, 12, 37), T4Code(214, 12, 38), T4Code(215, 12, 39), T4Code(108, 12, 40),
      T4Code(109, 12, 41)] +
     [T4Code(218, 12, 42), T4Code(219, 12, 43), T4Code(84, 12, 44), T4Code(85, 12, 45), T4Code(86, 12, 46),
      T4Code(87, 12, 47)]) +
    ([T4Code(100, 12, 48), T4Code(101, 12, 49), T4Code(82, 12, 50), T4Code(83, 12, 51), T4Code(36, 12, 52),
      T4Code(55, 12, 53)] +
     [T4Code(56, 12, 54), T4Code(39, 12, 55), T4Code(40, 12, 56), T4Code(88, 12, 57), T4Code(89, 12, 58),
      T4Code(43, 12, 59)] +
     [T4Code(44, 12, 60), T4Code(90, 12, 61), T4Code(102, 12, 62), T4Code(103, 12, 63), T4Code(15, 10, 64),
      T4Code(200, 12, 128)] +
     [T4Code(201, 12, 192), T4Code(91, 12, 256), T4Code(51, 12, 320), T4Code(52, 12, 384), T4Code(53, 12, 448),
      T4Code(108, 13, 512)]) +
    ([T4Code(109, 13, 576), T4Code(74, 13, 640), T4Code(75, 13, 704), T4Code(76, 13, 768), T4Code(77, 13, 832),
      T4Code(114, 13, 896)] +
     [T4Code(115, 13, 960), T4Code(116, 13, 1024), T4Code(117, 13, 1088), T4Code(118, 13, 1152), T4Code(119, 13, 1216),
      T4Code(82, 13, 1280)] +
     [T4Code(83, 13, 1344), T4Code(84, 13, 1408), T4Code(85, 13, 1472), T4Code(90, 13, 1536), T4Code(91, 13, 1600),
      T4Code(100, 13, 1664)] +
     [T4Code(101, 13, 1728), T4Code(8, 11, 1792), T4Code(12, 11, 1856), T4Code(13, 11, 1920), T4Code(18, 12, 1984),
      T4Code(19, 12, 2048)]) +
    ([T4Code(20, 12, 2112), T4Code(21, 12, 2176), T4Code(22, 12, 2240), T4Code(23, 12, 2304), T4Code(28, 12, 2368),
      T4Code(29, 12, 2432)] +
     [T4Code(30, 12, 2496), T4Code(31, 12, 2560), T4Code(0, 0, 0)])

  /** The code tables for the two colours. */
  datatype Codebook = Codebook(white: seq<T4Code>, black: seq<T4Code>) {
    function Get(c: Colour): seq<T4Code>
    {
      match c case White => white case Black => black
    }
  }

  const T4: Codebook := Codebook(WTAB, BTAB)

  function Other(c: Colour): Colour
  {
    if c == White then Black else White
  }

  /** The run length that entry k stands for. */
  function RunOf(k: nat): nat
  {
    if k < TERMINATING then k else 64 * (k - 63)
  }

  /** v shifted left n times. */
  function Shl(v: nat, n: nat): nat
    decreases n
  {
    if n >= 4 then Shl(16 * v, n - 4)
    else if n == 0 then v else if n == 1 then 2 * v else if n == 2 then 4 * v else 8 * v
  }

  /** The 13-bit windows that begin with code word c are those from Low(c) to High(c) - 1. */
  function Low(c: T4Code): nat
  {
    Shl(c.code, 13 - c.bits)
  }

  function High(c: T4Code): nat
  {
    Shl(c.code + 1, 13 - c.bits)
  }

  /** A single entry: at most 13 bits (12 for a terminating code), at most seven zeros in front, at most three
      at the end, and four zeros in front when it is too long for one 9-bit lookup. */
  predicate GoodCode(c: T4Code, k: nat)
  {
    && 2 <= c.bits
    && c.code % 16 != 0
    && (k < TERMINATING ==> c.bits <= 12)
    && c.rlen == RunOf(k)
    && 32 <= Low(c)
    && High(c) <= (if c.bits > 9 then 512 else 8192)
  }

  /** Neither code word is a prefix of the other. */
  predicate Disjoint(c: T4Code, d: T4Code)
  {
    High(c) <= Low(d) || High(d) <= Low(c)
  }

  predicate GoodEntry(t: seq<T4Code>, k: nat)
    requires k < |t|
  {
    GoodCode(t[k], k)
  }

  predicate Apart(t: seq<T4Code>, j: nat, k: nat)
    requires j < |t| && k < |t|
  {
    Disjoint(t[j], t[k])
  }

  /** What the two-level decoder needs of a code table. */
  ghost predicate Decodable(t: seq<T4Code>)
  {
    && |t| == CODES + 1
    && t[CODES].code == 0
    && (forall k | 0 <= k < CODES :: GoodEntry(t, k))
    && (forall j, k | 0 <= j < k < CODES :: Apart(t, j, k))
  }

  ghost predicate Sound(book: Codebook)
  {
    Decodable(book.white) && Decodable(book.black)
  }

  lemma {:induction false} LowBelowHigh(c: T4Code)
    ensures Low(c) == c.code * Pow2(13 - c.bits)
    ensures High(c) == Low(c) + Pow2(13 - c.bits)
  {
    ShlIsMul(c.code, 13 - c.bits);
    ShlIsMul(c.code + 1, 13 - c.bits);
    MulAddOne(c.code, Pow2(13 - c.bits));
  }

  lemma {:induction false} ShlIsMul(v: nat, n: nat)
    ensures Shl(v, n) == v * Pow2(n)
    decreases n
  {
    if n >= 4 {
      ShlIsMul(16 * v, n - 4);
      MulAssoc(v, 16, Pow2(n - 4));
      Pow2Add(4, n - 4);
    }
  }

  /** A good code word fits in its own length. */
  lemma {:induction false} CodeFits(c: T4Code, k: nat)
    requires GoodCode(c, k)
    ensures c.code < Pow2(c.bits)
  {
    Pow2Add(c.bits, 13 - c.bits);
    LowBelowHigh(c);
    BelowFactor(c.code, Pow2(c.bits), Pow2(13 - c.bits), High(c));
  }

  lemma {:induction false} BelowFactor(code: nat, p: nat, q: nat, high: nat)
    requires q > 0 && p * q == 8192
    requires high == code * q + q && high <= 8192
    ensures code < p
  {
    MulDistrib(q, code, 1);
    MulCancel(code + 1, p, q);
  }
}
