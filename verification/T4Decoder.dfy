/** The table-driven T.4 decoder: two 9-bit lookups per colour and one for fill. */
module T4Decoder {
  import opened Bits
  import opened T4Tables
  import T4Coding

  datatype TabId = W1 | W2 | B1 | B2 | Fill

  /** A lookup result: consume bits, emit code when it is not 0 (run length + 1, or
      EOL), and go on with table next. */
  datatype Entry = Entry(code: int, bits: nat, next: TabId)

  const EOL := -1
  const WINDOW := 512

  const UNDEFINED: Entry := Entry(0, 1, W1)

  function First(c: Colour): TabId
  {
    if c == White then W1 else B1
  }

  function Second(c: Colour): TabId
  {
    if c == White then W2 else B2
  }

  /** A terminating code ends the run, so the other colour follows. */
  function Next(c: Colour, k: nat): TabId
  {
    if k > 63 then First(c) else First(Other(c))
  }

  // The lookup tables as functions of the window. Each states which write came last:
  // the codes in table order, before them the fill entries, before them "undefined".

  /** Entry i of the first table of colour c once the first n codes are in. */
  function FirstEntry(t: seq<T4Code>, c: Colour, n: nat, i: nat): Entry
    requires n < |t|
    decreases n, i
  {
    if n == 0 then
      if i == 0 then Entry(0, 4, Second(c)) else UNDEFINED
    else
      var k := n - 1;
      var code := t[k];
      if code.bits <= 9 then
        if Shl(code.code, 9 - code.bits) <= i < Shl(code.code + 1, 9 - code.bits)
        then Entry(code.rlen + 1, code.bits, Next(c, k))
        else FirstEntry(t, c, k, i)
      else
        if i == Shr(code.code, code.bits - 9) then Entry(0, 4, Second(c)) else FirstEntry(t, c, k, i)
  }

  /** Entry i of the second table of colour c once the first n codes are in. */
  function SecondEntry(t: seq<T4Code>, c: Colour, n: nat, i: nat): Entry
    requires n < |t|
    decreases n, i
  {
    if n == 0 then
      if i < 4 then Entry(0, 7, Fill) else UNDEFINED
    else
      var k := n - 1;
      var code := t[k];
      if code.bits > 9 && Low(code) <= i < High(code)
      then Entry(code.rlen + 1, code.bits - 4, Next(c, k))
      else SecondEntry(t, c, k, i)
  }

  /** Entry i of the fill table once the first n of its nine EOL ranges are in. */
  function FillEntry(n: nat, i: nat): Entry
    requires n <= 9
    decreases n, i
  {
    if n == 0 then
      if i == 0 then Entry(0, 9, Fill) else UNDEFINED
    else if Pow2(n - 1) <= i < Pow2(n) then Entry(EOL, 10 - n, W1)
    else FillEntry(n - 1, i)
  }

  function Lookup(book: Codebook, tab: TabId, i: nat): Entry
    requires Sound(book)
  {
    match tab
    case W1 => FirstEntry(book.white, White, CODES, i)
    case W2 => SecondEntry(book.white, White, CODES, i)
    case B1 => FirstEntry(book.black, Black, CODES, i)
    case B2 => SecondEntry(book.black, Black, CODES, i)
    case Fill => FillEntry(9, i)
  }

  // No code's entries overwrite another's.

  lemma {:induction false} ShlFour(v: nat, n: nat)
    ensures Shl(v, n + 4) == 16 * Shl(v, n)
    decreases n
  {
    if n >= 4 {
      ShlFour(16 * v, n - 4);
    }
  }

  /** A 9-bit window is hit by a short code exactly when its 13-bit extensions are. */
  lemma {:induction false} ShortRange(c: T4Code)
    requires c.bits <= 9
    ensures Low(c) == 16 * Shl(c.code, 9 - c.bits)
    ensures High(c) == 16 * Shl(c.code + 1, 9 - c.bits)
  {
    ShlFour(c.code, 9 - c.bits);
    ShlFour(c.code + 1, 9 - c.bits);
  }

  /** The first lookup of a long code is on the top nine bits of its windows. */
  lemma {:induction false} LongPrefix(c: T4Code)
    requires 9 < c.bits
    ensures Shr(c.code, c.bits - 9) == Low(c) / 16
    ensures Low(c) < High(c) <= 16 * (Low(c) / 16) + 16
  {
    var v := c.code;
    if c.bits == 10 {
      assert Shl(v, 3) == 8 * v && Shl(v + 1, 3) == 8 * v + 8 && Shr(v, 1) == v / 2;
    } else if c.bits == 11 {
      assert Shl(v, 2) == 4 * v && Shl(v + 1, 2) == 4 * v + 4;
      assert Shr(v, 2) == Shr(v / 2, 1) == v / 2 / 2;
    } else if c.bits == 12 {
      assert Shl(v, 1) == 2 * v && Shl(v + 1, 1) == 2 * v + 2;
      assert Shr(v, 3) == Shr(v / 2, 2) == Shr(v / 2 / 2, 1) == v / 2 / 2 / 2;
    } else {
      assert Shl(v, 0) == v && Shl(v + 1, 0) == v + 1;
      assert Shr(v, 4) == Shr(v / 2, 3) == Shr(v / 2 / 2, 2) == Shr(v / 2 / 2 / 2, 1) == v / 2 / 2 / 2 / 2;
    }
  }

  /** Code k of the table begins the 13-bit window w. */
  predicate Begins(t: seq<T4Code>, k: nat, w: nat)
    requires k < |t|
  {
    Low(t[k]) <= w < High(t[k])
  }

  lemma {:induction false} BeginsUnique(t: seq<T4Code>, j: nat, k: nat, w: nat)
    requires Decodable(t) && j < CODES && k < CODES
    ensures Begins(t, j, w) && Begins(t, k, w) ==> j == k
  {
    assert j < k ==> Apart(t, j, k);
    assert k < j ==> Apart(t, k, j);
  }

  /** The windows i for which code c writes the first table. */
  predicate WritesFirst(c: T4Code, i: nat)
  {
    if c.bits <= 9 then Shl(c.code, 9 - c.bits) <= i < Shl(c.code + 1, 9 - c.bits)
    else i == Shr(c.code, c.bits - 9)
  }

  /** A code that begins w writes entry w / 16. */
  lemma {:induction false} WritesOwn(c: T4Code, w: nat)
    requires Low(c) <= w < High(c)
    ensures WritesFirst(c, w / 16)
  {
    if c.bits <= 9 { ShortRange(c); } else { LongPrefix(c); }
  }

  /** Where a code writes, some window it begins is in the block of 16. */
  lemma {:induction false} WritesOnly(c: T4Code, i: nat)
    requires WritesFirst(c, i)
    ensures c.bits <= 9 ==> Low(c) <= 16 * i && 16 * i + 16 <= High(c)
    ensures c.bits > 9 ==> 16 * i <= Low(c) < 16 * i + 16 && Low(c) < High(c)
  {
    if c.bits <= 9 { ShortRange(c); } else { LongPrefix(c); }
  }

  /** Two codes write the same entry of the first table only if both are long. */
  lemma {:induction false} FirstApart(t: seq<T4Code>, j: nat, k: nat, i: nat)
    requires Decodable(t) && j < CODES && k < CODES && j != k
    requires WritesFirst(t[j], i) && WritesFirst(t[k], i)
    ensures t[j].bits > 9 && t[k].bits > 9
  {
    WritesOnly(t[j], i);
    WritesOnly(t[k], i);
    BeginsUnique(t, j, k, 16 * i);
    BeginsUnique(t, j, k, Low(t[j]));
    BeginsUnique(t, j, k, Low(t[k]));
  }

  /** What code k makes of the entries it writes in the first table. */
  function WrittenFirst(t: seq<T4Code>, c: Colour, k: nat): Entry
    requires k < |t|
  {
    if t[k].bits <= 9 then Entry(t[k].rlen + 1, t[k].bits, Next(c, k)) else Entry(0, 4, Second(c))
  }

  /** No code's entries in the first table are overwritten by another code. */
  lemma {:induction false} FirstKept(t: seq<T4Code>, c: Colour, n: nat, k: nat, i: nat)
    requires Decodable(t) && k < n <= CODES && WritesFirst(t[k], i)
    ensures FirstEntry(t, c, n, i) == WrittenFirst(t, c, k)
    decreases n
  {
    if n - 1 > k {
      FirstKept(t, c, n - 1, k, i);
      if WritesFirst(t[n - 1], i) { FirstApart(t, n - 1, k, i); }
    }
  }

  /** Elsewhere the first table has its initial entries, or hands over on a long prefix. */
  lemma {:induction false} FirstNone(t: seq<T4Code>, c: Colour, n: nat, w: nat)
    requires Decodable(t) && n <= CODES
    requires forall k | 0 <= k < n :: !Begins(t, k, w)
    ensures var e := FirstEntry(t, c, n, w / 16);
      (e == Entry(0, 4, Second(c)) && w < 512) || (e == UNDEFINED && w >= 16)
    decreases n
  {
    if n > 0 {
      FirstNone(t, c, n - 1, w);
      assert !Begins(t, n - 1, w);
      if t[n - 1].bits <= 9 {
        ShortRange(t[n - 1]);
      } else {
        LongPrefix(t[n - 1]);
        assert GoodEntry(t, n - 1);
      }
    }
  }

  lemma {:induction false} SecondHit(t: seq<T4Code>, c: Colour, n: nat, k: nat, w: nat)
    requires Decodable(t) && k < n <= CODES && t[k].bits > 9 && Begins(t, k, w)
    ensures SecondEntry(t, c, n, w) == Entry(t[k].rlen + 1, t[k].bits - 4, Next(c, k))
    decreases n
  {
    if n - 1 > k {
      SecondHit(t, c, n - 1, k, w);
      BeginsUnique(t, n - 1, k, w);
    }
  }

  lemma {:induction false} SecondNone(t: seq<T4Code>, c: Colour, n: nat, w: nat)
    requires Decodable(t) && n <= CODES
    requires forall k | 0 <= k < n :: !Begins(t, k, w)
    ensures SecondEntry(t, c, n, w) == if w < 4 then Entry(0, 7, Fill) else UNDEFINED
    decreases n
  {
    if n > 0 {
      assert !Begins(t, n - 1, w);
      SecondNone(t, c, n - 1, w);
    }
  }

  // Decoding a bit string.

  /** Every lookup consumes between one and nine bits. */
  lemma {:induction false} LookupBits(book: Codebook, tab: TabId, i: nat)
    requires Sound(book)
    ensures 1 <= Lookup(book, tab, i).bits <= 9
  {
    match tab
    case W1 => FirstBits(book.white, White, CODES, i);
    case W2 => SecondBits(book.white, White, CODES, i);
    case B1 => FirstBits(book.black, Black, CODES, i);
    case B2 => SecondBits(book.black, Black, CODES, i);
    case Fill => FillBits(9, i);
  }

  lemma {:induction false} FirstBits(t: seq<T4Code>, c: Colour, n: nat, i: nat)
    requires Decodable(t) && n <= CODES
    ensures 1 <= FirstEntry(t, c, n, i).bits <= 9
    ensures FirstEntry(t, c, n, i).code >= 0
    decreases n
  {
    if n > 0 { FirstBits(t, c, n - 1, i); assert GoodEntry(t, n - 1); }
  }

  lemma {:induction false} SecondBits(t: seq<T4Code>, c: Colour, n: nat, i: nat)
    requires Decodable(t) && n <= CODES
    ensures 1 <= SecondEntry(t, c, n, i).bits <= 9
    ensures SecondEntry(t, c, n, i).code >= 0
    decreases n
  {
    if n > 0 { SecondBits(t, c, n - 1, i); assert GoodEntry(t, n - 1); }
  }

  lemma {:induction false} FillBits(n: nat, i: nat)
    requires n <= 9
    ensures 1 <= FillEntry(n, i).bits <= 9
    decreases n
  {
    if n > 0 { FillBits(n - 1, i); }
  }

  /** The outcome of decoding: the codes up to an EOL, the table to go on with, the bits
      left, and whether an EOL was reached. */
  datatype Decoded = Decoded(codes: seq<int>, tab: TabId, rest: seq<bool>, done: bool) {
    function After(code: int): Decoded
    {
      this.(codes := [code] + codes)
    }

    function Prefixed(before: seq<int>): Decoded
    {
      this.(codes := before + codes)
    }
  }

  function Window(s: seq<bool>): nat
    requires |s| >= 9
  {
    Value(s[..9])
  }

  function Decode(book: Codebook, tab: TabId, s: seq<bool>): Decoded
    requires Sound(book)
    decreases |s|
  {
    if |s| < 9 then
      Decoded([], tab, s, false)
    else
      var e := Lookup(book, tab, Window(s));
      LookupBits(book, tab, Window(s));
      if e.code == EOL then Decoded([], e.next, s[e.bits..], true)
      else
        var d := Decode(book, e.next, s[e.bits..]);
        if e.code == 0 then d else d.After(e.code)
  }

  // The decoder realises the T.4 code for every bit string.

  /** Code k of the table is what the string starts with, exactly when it begins the
      string's 13-bit window. */
  lemma {:induction false} PrefixBegins(t: seq<T4Code>, k: nat, s: seq<bool>)
    requires k < CODES < |t| && GoodEntry(t, k) && |s| >= 13
    ensures T4Coding.CodeBits(t, k) <= s <==> Begins(t, k, Value(s[..13]))
  {
    var n, code, w := t[k].bits, t[k].code, s[..13];
    CodeFits(t[k], k);
    ValueDetermines(w[..n], code);
    assert T4Coding.CodeBits(t, k) <= s <==> w[..n] == T4Coding.CodeBits(t, k);
    LowBelowHigh(t[k]);
    PrefixValue(w, n);
    QuotientRange(Value(w), code, Pow2(13 - n));
  }

  lemma {:induction false} ValueDetermines(s: seq<bool>, v: nat)
    requires v < Pow2(|s|)
    ensures s == ToBits(v, |s|) <==> Value(s) == v
  {
    ValueOfBits(v, |s|);
    SmallMod(v, Pow2(|s|));
    BitsOfValue(s);
  }

  lemma {:induction false} SmallMod(v: nat, m: nat)
    requires v < m
    ensures v % m == v
  {
    DivUnique(v, m, 0, v);
  }

  lemma {:induction false} QuotientRange(w: nat, code: nat, p: nat)
    requires p > 0
    ensures w / p == code <==> code * p <= w < code * p + p
  {
    var q := w / p;
    assert w == p * q + w % p;
    if code * p <= w < code * p + p {
      DivUnique(w, p, code, w - code * p);
    }
  }

  /** One lookup. */
  lemma {:induction false} OneLookup(book: Codebook, tab: TabId, s: seq<bool>, e: Entry)
    requires Sound(book) && |s| >= 9 && e == Lookup(book, tab, Window(s)) && e.code != EOL
    ensures 1 <= e.bits <= 9
    ensures Decode(book, tab, s)
         == (var d := Decode(book, e.next, s[e.bits..]); if e.code == 0 then d else d.After(e.code))
  {
    LookupBits(book, tab, Window(s));
  }

  /** The windows of the first and second lookup on a string. */
  lemma {:induction false} TwoWindows(s: seq<bool>, w: nat)
    requires |s| >= 13 && w == Value(s[..13])
    ensures Window(s) == w / 16
    ensures w < 512 ==> Window(s[4..]) == w
  {
    var v := s[..13];
    PrefixValue(v, 9);
    assert v[..9] == s[..9];
    assert Pow2(4) == 16 && Pow2(9) == 512;
    PrefixValue(v, 4);
    assert v[4..] == s[4..][..9];
    if w < 512 { SmallMod(w, 512); }
  }

  /** A code word of the current colour is consumed exactly and emitted exactly. */
  lemma {:induction false} DecodeCode(book: Codebook, c: Colour, k: nat, s: seq<bool>)
    requires Sound(book) && k < CODES && |s| >= 13 && T4Coding.CodeBits(book.Get(c), k) <= s
    ensures Decode(book, First(c), s)
         == Decode(book, Next(c, k), s[book.Get(c)[k].bits..]).After(RunOf(k) + 1)
  {
    var t, w := book.Get(c), Value(s[..13]);
    assert GoodEntry(t, k);
    PrefixBegins(t, k, s);
    TwoWindows(s, w);
    WritesOwn(t[k], w);
    FirstKept(t, c, CODES, k, w / 16);
    OneLookup(book, First(c), s, WrittenFirst(t, c, k));
    if t[k].bits > 9 {
      SecondHit(t, c, CODES, k, w);
      OneLookup(book, Second(c), s[4..], Entry(t[k].rlen + 1, t[k].bits - 4, Next(c, k)));
      assert s[4..][t[k].bits - 4..] == s[t[k].bits..];
    }
  }

  ghost predicate NoCode(t: seq<T4Code>, s: seq<bool>)
    requires |t| > CODES
  {
    forall k | 0 <= k < CODES :: !(T4Coding.CodeBits(t, k) <= s)
  }

  lemma {:induction false} NoCodeBegins(t: seq<T4Code>, s: seq<bool>)
    requires Decodable(t) && |s| >= 13 && NoCode(t, s)
    ensures forall k | 0 <= k < CODES :: !Begins(t, k, Value(s[..13]))
  {
    forall k | 0 <= k < CODES ensures !Begins(t, k, Value(s[..13])) {
      assert GoodEntry(t, k);
      PrefixBegins(t, k, s);
      assert !(T4Coding.CodeBits(t, k) <= s);
    }
  }

  /** Where no code word of the current colour fits: eleven zeros lead to the fill table,
      and anything else is skipped, one or five bits of it, with the white table next. */
  lemma {:induction false} DecodeOther(book: Codebook, c: Colour, s: seq<bool>)
    requires Sound(book) && |s| >= 13 && NoCode(book.Get(c), s)
    ensures Zeros(11) <= s ==> Decode(book, First(c), s) == Decode(book, Fill, s[11..])
    ensures !(Zeros(11) <= s) ==>
      || Decode(book, First(c), s) == Decode(book, W1, s[1..])
      || Decode(book, First(c), s) == Decode(book, W1, s[5..])
  {
    var t, w := book.Get(c), Value(s[..13]);
    NoCodeBegins(t, s);
    ElevenZeros(s, w);
    TwoWindows(s, w);
    FirstNone(t, c, CODES, w);
    var e := FirstEntry(t, c, CODES, w / 16);
    OneLookup(book, First(c), s, e);
    if e != UNDEFINED {
      SecondNone(t, c, CODES, w);
      var e' := SecondEntry(t, c, CODES, w);
      OneLookup(book, Second(c), s[4..], e');
      assert s[4..][e'.bits..] == s[4 + e'.bits..];
    }
  }

  lemma {:induction false} ElevenZeros(s: seq<bool>, w: nat)
    requires |s| >= 13 && w == Value(s[..13])
    ensures Zeros(11) <= s <==> w < 4
  {
    var v := s[..13];
    PrefixValue(v, 11);
    assert Pow2(2) == 4;
    assert v[..11] == s[..11];
    ZerosValue(s[..11]);
    assert Zeros(11) <= s <==> s[..11] == Zeros(11);
  }

  // Fill, end of line, and resynchronisation.

  /** The string starts with a zeros and then a one. */
  predicate OneAfter(s: seq<bool>, a: nat)
  {
    a < |s| && s[a] && forall i | 0 <= i < a :: !s[i]
  }

  lemma {:induction false} FillHit(m: nat, n: nat, i: nat)
    requires 1 <= n <= m <= 9 && Pow2(n - 1) <= i < Pow2(n)
    ensures FillEntry(m, i) == Entry(EOL, 10 - n, W1)
    decreases m
  {
    if m > n {
      Pow2Mono(n, m - 1);
      FillHit(m - 1, n, i);
    }
  }

  lemma {:induction false} FillZero(m: nat)
    requires m <= 9
    ensures FillEntry(m, 0) == Entry(0, 9, Fill)
    decreases m
  {
    if m > 0 { FillZero(m - 1); }
  }

  /** The value of a string that starts with a zeros and a one. */
  lemma {:induction false} LeadingOne(s: seq<bool>, a: nat)
    requires OneAfter(s, a)
    ensures Pow2(|s| - a - 1) <= Value(s) < Pow2(|s| - a)
  {
    assert s == Zeros(a) + ([true] + s[a + 1..]);
    ZerosValue(Zeros(a));
    ValueConcat(Zeros(a), [true] + s[a + 1..]);
    ValueConcat([true], s[a + 1..]);
    assert Value([true]) == 1 by { assert [true][..0] == []; }
    ValueBound(s[a + 1..]);
  }

  lemma {:induction false} ZeroWindow(s: seq<bool>, a: nat)
    requires OneAfter(s, a) && a >= 9
    ensures Window(s) == 0
  {
    assert s[..9] == Zeros(9);
    ZerosValue(s[..9]);
  }

  /** In the fill table everything up to and including the next one is consumed. */
  lemma {:induction false} DecodeFill(book: Codebook, s: seq<bool>, a: nat)
    requires Sound(book) && OneAfter(s, a) && |s| >= a + 9
    ensures Decode(book, Fill, s) == Decoded([], W1, s[a + 1..], true)
    decreases a
  {
    if a >= 9 {
      ZeroWindow(s, a);
      FillZero(9);
      OneLookup(book, Fill, s, Entry(0, 9, Fill));
      DecodeFill(book, s[9..], a - 9);
      assert s[9..][a - 8..] == s[a + 1..];
    } else {
      assert OneAfter(s[..9], a);
      LeadingOne(s[..9], a);
      FillHit(9, 9 - a, Window(s));
    }
  }

  function ZerosNeeded(tab: TabId): nat
  {
    match tab
    case W1 => 11 case B1 => 11
    case W2 => 7 case B2 => 7
    case Fill => 0
  }

  lemma {:induction false} NothingBelow32(t: seq<T4Code>, w: nat)
    requires Decodable(t) && w < 32
    ensures forall k | 0 <= k < CODES :: !Begins(t, k, w)
  {
    forall k | 0 <= k < CODES ensures !Begins(t, k, w) {
      assert GoodEntry(t, k);
    }
  }

  /** Enough zeros and a one are an end of line, with any number of zeros in front. */
  lemma {:induction false} DecodeEol(book: Codebook, tab: TabId, s: seq<bool>, a: nat)
    requires Sound(book) && OneAfter(s, a) && |s| >= a + 9
    requires a >= ZerosNeeded(tab)
    ensures Decode(book, tab, s) == Decoded([], W1, s[a + 1..], true)
    decreases a
  {
    match tab
    case Fill =>
      DecodeFill(book, s, a);
    case W1 =>
      EolFirst(book, White, s, a);
    case B1 =>
      EolFirst(book, Black, s, a);
    case W2 =>
      EolSecond(book, White, s, a);
    case B2 =>
      EolSecond(book, Black, s, a);
  }

  lemma {:induction false} EolFirst(book: Codebook, c: Colour, s: seq<bool>, a: nat)
    requires Sound(book) && OneAfter(s, a) && |s| >= a + 9 && a >= 11
    ensures Decode(book, First(c), s) == Decoded([], W1, s[a + 1..], true)
  {
    ZeroWindow(s, a);
    NothingBelow32(book.Get(c), 0);
    FirstNone(book.Get(c), c, CODES, 0);
    OneLookup(book, First(c), s, Entry(0, 4, Second(c)));
    EolSecond(book, c, s[4..], a - 4);
    assert s[4..][a - 3..] == s[a + 1..];
  }

  lemma {:induction false} EolSecond(book: Codebook, c: Colour, s: seq<bool>, a: nat)
    requires Sound(book) && OneAfter(s, a) && |s| >= a + 9 && a >= 7
    ensures Decode(book, Second(c), s) == Decoded([], W1, s[a + 1..], true)
  {
    var w := Window(s);
    PrefixValue(s[..9], 7);
    assert s[..9][..7] == Zeros(7);
    ZerosValue(s[..9][..7]);
    assert Pow2(2) == 4;
    assert w < 4;
    NothingBelow32(book.Get(c), w);
    SecondNone(book.Get(c), c, CODES, w);
    OneLookup(book, Second(c), s, Entry(0, 7, Fill));
    DecodeFill(book, s[7..], a - 7);
    assert s[7..][a - 6..] == s[a + 1..];
  }

  function IsFirst(tab: TabId): bool
  {
    tab == W1 || tab == B1
  }

  /** What a lookup may give: an EOL in the fill table; a code whose consumed bits do not
      end in four zeros; or no code. */
  predicate Kind(e: Entry, tab: TabId, i: nat)
  {
    && 1 <= e.bits <= 9
    && e.code >= EOL
    && (e.code == EOL ==> tab == Fill && e.next == W1)
    && (e.code > 0 ==> IsFirst(e.next) && Shr(i, 9 - e.bits) % 16 != 0)
    && (e.code == 0 ==> e == UNDEFINED || e.next == Fill || (e.bits == 4 && e.next in {W2, B2}))
  }

  lemma {:induction false} LookupKind(book: Codebook, tab: TabId, i: nat)
    requires Sound(book)
    ensures Kind(Lookup(book, tab, i), tab, i)
  {
    match tab
    case W1 => FirstKind(book.white, White, CODES, i);
    case W2 => SecondKind(book.white, White, CODES, i);
    case B1 => FirstKind(book.black, Black, CODES, i);
    case B2 => SecondKind(book.black, Black, CODES, i);
    case Fill => FillKind(9, i);
  }

  lemma {:induction false} FillKind(n: nat, i: nat)
    requires n <= 9
    ensures Kind(FillEntry(n, i), Fill, i)
    decreases n
  {
    if n > 0 { FillKind(n - 1, i); }
  }

  lemma {:induction false} InShiftedRange(v: nat, n: nat, i: nat)
    requires Shl(v, n) <= i < Shl(v + 1, n)
    ensures Shr(i, n) == v
  {
    ShlIsMul(v, n);
    ShlIsMul(v + 1, n);
    ShrIsDiv(i, n);
    MulDistrib(Pow2(n), v, 1);
    QuotientRange(i, v, Pow2(n));
  }

  lemma {:induction false} FirstKind(t: seq<T4Code>, c: Colour, n: nat, i: nat)
    requires Decodable(t) && n <= CODES
    ensures Kind(FirstEntry(t, c, n, i), First(c), i)
    decreases n
  {
    if n > 0 {
      var code := t[n - 1];
      FirstKind(t, c, n - 1, i);
      assert GoodEntry(t, n - 1);
      if code.bits <= 9 && WritesFirst(code, i) {
        InShiftedRange(code.code, 9 - code.bits, i);
      }
    }
  }

  lemma {:induction false} SecondKind(t: seq<T4Code>, c: Colour, n: nat, i: nat)
    requires Decodable(t) && n <= CODES
    ensures Kind(SecondEntry(t, c, n, i), Second(c), i)
    decreases n
  {
    if n > 0 {
      var code := t[n - 1];
      SecondKind(t, c, n - 1, i);
      assert GoodEntry(t, n - 1);
      if code.bits > 9 && Low(code) <= i < High(code) {
        InShiftedRange(code.code, 13 - code.bits, i);
      }
    }
  }

  /** A string that ends in four zeros has a value divisible by 16. */
  lemma {:induction false} FourZerosAtEnd(s: seq<bool>)
    requires |s| >= 4 && forall i | |s| - 4 <= i < |s| :: !s[i]
    ensures Value(s) % 16 == 0
  {
    PrefixValue(s, |s| - 4);
    assert Pow2(4) == 16;
    assert s[|s| - 4..] == Zeros(4);
    ZerosValue(s[|s| - 4..]);
  }

  /** A lookup reads at most three zeros of a run of zeros that starts after p bits, unless
      it recognises fill. */
  lemma {:induction false} FewZerosRead(book: Codebook, tab: TabId, s: seq<bool>, p: nat)
    requires Sound(book) && |s| >= 9 && p > 0
    requires forall i | p <= i < p + 9 && i < |s| :: !s[i]
    ensures var e := Lookup(book, tab, Window(s));
            e.code >= 0 && e.next != Fill ==> e.bits <= p + 3
  {
    var w := s[..9];
    var e := Lookup(book, tab, Window(s));
    LookupKind(book, tab, Window(s));
    PrefixValue(w, e.bits);
    ShrIsDiv(Value(w), 9 - e.bits);
    if e.bits >= p + 4 {
      FourZerosAtEnd(w[..e.bits]);
    }
  }

  /** A run of zeros and a one, seen after some of the zeros. */
  lemma {:induction false} OneLater(s: seq<bool>, p: nat, a: nat, k: nat)
    requires p <= |s| && OneAfter(s[p..], a) && k <= p + a
    ensures var p', a' := if k <= p then p - k else 0, if k <= p then a else a - (k - p);
      p' <= |s[k..]| && OneAfter(s[k..][p'..], a')
  {
    if k <= p {
      assert s[k..][p - k..] == s[p..];
    } else {
      assert s[k..][0..] == s[p..][k - p..];
    }
  }

  lemma {:induction false} ZerosFrom(s: seq<bool>, p: nat, a: nat)
    requires p <= |s| && OneAfter(s[p..], a) && a >= 9
    ensures forall i | p <= i < p + 9 && i < |s| :: !s[i]
  {
    assert forall i | p <= i < p + 9 && i < |s| :: s[i] == s[p..][i - p];
  }

  /** After a lookup that is not of an end of line there are still enough zeros and the one. */
  lemma {:induction false} ZerosLeft(book: Codebook, tab: TabId, s: seq<bool>, p: nat, a: nat, e: Entry)
    requires Sound(book) && 0 < p && p + a + 9 <= |s| && a >= 14 && OneAfter(s[p..], a)
    requires e == Lookup(book, tab, Window(s)) && e.code != EOL
    ensures 1 <= e.bits <= 9
    ensures var p', a' := if e.bits <= p then p - e.bits else 0, if e.bits <= p then a else a - (e.bits - p);
      && p' + a' + 9 <= |s[e.bits..]| && OneAfter(s[e.bits..][p'..], a')
      && a' >= (if p' > 0 then 14 else ZerosNeeded(e.next))
  {
    LookupKind(book, tab, Window(s));
    ZerosFrom(s, p, a);
    FewZerosRead(book, tab, s, p);
    OneLater(s, p, a, e.bits);
  }

  /** From any table and whatever bits come before, fourteen zeros and a one are decoded
      up to an EOL that ends no later than that one. */
  lemma {:induction false} Resync(book: Codebook, tab: TabId, s: seq<bool>, p: nat, a: nat)
    requires Sound(book) && p + a + 9 <= |s|
    requires OneAfter(s[p..], a)
    requires a >= if p > 0 then 14 else ZerosNeeded(tab)
    ensures var d := Decode(book, tab, s); d.done && d.tab == W1 && |d.rest| >= |s| - (p + a + 1)
    decreases p + a
  {
    if p == 0 {
      assert s[0..] == s;
      DecodeEol(book, tab, s, a);
    } else {
      var e := Lookup(book, tab, Window(s));
      LookupKind(book, tab, Window(s));
      if e.code != EOL {
        OneLookup(book, tab, s, e);
        ZerosLeft(book, tab, s, p, a, e);
        var p', a' := if e.bits <= p then p - e.bits else 0, if e.bits <= p then a else a - (e.bits - p);
        Resync(book, e.next, s[e.bits..], p', a');
      }
    }
  }
}
