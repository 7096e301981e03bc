/** Scan lines as bit maps, eight pixels to a byte, and their conversion to runs and back. */
module BitMaps {
  import opened Bits
  import opened ByteRuns
  import opened RunLines

  // From bits to runs.

  lemma {:induction false} PixelsGrow(runs: seq<int>, black: bool)
    requires Lengths(runs) && runs != []
    ensures var last := |runs| - 1;
      Pixels(runs[last := runs[last] + 1], black) == Pixels(runs, black) + [black != Odd(last)]
  {
    var last := |runs| - 1;
    var init, r, c := runs[..last], runs[last], black != Odd(last);
    assert runs == init + [r] && runs[last := r + 1] == init + [r + 1];
    PixelsAppend(init, [r], black);
    PixelsAppend(init, [r + 1], black);
    PixelsSingle(r, c);
    PixelsSingle(r + 1, c);
    OneMore(r, c);
    SeqAssoc(Pixels(init, black), Solid(r, c), [c]);
  }

  lemma {:induction false} OneMore(n: nat, black: bool)
    ensures Solid(n + 1, black) == Solid(n, black) + [black]
  {
    SolidSplit(n, 1, black);
    assert Solid(1, black) == [black] + Solid(0, black) == [black];
  }

  lemma {:induction false} PixelsNext(runs: seq<int>, black: bool)
    requires Lengths(runs)
    ensures Pixels(runs + [1], black) == Pixels(runs, black) + [black != Odd(|runs|)]
  {
    PixelsAppend(runs, [1], black);
    PixelsSingle(1, black != Odd(|runs|));
    OneMore(0, black != Odd(|runs|));
    assert Solid(0, black != Odd(|runs|)) + [black != Odd(|runs|)] == [black != Odd(|runs|)];
  }

  /** Runs of which the first has colour first show the bits and end with colour last. */
  predicate Shows(runs: seq<int>, bits: seq<bool>, first: bool, last: bool)
  {
    runs != [] && Lengths(runs) && Pixels(runs, first) == bits && last == (first != Odd(|runs| - 1))
  }

  lemma {:induction false} ShowsOne(bits: seq<bool>)
    requires |bits| == 1
    ensures Shows([1], bits, bits[0], bits[0])
  {
    PixelsSingle(1, bits[0]);
    assert Solid(1, bits[0]) == [bits[0]] + Solid(0, bits[0]);
  }

  lemma {:induction false} ShowsMore(runs: seq<int>, bits: seq<bool>, first: bool, last: bool, b: bool)
    requires Shows(runs, bits, first, last)
    ensures Shows(if b == last then runs[|runs| - 1 := runs[|runs| - 1] + 1] else runs + [1], bits + [b], first, b)
  {
    if b == last { PixelsGrow(runs, first); } else { PixelsNext(runs, first); }
  }

  /** The runs of bits show those bits, starting with the first bit's colour and ending with
      the last bit's. */
  lemma {:induction false} BitRunsPixels(bits: seq<bool>)
    requires bits != []
    ensures Shows(BitRuns(bits), bits, bits[0], bits[|bits| - 1])
    decreases |bits|
  {
    var n := |bits|;
    if n == 1 {
      ShowsOne(bits);
    } else {
      var init := bits[..n - 1];
      assert init + [bits[n - 1]] == bits;
      BitRunsPixels(init);
      BitRunsNext(init, bits[n - 1], BitRuns(init));
      ShowsMore(BitRuns(init), init, bits[0], bits[n - 2], bits[n - 1]);
    }
  }

  function ByteOf(c: byte): (bits: seq<bool>)
    ensures |bits| == 8
  {
    ToBits(c, 8)
  }

  /** A line with the runs of a byte after it: the first one joins the last run of the line
      if it has the same colour. */
  function WithByte(runs: seq<int>, c: byte): seq<int>
    requires runs != []
  {
    var p := BitRuns(ByteOf(c));
    Emit(runs, p[0], ByteOf(c)[0]) + p[1..]
  }

  /** Runs put after a line, the first of them in its last run or in a new one. */
  lemma {:induction false} RunsAfter(runs: seq<int>, p: seq<int>, bits: seq<bool>, first: bool, last: bool)
    requires runs != [] && Lengths(runs) && Shows(p, bits, first, last)
    ensures var r := Emit(runs, p[0], first) + p[1..];
      r != [] && Lengths(r) && Expand(r) == Expand(runs) + bits && Odd(|r| - 1) == last
  {
    var e := Emit(runs, p[0], first);
    EmitAdds(runs, p[0], first);
    assert Odd(|e|) == !first;
    PixelsAppend(e, p[1..], false);
    SeqAssoc(Expand(runs), Solid(p[0], first), Pixels(p[1..], !first));
  }

  lemma {:induction false} WithBytePixels(runs: seq<int>, c: byte)
    requires runs != [] && Lengths(runs)
    ensures Lengths(WithByte(runs, c)) && WithByte(runs, c) != []
    ensures Expand(WithByte(runs, c)) == Expand(runs) + ByteOf(c)
    ensures Odd(|WithByte(runs, c)| - 1) == ByteOf(c)[7]
  {
    BitRunsPixels(ByteOf(c));
    RunsAfter(runs, BitRuns(ByteOf(c)), ByteOf(c), ByteOf(c)[0], ByteOf(c)[7]);
  }

  /** The runs of a bit map. */
  function MapRuns(bits: seq<byte>): (r: seq<int>)
    ensures r != []
  {
    if bits == [] then [0] else WithByte(MapRuns(bits[..|bits| - 1]), bits[|bits| - 1])
  }

  /** The runs of some bytes, and those of one more. */
  lemma {:induction false} OneMoreByte(runs: seq<int>, init: seq<byte>, c: byte, bits: seq<byte>)
    requires bits != [] && init == bits[..|bits| - 1] && c == bits[|bits| - 1]
    requires runs != [] && Lengths(runs) && Expand(runs) == ByteBits(init)
    ensures var r := WithByte(runs, c); Lengths(r) && Expand(r) == ByteBits(bits) && Odd(|r| - 1) == ByteOf(c)[7]
  {
    WithBytePixels(runs, c);
  }

  /** The runs of a bit map show its bits. */
  lemma {:induction false} MapRunsPixels(bits: seq<byte>)
    ensures Lengths(MapRuns(bits)) && Expand(MapRuns(bits)) == ByteBits(bits)
    ensures Odd(|MapRuns(bits)| - 1) == (bits != [] && ByteOf(bits[|bits| - 1])[7])
  {
    if bits == [] {
      PixelsSingle(0, false);
    } else {
      var init, c := bits[..|bits| - 1], bits[|bits| - 1];
      MapRunsPixels(init);
      OneMoreByte(MapRuns(init), init, c, bits);
    }
  }

  lemma {:induction false} EndBits(c: byte)
    ensures ByteOf(c)[0] == (c >= 128) && ByteOf(c)[7] == (c % 2 == 1)
  {
    SplitBits(c, 1, 7);
    assert Pow2(7) == 128;
    ShrIsDiv(c, 7);
    assert ToBits(Shr(c, 7), 1) == ToBits(Shr(c, 7) / 2, 0) + [Shr(c, 7) % 2 == 1];
  }

  /** The runs of the first n bytes of a bit map, and the colour of the last of them. */
  ghost predicate Mapped(runs: seq<int>, bits: seq<byte>, n: nat, lastc: byte)
  {
    n <= |bits| && runs != [] && Same(runs, MapRuns(bits[..n])) && Odd(|runs| - 1) == (lastc % 2 == 1)
  }

  /** The table leads to the runs of every byte. */
  ghost predicate Leads(text: seq<int>, rltab: seq<nat>)
  {
    |rltab| == BYTES && forall c: byte :: Points(text, rltab[c], BitRuns(ByteOf(c)))
  }

  /** Put the runs of the next byte into the buffer. */
  method PutNext(bits: seq<byte>, n: nat, runs: array<int>, r: nat, lastc: byte, text: seq<int>, rltab: seq<nat>,
                 ghost done: seq<int>) returns (q: nat, ghost now: seq<int>)
    requires n < |bits| && r + 8 < runs.Length && runs[..r + 1] == done && Mapped(done, bits, n, lastc)
    requires Leads(text, rltab)
    modifies runs
    ensures r <= q <= r + 8 && runs[..q + 1] == now && Mapped(now, bits, n + 1, bits[n])
  {
    q := PutByte(runs, r, lastc, bits[n], text, rltab[bits[n]]);
    now := runs[..q + 1];
    MapStep(bits, n, lastc, done, now);
  }

  /** The string of all runs, and where each byte's begin; the program finds this out on its
      first call. */
  method LoadTable() returns (text: seq<int>, rltab: seq<nat>)
    ensures Leads(text, rltab)
  {
    AllRunsRight();
    text := Packed(AllRuns());
    var starts := InitTable(text, AllRuns());
    rltab := starts[..];
    forall c: byte ensures Points(text, rltab[c], BitRuns(ByteOf(c))) {
      assert AllRuns()[c] == BitRuns(ToBits(c, 8));
    }
  }

  /** Convert a bit map to runs. The run buffer must have more than eight elements a byte. */
  method BitToRun(bits: seq<byte>, runs: array<int>) returns (nr: nat)
    requires 8 * |bits| < runs.Length
    modifies runs
    ensures 0 < nr <= runs.Length && runs[..nr] == MapRuns(bits)
    ensures Lengths(runs[..nr]) && Expand(runs[..nr]) == ByteBits(bits)
  {
    var text, rltab := LoadTable();
    var r: nat, lastc: byte := 0, 0;
    runs[0] := 0;
    ghost var done := [0];
    assert runs[..1] == done;
    for n := 0 to |bits|
      invariant r <= 8 * n && runs[..r + 1] == done && Mapped(done, bits, n, lastc)
    {
      r, done := PutNext(bits, n, runs, r, lastc, text, rltab, done);
      lastc := bits[n];
    }
    nr := r + 1;
    MapWhole(bits);
  }

  lemma {:induction false} MapWhole(bits: seq<byte>)
    ensures MapRuns(bits[..|bits|]) == MapRuns(bits)
    ensures Lengths(MapRuns(bits)) && Expand(MapRuns(bits)) == ByteBits(bits)
  {
    assert bits[..|bits|] == bits;
    MapRunsPixels(bits);
  }

  lemma {:induction false} MapStep(bits: seq<byte>, n: nat, lastc: byte, was: seq<int>, now: seq<int>)
    requires n < |bits| && Mapped(was, bits, n, lastc) && now == WithByte(was, bits[n])
    ensures Mapped(now, bits, n + 1, bits[n])
  {
    assert bits[..n + 1][..n] == bits[..n];
    MapRunsPixels(bits[..n + 1]);
    EndBits(bits[n]);
  }

  /** Put the runs of a byte, which stand at start, after run r. */
  method PutByte(runs: array<int>, r: nat, lastc: byte, c: byte, text: seq<int>, start: nat) returns (q: nat)
    requires r + 8 < runs.Length && Odd(r) == (lastc % 2 == 1)
    requires Points(text, start, BitRuns(ByteOf(c)))
    modifies runs
    ensures r <= q <= r + 8 && runs[..q + 1] == WithByte(old(runs[..r + 1]), c)
  {
    ghost var e := BitRuns(ByteOf(c));
    RunsPositive(ByteOf(c));
    EndBits(c);
    NextPoint(text, start, e);
    ghost var was := runs[..r + 1];
    q := r;
    if (lastc % 2 == 1 && c < 128) || (lastc % 2 == 0 && c >= 128) {
      q := q + 1;
      runs[q] := text[start];
      assert runs[..q + 1] == was + [e[0]];
    } else {
      runs[q] := runs[q] + text[start];
      assert runs[..q + 1] == was[r := was[r] + e[0]];
    }
    q := PutRuns(runs, q, text, start + 1, e[1..]);
  }

  lemma {:induction false} NextPoint(text: seq<int>, p: nat, e: seq<int>)
    requires e != [] && Points(text, p, e)
    ensures text[p] == e[0] && Points(text, p + 1, e[1..])
  {
    assert text[p] == text[p..p + |e|][0];
    assert text[p + 1..p + |e|] == text[p..p + |e|][1..];
  }

  /** New runs after run r, up to the zero that ends the entry. */
  method PutRuns(runs: array<int>, r: nat, text: seq<int>, start: nat, ghost e: seq<int>) returns (q: nat)
    requires r + |e| < runs.Length && Points(text, start, e) && NoZero(e)
    modifies runs
    ensures q == r + |e| && runs[..q + 1] == old(runs[..r + 1]) + e
  {
    q := r;
    var p: nat := start;
    ghost var left := e;
    while text[p] != 0
      invariant q + |left| == r + |e| && runs[..q + 1] + left == old(runs[..r + 1]) + e
      invariant p + |left| < |text| && Points(text, p, left) && NoZero(left)
      decreases |left|
    {
      NextPoint(text, p, left);
      q := q + 1;
      runs[q] := text[p];
      p := p + 1;
      left := left[1..];
    }
  }

  // From runs to bits.

  /** A byte with its low b bits all set, or all cleared: the effect of the fill tables. */
  function Flood(x: byte, b: nat, black: bool): (y: byte)
    requires b <= 8
    ensures ToBits(y, 8) == ToBits(x, 8)[..8 - b] + Solid(b, black)
  {
    FloodBits(x, b, black);
    x - x % Pow2(b) + Filled(b, black)
  }

  /** Replacing the low b bits of x by c. */
  lemma {:induction false} ReplaceLow(x: nat, b: nat, c: nat, y: nat)
    requires b <= 8 && c < Pow2(b) && y == Pow2(b) * (x / Pow2(b)) + c
    ensures ToBits(y, 8) == ToBits(x, 8)[..8 - b] + ToBits(c, b)
  {
    var p, q := Pow2(b), x / Pow2(b);
    DivUnique(y, p, q, c);
    DivUnique(c, p, 0, c);
    ShrIsDiv(x, b);
    ShrIsDiv(y, b);
    SplitBits(x, 8 - b, b);
    SplitBits(y, 8 - b, b);
    LowBits(y, c, b);
  }

  lemma {:induction false} FloodBits(x: byte, b: nat, black: bool)
    requires b <= 8
    ensures var y := x - x % Pow2(b) + Filled(b, black);
      0 <= y < 256 && ToBits(y, 8) == ToBits(x, 8)[..8 - b] + Solid(b, black)
  {
    FloodRange(x, b);
    DivideOut(x, Pow2(b));
    ReplaceLow(x, b, Filled(b, black), x - x % Pow2(b) + Filled(b, black));
    SolidBits(b, black);
  }

  lemma {:induction false} DivideOut(x: nat, p: nat)
    requires p > 0
    ensures x - x % p == p * (x / p)
  {
  }

  /** n ones, or n zeros, as a number. */
  function Filled(n: nat, black: bool): (v: nat)
    ensures v < Pow2(n)
  {
    if black then Pow2(n) - 1 else 0
  }

  lemma {:induction false} FloodRange(x: byte, b: nat)
    requires b <= 8
    ensures 0 <= x - x % Pow2(b) && x - x % Pow2(b) + Pow2(b) <= 256
  {
    if b == 0 { assert Pow2(0) == 1; }
    else if b == 1 { assert Pow2(1) == 2; }
    else if b == 2 { assert Pow2(2) == 4; }
    else if b == 3 { assert Pow2(3) == 8; }
    else if b == 4 { assert Pow2(4) == 16; }
    else if b == 5 { assert Pow2(5) == 32; }
    else if b == 6 { assert Pow2(6) == 64; }
    else if b == 7 { assert Pow2(7) == 128; }
    else { assert Pow2(8) == 256; }
  }

  /** All ones, or all zeros. */
  lemma {:induction false} SolidBits(n: nat, black: bool)
    ensures ToBits(Filled(n, black), n) == Solid(n, black)
    decreases n
  {
    if n > 0 {
      SolidBits(n - 1, black);
      OneMore(n - 1, black);
      assert Filled(n, black) / 2 == Filled(n - 1, black) && (Filled(n, black) % 2 == 1) == black;
    }
  }

  function ColourByte(black: bool): byte
  {
    if black then 255 else 0
  }

  lemma {:induction false} ColourBits(black: bool)
    ensures ToBits(ColourByte(black), 8) == Solid(8, black)
  {
    assert Pow2(8) == 256;
    SolidBits(8, black);
  }

  lemma {:induction false} RepeatBits(k: nat, black: bool)
    ensures ByteBits(Copies(ColourByte(black), k)) == Solid(8 * k, black)
  {
    if k > 0 {
      RepeatBits(k - 1, black);
      assert Copies(ColourByte(black), k) == Copies(ColourByte(black), k - 1) + [ColourByte(black)];
      LastByteBits(Copies(ColourByte(black), k - 1), ColourByte(black));
      ColourBits(black);
      SolidSplit(8 * (k - 1), 8, black);
    }
  }

  lemma {:induction false} LastByteBits(bytes: seq<byte>, b: byte)
    ensures ByteBits(bytes + [b]) == ByteBits(bytes) + ToBits(b, 8)
  {
    assert (bytes + [b])[..|bytes|] == bytes;
  }

  /** Flooding the current byte keeps the pixels drawn before. */
  lemma {:induction false} FloodKeeps(bytes: seq<byte>, x: byte, b: nat, black: bool)
    requires b <= 8
    ensures ByteBits(bytes + [Flood(x, b, black)])
         == ByteBits(bytes + [x])[..8 * |bytes| + 8 - b] + Solid(b, black)
  {
    LastByteBits(bytes, x);
    LastByteBits(bytes, Flood(x, b, black));
    assert (ByteBits(bytes) + ToBits(x, 8))[..8 * |bytes| + 8 - b] == ByteBits(bytes) + ToBits(x, 8)[..8 - b];
    SeqAssoc(ByteBits(bytes), ToBits(x, 8)[..8 - b], Solid(b, black));
  }

  /** Whole bytes of one colour, and one more to go on with. */
  method FillBytes(buf: array<byte>, p: nat, k: nat, black: bool)
    requires p + k < buf.Length
    modifies buf
    ensures buf[..p + k + 1] == old(buf[..p]) + Copies(ColourByte(black), k + 1)
  {
    for i := 0 to k + 1
      invariant buf[..p + i] == old(buf[..p]) + Copies(ColourByte(black), i)
    {
      buf[p + i] := ColourByte(black);
      assert Copies(ColourByte(black), i + 1) == Copies(ColourByte(black), i) + [ColourByte(black)];
    }
  }

  /** Flood the current byte. */
  method FloodAt(buf: array<byte>, p: nat, b: nat, black: bool)
    requires 1 <= b <= 8 && p < buf.Length
    modifies buf
    ensures ByteBits(buf[..p + 1]) == ByteBits(old(buf[..p + 1]))[..8 * p + 8 - b] + Solid(b, black)
  {
    ghost var was := buf[..p];
    assert buf[..p + 1] == was + [buf[p]];
    FloodKeeps(was, buf[p], b, black);
    buf[p] := Flood(buf[p], b, black);
    assert buf[..p + 1] == was + [buf[p]];
  }

  /** Draw a run of len pixels after the first 8 * p + 8 - b pixels of the buffer. */
  method DrawRun(buf: array<byte>, p: nat, b: nat, len: nat, black: bool) returns (p': nat, b': nat)
    requires 1 <= b <= 8 && p < buf.Length && (8 * p + 8 - b + len) / 8 < buf.Length
    modifies buf
    ensures 1 <= b' <= 8 && p' < buf.Length && 8 * p' + 8 - b' == 8 * p + 8 - b + len
    ensures ByteBits(buf[..p' + 1])
         == ByteBits(old(buf[..p + 1]))[..8 * p + 8 - b] + Solid(len, black) + Solid(b', black)
  {
    ghost var before := ByteBits(buf[..p + 1])[..8 * p + 8 - b];
    FloodAt(buf, p, b, black);
    if b > len {
      p', b' := p, b - len;
      SolidSplit(len, b - len, black);
      SeqAssoc(before, Solid(len, black), Solid(b', black));
    } else {
      p', b' := FillOn(buf, p, b, len, black, before);
    }
  }

  /** The rest of a run that fills the current byte. */
  method FillOn(buf: array<byte>, p: nat, b: nat, len: nat, black: bool, ghost before: seq<bool>)
      returns (p': nat, b': nat)
    requires b <= len && p < buf.Length && p + 1 + (len - b) / 8 < buf.Length
    requires ByteBits(buf[..p + 1]) == before + Solid(b, black)
    modifies buf
    ensures 1 <= b' <= 8 && p' < buf.Length && 8 * p' + 8 - b' == 8 * p + 8 - b + len
    ensures ByteBits(buf[..p' + 1]) == before + Solid(len, black) + Solid(b', black)
  {
    var left := len - b;
    ghost var drawn := buf[..p + 1];
    FillBytes(buf, p + 1, left / 8, black);
    p', b' := p + 1 + left / 8, 8 - left % 8;
    BytesAdded(drawn, buf[..p' + 1], left / 8 + 1, before, b, len, b', black);
  }

  /** Pixels drawn, and then whole bytes. */
  lemma {:induction false} BytesAdded(drawn: seq<byte>, all: seq<byte>, k: nat, before: seq<bool>, b: nat, len: nat,
                                      left: nat, black: bool)
    requires all == drawn + Copies(ColourByte(black), k)
    requires ByteBits(drawn) == before + Solid(b, black) && b + 8 * k == len + left
    ensures ByteBits(all) == before + Solid(len, black) + Solid(left, black)
  {
    ByteBitsConcat(drawn, Copies(ColourByte(black), k));
    RepeatBits(k, black);
    ThreeSolids(before, b, 8 * k, len, left, black);
  }

  lemma {:induction false} ThreeSolids(before: seq<bool>, b: nat, more: nat, len: nat, left: nat, black: bool)
    requires b + more == len + left
    ensures before + Solid(b, black) + Solid(more, black) == before + Solid(len, black) + Solid(left, black)
  {
    SolidSplit(b, more, black);
    SolidSplit(len, left, black);
    SeqAssoc(before, Solid(b, black), Solid(more, black));
    SeqAssoc(before, Solid(len, black), Solid(left, black));
  }

  /** The number of bytes that hold a number of pixels. */
  function BytesFor(pixels: nat): nat
  {
    (pixels + 7) / 8
  }

  /** Pixels made up to whole bytes with pixels of one colour. */
  function Whole(pixels: seq<bool>, black: bool): seq<bool>
  {
    pixels + Solid(8 * BytesFor(|pixels|) - |pixels|, black)
  }

  /** The first i runs are drawn, in p bytes and 8 - b bits more; the other b bits of the
      current byte have the colour of run i - 1. */
  ghost predicate Drawn(bytes: seq<byte>, runs: seq<int>, i: nat, p: nat, b: nat)
    requires Lengths(runs)
  {
    && i <= |runs| && 1 <= b <= 8 && |bytes| == p + 1 && 8 * p + 8 - b == |Expand(runs[..i])|
    && ByteBits(bytes)[..8 * p + 8 - b] == Expand(runs[..i])
    && (i > 0 ==> ByteBits(bytes) == Expand(runs[..i]) + Solid(b, Odd(i + 1)))
  }

  lemma {:induction false} DrawnNext(bytes: seq<byte>, runs: seq<int>, i: nat, p: nat, b: nat)
    requires Lengths(runs) && i < |runs| && 1 <= b <= 8 && |bytes| == p + 1
    requires ByteBits(bytes) == Expand(runs[..i]) + Solid(runs[i], Odd(i)) + Solid(b, Odd(i))
    ensures Drawn(bytes, runs, i + 1, p, b)
  {
    assert runs[..i + 1] == runs[..i] + [runs[i]];
    ExpandSnoc(runs[..i], runs[i]);
    FirstPart(ByteBits(bytes), Expand(runs[..i + 1]), Solid(b, Odd(i)));
  }

  lemma {:induction false} FirstPart(all: seq<bool>, a: seq<bool>, b: seq<bool>)
    requires all == a + b
    ensures all[..|a|] == a
  {
  }

  lemma {:induction false} DrawnAll(bytes: seq<byte>, runs: seq<int>, p: nat, b: nat)
    requires Lengths(runs) && Drawn(bytes, runs, |runs|, p, b)
    ensures var n := p + if b < 8 then 1 else 0;
      n == BytesFor(|Expand(runs)|) && ByteBits(bytes[..n]) == Whole(Expand(runs), Odd(|runs| + 1))
  {
    assert runs[..|runs|] == runs;
    if b == 8 {
      assert bytes == bytes[..p] + [bytes[p]];
      Unused(bytes[..p], bytes[p]);
      assert Expand(runs) + Solid(0, Odd(|runs| + 1)) == Expand(runs);
    } else {
      assert bytes[..p + 1] == bytes;
    }
  }

  /** The bit map of runs; bits left over in the last byte have the last run's colour. */
  method RunToBit(runs: seq<int>, buf: array<byte>) returns (n: nat)
    requires Lengths(runs) && Width(runs) / 8 < buf.Length
    modifies buf
    ensures n == BytesFor(|Expand(runs)|) && n <= buf.Length
    ensures ByteBits(buf[..n]) == Whole(Expand(runs), Odd(|runs| + 1))
  {
    var p: nat, b: nat := 0, 8;
    WidthsGrow(runs, 0);
    for i := 0 to |runs|
      invariant p < buf.Length && Drawn(buf[..p + 1], runs, i, p, b)
    {
      WidthsGrow(runs, i);
      p, b := DrawRun(buf, p, b, runs[i], Odd(i));
      DrawnNext(buf[..p + 1], runs, i, p, b);
    }
    n := p + if b < 8 then 1 else 0;
    DrawnAll(buf[..p + 1], runs, p, b);
    assert buf[..p + 1][..n] == buf[..n];
  }

  lemma {:induction false} WidthsGrow(runs: seq<int>, i: nat)
    requires Lengths(runs) && i <= |runs|
    ensures |Expand(runs[..i])| <= Width(runs)
    ensures i < |runs| ==> |Expand(runs[..i])| + runs[i] <= Width(runs)
  {
    assert runs == runs[..i] + runs[i..];
    WidthAppend(runs[..i], runs[i..]);
    PixelsWidth(runs[..i], false);
    PixelsWidth(runs[i..], false);
    if i < |runs| { PixelsWidth(runs[i..][1..], false); }
  }

  lemma {:induction false} Unused(bytes: seq<byte>, x: byte)
    ensures ByteBits(bytes + [x])[..8 * |bytes|] == ByteBits(bytes)
  {
    LastByteBits(bytes, x);
  }

  // There and back.

  lemma {:induction false} SplitLast(a: seq<byte>, n: nat)
    requires |a| == n + 1
    ensures ByteBits(a)[..8 * n] == ByteBits(a[..n])
    ensures Value(ByteBits(a)[8 * n..]) == a[n]
  {
    TwoParts(ByteBits(a), ByteBits(a[..n]), ByteOf(a[n]));
    ByteValue(a[n]);
  }

  lemma {:induction false} ByteValue(b: byte)
    ensures Value(ByteOf(b)) == b
  {
    ValueOfBits(b, 8);
    NoneCut(b);
  }

  lemma {:induction false} NoneCut(b: byte)
    ensures b % Pow2(8) == b
  {
    assert Pow2(8) == 256;
  }

  lemma {:induction false} TwoParts(s: seq<bool>, t: seq<bool>, u: seq<bool>)
    requires s == t + u
    ensures s[..|t|] == t && s[|t|..] == u
  {
  }

  /** Bytes are determined by their bits. */
  lemma {:induction false} SameBytes(a: seq<byte>, b: seq<byte>)
    requires Same(ByteBits(a), ByteBits(b))
    ensures a == b
    decreases |a|
  {
    assert |a| == |b|;
    if a != [] {
      var n := |a| - 1;
      SplitLast(a, n);
      SplitLast(b, n);
      SameBytes(a[..n], b[..n]);
      SameEnds(a, b, n);
    }
  }

  lemma {:induction false} SameEnds(a: seq<byte>, b: seq<byte>, n: nat)
    requires |a| == |b| == n + 1 && a[..n] == b[..n] && a[n] == b[n]
    ensures a == b
  {
    assert a == a[..n] + [a[n]] && b == b[..n] + [b[n]];
  }

  lemma {:induction false} WholeBytes(pixels: seq<bool>, black: bool)
    requires |pixels| % 8 == 0
    ensures Whole(pixels, black) == pixels && BytesFor(|pixels|) == |pixels| / 8
  {
    assert pixels + [] == pixels;
  }

  /** A bit map made into runs and back is the same bit map. */
  method ThereAndBack(bits: seq<byte>) returns (back: seq<byte>)
    ensures back == bits
  {
    var runs := new int[8 * |bits| + 1](_ => 0);
    var nr := BitToRun(bits, runs);
    var buf := new byte[|bits| + 1](_ => 0);
    PixelsWidth(runs[..nr], false);
    var n := RunToBit(runs[..nr], buf);
    back := buf[..n];
    WholeBytes(ByteBits(bits), Odd(nr + 1));
    SameBytes(back, bits);
  }
}
