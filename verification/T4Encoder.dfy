/** The bit packer, which holds back the bits that do not yet fill a byte, and the
    coding of scan lines with it. */
module T4Encoder {
  import opened Bits
  import opened T4Tables
  import opened T4Coding

  const MAXCODES := 12801

  /** The encoder: the low shift+8 bits of x have not been written yet. */
  class Encoder {
    var x: nat
    var shift: int

    ghost predicate Valid()
      reads this
    {
      -8 <= shift < 0
    }

    ghost function Pending(): seq<bool>
      requires Valid()
      reads this
    {
      ToBits(x, shift + 8)
    }

    constructor ()
      ensures Valid() && Pending() == []
      ensures x == 0
    {
      x := 0;
      shift := -8;
    }

    /** Write out the whole bytes of the pending bits. */
    method Drain(buf: seq<byte>) returns (out: seq<byte>)
      requires shift >= -8
      modifies this`shift
      ensures out == buf + WholeBytes(x, old(shift))
      ensures shift == Remainder(old(shift))
    {
      out := buf;
      while shift >= 0
        invariant -8 <= shift
        invariant out + WholeBytes(x, shift) == buf + WholeBytes(x, old(shift))
        invariant Remainder(shift) == Remainder(old(shift))
      {
        var b: byte := Shr(x, shift) % 256;
        SeqAssoc(out, [b], WholeBytes(x, shift - 8));
        out := out + [b];
        shift := shift - 8;
      }
    }

    /** Append a code word, or flush when bits is 0. */
    method PutCode(code: nat, bits: nat, buf: seq<byte>) returns (out: seq<byte>)
      requires Valid()
      requires bits <= 24 && code < Pow2(bits)
      modifies this
      ensures Valid()
      ensures |buf| <= |out|
      ensures x == ShiftIn(old(x), bits, code) % LONG
      ensures bits > 0 ==> ByteBits(out) + Pending() == ByteBits(buf) + old(Pending()) + ToBits(code, bits)
      ensures bits == 0 ==> out == buf + [x % 256] && Pending() == []
    {
      PutKeepsBits(Pending(), Append(x, shift + 8, code, bits), shift + bits, ToBits(code, bits), buf);
      x := Append(x, shift + 8, code, bits);
      shift := shift + (if bits > 0 then bits else -shift);
      out := Drain(buf);
    }

    /** Append entry k of a code table unless this line has already filled MAXCODES bytes. */
    method PutEntry(t: seq<T4Code>, k: nat, start: nat, buf: seq<byte>) returns (out: seq<byte>)
      requires Valid() && Decodable(t) && k < CODES && start <= |buf|
      modifies this
      ensures Valid()
      ensures |buf| <= |out|
      ensures |buf| < start + MAXCODES ==>
                ByteBits(out) + Pending() == ByteBits(buf) + old(Pending()) + CodeBits(t, k)
      ensures |buf| >= start + MAXCODES ==> out == buf && Pending() == old(Pending())
    {
      out := buf;
      if |buf| < start + MAXCODES {
        assert GoodEntry(t, k);
        CodeFits(t[k], k);
        out := PutCode(t[k].code, t[k].bits, buf);
      }
    }

    /** Code one run: a make-up code when it is over 63, then a terminating code. */
    method PutRun(t: seq<T4Code>, r: int, start: nat, buf: seq<byte>) returns (out: seq<byte>)
      requires Valid() && Decodable(t) && start <= |buf|
      modifies this
      ensures Valid()
      ensures |buf| <= |out|
      ensures |out| < start + MAXCODES ==>
                ByteBits(out) + Pending() == ByteBits(buf) + old(Pending()) + RunBits(t, r)
      ensures 8 * |out| + |Pending()| <= 8 * |buf| + |old(Pending())| + |RunBits(t, r)|
    {
      out := buf;
      var rlen := r;
      ghost var before := ByteBits(buf) + Pending();
      if rlen > 63 {
        if rlen > MAXRUNLEN {
          rlen := MAXRUNLEN;
        }
        out := PutEntry(t, 63 + rlen / 64, start, out);
      }
      ghost var makeup := if rlen > 63 then CodeBits(t, 63 + rlen / 64) else [];
      assert |out| < start + MAXCODES ==> ByteBits(out) + Pending() == before + makeup;
      out := PutEntry(t, rlen % 64, start, out);
      SeqAssoc(before, makeup, CodeBits(t, rlen % 64));
    }

    /** The bits put out so far, in the buffer and pending, as long as no code was dropped. */
    ghost predicate Coded(out: seq<byte>, start: nat, bits: seq<bool>)
      requires Valid()
      reads this
    {
      && (|out| < start + MAXCODES ==> Same(ByteBits(out) + Pending(), bits))
      && 8 * |out| + |Pending()| <= |bits|
    }

    /** Code one more run of a line. */
    method PutNext(t: seq<T4Code>, r: int, start: nat, buf: seq<byte>, ghost bits: seq<bool>) returns (out: seq<byte>)
      requires Valid() && Decodable(t) && start <= |buf| && Coded(buf, start, bits)
      modifies this
      ensures Valid() && |buf| <= |out| && Coded(out, start, bits + RunBits(t, r))
    {
      out := PutRun(t, r, start, buf);
    }

    /** Code a scan line. No code is dropped while the line's codes stay under MAXCODES bytes. */
    method RunToCode(book: Codebook, runs: seq<int>, buf: seq<byte>) returns (out: seq<byte>)
      requires Valid() && Sound(book)
      modifies this
      ensures Valid()
      ensures |buf| <= |out|
      ensures |out| < |buf| + MAXCODES ==>
                ByteBits(out) + Pending() == ByteBits(buf) + old(Pending()) + LineBits(book, White, runs)
      ensures 8 * |out| + |Pending()| <= 8 * |buf| + |old(Pending())| + |LineBits(book, White, runs)|
    {
      out := buf;
      var colour := White;
      ghost var before, done: seq<bool> := ByteBits(buf) + Pending(), [];
      NothingAfter(before);
      NoLineBits(book, runs);
      for n := 0 to |runs|
        invariant Valid() && |buf| <= |out| && colour == ColourAt(White, n)
        invariant LineDone(book, runs, n, done) && Coded(out, |buf|, before + done)
      {
        ghost var code := RunBits(book.Get(colour), runs[n]);
        LineBitsNext(book, runs, n, done, code);
        out := PutNext(book.Get(colour), runs[n], |buf|, out, before + done);
        SeqAssoc(before, done, code);
        done := done + code;
        colour := Other(colour);
      }
      assert runs[..|runs|] == runs;
    }
  }

  lemma {:induction false} NothingAfter(s: seq<bool>)
    ensures s + [] == s
  {
  }

  /** The codes of the first n runs. */
  ghost predicate LineDone(book: Codebook, runs: seq<int>, n: nat, done: seq<bool>)
    requires Sound(book)
  {
    n <= |runs| && Same(done, LineBits(book, White, runs[..n]))
  }

  lemma {:induction false} NoLineBits(book: Codebook, runs: seq<int>)
    requires Sound(book)
    ensures LineDone(book, runs, 0, [])
  {
  }

  lemma {:induction false} LineBitsNext(book: Codebook, runs: seq<int>, n: nat, done: seq<bool>, code: seq<bool>)
    requires Sound(book) && n < |runs| && LineDone(book, runs, n, done)
    requires code == RunBits(book.Get(ColourAt(White, n)), runs[n])
    ensures LineDone(book, runs, n + 1, done + code)
  {
    LineBitsAppend(book, White, runs[..n], runs[n]);
    assert runs[..n] + [runs[n]] == runs[..n + 1];
  }

  /** The whole bytes among the low shift+8 bits of x, and where that leaves shift. */
  function WholeBytes(x: nat, shift: int): seq<byte>
    requires shift >= -8
    decreases shift + 8
  {
    if shift < 0 then [] else [Shr(x, shift) % 256] + WholeBytes(x, shift - 8)
  }

  function Remainder(shift: int): (r: int)
    requires shift >= -8
    ensures -8 <= r < 0
    decreases shift + 8
  {
    if shift < 0 then shift else Remainder(shift - 8)
  }

  /** Draining moves bits from the register to the buffer and changes none. */
  lemma {:induction false} DrainKeepsBits(buf: seq<byte>, x: nat, shift: int, out: seq<byte>)
    requires shift >= -8 && out == buf + WholeBytes(x, shift)
    ensures ByteBits(out) + ToBits(x, Remainder(shift) + 8) == ByteBits(buf) + ToBits(x, shift + 8)
    decreases shift + 8
  {
    if shift < 0 {
      assert out == buf;
    } else {
      var b: seq<byte> := [Shr(x, shift) % 256];
      SeqAssoc(buf, b, WholeBytes(x, shift - 8));
      DrainKeepsBits(buf + b, x, shift - 8, out);
      DrainByte(buf, x, shift);
    }
  }

  /** The register after shifting in a code word: its low n+bits bits are the old low n bits and the code. */
  function Append(x: nat, n: nat, code: nat, bits: nat): (y: nat)
    requires n + bits <= 64 && code < Pow2(bits)
    ensures y == ShiftIn(x, bits, code) % LONG
    ensures ToBits(y, n + bits) == ToBits(x, n) + ToBits(code, bits)
  {
    AppendLong(x, n, code, bits);
    ShiftIn(x, bits, code) % LONG
  }

  lemma {:induction false} PutKeepsBits(pend: seq<bool>, y: nat, s: int, codeBits: seq<bool>, buf: seq<byte>)
    requires s >= -8 && ToBits(y, s + 8) == pend + codeBits
    ensures ByteBits(buf + WholeBytes(y, s)) + ToBits(y, Remainder(s) + 8) == ByteBits(buf) + pend + codeBits
  {
    DrainKeepsBits(buf, y, s, buf + WholeBytes(y, s));
    SeqAssoc(ByteBits(buf), pend, codeBits);
  }

  lemma {:induction false} DrainByte(buf: seq<byte>, x: nat, shift: nat)
    ensures ByteBits(buf + [Shr(x, shift) % 256]) + ToBits(x, shift) == ByteBits(buf) + ToBits(x, shift + 8)
  {
    var b: byte := Shr(x, shift) % 256;
    SplitBits(x, 8, shift);
    ByteOfBits(Shr(x, shift));
    SeqAssoc(ByteBits(buf), ToBits(b, 8), ToBits(x, shift));
    assert (buf + [b])[..|buf|] == buf;
  }

  lemma {:induction false} ByteOfBits(v: nat)
    ensures ToBits(v % 256, 8) == ToBits(v, 8)
  {
    assert Pow2(8) == 256;
    ReduceBits(v, 8, 8);
  }
}
