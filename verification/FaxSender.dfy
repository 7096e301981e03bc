/** Sending the scan lines of a page, and receiving them. */
module FaxSender {
  import opened Bits
  import opened T4Tables
  import T4Coding
  import T4Encoder
  import T4RoundTrip
  import Transport
  import FaxFrames

  const EOLCODE := 1
  const EOLBITS := 12

  lemma {:induction false} CodeWords()
    ensures ToBits(0, 8) == Zeros(8) && ToBits(EOLCODE, EOLBITS) == FaxFrames.EOL_BITS
    ensures EOLCODE < Pow2(EOLBITS)
  {
    ZeroBits(0, 8);
    ZeroBits(0, 11);
    assert EOLCODE / 2 == 0 && EOLCODE % 2 == 1;
    ValueBound(ToBits(EOLCODE, EOLBITS));
  }

  lemma {:induction false} ZeroBits(z: nat, n: nat)
    requires z == 0
    ensures ToBits(z, n) == Zeros(n)
    decreases n
  {
    if n > 0 {
      ZeroBits(z / 2, n - 1);
      assert Zeros(n - 1) + [false] == Zeros(n);
    }
  }

  lemma {:induction false} MoreZeros(m: nat, n: nat)
    ensures Zeros(m) + Zeros(n) == Zeros(m + n)
  {
  }

  // A line that fits the run buffer fits the code buffer.

  lemma {:induction false} RunFits(t: seq<T4Code>, r: int)
    requires Decodable(t)
    ensures 2 * |T4Coding.RunBits(t, r)| <= 25 * |T4RoundTrip.RunEmits(r)|
  {
    var c := T4Coding.Clip(r);
    assert GoodEntry(t, c % 64);
    if c > 63 { assert GoodEntry(t, 63 + c / 64); }
  }

  lemma {:induction false} LineFits(book: Codebook, c: Colour, runs: seq<int>)
    requires Sound(book)
    ensures 2 * |T4Coding.LineBits(book, c, runs)| <= 25 * |T4RoundTrip.LineEmits(runs)|
    decreases |runs|
  {
    if runs != [] {
      T4RoundTrip.LineBitsCons(book, c, runs);
      RunFits(book.Get(c), runs[0]);
      LineFits(book, Other(c), runs[1..]);
    }
  }

  /** What has been handed to the modem, and what is still held back, are the given bits. */
  ghost predicate Sent(e: T4Encoder.Encoder, mf: Transport.TFile, sent: seq<byte>, held: seq<byte>, bits: seq<bool>)
    reads e, mf
  {
    && e.Valid()
    && Flatten(mf.writes) == Transport.Stuff(mf.obitorder, sent)
    && ByteBits(sent + held) + e.Pending() == bits
  }

  /** More held bytes for more bits. */
  lemma {:induction false} HeldBits(sent: seq<byte>, held: seq<byte>, pend: seq<bool>, held': seq<byte>,
                                    pend': seq<bool>, more: seq<bool>)
    requires ByteBits(held') + pend' == ByteBits(held) + pend + more
    ensures ByteBits(sent + held') + pend' == ByteBits(sent + held) + pend + more
  {
    ByteBitsConcat(sent, held);
    ByteBitsConcat(sent, held');
    SeqAssoc(ByteBits(sent), ByteBits(held'), pend');
    SeqAssoc(ByteBits(sent), ByteBits(held), pend);
    SeqAssoc(ByteBits(sent), ByteBits(held) + pend, more);
  }

  lemma {:induction false} BitsCounted(sent: seq<byte>, held: seq<byte>, pend: seq<bool>, held': seq<byte>,
                                       pend': seq<bool>, more: seq<bool>)
    requires ByteBits(held') + pend' == ByteBits(held) + pend + more
    ensures 8 * |held'| + |pend'| == 8 * |held| + |pend| + |more|
  {
    assert |ByteBits(held') + pend'| == |ByteBits(held) + pend + more|;
  }

  /** Append a code word to the bytes held back. */
  method PutBits(e: T4Encoder.Encoder, mf: Transport.TFile, code: nat, bits: nat, held: seq<byte>,
                 ghost sent: seq<byte>,
                 ghost before: seq<bool>)
    returns (out: seq<byte>)
    requires Sent(e, mf, sent, held, before)
    requires 0 < bits <= 24 && code < Pow2(bits)
    modifies e
    ensures Sent(e, mf, sent, out, before + ToBits(code, bits))
    ensures 8 * |out| + e.shift == 8 * |held| + old(e.shift) + bits
    ensures e.x == ShiftIn(old(e.x), bits, code) % LONG
  {
    ghost var pend := e.Pending();
    out := e.PutCode(code, bits, held);
    HeldBits(sent, held, pend, out, e.Pending(), ToBits(code, bits));
    BitsCounted(sent, held, pend, out, e.Pending(), ToBits(code, bits));
  }

  /** The low byte of the register after an end-of-line code. */
  lemma {:induction false} EolLow(x: nat)
    ensures ShiftIn(x, EOLBITS, EOLCODE) % LONG % 256 == 1
  {
    WordSizes();
    assert Pow2(12) == 4096 && Pow2(8) == 256;
    ModMod(ShiftIn(x, EOLBITS, EOLCODE), 64, 8);
    DivUnique(x * 4096 + 1, 256, 16 * x, 1);
  }

  method PutEol(e: T4Encoder.Encoder, mf: Transport.TFile, held: seq<byte>, ghost sent: seq<byte>,
                ghost before: seq<bool>)
    returns (out: seq<byte>)
    requires Sent(e, mf, sent, held, before)
    modifies e
    ensures Sent(e, mf, sent, out, before + FaxFrames.EOL_BITS)
    ensures |held| < |out| <= |held| + 2 && e.x % 256 == 1
  {
    CodeWords();
    EolLow(e.x);
    out := PutBits(e, mf, EOLCODE, EOLBITS, held, sent, before);
  }

  /** One more zero byte of fill. */
  method PutZeros(e: T4Encoder.Encoder, mf: Transport.TFile, held: seq<byte>, ghost sent: seq<byte>,
                  ghost before: seq<bool>, ghost n: nat)
    returns (out: seq<byte>)
    requires Sent(e, mf, sent, held, before + Zeros(n))
    modifies e
    ensures Sent(e, mf, sent, out, before + Zeros(n + 8))
    ensures |out| == |held| + 1
  {
    CodeWords();
    MoreFill(before, n);
    out := PutBits(e, mf, 0, 8, held, sent, before + Zeros(n));
  }

  /** Zero bytes up to the minimum length. */
  method PutFill(e: T4Encoder.Encoder, mf: Transport.TFile, minlen: nat, held: seq<byte>, ghost sent: seq<byte>,
                 ghost before: seq<bool>)
    returns (out: seq<byte>, ghost fill: nat)
    requires Sent(e, mf, sent, held, before)
    modifies e
    ensures Sent(e, mf, sent, out, before + Zeros(fill))
    ensures minlen <= |out| && fill % 8 == 0 && (fill > 0 ==> |out| == minlen)
  {
    out := held;
    ghost var n := 0;
    NoZeros(before);
    while |out| < minlen
      invariant n >= 0 && Sent(e, mf, sent, out, before + Zeros(8 * n))
      invariant n > 0 ==> |out| <= minlen
      decreases minlen - |out|
    {
      out := PutZeros(e, mf, out, sent, before, 8 * n);
      n := n + 1;
    }
    fill := 8 * n;
  }

  lemma {:induction false} MoreFill(s: seq<bool>, n: nat)
    ensures Same(s + Zeros(n) + Zeros(8), s + Zeros(n + 8))
  {
    SeqAssoc(s, Zeros(n), Zeros(8));
    MoreZeros(n, 8);
  }

  lemma {:induction false} NoZeros(s: seq<bool>)
    ensures Same(s + Zeros(0), s)
  {
    assert s + Zeros(0) == s;
  }

  /** Code a line, fill up to the minimum length and no further, and end the line. */
  method PutLine(e: T4Encoder.Encoder, mf: Transport.TFile, book: Codebook, runs: seq<int>, minlen: nat,
                 held: seq<byte>,
                 ghost sent: seq<byte>, ghost before: seq<bool>)
    returns (out: seq<byte>, ghost fill: nat)
    requires Sound(book) && |T4RoundTrip.LineEmits(runs)| < T4Coding.MAXRUNS
    requires Sent(e, mf, sent, held, before)
    modifies e
    ensures Sent(e, mf, sent, out, before + FaxFrames.FrameBits(book, FaxFrames.Frame(runs, fill)))
    ensures minlen <= |out| && fill % 8 == 0 && (fill > 0 ==> |out| <= minlen + 2)
    ensures e.x % 256 == 1
  {
    CodeWords();
    LineFits(book, White, runs);
    ghost var pend, line := e.Pending(), T4Coding.LineBits(book, White, runs);
    out := e.RunToCode(book, runs, held);
    HeldBits(sent, held, pend, out, e.Pending(), line);
    out, fill := PutFill(e, mf, minlen, out, sent, before + line);
    out := PutEol(e, mf, out, sent, before + line + Zeros(fill));
    SeqAssoc(before + line, Zeros(fill), FaxFrames.EOL_BITS);
    SeqAssoc(before, line, Zeros(fill) + FaxFrames.EOL_BITS);
  }
}
