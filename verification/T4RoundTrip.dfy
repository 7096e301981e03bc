/** Decoding a coded scan line gives back its runs. */
module T4RoundTrip {
  import Bits
  import opened T4Tables
  import opened T4Coding
  import opened T4Decoder

  /** What the decoder emits for a run: a make-up code and a terminating code, each as
      run length + 1. */
  function RunEmits(r: int): seq<int>
  {
    var c := Clip(r);
    (if c > 63 then [64 * (c / 64) + 1] else []) + [c % 64 + 1]
  }

  function LineEmits(runs: seq<int>): seq<int>
  {
    if runs == [] then [] else RunEmits(runs[0]) + LineEmits(runs[1..])
  }

  lemma {:induction false} EmptyPrefix(d: Decoded)
    ensures d.Prefixed([]) == d
  {
    assert [] + d.codes == d.codes;
  }

  lemma {:induction false} DropPrefix<T>(a: seq<T>, b: seq<T>)
    ensures (a + b)[|a|..] == b && a <= a + b
  {
  }

  lemma {:induction false} DecodeEntry(book: Codebook, c: Colour, k: nat, rest: seq<bool>)
    requires Sound(book) && k < CODES && |rest| >= 13
    ensures Decode(book, First(c), CodeBits(book.Get(c), k) + rest)
         == Decode(book, Next(c, k), rest).Prefixed([RunOf(k) + 1])
  {
    DropPrefix(CodeBits(book.Get(c), k), rest);
    DecodeCode(book, c, k, CodeBits(book.Get(c), k) + rest);
  }

  /** A make-up code is decoded exactly, and more of the same run follows. */
  lemma {:induction false} DecodeMakeUp(book: Codebook, c: Colour, k: nat, rest: seq<bool>, d: Decoded, e: int)
    requires Sound(book) && 63 < k < CODES && |rest| >= 13
    requires Decode(book, First(c), rest) == d.Prefixed([e])
    ensures Decode(book, First(c), CodeBits(book.Get(c), k) + rest) == d.Prefixed([RunOf(k) + 1] + [e])
  {
    DecodeEntry(book, c, k, rest);
    PrefixedTwice(d, [RunOf(k) + 1], [e]);
  }

  lemma {:induction false} ShortRun(t: seq<T4Code>, r: int)
    requires CODES < |t| && Clip(r) <= 63
    ensures RunBits(t, r) == CodeBits(t, Clip(r) % 64) && RunEmits(r) == [Clip(r) % 64 + 1]
  {
    assert [] + CodeBits(t, Clip(r) % 64) == CodeBits(t, Clip(r) % 64);
  }

  /** A run is decoded exactly, and the other colour's table is next. */
  lemma {:induction false} DecodeRun(book: Codebook, c: Colour, r: int, rest: seq<bool>)
    requires Sound(book) && |rest| >= 13
    ensures Decode(book, First(c), RunBits(book.Get(c), r) + rest)
         == Decode(book, First(Other(c)), rest).Prefixed(RunEmits(r))
  {
    DecodeEntry(book, c, Clip(r) % 64, rest);
    if Clip(r) > 63 { LongRun(book, c, r, rest); } else { ShortRun(book.Get(c), r); }
  }

  lemma {:induction false} LongRun(book: Codebook, c: Colour, r: int, rest: seq<bool>)
    requires Sound(book) && |rest| >= 13 && Clip(r) > 63
    requires Decode(book, First(c), CodeBits(book.Get(c), Clip(r) % 64) + rest)
          == Decode(book, First(Other(c)), rest).Prefixed([Clip(r) % 64 + 1])
    ensures Decode(book, First(c), RunBits(book.Get(c), r) + rest)
         == Decode(book, First(Other(c)), rest).Prefixed(RunEmits(r))
  {
    var t, v := book.Get(c), Clip(r);
    var d := Decode(book, First(Other(c)), rest);
    DecodeMakeUp(book, c, 63 + v / 64, CodeBits(t, v % 64) + rest, d, v % 64 + 1);
    LongBits(t, r, rest);
  }

  /** A long run has a make-up code and a terminating code. */
  lemma {:induction false} LongBits(t: seq<T4Code>, r: int, rest: seq<bool>)
    requires CODES < |t| && Clip(r) > 63
    ensures var v := Clip(r);
      && RunBits(t, r) + rest == CodeBits(t, 63 + v / 64) + (CodeBits(t, v % 64) + rest)
      && RunEmits(r) == [RunOf(63 + v / 64) + 1] + [v % 64 + 1]
  {
    var v := Clip(r);
    Bits.SeqAssoc(CodeBits(t, 63 + v / 64), CodeBits(t, v % 64), rest);
  }

  lemma {:induction false} LineBitsCons(book: Codebook, c: Colour, runs: seq<int>)
    requires Sound(book) && runs != []
    ensures LineBits(book, c, runs) == RunBits(book.Get(c), runs[0]) + LineBits(book, Other(c), runs[1..])
  {
    CodesCons(book, c, runs);
  }

  lemma {:induction false} CodeNext(book: Codebook, c: Colour, runs: seq<int>, i: nat)
    requires Sound(book) && i + 1 < |runs|
    ensures RunCodes(book, c, runs)[i + 1] == RunCodes(book, Other(c), runs[1..])[i]
  {
    assert ColourAt(c, i + 1) == ColourAt(Other(c), i);
  }

  lemma {:induction false} CodesCons(book: Codebook, c: Colour, runs: seq<int>)
    requires Sound(book) && runs != []
    ensures var codes := RunCodes(book, c, runs);
      codes[0] == RunBits(book.Get(c), runs[0]) && codes[1..] == RunCodes(book, Other(c), runs[1..])
  {
    var codes, others := RunCodes(book, c, runs), RunCodes(book, Other(c), runs[1..]);
    forall i | 0 <= i < |others| ensures codes[i + 1] == others[i] {
      CodeNext(book, c, runs, i);
    }
  }

  lemma {:induction false} PrefixedTwice(d: Decoded, a: seq<int>, b: seq<int>)
    ensures d.Prefixed(b).Prefixed(a) == d.Prefixed(a + b)
  {
    Bits.SeqAssoc(a, b, d.codes);
  }

  /** Decoding a first part and then a second part is decoding them together. */
  lemma {:induction false} Chain(book: Codebook, tab: TabId, first: seq<bool>, e1: seq<int>,
                                 mid: TabId, tail: seq<bool>, e2: seq<int>, rest: seq<bool>, d: Decoded)
    requires Sound(book)
    requires Decode(book, tab, first + (tail + rest)) == Decode(book, mid, tail + rest).Prefixed(e1)
    requires Decode(book, mid, tail + rest) == d.Prefixed(e2)
    ensures Decode(book, tab, (first + tail) + rest) == d.Prefixed(e1 + e2)
  {
    Bits.SeqAssoc(first, tail, rest);
    PrefixedTwice(d, e1, e2);
  }

  lemma {:induction false} DecodeNoRuns(book: Codebook, c: Colour, rest: seq<bool>)
    requires Sound(book)
    ensures Decode(book, First(c), LineBits(book, c, []) + rest) == Decode(book, First(c), rest).Prefixed([])
  {
    EmptyPrefix(Decode(book, First(c), rest));
    assert LineBits(book, c, []) + rest == rest;
  }

  /** One run in front of runs that are decoded exactly. */
  lemma {:induction false} DecodeCons(book: Codebook, c: Colour, r: int, tail: seq<bool>, rest: seq<bool>,
                                      emits: seq<int>, d: Decoded)
    requires Sound(book) && |rest| >= 13
    requires Decode(book, First(Other(c)), tail + rest) == d.Prefixed(emits)
    ensures Decode(book, First(c), (RunBits(book.Get(c), r) + tail) + rest) == d.Prefixed(RunEmits(r) + emits)
  {
    DecodeRun(book, c, r, tail + rest);
    Chain(book, First(c), RunBits(book.Get(c), r), RunEmits(r), First(Other(c)), tail, emits, rest, d);
  }

  lemma {:induction false} ColourNext(c: Colour, n: nat)
    requires n > 0
    ensures ColourAt(c, n) == ColourAt(Other(c), n - 1)
  {
  }

  /** The codes of a line's runs are decoded exactly, whatever follows. */
  lemma {:induction false} DecodeRuns(book: Codebook, c: Colour, runs: seq<int>, rest: seq<bool>)
    requires Sound(book) && |rest| >= 13
    ensures Decode(book, First(c), LineBits(book, c, runs) + rest)
         == Decode(book, First(ColourAt(c, |runs|)), rest).Prefixed(LineEmits(runs))
    decreases |runs|
  {
    if runs == [] {
      DecodeNoRuns(book, c, rest);
    } else {
      DecodeRuns(book, Other(c), runs[1..], rest);
      LineBitsCons(book, c, runs);
      ColourNext(c, |runs|);
      DecodeCons(book, c, runs[0], LineBits(book, Other(c), runs[1..]), rest, LineEmits(runs[1..]),
                 Decode(book, First(ColourAt(c, |runs|)), rest));
    }
  }

  /** A line, any fill of at least eleven zeros, and a one: the codes are the line's, the
      decoder is back in the white table, and exactly the line's bits are gone. */
  lemma {:induction false} DecodeLine(book: Codebook, runs: seq<int>, rest: seq<bool>, a: nat)
    requires Sound(book) && a >= 11 && OneAfter(rest, a) && |rest| >= a + 9
    ensures Decode(book, W1, LineBits(book, White, runs) + rest)
         == Decoded(LineEmits(runs), W1, rest[a + 1..], true)
  {
    DecodeRuns(book, White, runs, rest);
    DecodeEol(book, First(ColourAt(White, |runs|)), rest, a);
  }

  /** Combine make-up and terminating codes, and remove the offset of 1. */
  function Recombine(codes: seq<int>): seq<int>
  {
    if codes == [] then []
    else if codes[0] > 64 && |codes| > 1 then [codes[0] + codes[1] - 2] + Recombine(codes[2..])
    else [codes[0] - 1] + Recombine(codes[1..])
  }

  /** The run that arrives when r is sent: long runs are cut off, negative ones wrap. */
  function Received(r: int): int
  {
    if r < 0 then r % 64 else Clip(r)
  }

  function ReceivedRuns(runs: seq<int>): seq<int>
  {
    seq(|runs|, i requires 0 <= i < |runs| => Received(runs[i]))
  }

  lemma {:induction false} RecombineEmits(runs: seq<int>)
    ensures Recombine(LineEmits(runs)) == ReceivedRuns(runs)
  {
    if runs != [] {
      var tail := LineEmits(runs[1..]);
      RecombineEmits(runs[1..]);
      assert (RunEmits(runs[0]) + tail)[|RunEmits(runs[0])|..] == tail;
      assert ReceivedRuns(runs) == [Received(runs[0])] + ReceivedRuns(runs[1..]);
    }
  }

  /** T.4 coding loses nothing exactly on lines whose runs are from 0 to 2623. */
  lemma {:induction false} LosslessRuns(runs: seq<int>)
    ensures Recombine(LineEmits(runs)) == runs <==> forall i | 0 <= i < |runs| :: 0 <= runs[i] <= MAXRUNLEN
  {
    RecombineEmits(runs);
    assert forall i | 0 <= i < |runs| :: ReceivedRuns(runs)[i] == Received(runs[i]);
    if forall i | 0 <= i < |runs| :: 0 <= runs[i] <= MAXRUNLEN {
      assert ReceivedRuns(runs) == runs;
    }
  }
}
