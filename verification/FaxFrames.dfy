/** A page on the line: coded scan lines, each with fill and an end-of-line code, then five
    end-of-line codes; and what the receiver makes of it. */
module FaxFrames {
  import opened Bits
  import opened T4Tables
  import T4Coding
  import opened T4Decoder
  import T4RoundTrip
  import opened Transport
  import opened FaxReader
  import opened Keystream
  import opened LineCipher

  const EOL_BITS: seq<bool> := Zeros(11) + [true]

  /** A scan line as it is sent, and the fill between its code and its EOL. */
  datatype Frame = Frame(runs: seq<int>, fill: nat)

  function FrameBits(book: Codebook, f: Frame): seq<bool>
    requires Sound(book)
  {
    T4Coding.LineBits(book, White, f.runs) + (Zeros(f.fill) + EOL_BITS)
  }

  function Frames(book: Codebook, fs: seq<Frame>): seq<bool>
    requires Sound(book)
  {
    if fs == [] then [] else FrameBits(book, fs[0]) + Frames(book, fs[1..])
  }

  // The receiver, call by call.

  /** The reader between two lines. */
  datatype RxState = RxState(tab: TabId, pend: seq<bool>, inp: seq<byte>, eolcnt: nat)

  /** One call of readfaxruns. */
  datatype Call = Call(st: RxState, ret: int, runs: seq<int>, len: int)

  ghost function ReadRuns(book: Codebook, order: BitOrder, st: RxState): Call
    requires Sound(book)
  {
    var r := ReadLine(book, order, st.tab, st.pend, st.inp);
    var runs := LineRuns(r.codes);
    var len := Short(Sum(runs));
    var eolcnt := EmptyLines(st.eolcnt, len);
    Call(RxState(r.tab, r.pend, r.inp, eolcnt), ReturnCode(r.last, len, eolcnt, |runs|), runs, len)
  }

  /** A call that does not end the page has read a data character. */
  lemma {:induction false} ReadsInput(book: Codebook, order: BitOrder, st: RxState)
    requires Sound(book) && ReadRuns(book, order, st).ret >= 0
    ensures |ReadRuns(book, order, st).st.inp| < |st.inp|
  {
    var n := LineLoads(book, order, st.tab, st.pend, st.inp);
    CallInput(book, order, st, n);
    CharShortens(order, st.inp, n);
  }

  lemma {:induction false} CharShortens(order: BitOrder, inp: seq<byte>, n: nat)
    requires n > 0 && DataChar(order, AfterChars(inp, n - 1)) >= 0
    ensures |AfterChars(inp, n)| < |inp|
  {
    AfterCharsNext(inp, n - 1);
    InputRunsOut(inp, n - 1);
  }

  lemma {:induction false} CallInput(book: Codebook, order: BitOrder, st: RxState, n: nat)
    requires Sound(book) && n == LineLoads(book, order, st.tab, st.pend, st.inp)
    ensures var c := ReadRuns(book, order, st);
      && c.st.inp == AfterChars(st.inp, n)
      && (c.ret >= 0 ==> n > 0 && DataChar(order, AfterChars(st.inp, n - 1)) >= 0)
  {
    assert ReadLine(book, order, st.tab, st.pend, st.inp).last == LastChar(order, st.inp, n);
  }

  /** The lines the receiver writes out, deciphered. */
  ghost function Written(book: Codebook, order: BitOrder, key: Key, st: RxState, line: nat): seq<seq<int>>
    requires Sound(book)
    decreases |st.inp|
  {
    var c := ReadRuns(book, order, st);
    if c.ret < 0 then []
    else
      ReadsInput(book, order, st);
      (if c.ret > 0 && c.len > 0 && line > 0 then [Cipher(key, c.runs)] else [])
      + Written(book, order, key, c.st, line + 1)
  }

  /** What the call that ends the page returns. */
  ghost function FinalCode(book: Codebook, order: BitOrder, st: RxState): int
    requires Sound(book)
    decreases |st.inp|
  {
    var c := ReadRuns(book, order, st);
    if c.ret < 0 then c.ret
    else
      ReadsInput(book, order, st);
      FinalCode(book, order, c.st)
  }

  /** The input left when a call has returned a negative code. */
  ghost function FinalInput(book: Codebook, order: BitOrder, st: RxState): seq<byte>
    requires Sound(book)
    decreases |st.inp|
  {
    var c := ReadRuns(book, order, st);
    if c.ret < 0 then c.st.inp
    else
      ReadsInput(book, order, st);
      FinalInput(book, order, c.st)
  }

  // What the frames say should be written.

  /** The runs that arrive for a line that is sent. */
  function Arrives(runs: seq<int>): seq<int>
  {
    LineRuns(T4RoundTrip.LineEmits(runs))
  }

  function Total(runs: seq<int>): int
  {
    Short(Sum(Arrives(runs)))
  }

  function Expected(key: Key, fs: seq<Frame>, eolcnt: nat, line: nat): seq<seq<int>>
  {
    if fs == [] then []
    else
      var runs, len := Arrives(fs[0].runs), Total(fs[0].runs);
      var eolcnt' := EmptyLines(eolcnt, len);
      if len == 0 && eolcnt' >= RTCEOL then []
      else (if |runs| > 0 && len > 0 && line > 0 then [Cipher(key, runs)] else [])
           + Expected(key, fs[1..], eolcnt', line + 1)
  }

  /** Somewhere in the frames the fifth empty line in a row is reached. */
  predicate Ends(fs: seq<Frame>, eolcnt: nat)
  {
    fs != [] &&
    var len := Total(fs[0].runs);
    var eolcnt' := EmptyLines(eolcnt, len);
    (len == 0 && eolcnt' >= RTCEOL) || Ends(fs[1..], eolcnt')
  }

  // Bits still to arrive.

  lemma {:induction false} LoadsSnoc(order: BitOrder, inp: seq<byte>, n: nat)
    ensures Loads(order, inp, n + 1) == Loads(order, inp, n) + CharBits(CharAt(order, inp, n))
  {
  }

  lemma {:induction false} LongerPart<T>(all: seq<T>, a: seq<T>, b: seq<T>, c: seq<T>, all': seq<T>, b': seq<T>)
    requires all == a + b && all' == all + c && b' == b + c
    ensures all' == a + b'
  {
    SeqAssoc(a, b, c);
  }

  lemma {:induction false} LoadsSplit(order: BitOrder, inp: seq<byte>, m: nat, n: nat, k: nat)
    requires k == m + n
    ensures Loads(order, inp, k) == Loads(order, inp, m) + Loads(order, AfterChars(inp, m), n)
    decreases n
  {
    if n == 0 {
      NoLoads(order, inp, m);
    } else {
      LoadsSplit(order, inp, m, n - 1, k - 1);
      LoadsNextPart(order, inp, m, n - 1, k - 1);
    }
  }

  lemma {:induction false} NoLoads(order: BitOrder, inp: seq<byte>, m: nat)
    ensures Loads(order, inp, m) == Loads(order, inp, m) + Loads(order, AfterChars(inp, m), 0)
  {
    assert |Loads(order, AfterChars(inp, m), 0)| == 0;
  }

  lemma {:induction false} LoadsNextPart(order: BitOrder, inp: seq<byte>, m: nat, n: nat, k: nat)
    requires k == m + n && Loads(order, inp, k) == Loads(order, inp, m) + Loads(order, AfterChars(inp, m), n)
    ensures Loads(order, inp, k + 1) == Loads(order, inp, m) + Loads(order, AfterChars(inp, m), n + 1)
  {
    var after := AfterChars(inp, m);
    AfterCharsSplit(inp, m, n);
    LoadsSnoc(order, inp, k);
    LoadsSnoc(order, after, n);
    LongerPart(Loads(order, inp, k), Loads(order, inp, m), Loads(order, after, n), CharBits(CharAt(order, inp, k)),
               Loads(order, inp, k + 1), Loads(order, after, n + 1));
  }

  lemma {:induction false} AfterCharsSplit(inp: seq<byte>, m: nat, n: nat)
    ensures AfterChars(inp, m + n) == AfterChars(AfterChars(inp, m), n)
    decreases m
  {
    if m > 0 { AfterCharsSplit(AfterChar(inp), m - 1, n); }
  }

  /** Character k of the input. */
  function CharAt(order: BitOrder, inp: seq<byte>, k: nat): int
  {
    DataChar(order, AfterChars(inp, k))
  }

  /** The next n characters are data. */
  predicate DataNext(order: BitOrder, inp: seq<byte>, n: nat)
  {
    forall k | 0 <= k < n :: CharAt(order, inp, k) >= 0
  }

  /** When n characters hold a line, the line read is the one decoded from them. It takes l
      characters, and n' are still to come. */
  lemma {:induction false} ReadAhead(book: Codebook, order: BitOrder, pend: seq<bool>, inp: seq<byte>, n: nat,
                                     all: seq<bool>,
                                     r: LineRead, d: Decoded) returns (l: nat, n': nat)
    requires Sound(book) && all == Loads(order, inp, n)
    requires r == ReadLine(book, order, W1, pend, inp) && d == Decode(book, W1, pend + all) && d.done
    ensures l == LineLoads(book, order, W1, pend, inp) && l + n' == n
    ensures r.codes == d.codes && r.tab == d.tab && r.pend + Loads(order, r.inp, n') == d.rest
  {
    NoMoreReads(book, order, W1, pend, inp, n);
    l := LineLoads(book, order, W1, pend, inp);
    n' := n - l;
    ReadFrom(book, order, pend, inp, l, n', all, r, d);
  }

  lemma {:induction false} ReadFrom(book: Codebook, order: BitOrder, pend: seq<bool>, inp: seq<byte>, l: nat, n': nat,
                                    all: seq<bool>, r: LineRead, d: Decoded)
    requires Sound(book) && DoneAfter(book, order, W1, pend, inp, l) && all == Loads(order, inp, l + n')
    requires r == LineAfter(book, order, W1, pend, inp, l) && d == Decode(book, W1, pend + all)
    ensures r.codes == d.codes && r.tab == d.tab && r.pend + Loads(order, r.inp, n') == d.rest
  {
    LoadsSplit(order, inp, l, n', l + n');
    DecodedThen(book, pend, Loads(order, inp, l), Loads(order, r.inp, n'), all,
                Decode(book, W1, pend + Loads(order, inp, l)), d);
  }

  /** Bits that come after the end of a line are left. */
  lemma {:induction false} DecodedThen(book: Codebook, pend: seq<bool>, s: seq<bool>, t: seq<bool>, all: seq<bool>,
                                       d: Decoded, d': Decoded)
    requires Sound(book) && all == s + t
    requires d == Decode(book, W1, pend + s) && d.done && d' == Decode(book, W1, pend + all)
    ensures d' == d.(rest := d.rest + t)
  {
    SeqAssoc(pend, s, t);
    DecodeMore(book, W1, pend + s, t);
  }

  /** Fewer than twenty bits hold no end of line, so a line needs input. */
  lemma {:induction false} NeedsInput(book: Codebook, order: BitOrder, pend: seq<bool>, inp: seq<byte>)
    requires Sound(book) && |pend| <= 15
    ensures LineLoads(book, order, W1, pend, inp) > 0
  {
    if LineLoads(book, order, W1, pend, inp) == 0 {
      assert |Loads(order, inp, 0)| == 0;
      EolNeeds(book, W1, pend + Loads(order, inp, 0));
    }
  }

  /** At most 15 bits are pending after an end of line. */
  lemma {:induction false} PendingAfter(book: Codebook, order: BitOrder, pend: seq<bool>, inp: seq<byte>, n: nat)
    requires Sound(book) && |pend| <= 15 && DataNext(order, inp, n)
    requires LineLoads(book, order, W1, pend, inp) <= n
    ensures |ReadLine(book, order, W1, pend, inp).pend| <= 15
    ensures ReadLine(book, order, W1, pend, inp).last >= 0
  {
    NeedsInput(book, order, pend, inp);
    var r := LineLoads(book, order, W1, pend, inp);
    var c := CharAt(order, inp, r - 1);
    assert !DoneAfter(book, order, W1, pend, inp, r - 1);
    SeqAssoc(pend, Loads(order, inp, r - 1), CharBits(c));
    LastRead(book, pend + Loads(order, inp, r - 1), c);
  }

  /** The character that ends a line leaves at most 15 bits. */
  lemma {:induction false} LastRead(book: Codebook, s: seq<bool>, c: int)
    requires Sound(book) && 0 <= c < 256
    requires !Decode(book, W1, s).done && Decode(book, W1, s + CharBits(c)).done
    ensures |Decode(book, W1, s + CharBits(c)).rest| <= 15
  {
    var d := Decode(book, W1, s);
    DecodeMore(book, W1, s, CharBits(c));
    EolNeeds(book, d.tab, d.rest + CharBits(c));
  }

  /** The given bits are pending or arrive with the next n data characters; then the data end. */
  predicate Arriving(order: BitOrder, st: RxState, n: nat, bits: seq<bool>)
  {
    && st.tab == W1
    && |st.pend| <= 15
    && n < |st.inp|
    && st.pend + Loads(order, st.inp, n) == bits
    && DataNext(order, st.inp, n)
    && CharAt(order, st.inp, n) == END_OF_DATA
  }

  /** Whatever follows, a frame decodes to its line's codes and leaves what follows. */
  lemma {:induction false} DecodeFrame(book: Codebook, f: Frame, rest: seq<bool>)
    requires Sound(book) && |rest| >= 8
    ensures Decode(book, W1, FrameBits(book, f) + rest) == Decoded(T4RoundTrip.LineEmits(f.runs), W1, rest, true)
  {
    var eol, a := Zeros(f.fill) + EOL_BITS, f.fill + 11;
    assert OneAfter(eol + rest, a);
    T4RoundTrip.DecodeLine(book, f.runs, eol + rest, a);
    SeqAssoc(T4Coding.LineBits(book, White, f.runs), eol, rest);
    assert (eol + rest)[a + 1..] == rest;
  }

  /** Later characters, seen after the first r. */
  lemma {:induction false} Later(order: BitOrder, inp: seq<byte>, r: nat, n: nat)
    ensures CharAt(order, AfterChars(inp, r), n) == CharAt(order, inp, r + n)
    ensures DataNext(order, inp, r + n) ==> DataNext(order, AfterChars(inp, r), n)
    ensures CharAt(order, inp, r + n) == END_OF_DATA ==> n < |AfterChars(inp, r)|
  {
    AfterCharsSplit(inp, r, n);
    forall k | 0 <= k < n ensures CharAt(order, AfterChars(inp, r), k) == CharAt(order, inp, r + k) {
      AfterCharsSplit(inp, r, k);
    }
    if DataNext(order, inp, r + n) {
      forall k | 0 <= k < n ensures CharAt(order, AfterChars(inp, r), k) >= 0 {
        assert CharAt(order, inp, r + k) >= 0;
      }
    }
    InputRunsOut(AfterChars(inp, r), n);
  }

  /** When l of the n characters are read. */
  lemma {:induction false} ArrivingNext(order: BitOrder, st: RxState, n: nat, l: nat, n': nat, bits: seq<bool>,
                                        next: RxState, bits': seq<bool>)
    requires Arriving(order, st, n, bits) && n == l + n'
    requires next.tab == W1 && |next.pend| <= 15 && next.inp == AfterChars(st.inp, l)
    requires next.pend + Loads(order, next.inp, n') == bits'
    ensures Arriving(order, next, n', bits')
  {
    assert DataNext(order, st.inp, l + n') && CharAt(order, st.inp, l + n') == END_OF_DATA;
    LaterAll(order, st.inp, l, n');
  }

  lemma {:induction false} LaterAll(order: BitOrder, inp: seq<byte>, r: nat, n: nat)
    requires DataNext(order, inp, r + n) && CharAt(order, inp, r + n) == END_OF_DATA
    ensures n < |AfterChars(inp, r)|
    ensures DataNext(order, AfterChars(inp, r), n) && CharAt(order, AfterChars(inp, r), n) == END_OF_DATA
  {
    Later(order, inp, r, n);
  }

  /** What arrives once a line is read from data characters alone. */
  lemma {:induction false} ReadOn(book: Codebook, order: BitOrder, st: RxState, n: nat, bits: seq<bool>, c: Call,
                                  d: Decoded)
      returns (n': nat)
    requires Sound(book) && Arriving(order, st, n, bits)
    requires c == ReadRuns(book, order, st) && d == Decode(book, W1, bits) && d.done && d.tab == W1
    ensures c.runs == LineRuns(d.codes)
    ensures c.ret == (if c.len == 0 && c.st.eolcnt >= RTCEOL then NO_INPUT else |c.runs|)
    ensures Arriving(order, c.st, n', d.rest)
  {
    var r := ReadLine(book, order, W1, st.pend, st.inp);
    var l;
    l, n' := ReadAhead(book, order, st.pend, st.inp, n, Loads(order, st.inp, n), r, d);
    ReadToData(book, order, st.pend, st.inp, n, r);
    CallOf(book, order, st, r);
    ArrivingNext(order, st, n, l, n', bits, c.st, d.rest);
  }

  /** What a call gives whose line ends in a data character. */
  lemma {:induction false} CallOf(book: Codebook, order: BitOrder, st: RxState, r: LineRead)
    requires Sound(book) && r == ReadLine(book, order, st.tab, st.pend, st.inp) && r.last >= 0
    ensures var c := ReadRuns(book, order, st);
      && c.runs == LineRuns(r.codes) && c.st.tab == r.tab && c.st.pend == r.pend && c.st.inp == r.inp
      && c.ret == (if c.len == 0 && c.st.eolcnt >= RTCEOL then NO_INPUT else |c.runs|)
  {
  }

  /** A line that needs only data characters ends in one, with at most 15 bits pending. */
  lemma {:induction false} ReadToData(book: Codebook, order: BitOrder, pend: seq<bool>, inp: seq<byte>, n: nat,
                                      r: LineRead)
    requires Sound(book) && |pend| <= 15 && DataNext(order, inp, n) && n <= |inp| + 2
    requires r == ReadLine(book, order, W1, pend, inp) && Decode(book, W1, pend + Loads(order, inp, n)).done
    ensures |r.pend| <= 15 && r.last >= 0
  {
    NoMoreReads(book, order, W1, pend, inp, n);
    PendingAfter(book, order, pend, inp, n);
  }

  /** Reading a frame with more bits after it. */
  lemma {:induction false} ReadFrame(book: Codebook, order: BitOrder, st: RxState, n: nat, f: Frame, rest: seq<bool>)
      returns (n': nat)
    requires Sound(book) && Arriving(order, st, n, FrameBits(book, f) + rest) && |rest| >= 8
    ensures var c := ReadRuns(book, order, st);
      && c.runs == Arrives(f.runs) && c.len == Total(f.runs)
      && c.st.eolcnt == EmptyLines(st.eolcnt, c.len)
      && c.ret == (if c.len == 0 && c.st.eolcnt >= RTCEOL then NO_INPUT else |c.runs|)
      && Arriving(order, c.st, n', rest)
  {
    DecodeFrame(book, f, rest);
    n' := ReadOn(book, order, st, n, FrameBits(book, f) + rest, ReadRuns(book, order, st),
                 Decode(book, W1, FrameBits(book, f) + rest));
  }

  /** The end of the data brings the end-of-file pad. */
  lemma {:induction false} PadArrives(order: BitOrder, st: RxState, n: nat, bits: seq<bool>)
    requires Arriving(order, st, n, bits)
    ensures st.pend + Loads(order, st.inp, n + 1) == bits + PAD
  {
    SeqAssoc(st.pend, Loads(order, st.inp, n), CharBits(CharAt(order, st.inp, n)));
  }

  /** Reading the last frame, with at most the end-of-file pad after it. */
  lemma {:induction false} ReadLastFrame(book: Codebook, order: BitOrder, st: RxState, n: nat, f: Frame,
                                         tail: seq<bool>)
    requires Sound(book) && Arriving(order, st, n, FrameBits(book, f) + tail)
    ensures ReadRuns(book, order, st).len == Total(f.runs)
  {
    PadArrives(order, st, n, FrameBits(book, f) + tail);
    SeqAssoc(FrameBits(book, f), tail, PAD);
    DecodeFrame(book, f, tail + PAD);
    var all := Loads(order, st.inp, n + 1);
    var _, _ := ReadAhead(book, order, st.pend, st.inp, n + 1, all, ReadLine(book, order, W1, st.pend, st.inp),
                          Decode(book, W1, st.pend + all));
  }

  /** The receiver writes exactly the lines the frames call for. */
  lemma {:induction false} WrittenFrames(book: Codebook, order: BitOrder, key: Key, st: RxState, line: nat,
                                         n: nat, fs: seq<Frame>, tail: seq<bool>)
    requires Sound(book) && Ends(fs, st.eolcnt)
    requires Arriving(order, st, n, Frames(book, fs) + tail)
    ensures Written(book, order, key, st, line) == Expected(key, fs, st.eolcnt, line)
    decreases |fs|
  {
    var f, fs' := fs[0], fs[1..];
    SeqAssoc(FrameBits(book, f), Frames(book, fs'), tail);
    if fs' == [] {
      ReadLastFrame(book, order, st, n, f, Frames(book, fs') + tail);
    } else {
      var n' := ReadFrame(book, order, st, n, f, Frames(book, fs') + tail);
      var c := ReadRuns(book, order, st);
      if c.ret >= 0 {
        WrittenFrames(book, order, key, c.st, line + 1, n', fs', tail);
      }
    }
  }

  /** The fifth empty line in a row comes with the last frame and not before. */
  predicate EndsLast(fs: seq<Frame>, eolcnt: nat)
  {
    fs != [] &&
    var len := Total(fs[0].runs);
    var eolcnt' := EmptyLines(eolcnt, len);
    if |fs| == 1 then len == 0 && eolcnt' >= RTCEOL
    else !(len == 0 && eolcnt' >= RTCEOL) && EndsLast(fs[1..], eolcnt')
  }

  lemma {:induction false} LoadsGrow(order: BitOrder, inp: seq<byte>, m: nat, n: nat)
    requires m <= n
    ensures |Loads(order, inp, m)| <= |Loads(order, inp, n)|
    decreases n - m
  {
    if m < n { LoadsGrow(order, inp, m, n - 1); }
  }

  /** Fewer than twenty bits hold no end of line. */
  lemma {:induction false} NotYet(book: Codebook, order: BitOrder, pend: seq<bool>, inp: seq<byte>, n: nat)
    requires Sound(book) && |pend| + |Loads(order, inp, n)| < 20
    ensures LineLoads(book, order, W1, pend, inp) > n
  {
    var r := LineLoads(book, order, W1, pend, inp);
    EolNeeds(book, W1, pend + Loads(order, inp, r));
    if r <= n { LoadsGrow(order, inp, r, n); }
  }

  /** The end of the data is read before the line ends. */
  lemma {:induction false} ReadsEnd(book: Codebook, order: BitOrder, st: RxState, n: nat)
    requires Sound(book) && LineLoads(book, order, st.tab, st.pend, st.inp) == n + 1
    requires CharAt(order, st.inp, n) == END_OF_DATA
    ensures ReadRuns(book, order, st).ret == END_OF_DATA
  {
    LastOf(book, order, st.tab, st.pend, st.inp, n);
  }

  lemma {:induction false} LastOf(book: Codebook, order: BitOrder, tab: TabId, pend: seq<bool>, inp: seq<byte>, n: nat)
    requires Sound(book)
    ensures LineAfter(book, order, tab, pend, inp, n + 1).last == CharAt(order, inp, n)
  {
  }

  lemma {:induction false} PadDecodes(book: Codebook, order: BitOrder, st: RxState, n: nat, f: Frame)
    requires Sound(book) && Arriving(order, st, n, FrameBits(book, f))
    ensures LineLoads(book, order, W1, st.pend, st.inp) <= n + 1
  {
    PadArrives(order, st, n, FrameBits(book, f));
    DecodeFrame(book, f, PAD);
    NoMoreReads(book, order, W1, st.pend, st.inp, n + 1);
  }

  /** Too few bits for an end of line: the read goes on to the end of the data. */
  lemma {:induction false} ReadIntoEnd(book: Codebook, order: BitOrder, st: RxState, n: nat, f: Frame)
    requires Sound(book) && f.runs == [] && f.fill < 8 && Arriving(order, st, n, FrameBits(book, f))
    ensures ReadRuns(book, order, st).ret == END_OF_DATA
  {
    PadDecodes(book, order, st, n, f);
    assert |FrameBits(book, f)| == |st.pend| + |Loads(order, st.inp, n)|;
    NotYet(book, order, st.pend, st.inp, n);
    ReadsEnd(book, order, st, n);
  }

  /** The bits of one frame and a tail. */
  lemma {:induction false} OneFrame(book: Codebook, fs: seq<Frame>, tail: seq<bool>)
    requires Sound(book) && |fs| == 1
    ensures Frames(book, fs) + tail == FrameBits(book, fs[0]) + tail
  {
    assert Frames(book, fs[1..]) == [];
  }

  lemma {:induction false} NothingAdded(s: seq<bool>)
    ensures s + [] == s
  {
  }

  lemma {:induction false} FinalNext(book: Codebook, order: BitOrder, st: RxState)
    requires Sound(book)
    ensures var c := ReadRuns(book, order, st);
            FinalCode(book, order, st) == if c.ret < 0 then c.ret else FinalCode(book, order, c.st)
  {
  }

  /** The call that reads the last frame. */
  lemma {:induction false} LastCode(book: Codebook, order: BitOrder, st: RxState, n: nat, f: Frame, tail: seq<bool>)
    requires Sound(book) && Arriving(order, st, n, FrameBits(book, f) + tail)
    requires Total(f.runs) == 0 && EmptyLines(st.eolcnt, 0) >= RTCEOL
    requires |tail| >= 8 || (tail == [] && f.runs == [] && f.fill < 8)
    ensures FinalCode(book, order, st) == if tail == [] then END_OF_DATA else NO_INPUT
  {
    FinalNext(book, order, st);
    if tail == [] {
      NothingAdded(FrameBits(book, f));
      ReadIntoEnd(book, order, st, n, f);
    } else {
      var _ := ReadFrame(book, order, st, n, f, tail);
    }
  }

  lemma {:induction false} FramesLong(book: Codebook, fs: seq<Frame>)
    requires Sound(book) && fs != []
    ensures |Frames(book, fs)| >= 12
  {
  }

  lemma {:induction false} OnlyFrame(book: Codebook, order: BitOrder, st: RxState, n: nat, fs: seq<Frame>,
                                     tail: seq<bool>)
    requires Sound(book) && |fs| == 1 && EndsLast(fs, st.eolcnt)
    requires Arriving(order, st, n, Frames(book, fs) + tail)
    requires |tail| >= 8 || (tail == [] && fs[0].runs == [] && fs[0].fill < 8)
    ensures FinalCode(book, order, st) == if tail == [] then END_OF_DATA else NO_INPUT
  {
    OneFrame(book, fs, tail);
    LastCode(book, order, st, n, fs[0], tail);
  }

  /** The final call returns EOF when bits follow the last end-of-line code, and otherwise
      runs into the end of the data. */
  lemma {:induction false} EndCode(book: Codebook, order: BitOrder, st: RxState, n: nat, fs: seq<Frame>,
                                   tail: seq<bool>)
    requires Sound(book) && EndsLast(fs, st.eolcnt)
    requires Arriving(order, st, n, Frames(book, fs) + tail)
    requires |tail| >= 8 || (tail == [] && fs[|fs| - 1].runs == [] && fs[|fs| - 1].fill < 8)
    ensures FinalCode(book, order, st) == if tail == [] then END_OF_DATA else NO_INPUT
    decreases |fs|
  {
    if |fs| == 1 {
      OnlyFrame(book, order, st, n, fs, tail);
    } else {
      var fs' := fs[1..];
      assert fs'[|fs'| - 1] == fs[|fs| - 1];
      EndsStep(fs, fs', Total(fs[0].runs), st.eolcnt);
      var st', n' := FrameBefore(book, order, st, n, fs, tail);
      EndCode(book, order, st', n', fs', tail);
    }
  }

  /** The fifth empty line in a row comes with a frame that is not the last. */
  predicate EndsEarly(fs: seq<Frame>, eolcnt: nat)
  {
    |fs| > 1 &&
    var len := Total(fs[0].runs);
    var eolcnt' := EmptyLines(eolcnt, len);
    (len == 0 && eolcnt' >= RTCEOL) || EndsEarly(fs[1..], eolcnt')
  }

  /** The call that reads a frame with more after it ends the page if it is the fifth empty one. */
  lemma {:induction false} FrameBefore(book: Codebook, order: BitOrder, st: RxState, n: nat, fs: seq<Frame>,
                                       tail: seq<bool>)
      returns (st': RxState, n': nat)
    requires Sound(book) && |fs| > 1 && Arriving(order, st, n, Frames(book, fs) + tail)
    ensures Arriving(order, st', n', Frames(book, fs[1..]) + tail)
    ensures var len := Total(fs[0].runs);
      && st'.eolcnt == EmptyLines(st.eolcnt, len)
      && FinalCode(book, order, st)
         == if len == 0 && st'.eolcnt >= RTCEOL then NO_INPUT else FinalCode(book, order, st')
  {
    var f, fs' := fs[0], fs[1..];
    SeqAssoc(FrameBits(book, f), Frames(book, fs'), tail);
    FramesLong(book, fs');
    FinalNext(book, order, st);
    st' := ReadRuns(book, order, st).st;
    n' := ReadFrame(book, order, st, n, f, Frames(book, fs') + tail);
  }

  lemma {:induction false} EarlyCode(book: Codebook, order: BitOrder, st: RxState, n: nat, fs: seq<Frame>,
                                     tail: seq<bool>)
    requires Sound(book) && EndsEarly(fs, st.eolcnt) && Arriving(order, st, n, Frames(book, fs) + tail)
    ensures FinalCode(book, order, st) == NO_INPUT
    decreases |fs|
  {
    var st', n' := FrameBefore(book, order, st, n, fs, tail);
    if !(Total(fs[0].runs) == 0 && st'.eolcnt >= RTCEOL) { EarlyCode(book, order, st', n', fs[1..], tail); }
  }

  // From bytes to frames.

  /** Data sent in one bit order and read in an order that undoes it arrive as they were. */
  predicate Undoes(out: BitOrder, order: BitOrder)
  {
    forall b: byte :: order[out[b]] == b
  }

  lemma {:induction false} NormalUndoesNormal()
    ensures Undoes(NormalBits(), NormalBits())
  {
    forall b: byte ensures NormalBits()[NormalBits()[b]] == b {
      ReverseTwice(b);
    }
  }

  lemma {:induction false} CharsAt(order: BitOrder, inp: seq<byte>, n: nat, k: nat)
    requires k < n
    ensures DataChars(order, inp, n)[k] == CharAt(order, inp, k)
    decreases n
  {
    if k > 0 {
      CharsAt(order, AfterChar(inp), n - 1, k - 1);
      SecondOn(DataChar(order, inp), DataChars(order, AfterChar(inp), n - 1), k);
    }
  }

  lemma {:induction false} SecondOn(first: int, others: seq<int>, k: nat)
    requires 0 < k <= |others|
    ensures ([first] + others)[k] == others[k - 1]
  {
  }

  /** What a sent byte string is when it is read back, character by character. */
  lemma {:induction false} SentChars(out: BitOrder, order: BitOrder, data: seq<byte>, rest: seq<byte>, k: nat)
    requires Undoes(out, order) && k <= |data|
    ensures CharAt(order, Stuff(out, data) + [DLE, ETX] + rest, k) == if k < |data| then data[k] as int else END_OF_DATA
  {
    StuffRoundTrip(out, order, data, rest);
    CharsAt(order, Stuff(out, data) + [DLE, ETX] + rest, |data| + 1, k);
  }

  lemma {:induction false} SentLoads(out: BitOrder, order: BitOrder, data: seq<byte>, rest: seq<byte>, n: nat)
    requires Undoes(out, order) && n <= |data|
    ensures Loads(order, Stuff(out, data) + [DLE, ETX] + rest, n) == ByteBits(data[..n])
    decreases n
  {
    if n > 0 {
      SentLoads(out, order, data, rest, n - 1);
      SentChars(out, order, data, rest, n - 1);
      assert data[..n][..n - 1] == data[..n - 1];
    }
  }

  /** Sent data arrive, bit for bit, before anything else. */
  lemma {:induction false} SentArrives(out: BitOrder, order: BitOrder, data: seq<byte>, rest: seq<byte>, eolcnt: nat)
    requires Undoes(out, order)
    ensures Arriving(order, RxState(W1, [], Stuff(out, data) + [DLE, ETX] + rest, eolcnt), |data|, ByteBits(data))
  {
    var inp, n := Stuff(out, data) + [DLE, ETX] + rest, |data|;
    SentLoads(out, order, data, rest, n);
    assert data[..n] == data;
    assert [] + Loads(order, inp, n) == Loads(order, inp, n);
    forall k | 0 <= k < n ensures CharAt(order, inp, k) >= 0 {
      SentChars(out, order, data, rest, k);
    }
    SentChars(out, order, data, rest, n);
    InputRunsOut(inp, n);
  }

  // The lines that survive.

  /** The frames of encrypted lines. */
  function LineFrames(key: Key, lines: seq<seq<int>>, fills: seq<nat>): (fs: seq<Frame>)
    requires |fills| == |lines|
    ensures |fs| == |lines|
  {
    if lines == [] then []
    else [Frame(Cipher(key, lines[0]), fills[0])] + LineFrames(key, lines[1..], fills[1..])
  }

  lemma {:induction false} FramesSnoc(book: Codebook, fs: seq<Frame>, f: Frame)
    requires Sound(book)
    ensures Frames(book, fs + [f]) == Frames(book, fs) + FrameBits(book, f)
  {
    if fs == [] {
      assert Frames(book, [f]) == FrameBits(book, f) + [];
    } else {
      assert (fs + [f])[1..] == fs[1..] + [f];
      FramesSnoc(book, fs[1..], f);
      SeqAssoc(FrameBits(book, fs[0]), Frames(book, fs[1..]), FrameBits(book, f));
    }
  }

  lemma {:induction false} LineFramesSnoc(key: Key, lines: seq<seq<int>>, fills: seq<nat>, line: seq<int>, fill: nat)
    requires |fills| == |lines|
    ensures LineFrames(key, lines + [line], fills + [fill])
         == LineFrames(key, lines, fills) + [Frame(Cipher(key, line), fill)]
  {
    if lines != [] {
      assert (lines + [line])[1..] == lines[1..] + [line] && (fills + [fill])[1..] == fills[1..] + [fill];
      LineFramesSnoc(key, lines[1..], fills[1..], line, fill);
    }
  }

  const EOL_FRAME := Frame([], 0)

  /** Five end-of-line codes, the last one perhaps with fill. */
  function Rtc(fill: nat): (fs: seq<Frame>)
    ensures fs != []
  {
    [EOL_FRAME, EOL_FRAME, EOL_FRAME, EOL_FRAME, Frame([], fill)]
  }

  /** A page: a first fill and end-of-line code, the lines, and the return to control. */
  function PageFrames(key: Key, lead: nat, lines: seq<seq<int>>, fills: seq<nat>, last: nat): seq<Frame>
    requires |fills| == |lines|
  {
    [Frame([], lead)] + (LineFrames(key, lines, fills) + Rtc(last))
  }

  lemma {:induction false} NoRuns()
    ensures Arrives([]) == [] && Total([]) == 0
  {
  }

  lemma {:induction false} EndsLater(fs: seq<Frame>, eolcnt: nat)
    requires fs != [] && Ends(fs[1..], EmptyLines(eolcnt, Total(fs[0].runs)))
    ensures Ends(fs, eolcnt)
  {
  }

  /** The return to control ends the page, whatever comes before it. */
  lemma {:induction false} RtcEnds(fs: seq<Frame>, last: nat, eolcnt: nat)
    ensures Ends(fs + Rtc(last), eolcnt)
  {
    var all := fs + Rtc(last);
    if fs != [] {
      assert all[0] == fs[0] && all[1..] == fs[1..] + Rtc(last);
      RtcEnds(fs[1..], last, EmptyLines(eolcnt, Total(fs[0].runs)));
      EndsLater(all, eolcnt);
    } else {
      assert all == Rtc(last);
      RtcAlone(last, eolcnt);
    }
  }

  lemma {:induction false} RtcAlone(last: nat, eolcnt: nat)
    ensures Ends(Rtc(last), eolcnt)
  {
    EmptyLinesEnd(Rtc(last), eolcnt);
  }

  lemma {:induction false} EmptyLinesEnd(fs: seq<Frame>, eolcnt: nat)
    requires fs != [] && eolcnt + |fs| >= RTCEOL
    requires forall i | 0 <= i < |fs| :: fs[i].runs == []
    ensures Ends(fs, eolcnt)
  {
    NoRuns();
    if eolcnt + 1 < RTCEOL { EmptyLinesEnd(fs[1..], eolcnt + 1); }
  }

  /** A line the receiver writes out: its encrypted total, kept in 16 bits, is positive. */
  predicate Survives(key: Key, line: seq<int>)
  {
    Short(Sum(Cipher(key, line))) > 0
  }

  /** A line that T.4 coding and the run buffer carry without loss once it is encrypted. */
  predicate Codable(key: Key, line: seq<int>)
  {
    && line != []
    && (forall i | 0 <= i < |line| :: 0 <= line[i] <= 2432)
    && |T4RoundTrip.LineEmits(Cipher(key, line))| < T4Coding.MAXRUNS
  }

  lemma {:induction false} CodableArrives(key: Key, line: seq<int>)
    requires Codable(key, line)
    ensures Arrives(Cipher(key, line)) == Cipher(key, line)
    ensures Cipher(key, Arrives(Cipher(key, line))) == line
    ensures Total(Cipher(key, line)) == Short(Sum(Cipher(key, line)))
  {
    CipherRange(key, line);
    CipherTwice(key, line);
    T4RoundTrip.LosslessRuns(Cipher(key, line));
  }

  /** No end-of-line code yields a line. */
  lemma {:induction false} RtcWritesNothing(key: Key, fs: seq<Frame>, eolcnt: nat, line: nat)
    requires forall i | 0 <= i < |fs| :: fs[i].runs == []
    ensures Expected(key, fs, eolcnt, line) == []
  {
    NoRuns();
    if fs != [] { RtcWritesNothing(key, fs[1..], EmptyLines(eolcnt, 0), line + 1); }
  }

  lemma {:induction false} FirstFrame(key: Key, lines: seq<seq<int>>, fills: seq<nat>, last: nat)
    requires |fills| == |lines| && lines != []
    ensures var fs := LineFrames(key, lines, fills) + Rtc(last);
      |fs| > 1 && fs[0] == Frame(Cipher(key, lines[0]), fills[0])
          && fs[1..] == LineFrames(key, lines[1..], fills[1..]) + Rtc(last)
  {
  }

  // The lines that arrive.

  /** The encrypted total of a line, kept in 16 bits. */
  function SentTotal(key: Key, line: seq<int>): int
  {
    Short(Sum(Cipher(key, line)))
  }

  /** The lines of a page that come back: those with a positive encrypted total, up to the
      fifth one in a row whose total is 0, with zeros of them before the first line. */
  function Delivered(key: Key, lines: seq<seq<int>>, zeros: nat): seq<seq<int>>
  {
    if lines == [] then []
    else
      var total := SentTotal(key, lines[0]);
      if total == 0 && zeros + 1 >= RTCEOL then []
      else
        var next := Delivered(key, lines[1..], if total == 0 then zeros + 1 else 0);
        if total > 0 then [lines[0]] + next else next
  }

  /** The page seems to be over before its last end-of-line code. */
  predicate CutShort(key: Key, lines: seq<seq<int>>, zeros: nat)
  {
    if lines == [] then zeros > 0
    else if SentTotal(key, lines[0]) == 0 then zeros + 1 >= RTCEOL || CutShort(key, lines[1..], zeros + 1)
    else CutShort(key, lines[1..], 0)
  }

  lemma {:induction false} NoLinesLeft(key: Key, last: nat, eolcnt: nat, line: nat)
    ensures Expected(key, LineFrames(key, [], []) + Rtc(last), eolcnt, line) == []
  {
    assert LineFrames(key, [], []) + Rtc(last) == Rtc(last);
    RtcWritesNothing(key, Rtc(last), eolcnt, line);
  }

  /** What the first frame yields. */
  lemma {:induction false} ExpectedNext(key: Key, fs: seq<Frame>, others: seq<Frame>, runs: seq<int>, eolcnt: nat,
                                        line: nat)
    requires fs != [] && others == fs[1..] && runs == Arrives(fs[0].runs) && runs != [] && line > 0
    ensures var total := Total(fs[0].runs); var next := Expected(key, others, EmptyLines(eolcnt, total), line + 1);
      Expected(key, fs, eolcnt, line)
      == if total == 0 && eolcnt + 1 >= RTCEOL then [] else if total > 0 then [Cipher(key, runs)] + next else next
  {
    NothingBefore(Expected(key, others, EmptyLines(eolcnt, Total(fs[0].runs)), line + 1));
  }

  lemma {:induction false} NothingBefore<T>(s: seq<T>)
    ensures [] + s == s
  {
  }

  /** The lines that the frames of a page call for. */
  lemma {:induction false} DeliveredExpected(key: Key, lines: seq<seq<int>>, fills: seq<nat>, last: nat, zeros: nat,
                                             line: nat)
    requires |fills| == |lines| && line > 0 && forall i | 0 <= i < |lines| :: Codable(key, lines[i])
    ensures Expected(key, LineFrames(key, lines, fills) + Rtc(last), zeros, line) == Delivered(key, lines, zeros)
  {
    if lines == [] {
      assert fills == [];
      NoLinesLeft(key, last, zeros, line);
    } else {
      FirstFrame(key, lines, fills, last);
      CodableArrives(key, lines[0]);
      ExpectedNext(key, LineFrames(key, lines, fills) + Rtc(last), LineFrames(key, lines[1..], fills[1..]) + Rtc(last),
                   Cipher(key, lines[0]), zeros, line);
      var zeros' := if SentTotal(key, lines[0]) == 0 then zeros + 1 else 0;
      DeliveredExpected(key, lines[1..], fills[1..], last, zeros', line + 1);
    }
  }

  lemma {:induction false} ConsFirst<T>(s: seq<T>, rest: seq<T>)
    requires s != [] && rest == s[1..]
    ensures [s[0]] + rest == s
  {
  }

  /** When every line survives, all of them come back, in order. */
  lemma {:induction false} DeliveredWhole(key: Key, lines: seq<seq<int>>, zeros: nat)
    requires forall i | 0 <= i < |lines| :: Survives(key, lines[i])
    ensures Delivered(key, lines, zeros) == lines && (CutShort(key, lines, zeros) <==> lines == [] && zeros > 0)
  {
    if lines != [] {
      DeliveredWhole(key, lines[1..], 0);
      ConsFirst(lines, Delivered(key, lines[1..], 0));
    }
  }

  function Survivors(key: Key, lines: seq<seq<int>>): nat
  {
    if lines == [] then 0 else (if Survives(key, lines[0]) then 1 else 0) + Survivors(key, lines[1..])
  }

  lemma {:induction false} SurvivorsAll(key: Key, lines: seq<seq<int>>)
    ensures Survivors(key, lines) <= |lines|
    ensures Survivors(key, lines) == |lines| ==> forall i | 0 <= i < |lines| :: Survives(key, lines[i])
  {
    if lines != [] {
      SurvivorsAll(key, lines[1..]);
      if Survivors(key, lines) == |lines| {
        forall i | 0 <= i < |lines| ensures Survives(key, lines[i]) {
          assert i > 0 ==> lines[1..][i - 1] == lines[i];
        }
      }
    }
  }

  /** No more lines come back than survive. */
  lemma {:induction false} DeliveredFew(key: Key, lines: seq<seq<int>>, zeros: nat)
    ensures |Delivered(key, lines, zeros)| <= Survivors(key, lines)
  {
    if lines != [] { DeliveredFew(key, lines[1..], if SentTotal(key, lines[0]) == 0 then zeros + 1 else 0); }
  }

  /** The whole page comes back exactly when every line survives. */
  lemma {:induction false} DeliveredAll(key: Key, lines: seq<seq<int>>, zeros: nat)
    ensures Delivered(key, lines, zeros) == lines <==> forall i | 0 <= i < |lines| :: Survives(key, lines[i])
  {
    DeliveredFew(key, lines, zeros);
    SurvivorsAll(key, lines);
    if forall i | 0 <= i < |lines| :: Survives(key, lines[i]) { DeliveredWhole(key, lines, zeros); }
  }

  /** The receiver writes out, in order and deciphered, exactly the lines with a positive
      encrypted total, up to the fifth one in a row that has none; the first end-of-line code
      counts as one. */
  lemma {:induction false} PageArrives(book: Codebook, key: Key, lead: nat, lines: seq<seq<int>>, fills: seq<nat>,
                                       last: nat, tail: seq<bool>, data: seq<byte>, rest: seq<byte>)
    requires Sound(book) && |fills| == |lines|
    requires forall i | 0 <= i < |lines| :: Codable(key, lines[i])
    requires ByteBits(data) == Frames(book, PageFrames(key, lead, lines, fills, last)) + tail
    ensures var st := RxState(W1, [], Stuff(NormalBits(), data) + [DLE, ETX] + rest, 0);
      Written(book, NormalBits(), key, st, 0) == Delivered(key, lines, 1)
  {
    var st := RxState(W1, [], Stuff(NormalBits(), data) + [DLE, ETX] + rest, 0);
    var fs := PageFrames(key, lead, lines, fills, last);
    NormalUndoesNormal();
    SentArrives(NormalBits(), NormalBits(), data, rest, 0);
    assert fs == ([Frame([], lead)] + LineFrames(key, lines, fills)) + Rtc(last);
    RtcEnds([Frame([], lead)] + LineFrames(key, lines, fills), last, 0);
    WrittenFrames(book, NormalBits(), key, st, 0, |data|, fs, tail);
    ExpectedPage(key, lead, lines, fills, last);
  }

  lemma {:induction false} ExpectedPage(key: Key, lead: nat, lines: seq<seq<int>>, fills: seq<nat>, last: nat)
    requires |fills| == |lines|
    requires forall i | 0 <= i < |lines| :: Codable(key, lines[i])
    ensures Expected(key, PageFrames(key, lead, lines, fills, last), 0, 0) == Delivered(key, lines, 1)
  {
    var fs := PageFrames(key, lead, lines, fills, last);
    NoRuns();
    assert fs[1..] == LineFrames(key, lines, fills) + Rtc(last);
    assert Expected(key, fs, 0, 0) == [] + Expected(key, fs[1..], 1, 1);
    DeliveredExpected(key, lines, fills, last, 1, 1);
  }

  /** Whether the fifth end of line without pixels in a row comes with the last frame. */
  lemma {:induction false} LinesEnd(key: Key, lines: seq<seq<int>>, fills: seq<nat>, last: nat, zeros: nat)
    requires |fills| == |lines| && zeros < RTCEOL
    requires forall i | 0 <= i < |lines| :: Codable(key, lines[i])
    ensures EndsLast(LineFrames(key, lines, fills) + Rtc(last), zeros) <==> !CutShort(key, lines, zeros)
    ensures EndsEarly(LineFrames(key, lines, fills) + Rtc(last), zeros) <==> CutShort(key, lines, zeros)
  {
    if lines == [] {
      assert LineFrames(key, lines, fills) + Rtc(last) == Rtc(last);
      OnlyEols(Rtc(last), zeros);
    } else {
      FirstFrame(key, lines, fills, last);
      CodableArrives(key, lines[0]);
      EndsStep(LineFrames(key, lines, fills) + Rtc(last), LineFrames(key, lines[1..], fills[1..]) + Rtc(last),
               SentTotal(key, lines[0]), zeros);
      var zeros' := if SentTotal(key, lines[0]) == 0 then zeros + 1 else 0;
      if zeros' < RTCEOL { LinesEnd(key, lines[1..], fills[1..], last, zeros'); }
    }
  }

  /** What the first frame has to do with the end of the page. */
  lemma {:induction false} EndsStep(fs: seq<Frame>, others: seq<Frame>, total: int, eolcnt: nat)
    requires |fs| > 1 && others == fs[1..] && total == Total(fs[0].runs)
    ensures var after := EmptyLines(eolcnt, total);
      && (EndsLast(fs, eolcnt) <==> !(total == 0 && after >= RTCEOL) && EndsLast(others, after))
      && (EndsEarly(fs, eolcnt) <==> (total == 0 && after >= RTCEOL) || EndsEarly(others, after))
  {
  }

  lemma {:induction false} OnlyEols(fs: seq<Frame>, eolcnt: nat)
    requires fs != [] && eolcnt < RTCEOL <= eolcnt + |fs|
    requires forall i | 0 <= i < |fs| :: fs[i].runs == []
    ensures EndsLast(fs, eolcnt) <==> eolcnt + |fs| == RTCEOL
    ensures EndsEarly(fs, eolcnt) <==> eolcnt + |fs| > RTCEOL
  {
    NoRuns();
    if |fs| > 1 && eolcnt + 1 < RTCEOL { OnlyEols(fs[1..], eolcnt + 1); }
  }

  /** The page is seen to end with a return to control exactly when it seems to be over before
      its last end-of-line code, or its coded bits end on a byte boundary, so that flushing
      adds a byte; otherwise its end is taken for the end of the data. */
  lemma {:induction false} PageEnds(book: Codebook, key: Key, lead: nat, lines: seq<seq<int>>, fills: seq<nat>,
                                    last: nat, tail: seq<bool>, data: seq<byte>, rest: seq<byte>)
    requires Sound(book) && |fills| == |lines|
    requires forall i | 0 <= i < |lines| :: Codable(key, lines[i])
    requires ByteBits(data) == Frames(book, PageFrames(key, lead, lines, fills, last)) + tail
    requires |tail| == 8 || (tail == [] && last < 8)
    ensures var st := RxState(W1, [], Stuff(NormalBits(), data) + [DLE, ETX] + rest, 0);
      FinalCode(book, NormalBits(), st) == if CutShort(key, lines, 1) || tail != [] then NO_INPUT else END_OF_DATA
  {
    var st := RxState(W1, [], Stuff(NormalBits(), data) + [DLE, ETX] + rest, 0);
    var fs := PageFrames(key, lead, lines, fills, last);
    NormalUndoesNormal();
    SentArrives(NormalBits(), NormalBits(), data, rest, 0);
    NoRuns();
    assert fs[1..] == LineFrames(key, lines, fills) + Rtc(last);
    LinesEnd(key, lines, fills, last, 1);
    assert fs[|fs| - 1] == Frame([], last);
    if CutShort(key, lines, 1) {
      EarlyCode(book, NormalBits(), st, |data|, fs, tail);
    } else {
      EndCode(book, NormalBits(), st, |data|, fs, tail);
    }
  }
}
