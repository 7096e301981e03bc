/** Receiving a page, and a page all the way from the sender's input to the receiver's output. */
module FaxLink {
  import Bits
  import opened T4Tables
  import T4TableChecks
  import T4Coding
  import T4Decoder
  import T4LookupTables
  import opened Transport
  import FaxReader
  import opened FaxFrames
  import opened Keystream
  import opened LineCipher
  import RunLines
  import opened FaxPage
  import SentPage

  // Receiving.

  /** The reader's state between two lines. */
  ghost function StateOf(d: FaxReader.Reader, mf: TFile): RxState
    requires -9 <= d.shift
    reads d, mf
  {
    RxState(d.tab, d.Pending(), mf.inp, d.eolcnt)
  }

  /** The decoder's tables are not among what deciphering writes. */
  ghost predicate TablesApart(tables: T4LookupTables.LookupTables, g: Generator, runs: array<int>)
  {
    var buffer: object := runs;
    var written: set<object> := {buffer, g.P, g.Q, g.K, g.IV, g.W};
    tables.w1 !in written && tables.w2 !in written && tables.b1 !in written && tables.b2 !in written
        && tables.fill !in written
  }

  /** Read one line and, unless it is the first, or empty, or ends the page, decipher it. */
  method ReceiveLine(mf: TFile, g: Generator, d: FaxReader.Reader, pass: seq<int>, runs: array<int>, first: bool)
    returns (nr: int, line: seq<seq<int>>)
    requires d.Valid() && g.Valid() && Separate(g, runs) && TablesApart(d.tables, g, runs)
    requires PassPhrase(pass) && runs.Length == T4Coding.MAXRUNS
    modifies d`x, d`shift, d`tab, d`eolcnt, mf`inp, runs, g.P, g.Q, g.K, g.IV, g.W
    ensures d.Valid()
    ensures var c := ReadRuns(d.book, mf.ibitorder, old(StateOf(d, mf)));
      && StateOf(d, mf) == c.st && nr == c.ret
      && line == LineOut(KeyOf(pass), c, first)
  {
    var n, len;
    nr, n, len := d.ReadFaxRuns(mf, runs);
    line := [];
    if nr > 0 && len > 0 && !first {
      XorLine(g, pass, runs, nr);
      line := [runs[..nr]];
    }
  }

  function LineOut(key: Key, c: Call, first: bool): seq<seq<int>>
  {
    if c.ret > 0 && c.len > 0 && !first then [Cipher(key, c.runs)] else []
  }

  /** What has been written and what is still to come make up the page from the start. */
  ghost predicate Receiving(book: Codebook, order: BitOrder, key: Key, start: RxState, nr: int, st: RxState, line: nat,
                            out: seq<seq<int>>)
    requires Sound(book)
  {
    if nr < 0 then Received(book, order, key, start, nr, st.inp, out)
    else
      && Bits.Same(out + Written(book, order, key, st, line), Written(book, order, key, start, 0))
      && FinalCode(book, order, st) == FinalCode(book, order, start)
      && Bits.Same(FinalInput(book, order, st), FinalInput(book, order, start))
  }

  ghost predicate Received(book: Codebook, order: BitOrder, key: Key, start: RxState, nr: int, inp: seq<Bits.byte>,
                           out: seq<seq<int>>)
    requires Sound(book)
  {
    && Bits.Same(out, Written(book, order, key, start, 0)) && FinalCode(book, order, start) == nr
    && Bits.Same(inp, FinalInput(book, order, start))
  }

  /** Receive a page: the lines written out, and 0, or 1 when the data end without a return
      to control. After a return to control the data are read to their end. */
  method ReceiveData(mf: TFile, g: Generator, book: Codebook, pass: seq<int>)
    returns (out: seq<seq<int>>, err: int)
    requires Sound(book) && g.Valid() && PassPhrase(pass)
    modifies mf`inp, g.P, g.Q, g.K, g.IV, g.W
    ensures var st := RxState(T4Decoder.W1, [], old(mf.inp), 0);
      && out == Written(book, mf.ibitorder, KeyOf(pass), st, 0)
      && err == (if FinalCode(book, mf.ibitorder, st) == NO_INPUT then 0 else 1)
      && mf.inp == if err == 0 then AfterData(mf.ibitorder, FinalInput(book, mf.ibitorder, st))
                   else FinalInput(book, mf.ibitorder, st)
  {
    var tables := new T4LookupTables.LookupTables(book);
    var d := new FaxReader.Reader(book, tables);
    var runs := new int[T4Coding.MAXRUNS];
    ghost var start := StateOf(d, mf);
    var nr;
    nr, out := ReceiveAll(mf, g, d, pass, runs);
    err := 0;
    if nr == NO_INPUT {
      Discard(mf);
    } else {
      err := 1;
    }
  }

  /** Read and decipher lines until one ends the page. */
  method ReceiveAll(mf: TFile, g: Generator, d: FaxReader.Reader, pass: seq<int>, runs: array<int>)
    returns (nr: int, out: seq<seq<int>>)
    requires d.Valid() && g.Valid() && Separate(g, runs) && TablesApart(d.tables, g, runs)
    requires PassPhrase(pass) && runs.Length == T4Coding.MAXRUNS
    modifies d`x, d`shift, d`tab, d`eolcnt, mf`inp, runs, g.P, g.Q, g.K, g.IV, g.W
    ensures nr < 0 && Received(d.book, mf.ibitorder, KeyOf(pass), old(StateOf(d, mf)), nr, mf.inp, out)
  {
    var line := 0;
    ghost var start := StateOf(d, mf);
    nr, out := 0, [];
    NothingWritten(d.book, mf.ibitorder, KeyOf(pass), start);
    while nr >= 0
      invariant d.Valid() && line >= 0
      invariant Receiving(d.book, mf.ibitorder, KeyOf(pass), start, if nr < 0 then nr else 0, StateOf(d, mf), line, out)
      decreases nr >= 0, |mf.inp|
    {
      nr, out := ReceiveNext(mf, g, d, pass, runs, line, out, start);
      line := line + 1;
    }
  }

  method ReceiveNext(mf: TFile, g: Generator, d: FaxReader.Reader, pass: seq<int>, runs: array<int>, line: nat,
                     out: seq<seq<int>>,
                     ghost start: RxState)
    returns (nr: int, out': seq<seq<int>>)
    requires d.Valid() && g.Valid() && Separate(g, runs) && TablesApart(d.tables, g, runs)
    requires PassPhrase(pass) && runs.Length == T4Coding.MAXRUNS
    requires Receiving(d.book, mf.ibitorder, KeyOf(pass), start, 0, StateOf(d, mf), line, out)
    modifies d`x, d`shift, d`tab, d`eolcnt, mf`inp, runs, g.P, g.Q, g.K, g.IV, g.W
    ensures d.Valid()
    ensures Receiving(d.book, mf.ibitorder, KeyOf(pass), start, nr, StateOf(d, mf), line + 1, out')
    ensures nr >= 0 ==> |mf.inp| < |old(mf.inp)|
  {
    WrittenStep(d.book, mf.ibitorder, KeyOf(pass), start, StateOf(d, mf), line, out);
    var more;
    nr, more := ReceiveLine(mf, g, d, pass, runs, line == 0);
    out' := out + more;
  }

  lemma {:induction false} NothingWritten(book: Codebook, order: BitOrder, key: Key, st: RxState)
    requires Sound(book)
    ensures Receiving(book, order, key, st, 0, st, 0, [])
  {
    assert [] + Written(book, order, key, st, 0) == Written(book, order, key, st, 0);
  }

  lemma {:induction false} WrittenStep(book: Codebook, order: BitOrder, key: Key, start: RxState, st: RxState,
                                       line: nat, out: seq<seq<int>>)
    requires Sound(book) && Receiving(book, order, key, start, 0, st, line, out)
    ensures var c := ReadRuns(book, order, st);
      && (c.ret >= 0 ==> |c.st.inp| < |st.inp|)
      && Receiving(book, order, key, start, c.ret, c.st, line + 1, out + LineOut(key, c, line == 0))
  {
    var c := ReadRuns(book, order, st);
    if c.ret >= 0 {
      ReadsInput(book, order, st);
      Bits.SeqAssoc(out, LineOut(key, c, line == 0), Written(book, order, key, c.st, line + 1));
    }
  }

  /** Read on until the end of the data. */
  method Discard(mf: TFile)
    modifies mf`inp
    ensures mf.inp == AfterData(mf.ibitorder, old(mf.inp))
  {
    var c := 0;
    while c >= 0
      invariant (if c >= 0 then AfterData(mf.ibitorder, mf.inp) else mf.inp) == AfterData(mf.ibitorder, old(mf.inp))
      decreases c >= 0, |mf.inp|
    {
      c := mf.GetData();
    }
  }

  // From end to end.

  lemma {:induction false} RunBound(runs: seq<int>, i: nat)
    requires RunLines.Lengths(runs) && i < |runs|
    ensures 0 <= runs[i] <= RunLines.Width(runs)
  {
    RunLines.PixelsWidth(runs[1..], false);
    if i > 0 { RunBound(runs[1..], i - 1); }
  }

  /** Every line of a page up to 2432 pixels wide can be coded once it is encrypted. */
  lemma {:induction false} SentCodable(key: Key, page: Page, i: nat)
    requires Room(page, 0, 0, []) && Ready(key, page) && 0 < page.width <= 2432
    requires i < |SentLines(page)|
    ensures Codable(key, SentLines(page)[i])
  {
    var line := SentLines(page)[i];
    SentWidth(page, 0, 0, []);
    assert Wide(line, page.width);
    assert Carried(key, line);
    forall k | 0 <= k < |line| ensures 0 <= line[k] <= 2432 {
      RunBound(line, k);
    }
  }

  predicate AllSurviving(key: Key, lines: seq<seq<int>>)
  {
    forall i | 0 <= i < |lines| :: Survives(key, lines[i])
  }

  lemma {:induction false} PageReceived(book: Codebook, key: Key, page: Page, fills: seq<nat>, fill: nat,
                                        tail: seq<bool>,
                                        data: seq<Bits.byte>, rest: seq<Bits.byte>)
    requires Sound(book) && Room(page, 0, 0, []) && Ready(key, page) && 0 < page.width <= 2432
    requires |fills| == |SentLines(page)|
    requires Bits.ByteBits(data) == Frames(book, PageFrames(key, LEAD, SentLines(page), fills, fill)) + tail
    requires fill < 8 && tail == if PageBits(book, key, SentLines(page)) % 8 == 0 then Bits.Zeros(7) + [true] else []
    ensures var st := RxState(T4Decoder.W1, [], Stuff(NormalBits(), data) + [DLE, ETX] + rest, 0);
      && Written(book, NormalBits(), key, st, 0) == Delivered(key, SentLines(page), 1)
      && FinalCode(book, NormalBits(), st)
         == if CutShort(key, SentLines(page), 1) || PageBits(book, key, SentLines(page)) % 8 == 0
            then NO_INPUT else END_OF_DATA
  {
    forall i | 0 <= i < |SentLines(page)| ensures Codable(key, SentLines(page)[i]) {
      SentCodable(key, page, i);
    }
    PageArrives(book, key, LEAD, SentLines(page), fills, fill, tail, data, rest);
    PageEnds(book, key, LEAD, SentLines(page), fills, fill, tail, data, rest);
  }

  /** A page sent by one machine and received by another with the same pass phrase: the lines
      received are exactly those sent with a positive encrypted total, up to the fifth in a row
      whose total is 0; so they are all of them exactly when each survives, and then they show
      the page pixel by pixel. The page is
      reported as good (0) exactly when it seems to end early or its coded lines fill whole
      bytes, and otherwise as ended without a return to control (1). */
  method Transmit(page: Page, pass: seq<int>, minlen: nat, rest: seq<Bits.byte>) returns (out: seq<seq<int>>, err: int)
    requires PassPhrase(pass) && 0 < page.width <= 2432
    requires Room(page, 0, 0, []) && Ready(KeyOf(pass), page)
    ensures out == Delivered(KeyOf(pass), SentLines(page), 1)
    ensures out == SentLines(page) <==> AllSurviving(KeyOf(pass), SentLines(page))
    ensures AllSurviving(KeyOf(pass), SentLines(page))
        ==> SentPage.Shows(out, SentPage.Outgoing(SentPage.Lines(page), page.width))
    ensures AllSurviving(KeyOf(pass), SentLines(page))
        ==> (CutShort(KeyOf(pass), SentLines(page), 1) <==> SentLines(page) == [])
    ensures Sound(T4) && err ==
      if CutShort(KeyOf(pass), SentLines(page), 1) || PageBits(T4, KeyOf(pass), SentLines(page)) % 8 == 0 then 0 else 1
  {
    T4TableChecks.T4Sound();
    SentPage.SentPixels(page);
    var g := new Generator();
    var sender := new TFile([], false);
    ghost var data, fills, fill, tail;
    data, fills, fill, tail := SendData(sender, g, T4, page, pass, minlen);
    PageReceived(T4, KeyOf(pass), page, fills, fill, tail, data, rest);
    DeliveredAll(KeyOf(pass), SentLines(page), 1);
    if AllSurviving(KeyOf(pass), SentLines(page)) { DeliveredWhole(KeyOf(pass), SentLines(page), 1); }
    var receiver := new TFile(Bits.Flatten(sender.writes) + [DLE, ETX] + rest, false);
    out, err := ReceiveData(receiver, g, T4, pass);
  }
}
