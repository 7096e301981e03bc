/** Sending a page: the lines to send, from input lines, header and thinning, and their
    encryption and coding. */
module FaxPage {
  import opened Bits
  import opened T4Tables
  import opened T4Coding
  import opened T4Encoder
  import T4RoundTrip
  import opened Transport
  import FaxReader
  import opened FaxFrames
  import opened FaxSender
  import opened Keystream
  import opened LineCipher
  import opened RunLines
  import PageGeometry

  const HDRSPCE := 20
  const HDRSTRT := 4
  const HDRCHRH := 24

  /** The scan lines of the input, the header's scan lines, whether to send only half the
      lines, whether the resolution is the standard one, and the width in pixels. */
  datatype Page = Page(lines: seq<seq<int>>, header: seq<seq<int>>, decimate: bool, standard: bool, width: nat)

  function InputLine(page: Page, n: nat): seq<int>
    requires n < HDRSPCE + |page.lines|
  {
    if n < HDRSPCE then [page.width] else page.lines[n - HDRSPCE]
  }

  predicate InHeader(n: nat)
  {
    HDRSTRT <= n < HDRSTRT + HDRCHRH
  }

  /** Line n with the header's pixels. */
  function WithHeader(page: Page, n: nat): seq<int>
    requires n < HDRSPCE + |page.lines|
    requires InHeader(n) ==> |page.header| == HDRCHRH && page.header[n - HDRSTRT] != []
  {
    if InHeader(n) then OrInput(InputLine(page, n), page.header[n - HDRSTRT]) else InputLine(page, n)
  }

  /** Only every second line is sent here, each combined with the one before it. */
  predicate Thinned(page: Page, n: nat)
  {
    page.decimate || (n < HDRSTRT + HDRCHRH && page.standard)
  }

  predicate LineOk(runs: seq<int>)
  {
    runs != [] && Lengths(runs)
  }

  /** There is room for the combination of two lines. The first may have been read as empty. */
  predicate CanOr(a: seq<int>, b: seq<int>)
  {
    Lengths(a) && LineOk(b) && (if a == [] then 1 else |a|) + |b| <= MAXRUNS
  }

  /** What is saved of line r: of an empty one nothing, but the first run saved before is found
      when it is looked for. */
  function SavedLine(r: seq<int>, last: seq<int>): seq<int>
  {
    if r == [] && last != [] then [last[0]] else r
  }

  /** What the run buffers have room for. */
  predicate Room(page: Page, n: nat, skip: nat, last: seq<int>)
    decreases HDRSPCE + |page.lines| - n
  {
    n < HDRSPCE + |page.lines| ==>
      var line := InputLine(page, n);
      && Lengths(line) && |line| < MAXRUNS
      && (InHeader(n) ==> |page.header| == HDRCHRH && CanOr(line, page.header[n - HDRSTRT]))
      && var r := WithHeader(page, n);
         if !Thinned(page, n) then |r| < MAXRUNS && Room(page, n + 1, skip, last)
         else if skip % 2 == 0 then Room(page, n + 1, skip + 1, SavedLine(r, last))
         else CanOr(r, last) && |OrInput(r, last)| < MAXRUNS && Room(page, n + 1, skip + 1, last)
  }

  /** Nothing is sent for a line without pixels. */
  function SentLine(page: Page, runs: seq<int>): seq<seq<int>>
  {
    if runs != [] && Width(runs) != 0 then [PageGeometry.PaddedTo(runs, Width(runs), page.width)] else []
  }

  /** The lines sent from line n on, before encryption. */
  function SentFrom(page: Page, n: nat, skip: nat, last: seq<int>): seq<seq<int>>
    requires Room(page, n, skip, last)
    decreases HDRSPCE + |page.lines| - n
  {
    if n >= HDRSPCE + |page.lines| then []
    else
      var r := WithHeader(page, n);
      if !Thinned(page, n) then SentLine(page, r) + SentFrom(page, n + 1, skip, last)
      else if skip % 2 == 0 then SentFrom(page, n + 1, skip + 1, SavedLine(r, last))
      else SentLine(page, OrInput(r, last)) + SentFrom(page, n + 1, skip + 1, last)
  }

  function SentLines(page: Page): seq<seq<int>>
    requires Room(page, 0, 0, [])
  {
    SentFrom(page, 0, 0, [])
  }

  predicate Wide(line: seq<int>, width: nat)
  {
    Lengths(line) && Width(line) == width
  }

  predicate AllWide(lines: seq<seq<int>>, width: nat)
  {
    forall i | 0 <= i < |lines| :: Wide(lines[i], width)
  }

  lemma {:induction false} SentLineWide(page: Page, runs: seq<int>, others: seq<seq<int>>)
    requires Lengths(runs) && AllWide(others, page.width)
    ensures AllWide(SentLine(page, runs) + others, page.width)
  {
    PageGeometry.PaddedToWidth(runs, page.width);
  }

  lemma {:induction false} HeaderLengths(page: Page, n: nat)
    requires n < HDRSPCE + |page.lines| && Lengths(InputLine(page, n))
    requires InHeader(n) ==> |page.header| == HDRCHRH && CanOr(InputLine(page, n), page.header[n - HDRSTRT])
    ensures Lengths(WithHeader(page, n))
  {
    if InHeader(n) { OrInputPixels(InputLine(page, n), page.header[n - HDRSTRT]); }
  }

  lemma {:induction false} CombinedWide(page: Page, r: seq<int>, last: seq<int>, others: seq<seq<int>>)
    requires CanOr(r, last) && AllWide(others, page.width)
    ensures AllWide(SentLine(page, OrInput(r, last)) + others, page.width)
  {
    OrInputPixels(r, last);
    SentLineWide(page, OrInput(r, last), others);
  }

  /** Every line sent is exactly as wide as the page. */
  lemma {:induction false} SentWidth(page: Page, n: nat, skip: nat, last: seq<int>)
    requires Room(page, n, skip, last)
    ensures AllWide(SentFrom(page, n, skip, last), page.width)
    decreases HDRSPCE + |page.lines| - n
  {
    if n < HDRSPCE + |page.lines| {
      HeaderLengths(page, n);
      var r := WithHeader(page, n);
      if !Thinned(page, n) {
        SentWidth(page, n + 1, skip, last);
        SentLineWide(page, r, SentFrom(page, n + 1, skip, last));
      } else if skip % 2 == 0 {
        SentWidth(page, n + 1, skip + 1, SavedLine(r, last));
      } else {
        SentWidth(page, n + 1, skip + 1, last);
        CombinedWide(page, r, last, SentFrom(page, n + 1, skip + 1, last));
      }
    }
  }

  // Sending.

  predicate PassPhrase(pass: seq<int>)
  {
    pass != [] && forall i | 0 <= i < |pass| :: -128 <= pass[i] < 128
  }

  function Composed(page: Page, n: nat, last: seq<int>): seq<int>
    requires n < HDRSPCE + |page.lines|
    requires InHeader(n) ==> |page.header| == HDRCHRH && page.header[n - HDRSTRT] != []
    requires Thinned(page, n) ==> last != []
  {
    if Thinned(page, n) then OrInput(WithHeader(page, n), last) else WithHeader(page, n)
  }

  /** The buffer of lastnr runs holds the line saved, if one has been saved. */
  ghost predicate Holds(last: seq<int>, lastnr: nat, saved: seq<int>)
  {
    last != [] && lastnr <= |last| && (saved != [] ==> InUse(last, lastnr) == saved)
  }

  /** Put line n into the run buffer: combined with the header, and, where the page is
      thinned, saved or combined with the line saved before. */
  method Compose(page: Page, n: nat, skip: nat, runs: array<int>, last: array<int>, lastnr: nat, ghost saved: seq<int>)
    returns (keep: bool, nr: nat, pixels: int, newLast: nat)
    requires n < HDRSPCE + |page.lines| && runs != last && runs.Length == last.Length == MAXRUNS
    requires Holds(last[..], lastnr, saved) && Room(page, n, skip, saved)
    modifies runs, last
    ensures nr <= MAXRUNS
    ensures keep == !(Thinned(page, n) && skip % 2 == 0)
    ensures keep ==> Holds(last[..], newLast, saved) && pixels == Width(runs[..nr])
    ensures keep ==> (Thinned(page, n) ==> saved != []) && runs[..nr] == Composed(page, n, saved)
    ensures !keep ==> Holds(last[..], newLast, SavedLine(WithHeader(page, n), saved))
  {
    nr, pixels := Load(InputLine(page, n), runs);
    if InHeader(n) {
      var header := page.header[n - HDRSTRT];
      assert header[..|header|] == header;
      nr, pixels := RunOr(runs, nr, header, |header|);
    }
    keep, newLast := true, lastnr;
    if Thinned(page, n) {
      if skip % 2 == 0 {
        newLast := nr;
        ghost var was := last[..];
        CopyRuns(runs, nr, last);
        SavedHolds(was, lastnr, saved, last[..], runs[..nr]);
        keep := false;
      } else {
        nr, pixels := RunOr(runs, nr, last[..], lastnr);
      }
    }
  }

  /** Saving a line leaves what is after it in the buffer. */
  lemma {:induction false} SavedHolds(was: seq<int>, lastnr: nat, saved: seq<int>, now: seq<int>, line: seq<int>)
    requires Holds(was, lastnr, saved) && |now| == |was| && |line| <= |was|
    requires now[..|line|] == line && now[|line|..] == was[|line|..]
    ensures Holds(now, |line|, SavedLine(line, saved))
  {
    if line == [] && saved != [] {
      assert now[0..] == was[0..] && now[0..][0] == now[0] && was[0..][0] == was[0];
      assert saved[0] == InUse(was, lastnr)[0] == was[0];
      assert now[..1] == [saved[0]];
    }
  }

  /** Read a line into the run buffer. */
  method Load(line: seq<int>, runs: array<int>) returns (nr: nat, pixels: int)
    requires |line| <= runs.Length && 0 < runs.Length
    modifies runs
    ensures nr == |line| && runs[..nr] == line && pixels == Width(line)
    ensures nr == 0 ==> runs[0] == NO_RUNS
  {
    pixels := 0;
    if line == [] {
      runs[0] := NO_RUNS;
    }
    for i := 0 to |line|
      invariant runs[..i] == line[..i] && pixels == Width(line[..i])
      invariant line == [] ==> runs[0] == NO_RUNS
    {
      runs[i] := line[i];
      pixels := pixels + line[i];
      WidthAppend(line[..i], [line[i]]);
      assert line[..i + 1] == line[..i] + [line[i]];
    }
    nr := |line|;
    assert line[..|line|] == line;
  }

  method CopyRuns(runs: array<int>, nr: nat, last: array<int>)
    requires runs != last && nr <= runs.Length && nr <= last.Length
    modifies last
    ensures last[..nr] == runs[..nr] && last[nr..] == old(last[nr..])
  {
    for i := 0 to nr
      invariant last[..i] == runs[..i] && last[i..] == old(last[i..])
    {
      last[i] := runs[i];
    }
  }

  /** Make the line in the buffer the right width and encrypt it. */
  method Prepare(g: Generator, pass: seq<int>, width: nat, runs: array<int>, nr0: nat, pixels: int) returns (nr: nat)
    requires g.Valid() && Separate(g, runs) && PassPhrase(pass)
    requires runs.Length == MAXRUNS && nr0 < MAXRUNS
    modifies g.P, g.Q, g.K, g.IV, g.W, runs
    ensures nr <= MAXRUNS && runs[..nr] == Cipher(KeyOf(pass), PageGeometry.PaddedTo(old(runs[..nr0]), pixels, width))
  {
    nr := nr0;
    if pixels != width {
      nr := PageGeometry.XPad(runs, nr, width - pixels);
    }
    XorLine(g, pass, runs, nr);
  }

  /** Code an encrypted line and hand it to the modem. */
  method HandOver(e: Encoder, mf: TFile, book: Codebook, line: seq<int>, minlen: nat, held: seq<byte>,
                  ghost sent: seq<byte>, ghost before: seq<bool>)
    returns (ghost sent': seq<byte>, ghost fill: nat)
    requires Sound(book) && |T4RoundTrip.LineEmits(line)| < MAXRUNS
    requires Sent(e, mf, sent, held, before)
    modifies e, mf`writes
    ensures Sent(e, mf, sent', [], before + FrameBits(book, Frame(line, fill)))
    ensures |sent| + minlen <= |sent'| && fill % 8 == 0 && (fill > 0 ==> |sent'| <= |sent| + minlen + 2)
  {
    var p;
    p, fill := PutLine(e, mf, book, line, minlen, held, sent, before);
    sent' := sent + p;
    StuffConcat(mf.obitorder, sent, p);
    assert sent' + [] == sent';
    mf.SendBuf(p);
  }

  const LEAD := 256

  /** The frames sent so far. */
  function Begun(key: Key, done: seq<seq<int>>, fills: seq<nat>): seq<Frame>
    requires |fills| == |done|
  {
    [Frame([], LEAD)] + LineFrames(key, done, fills)
  }

  predicate Saved(page: Page, n: nat, skip: nat)
  {
    Thinned(page, n) && skip % 2 == 0
  }

  function NextSkip(page: Page, n: nat, skip: nat): nat
  {
    if Thinned(page, n) then skip + 1 else skip
  }

  /** The first fill and end-of-line code are held back only until the first line is sent. */
  predicate HeldEarly(page: Page, n: nat, skip: nat, last: seq<int>, held: seq<byte>)
  {
    held == [] || (n == 0 && skip == 0) || (n == 1 && skip == 1 && Thinned(page, 0) && last == [page.width])
  }

  /** Fill comes in whole bytes. */
  predicate WholeFills(fills: seq<nat>)
  {
    forall i | 0 <= i < |fills| :: fills[i] % 8 == 0
  }

  ghost predicate Sending(e: Encoder, mf: TFile, book: Codebook, key: Key, page: Page, n: nat, skip: nat,
                          last: seq<int>,
                          held: seq<byte>, sent: seq<byte>, done: seq<seq<int>>, fills: seq<nat>)
    requires Sound(book)
    reads e, mf
  {
    && Room(page, 0, 0, []) && Room(page, n, skip, last) && n <= HDRSPCE + |page.lines|
    && |fills| == |done| && WholeFills(fills)
    && Parts(SentLines(page), done, SentFrom(page, n, skip, last))
    && Sent(e, mf, sent, held, Frames(book, Begun(key, done, fills)))
    && HeldEarly(page, n, skip, last, held)
  }

  lemma {:induction false} SavedStep(page: Page, n: nat, skip: nat, last: seq<int>, held: seq<byte>)
    requires n < HDRSPCE + |page.lines| && Room(page, n, skip, last) && Saved(page, n, skip)
    requires HeldEarly(page, n, skip, last, held)
    ensures var r := SavedLine(WithHeader(page, n), last);
      && Room(page, n + 1, skip + 1, r)
      && Same(SentFrom(page, n, skip, last), SentFrom(page, n + 1, skip + 1, r))
      && HeldEarly(page, n + 1, skip + 1, r, held)
  {
  }

  lemma {:induction false} KeptStep(page: Page, n: nat, skip: nat, last: seq<int>)
    requires n < HDRSPCE + |page.lines| && Room(page, n, skip, last) && !Saved(page, n, skip)
    ensures LineOk(last) || !Thinned(page, n)
    ensures Lengths(Composed(page, n, last)) && |Composed(page, n, last)| < MAXRUNS
    ensures Room(page, n + 1, NextSkip(page, n, skip), last)
    ensures SentFrom(page, n, skip, last)
         == SentLine(page, Composed(page, n, last)) + SentFrom(page, n + 1, NextSkip(page, n, skip), last)
  {
    if InHeader(n) { OrInputPixels(InputLine(page, n), page.header[n - HDRSTRT]); }
    if Thinned(page, n) { OrInputPixels(WithHeader(page, n), last); }
  }

  /** While the beginning is held back, the line composed is not blank. */
  lemma {:induction false} EarlyNotBlank(page: Page, n: nat, skip: nat, last: seq<int>, held: seq<byte>)
    requires n < HDRSPCE + |page.lines| && Room(page, n, skip, last) && !Saved(page, n, skip)
    requires HeldEarly(page, n, skip, last, held) && page.width > 0
    ensures held == [] || Width(Composed(page, n, last)) > 0
  {
    if held != [] {
      assert InputLine(page, n) == [page.width] == WithHeader(page, n);
      var white := [page.width as int];
      assert Width(white) == page.width + Width(white[1..]);
      if n == 1 {
        OrInputPixels(white, white);
        PixelsWidth(white, false);
        PixelsWidth(OrInput(white, white), false);
        OrAt(Expand(white), Expand(white));
      }
    }
  }

  /** One more line sent. */
  lemma {:induction false} LineSent(book: Codebook, key: Key, done: seq<seq<int>>, fills: seq<nat>, line: seq<int>,
                                    fill: nat)
    requires Sound(book) && |fills| == |done|
    ensures Frames(book, Begun(key, done + [line], fills + [fill]))
         == Frames(book, Begun(key, done, fills)) + FrameBits(book, Frame(Cipher(key, line), fill))
  {
    LineFramesSnoc(key, done, fills, line, fill);
    FramesSnoc(book, Begun(key, done, fills), Frame(Cipher(key, line), fill));
    SeqAssoc([Frame([], LEAD)], LineFrames(key, done, fills), [Frame(Cipher(key, line), fill)]);
  }

  /** Start the page: fill and an end-of-line code. */
  method Begin(e: Encoder, mf: TFile, book: Codebook, ghost key: Key) returns (held: seq<byte>)
    requires Sound(book) && Sent(e, mf, [], [], [])
    modifies e
    ensures Sent(e, mf, [], held, Frames(book, Begun(key, [], [])))
  {
    held := [];
    for i := 0 to 32
      invariant Sent(e, mf, [], held, [] + Zeros(8 * i))
    {
      held := PutZeros(e, mf, held, [], [], 8 * i);
    }
    held := PutEol(e, mf, held, [], [] + Zeros(LEAD));
    LeadBits(book, key);
  }

  lemma {:induction false} LeadBits(book: Codebook, key: Key)
    requires Sound(book)
    ensures Frames(book, Begun(key, [], [])) == Zeros(LEAD) + EOL_BITS
  {
    assert Begun(key, [], []) == [Frame([], LEAD)];
    FramesSnoc(book, [], Frame([], LEAD));
    EmptyFrame(book, LEAD);
    assert [] + [Frame([], LEAD)] == [Frame([], LEAD)];
    assert [] + (Zeros(LEAD) + EOL_BITS) == Zeros(LEAD) + EOL_BITS;
  }

  lemma {:induction false} EmptyFrame(book: Codebook, fill: nat)
    requires Sound(book)
    ensures FrameBits(book, Frame([], fill)) == Zeros(fill) + EOL_BITS
  {
    assert [] + (Zeros(fill) + EOL_BITS) == Zeros(fill) + EOL_BITS;
  }

  /** No line of the page has more codes, once encrypted, than the run buffer holds. */
  predicate Ready(key: Key, page: Page)
    requires Room(page, 0, 0, [])
  {
    forall i | 0 <= i < |SentLines(page)| :: Carried(key, SentLines(page)[i])
  }

  predicate Carried(key: Key, line: seq<int>)
  {
    |T4RoundTrip.LineEmits(Cipher(key, line))| < MAXRUNS
  }

  /** The page's lines once the composed line is dealt with. */
  lemma {:induction false} KeptLines(key: Key, page: Page, n: nat, skip: nat, saved: seq<int>, done: seq<seq<int>>)
    requires n < HDRSPCE + |page.lines| && Room(page, n, skip, saved) && !Saved(page, n, skip)
    requires Room(page, 0, 0, []) && Ready(key, page)
    requires Parts(SentLines(page), done, SentFrom(page, n, skip, saved))
    ensures LineOk(saved) || !Thinned(page, n)
    ensures Room(page, n + 1, NextSkip(page, n, skip), saved)
    ensures var c, rest := Composed(page, n, saved), SentFrom(page, n + 1, NextSkip(page, n, skip), saved);
      && |c| < MAXRUNS
      && (c == [] || Width(c) == 0 ==> Parts(SentLines(page), done, rest))
      && (c != [] && Width(c) != 0 ==>
            && Carried(key, PageGeometry.PaddedTo(c, Width(c), page.width))
            && Parts(SentLines(page), done + [PageGeometry.PaddedTo(c, Width(c), page.width)], rest))
  {
    KeptStep(page, n, skip, saved);
    var c, rest := Composed(page, n, saved), SentFrom(page, n + 1, NextSkip(page, n, skip), saved);
    if c != [] && Width(c) != 0 {
      var line := PageGeometry.PaddedTo(c, Width(c), page.width);
      PartsNext(SentLines(page), done, [line], rest);
      PartsAt(SentLines(page), done, line, rest);
    } else {
      assert [] + rest == rest;
    }
  }

  /** Send the composed line in the buffer unless it is blank. */
  method SendKept(e: Encoder, mf: TFile, g: Generator, book: Codebook, page: Page, pass: seq<int>, minlen: nat,
                  ghost n: nat, ghost skip: nat, ghost saved: seq<int>, runs: array<int>, nr0: nat, pixels: int,
                  held: seq<byte>, ghost sent: seq<byte>, ghost done: seq<seq<int>>, ghost fills: seq<nat>)
    returns (held': seq<byte>, ghost sent': seq<byte>, ghost done': seq<seq<int>>, ghost fills': seq<nat>)
    requires Sound(book) && g.Valid() && Separate(g, runs) && PassPhrase(pass) && page.width > 0
    requires runs.Length == MAXRUNS && nr0 <= MAXRUNS
    requires n < HDRSPCE + |page.lines| && !Saved(page, n, skip)
    requires Sending(e, mf, book, KeyOf(pass), page, n, skip, saved, held, sent, done, fills)
    requires Ready(KeyOf(pass), page)
    requires (LineOk(saved) || !Thinned(page, n)) && runs[..nr0] == Composed(page, n, saved)
        && pixels == Width(runs[..nr0])
    modifies e, mf`writes, g.P, g.Q, g.K, g.IV, g.W, runs
    ensures Sending(e, mf, book, KeyOf(pass), page, n + 1, NextSkip(page, n, skip), saved, held', sent', done', fills')
  {
    ghost var line := PageGeometry.PaddedTo(runs[..nr0], pixels, page.width);
    held', sent', done', fills' := held, sent, done, fills;
    KeptLines(KeyOf(pass), page, n, skip, saved, done);
    EarlyNotBlank(page, n, skip, saved, held);
    if nr0 > 0 {
      if pixels != 0 {
        ghost var fill;
        var nr := Prepare(g, pass, page.width, runs, nr0, pixels);
        sent', fill := HandOver(e, mf, book, runs[..nr], minlen, held, sent,
                                Frames(book, Begun(KeyOf(pass), done, fills)));
        LineSent(book, KeyOf(pass), done, fills, line, fill);
        done', fills' := done + [line], fills + [fill];
      }
      held' := [];
    }
  }

  /** Send one line of the page, unless it is saved for the next or blank. */
  method SendNext(e: Encoder, mf: TFile, g: Generator, book: Codebook, page: Page, pass: seq<int>, minlen: nat,
                  n: nat, skip: nat, runs: array<int>, last: array<int>, lastnr: nat, ghost saved: seq<int>,
                      held: seq<byte>,
                  ghost sent: seq<byte>, ghost done: seq<seq<int>>, ghost fills: seq<nat>)
    returns (skip': nat, lastnr': nat, ghost saved': seq<int>, held': seq<byte>,
             ghost sent': seq<byte>, ghost done': seq<seq<int>>, ghost fills': seq<nat>)
    requires Sound(book) && g.Valid() && Separate(g, runs) && Separate(g, last) && PassPhrase(pass) && page.width > 0
    requires runs != last && runs.Length == last.Length == MAXRUNS && Holds(last[..], lastnr, saved)
    requires n < HDRSPCE + |page.lines|
    requires Sending(e, mf, book, KeyOf(pass), page, n, skip, saved, held, sent, done, fills)
    requires Ready(KeyOf(pass), page)
    modifies e, mf`writes, g.P, g.Q, g.K, g.IV, g.W, runs, last
    ensures Holds(last[..], lastnr', saved')
    ensures Sending(e, mf, book, KeyOf(pass), page, n + 1, skip', saved', held', sent', done', fills')
  {
    var keep, nr, pixels;
    keep, nr, pixels, lastnr' := Compose(page, n, skip, runs, last, lastnr, saved);
    skip' := if Thinned(page, n) then skip + 1 else skip;
    saved' := if keep then saved else SavedLine(WithHeader(page, n), saved);
    if !keep {
      SavedStep(page, n, skip, saved, held);
      held', sent', done', fills' := held, sent, done, fills;
    } else {
      KeptStep(page, n, skip, saved);
      ghost var buffer := last[..];
      held', sent', done', fills' :=
        SendKept(e, mf, g, book, page, pass, minlen, n, skip, saved, runs, nr, pixels, held, sent, done, fills);
      assert last[..] == buffer;
    }
  }

  // The end of the page.

  function Eols(n: nat): (fs: seq<Frame>)
    ensures |fs| == n
  {
    if n == 0 then [] else Eols(n - 1) + [EOL_FRAME]
  }

  lemma {:induction false} EolAdded(book: Codebook, fs: seq<Frame>, n: nat)
    requires Sound(book)
    ensures Frames(book, fs + Eols(n + 1)) == Frames(book, fs + Eols(n)) + EOL_BITS
  {
    SeqAssoc(fs, Eols(n), [EOL_FRAME]);
    FramesSnoc(book, fs + Eols(n), EOL_FRAME);
    EmptyFrame(book, 0);
    assert Zeros(0) + EOL_BITS == EOL_BITS;
  }

  lemma {:induction false} EolsLength(book: Codebook, fs: seq<Frame>, n: nat)
    requires Sound(book)
    ensures |Frames(book, fs + Eols(n))| == |Frames(book, fs)| + 12 * n
  {
    if n == 0 {
      assert fs + Eols(0) == fs;
    } else {
      EolsLength(book, fs, n - 1);
      EolAdded(book, fs, n - 1);
    }
  }

  /** Flushing puts fill into the last end-of-line code, or a byte 00000001 after it. */
  lemma {:induction false} FlushBits(pre: seq<bool>, x: nat, n: nat, before: seq<bool>)
      returns (fill: nat, tail: seq<bool>)
    requires n <= 7 && x % 256 == 1 && pre + ToBits(x, n) == before + EOL_BITS
    ensures pre + ToBits(1, 8) == before + (Zeros(fill) + EOL_BITS) + tail
    ensures n > 0 ==> fill == 8 - n && tail == []
    ensures n == 0 ==> fill == 0 && tail == Zeros(7) + [true]
  {
    OneBits(8);
    if n == 0 {
      fill, tail := 0, Zeros(7) + [true];
      assert pre + ToBits(x, 0) == pre;
      assert Zeros(0) + EOL_BITS == EOL_BITS;
    } else {
      fill, tail := 8 - n, [];
      assert Pow2(8) == 256;
      ModMod(x, 8, n);
      LowBits(x, 1, n);
      OneBits(n);
      LastOne(pre, Zeros(n - 1), before, Zeros(11));
      MoreZeros(n - 1, 8 - n);
      MoreZeros(11, 8 - n);
      MoreZeros(8 - n, 11);
      SeqAssoc(pre, Zeros(n - 1), Zeros(8 - n));
      SeqAssoc(before, Zeros(11), Zeros(8 - n));
      assert pre + Zeros(7) == before + Zeros(8 - n + 11);
      SeqAssoc(pre, Zeros(7), [true]);
      SeqAssoc(before, Zeros(8 - n + 11), [true]);
      SeqAssoc(Zeros(8 - n), Zeros(11), [true]);
      assert before + (Zeros(fill) + EOL_BITS) + [] == before + (Zeros(fill) + EOL_BITS);
    }
  }

  lemma {:induction false} LastOne(a: seq<bool>, b: seq<bool>, c: seq<bool>, d: seq<bool>)
    requires a + (b + [true]) == c + (d + [true])
    ensures a + b == c + d
  {
    assert (a + (b + [true]))[..|a| + |b|] == a + b;
    assert (c + (d + [true]))[..|c| + |d|] == c + d;
  }

  lemma {:induction false} OneBits(n: nat)
    requires n > 0
    ensures ToBits(1, n) == Zeros(n - 1) + [true]
  {
    ZeroBits(1 / 2, n - 1);
  }

  lemma {:induction false} FlushRegister(x: nat)
    ensures ShiftIn(x, 0, 0) % LONG % 256 == x % 256
  {
    WordSizes();
    assert Pow2(8) == 256;
    ModMod(x, 64, 8);
  }

  /** Five end-of-line codes. */
  method PutRtc(e: Encoder, mf: TFile, book: Codebook, held: seq<byte>, ghost sent: seq<byte>, ghost fs: seq<Frame>)
    returns (out: seq<byte>)
    requires Sound(book) && Sent(e, mf, sent, held, Frames(book, fs))
    modifies e
    ensures Sent(e, mf, sent, out, Frames(book, fs + Eols(FaxReader.RTCEOL)))
    ensures e.x % 256 == 1
  {
    out := held;
    assert fs + Eols(0) == fs;
    for i := 0 to FaxReader.RTCEOL
      invariant Sent(e, mf, sent, out, Frames(book, fs + Eols(i)))
      invariant i > 0 ==> e.x % 256 == 1
    {
      EolAdded(book, fs, i);
      out := PutEol(e, mf, out, sent, Frames(book, fs + Eols(i)));
    }
  }

  /** End the page: five end-of-line codes, and the bits still pending. */
  method Finish(e: Encoder, mf: TFile, book: Codebook, held: seq<byte>, ghost sent: seq<byte>, ghost fs: seq<Frame>)
    returns (ghost data: seq<byte>, ghost fill: nat, ghost tail: seq<bool>)
    requires Sound(book) && Sent(e, mf, sent, held, Frames(book, fs))
    modifies e, mf`writes
    ensures Flatten(mf.writes) == Stuff(mf.obitorder, data)
    ensures ByteBits(data) == Frames(book, fs + Rtc(fill)) + tail
    ensures fill < 8 && tail == if (|Frames(book, fs)| + 60) % 8 == 0 then Zeros(7) + [true] else []
  {
    var p := PutRtc(e, mf, book, held, sent, fs);
    fill, tail := FlushRtc(book, fs, sent + p, e.x, e.shift + 8);
    p := Flush(e, p, sent);
    data := sent + p;
    StuffConcat(mf.obitorder, sent, p);
    mf.SendBuf(p);
  }

  /** Flush the register after an end-of-line code. */
  method Flush(e: Encoder, held: seq<byte>, ghost sent: seq<byte>) returns (out: seq<byte>)
    requires e.Valid() && e.x % 256 == 1
    modifies e
    ensures ByteBits(sent + out) == ByteBits(sent + held) + ToBits(1, 8)
  {
    FlushRegister(e.x);
    LastByte(sent, held, 1);
    out := e.PutCode(0, 0, held);
  }

  lemma {:induction false} PendingCount(bytes: nat, n: nat)
    requires n < 8
    ensures (8 * bytes + n) % 8 == n
  {
  }

  /** What flushing makes of the return to control. */
  lemma {:induction false} FlushRtc(book: Codebook, fs: seq<Frame>, bytes: seq<byte>, x: nat, n: nat)
    returns (fill: nat, tail: seq<bool>)
    requires Sound(book) && n < 8 && x % 256 == 1
        && ByteBits(bytes) + ToBits(x, n) == Frames(book, fs + Eols(FaxReader.RTCEOL))
    ensures ByteBits(bytes) + ToBits(1, 8) == Frames(book, fs + Rtc(fill)) + tail
    ensures fill < 8 && tail == if (|Frames(book, fs)| + 60) % 8 == 0 then Zeros(7) + [true] else []
  {
    EolAdded(book, fs, 4);
    EolsLength(book, fs, FaxReader.RTCEOL);
    assert |ByteBits(bytes) + ToBits(x, n)| == |Frames(book, fs)| + 60;
    PendingCount(|bytes|, n);
    fill, tail := FlushBits(ByteBits(bytes), x, n, Frames(book, fs + Eols(4)));
    RtcFrames(book, fs, fill);
  }

  lemma {:induction false} LastByte(sent: seq<byte>, held: seq<byte>, b: byte)
    ensures ByteBits(sent + (held + [b])) == ByteBits(sent + held) + ToBits(b, 8)
  {
    SeqAssoc(sent, held, [b]);
    assert (sent + held + [b])[..|sent + held|] == sent + held;
  }

  lemma {:induction false} RtcFrames(book: Codebook, fs: seq<Frame>, fill: nat)
    requires Sound(book)
    ensures Frames(book, fs + Rtc(fill)) == Frames(book, fs + Eols(4)) + (Zeros(fill) + EOL_BITS)
  {
    assert Eols(4) == Eols(3) + [EOL_FRAME] && Eols(3) == Eols(2) + [EOL_FRAME] && Eols(2) == Eols(1) + [EOL_FRAME];
    assert Eols(1) == [EOL_FRAME];
    assert Rtc(fill) == Eols(4) + [Frame([], fill)];
    SeqAssoc(fs, Eols(4), [Frame([], fill)]);
    FramesSnoc(book, fs + Eols(4), Frame([], fill));
    EmptyFrame(book, fill);
  }

  lemma {:induction false} NothingSent(e: Encoder, mf: TFile, book: Codebook, key: Key, page: Page, held: seq<byte>)
    requires Sound(book) && Room(page, 0, 0, []) && Sent(e, mf, [], held, Frames(book, Begun(key, [], [])))
    ensures Sending(e, mf, book, key, page, 0, 0, [], held, [], [], [])
  {
    assert Parts(SentLines(page), [], SentFrom(page, 0, 0, []));
  }

  lemma {:induction false} NoneHeld(last: seq<int>, lastnr: nat)
    requires last != [] && lastnr <= |last|
    ensures Holds(last, lastnr, [])
  {
  }

  /** Take the lines of the page one by one. */
  method SendEach(e: Encoder, mf: TFile, g: Generator, book: Codebook, page: Page, pass: seq<int>, minlen: nat,
                  runs: array<int>, last: array<int>, held0: seq<byte>)
    returns (skip: nat, held: seq<byte>,
             ghost saved: seq<int>, ghost sent: seq<byte>, ghost done: seq<seq<int>>, ghost fills: seq<nat>)
    requires Sound(book) && g.Valid() && Separate(g, runs) && Separate(g, last) && PassPhrase(pass) && page.width > 0
    requires runs != last && runs.Length == last.Length == MAXRUNS
    requires Room(page, 0, 0, []) && Ready(KeyOf(pass), page)
    requires Sending(e, mf, book, KeyOf(pass), page, 0, 0, [], held0, [], [], [])
    modifies e, mf`writes, g.P, g.Q, g.K, g.IV, g.W, runs, last
    ensures Sending(e, mf, book, KeyOf(pass), page, HDRSPCE + |page.lines|, skip, saved, held, sent, done, fills)
  {
    hide Sending, Holds, Room, Ready, Sound;
    var n: nat, lastnr: nat := 0, 0;
    skip, saved, done := 0, [], [];
    held, sent, fills := held0, [], [];
    NoneHeld(last[..], lastnr);
    while n < HDRSPCE + |page.lines|
      invariant n <= HDRSPCE + |page.lines|
      invariant Sending(e, mf, book, KeyOf(pass), page, n, skip, saved, held, sent, done, fills)
      invariant Holds(last[..], lastnr, saved)
    {
      skip, lastnr, saved, held, sent, done, fills :=
        SendNext(e, mf, g, book, page, pass, minlen, n, skip, runs, last, lastnr, saved, held, sent, done, fills);
      n := n + 1;
    }
  }

  /** Send the lines of the page. */
  method SendAll(e: Encoder, mf: TFile, g: Generator, book: Codebook, page: Page, pass: seq<int>, minlen: nat,
                 runs: array<int>, last: array<int>, held0: seq<byte>)
    returns (held: seq<byte>, ghost sent: seq<byte>, ghost fills: seq<nat>)
    requires Sound(book) && g.Valid() && Separate(g, runs) && Separate(g, last) && PassPhrase(pass) && page.width > 0
    requires runs != last && runs.Length == last.Length == MAXRUNS
    requires Room(page, 0, 0, []) && Ready(KeyOf(pass), page)
    requires Sending(e, mf, book, KeyOf(pass), page, 0, 0, [], held0, [], [], [])
    modifies e, mf`writes, g.P, g.Q, g.K, g.IV, g.W, runs, last
    ensures |fills| == |SentLines(page)| && WholeFills(fills)
    ensures Sent(e, mf, sent, held, Frames(book, Begun(KeyOf(pass), SentLines(page), fills)))
  {
    var skip;
    ghost var saved, done;
    skip, held, saved, sent, done, fills := SendEach(e, mf, g, book, page, pass, minlen, runs, last, held0);
    AllDone(e, mf, book, KeyOf(pass), page, HDRSPCE + |page.lines|, skip, saved, held, sent, done, fills);
  }

  lemma {:induction false} AllDone(e: Encoder, mf: TFile, book: Codebook, key: Key, page: Page, n: nat, skip: nat,
                                   last: seq<int>,
                                   held: seq<byte>, sent: seq<byte>, done: seq<seq<int>>, fills: seq<nat>)
    requires Sound(book) && n >= HDRSPCE + |page.lines|
    requires Sending(e, mf, book, key, page, n, skip, last, held, sent, done, fills)
    ensures |fills| == |SentLines(page)| && WholeFills(fills)
    ensures Sent(e, mf, sent, held, Frames(book, Begun(key, SentLines(page), fills)))
  {
    PartsAre(SentLines(page), done, []);
    assert done + [] == done;
  }

  /** Send the page. The bits of the bytes sent are the frames of the page's lines, encrypted. */
  method SendData(mf: TFile, g: Generator, book: Codebook, page: Page, pass: seq<int>, minlen: nat)
    returns (ghost data: seq<byte>, ghost fills: seq<nat>, ghost fill: nat, ghost tail: seq<bool>)
    requires Sound(book) && g.Valid() && PassPhrase(pass) && page.width > 0
    requires Room(page, 0, 0, []) && Ready(KeyOf(pass), page)
    requires mf.writes == []
    modifies mf`writes, g.P, g.Q, g.K, g.IV, g.W
    ensures |fills| == |SentLines(page)|
    ensures Flatten(mf.writes) == Stuff(mf.obitorder, data)
    ensures ByteBits(data) == Frames(book, PageFrames(KeyOf(pass), LEAD, SentLines(page), fills, fill)) + tail
    ensures fill < 8
    ensures tail == if PageBits(book, KeyOf(pass), SentLines(page)) % 8 == 0 then Zeros(7) + [true] else []
  {
    var e := new Encoder();
    var runs, last := new int[MAXRUNS], new int[MAXRUNS];
    var held := Begin(e, mf, book, KeyOf(pass));
    NothingSent(e, mf, book, KeyOf(pass), page, held);
    ghost var sent;
    held, sent, fills := SendAll(e, mf, g, book, page, pass, minlen, runs, last, held);
    data, fill, tail := Finish(e, mf, book, held, sent, Begun(KeyOf(pass), SentLines(page), fills));
    SeqAssoc([Frame([], LEAD)], LineFrames(KeyOf(pass), SentLines(page), fills), Rtc(fill));
    BegunLength(book, KeyOf(pass), SentLines(page), fills);
  }

  /** The bits that the lines of a page take, without fill. */
  function PageBits(book: Codebook, key: Key, lines: seq<seq<int>>): nat
    requires Sound(book)
  {
    if lines == [] then 0
    else |LineBits(book, White, Cipher(key, lines[0]))| + EOLBITS + PageBits(book, key, lines[1..])
  }

  function FillTotal(fills: seq<nat>): nat
  {
    if fills == [] then 0 else fills[0] + FillTotal(fills[1..])
  }

  lemma {:induction false} WholeTotal(fills: seq<nat>)
    requires WholeFills(fills)
    ensures FillTotal(fills) % 8 == 0
  {
    if fills != [] { WholeTotal(fills[1..]); }
  }

  lemma {:induction false} LinesLength(book: Codebook, key: Key, lines: seq<seq<int>>, fills: seq<nat>)
    requires Sound(book) && |fills| == |lines|
    ensures |Frames(book, LineFrames(key, lines, fills))| == PageBits(book, key, lines) + FillTotal(fills)
  {
    if lines != [] {
      LinesLength(book, key, lines[1..], fills[1..]);
      assert LineFrames(key, lines, fills)[1..] == LineFrames(key, lines[1..], fills[1..]);
    }
  }

  lemma {:induction false} BegunLength(book: Codebook, key: Key, lines: seq<seq<int>>, fills: seq<nat>)
    requires Sound(book) && |fills| == |lines| && WholeFills(fills)
    ensures (|Frames(book, Begun(key, lines, fills))| + 60) % 8 == PageBits(book, key, lines) % 8
  {
    LinesLength(book, key, lines, fills);
    BeginLength(book, key, lines, fills);
    WholeTotal(fills);
    WholeBytesAdded(PageBits(book, key, lines), FillTotal(fills));
  }

  lemma {:induction false} WholeBytesAdded(n: nat, fill: nat)
    requires fill % 8 == 0
    ensures (LEAD + 12 + (n + fill) + 60) % 8 == n % 8
  {
  }

  lemma {:induction false} BeginLength(book: Codebook, key: Key, lines: seq<seq<int>>, fills: seq<nat>)
    requires Sound(book) && |fills| == |lines|
    ensures |Frames(book, Begun(key, lines, fills))| == LEAD + 12 + |Frames(book, LineFrames(key, lines, fills))|
  {
    EmptyFrame(book, LEAD);
    assert Begun(key, lines, fills)[1..] == LineFrames(key, lines, fills);
  }
}
