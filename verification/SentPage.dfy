/** What is on the lines sent for a page, pixel by pixel: blank lines, input lines and header
    rows, one by one or in pairs. */
module SentPage {
  import Bits
  import opened RunLines
  import PageGeometry
  import opened FaxPage

  /** Every line can be read, and the header has a row wherever one is needed. */
  lemma {:induction false} Readable(page: Page, n: nat, skip: nat, last: seq<int>, m: nat)
    requires Room(page, n, skip, last) && n <= m < 20 + |page.lines|
    ensures m >= 20 ==> Lengths(page.lines[m - 20])
    ensures 4 <= m < 28 ==> |page.header| == 24 && page.header[m - 4] != [] && Lengths(page.header[m - 4])
    decreases m - n
  {
    if n < m {
      var r := WithHeader(page, n);
      if !Thinned(page, n) {
        Readable(page, n + 1, skip, last, m);
      } else if skip % 2 == 0 {
        Readable(page, n + 1, skip + 1, SavedLine(r, last), m);
      } else {
        Readable(page, n + 1, skip + 1, last, m);
      }
    }
  }

  /** Line n of the page before any thinning: twenty blank lines and then the input, with the
      twenty-four rows of the header on lines 4 to 27. */
  function RowPixels(page: Page, n: nat): seq<bool>
    requires Room(page, 0, 0, []) && n < 20 + |page.lines|
  {
    Readable(page, 0, 0, [], n);
    var under := if n < 20 then Solid(page.width, false) else Expand(page.lines[n - 20]);
    if 4 <= n < 28 then Or(under, Expand(page.header[n - 4])) else under
  }

  /** Line j sent is made of two lines of the page: all are on a page sent at half its
      resolution, and the first fourteen on a page of standard resolution. */
  predicate Paired(page: Page, j: nat)
  {
    page.decimate || (page.standard && j < 14)
  }

  /** The number of lines sent, if none is blank. A line without a partner is not sent. */
  function LineCount(page: Page): nat
  {
    var n := 20 + |page.lines|;
    if page.decimate || (page.standard && n < 28) then n / 2 else if page.standard then n - 14 else n
  }

  /** The pixels of line j sent, before they are fitted to the page's width. */
  function Content(page: Page, j: nat): seq<bool>
    requires Room(page, 0, 0, []) && j < LineCount(page)
  {
    if Paired(page, j) then Or(RowPixels(page, 2 * j + 1), RowPixels(page, 2 * j))
    else RowPixels(page, if page.standard then j + 14 else j)
  }

  /** The line has not even an empty run. */
  predicate NoRuns(page: Page, n: nat)
    requires n < 20 + |page.lines|
  {
    n >= 28 && page.lines[n - 20] == []
  }

  /** The length of the first run of the last line saved for pairing before pair j. */
  function LastLead(page: Page, j: nat): int
    requires Room(page, 0, 0, []) && 2 * j <= 20 + |page.lines|
  {
    if j == 0 then 0
    else
      var n := 2 * (j - 1);
      Readable(page, 0, 0, [], n);
      if NoRuns(page, n) then LastLead(page, j - 1)
      else if WithHeader(page, n) != [] then WithHeader(page, n)[0] else 0
  }

  /** Line j is sent: it has a pixel, or its first line has no runs and the program finds those
      of a line saved earlier instead. */
  predicate Goes(page: Page, j: nat)
    requires Room(page, 0, 0, []) && j < LineCount(page)
  {
    Content(page, j) != [] || (Paired(page, j) && NoRuns(page, 2 * j) && LastLead(page, j) > 0)
  }

  /** A line's pixels, and whether it is sent. */
  datatype Line = Line(pixels: seq<bool>, goes: bool)

  function Lines(page: Page): seq<Line>
    requires Room(page, 0, 0, [])
  {
    seq(LineCount(page), j requires 0 <= j < LineCount(page) => Line(Content(page, j), Goes(page, j)))
  }

  /** The pixels of the lines that are sent, each w pixels wide. */
  function Outgoing(lines: seq<Line>, w: nat): seq<seq<bool>>
  {
    if lines == [] then []
    else if lines[0].goes then [PageGeometry.Fit(lines[0].pixels, w)] + Outgoing(lines[1..], w)
    else Outgoing(lines[1..], w)
  }

  predicate Shows(lines: seq<seq<int>>, pixels: seq<seq<bool>>)
  {
    |lines| == |pixels| && forall i | 0 <= i < |lines| :: Lengths(lines[i]) && Expand(lines[i]) == pixels[i]
  }

  lemma {:induction false} ShowsNext(line: seq<int>, lines: seq<seq<int>>, p: seq<bool>, pixels: seq<seq<bool>>)
    requires Lengths(line) && Expand(line) == p && Shows(lines, pixels)
    ensures Shows([line] + lines, [p] + pixels)
  {
  }

  lemma {:induction false} BlankWhite(w: nat)
    ensures Expand([w]) == Solid(w, false)
  {
    PixelsSingle(w, false);
  }

  /** The runs composed show the line's pixels. */
  lemma {:induction false} RowShown(page: Page, n: nat)
    requires Room(page, 0, 0, []) && n < 20 + |page.lines|
    ensures InHeader(n) ==> |page.header| == 24 && page.header[n - 4] != []
    ensures var r := WithHeader(page, n);
      && Lengths(r) && Expand(r) == RowPixels(page, n) && |RowPixels(page, n)| == Width(r)
      && (r == [] <==> NoRuns(page, n))
  {
    Readable(page, 0, 0, [], n);
    BlankWhite(page.width);
    if InHeader(n) { OrInputPixels(InputLine(page, n), page.header[n - 4]); }
    PixelsWidth(WithHeader(page, n), false);
  }

  /** Composed runs show the line. */
  predicate Composes(runs: seq<int>, line: Line, w: nat)
  {
    && Lengths(runs) && (Expand(runs) != [] <==> line.goes)
    && Bits.Same(PageGeometry.Fit(Expand(runs), w), PageGeometry.Fit(line.pixels, w))
  }

  /** A composed line is sent if it has pixels, at the page's width. */
  lemma {:induction false} LineShown(page: Page, runs: seq<int>, more: seq<seq<int>>, lines: seq<Line>)
    requires lines != [] && Composes(runs, lines[0], page.width) && Shows(more, Outgoing(lines[1..], page.width))
    ensures Shows(SentLine(page, runs) + more, Outgoing(lines, page.width))
  {
    PixelsWidth(runs, false);
    if Expand(runs) == [] {
      assert [] + more == more;
    } else {
      PageGeometry.PaddedToWidth(runs, page.width);
      ShowsNext(PageGeometry.PaddedTo(runs, Width(runs), page.width), more,
                PageGeometry.Fit(lines[0].pixels, page.width), Outgoing(lines[1..], page.width));
    }
  }

  /** White pixels put on a line can only make it longer. */
  lemma {:induction false} WhiteFitted(p: seq<bool>, s: nat, w: nat)
    ensures PageGeometry.Fit(Or(p, Solid(s, false)), w) == PageGeometry.Fit(p, w)
    ensures Or(p, Solid(s, false)) == [] <==> p == [] && s == 0
  {
    var q := Or(p, Solid(s, false));
    OrAt(p, Solid(s, false));
    forall i | 0 <= i < w ensures PageGeometry.Fit(q, w)[i] == PageGeometry.Fit(p, w)[i] {
      WhiteAt(s, i);
      WhiteAt(w, i);
      FitAt(p, w, i);
      FitAt(q, w, i);
      assert PixelAt(q, i) == (PixelAt(p, i) || PixelAt(Solid(s, false), i));
    }
  }

  lemma {:induction false} WhiteAt(n: nat, i: nat)
    ensures !PixelAt(Solid(n, false), i)
  {
    if i < n { PageGeometry.SolidAt(n, false, i); }
  }

  lemma {:induction false} FitAt(p: seq<bool>, w: nat, i: nat)
    requires i < w
    ensures PageGeometry.Fit(p, w)[i] == PixelAt(p, i)
  {
    if |p| <= i { WhiteAt(w - |p|, i - |p|); }
  }

  // From the loop to the lines.

  /** The line saved last before pair j. */
  function Kept(page: Page, j: nat): seq<int>
    requires Room(page, 0, 0, []) && 2 * j <= 20 + |page.lines|
  {
    if j == 0 then []
    else
      RowShown(page, 2 * (j - 1));
      SavedLine(WithHeader(page, 2 * (j - 1)), Kept(page, j - 1))
  }

  lemma {:induction false} KeptNext(page: Page, j: nat, n: nat)
    requires Room(page, 0, 0, []) && n == 2 * j <= 18 + |page.lines|
    ensures InHeader(n) ==> |page.header| == 24 && page.header[n - 4] != []
    ensures Kept(page, j + 1) == SavedLine(WithHeader(page, n), Kept(page, j))
  {
    RowShown(page, n);
  }

  lemma {:induction false} KeptLead(page: Page, j: nat)
    requires Room(page, 0, 0, []) && 0 < j && 2 * j <= 20 + |page.lines|
    ensures Kept(page, j) != [] && Lengths(Kept(page, j)) && Kept(page, j)[0] == LastLead(page, j)
  {
    RowShown(page, 2 * (j - 1));
    if j > 1 { KeptLead(page, j - 1); }
  }

  /** The second line of a pair can be combined with what was saved of the first. */
  lemma {:induction false} PairReady(page: Page, j: nat, n: nat)
    requires Room(page, 0, 0, []) && n == 2 * j && n + 1 < 20 + |page.lines|
    ensures InHeader(n + 1) ==> |page.header| == 24 && page.header[n - 3] != []
    ensures Kept(page, j + 1) != []
  {
    RowShown(page, n + 1);
    KeptLead(page, j + 1);
  }

  /** The runs of line j sent, before they are fitted to the page's width. */
  function Runs(page: Page, j: nat): seq<int>
    requires Room(page, 0, 0, []) && j < LineCount(page)
  {
    if Paired(page, j) then
      PairReady(page, j, 2 * j);
      OrInput(WithHeader(page, 2 * j + 1), Kept(page, j + 1))
    else
      RowShown(page, if page.standard then j + 14 else j);
      WithHeader(page, if page.standard then j + 14 else j)
  }

  /** The second line of a pair, combined with what was saved of the first. */
  lemma {:induction false} PairShown(page: Page, j: nat)
    requires Room(page, 0, 0, []) && j < LineCount(page) && Paired(page, j)
    ensures Composes(Runs(page, j), Line(Content(page, j), Goes(page, j)), page.width)
  {
    RowShown(page, 2 * j);
    RowShown(page, 2 * j + 1);
    KeptLead(page, j + 1);
    var r, k := WithHeader(page, 2 * j + 1), Kept(page, j + 1);
    OrInputPixels(r, k);
    if NoRuns(page, 2 * j) {
      KeptLead(page, j);
      BlankWhite(k[0]);
      WhiteFitted(Expand(r), k[0], page.width);
      OrEmpty(Expand(r));
    }
  }

  lemma {:induction false} RunsCompose(page: Page, j: nat)
    requires Room(page, 0, 0, []) && j < LineCount(page)
    ensures Composes(Runs(page, j), Line(Content(page, j), Goes(page, j)), page.width)
  {
    if Paired(page, j) { PairShown(page, j); } else { RowShown(page, if page.standard then j + 14 else j); }
  }

  /** The lines composed from line j on. */
  predicate ComposedFrom(page: Page, j: nat, lines: seq<Line>)
    requires Room(page, 0, 0, [])
    decreases |lines|
  {
    if lines == [] then j == LineCount(page)
    else j < LineCount(page) && Composes(Runs(page, j), lines[0], page.width) && ComposedFrom(page, j + 1, lines[1..])
  }

  lemma {:induction false} AllComposed(page: Page, j: nat)
    requires Room(page, 0, 0, []) && j <= LineCount(page)
    ensures ComposedFrom(page, j, Lines(page)[j..])
    decreases LineCount(page) - j
  {
    if j < LineCount(page) {
      RunsCompose(page, j);
      AllComposed(page, j + 1);
      assert Lines(page)[j..][1..] == Lines(page)[j + 1..];
    }
  }

  /** A pair of lines: the first is saved, and the second sent combined with it. */
  lemma {:induction false} PairStep(page: Page, n: nat, last: seq<int>)
    requires Room(page, n, n, last) && n % 2 == 0 && n + 1 < 20 + |page.lines|
    requires Thinned(page, n) && Thinned(page, n + 1)
    ensures InHeader(n) ==> |page.header| == 24 && page.header[n - 4] != []
    ensures InHeader(n + 1) ==> |page.header| == 24 && page.header[n - 3] != []
    ensures var k := SavedLine(WithHeader(page, n), last);
      && k != [] && Room(page, n + 2, n + 2, k)
      && Bits.Parts(SentFrom(page, n, n, last), SentLine(page, OrInput(WithHeader(page, n + 1), k)),
                    SentFrom(page, n + 2, n + 2, k))
  {
    var k := SavedLine(WithHeader(page, n), last);
    Bits.PartsAre(SentFrom(page, n, n, last), SentLine(page, OrInput(WithHeader(page, n + 1), k)),
                  SentFrom(page, n + 2, n + 2, k));
    assert Room(page, n + 1, n + 1, k) && CanOr(WithHeader(page, n + 1), k);
    assert SentFrom(page, n, n, last) == SentFrom(page, n + 1, n + 1, k);
  }

  lemma {:induction false} RunsOfPair(page: Page, j: nat, n: nat)
    requires Room(page, 0, 0, []) && n == 2 * j && n + 1 < 20 + |page.lines| && Paired(page, j) && j < LineCount(page)
    ensures InHeader(n + 1) ==> |page.header| == 24 && page.header[n - 3] != []
    ensures Kept(page, j + 1) != []
    ensures Runs(page, j) == OrInput(WithHeader(page, n + 1), Kept(page, j + 1))
  {
    PairReady(page, j, n);
  }

  lemma {:induction false} PairFrom(page: Page, j: nat, n: nat, last: seq<int>, k: seq<int>) returns (c: seq<int>)
    requires Room(page, 0, 0, []) && n == 2 * j && n + 1 < 20 + |page.lines| && Paired(page, j) && j < LineCount(page)
    requires last == Kept(page, j) && k == Kept(page, j + 1) && Room(page, n, n, last)
    ensures c == Runs(page, j) && Room(page, n + 2, n + 2, k)
    ensures Bits.Parts(SentFrom(page, n, n, last), SentLine(page, c), SentFrom(page, n + 2, n + 2, k))
  {
    KeptNext(page, j, n);
    PairStep(page, n, last);
    RunsOfPair(page, j, n);
    c := Runs(page, j);
  }

  lemma {:induction false} LinePut(page: Page, all: seq<seq<int>>, runs: seq<int>, more: seq<seq<int>>,
                                   lines: seq<Line>)
    requires lines != [] && Composes(runs, lines[0], page.width) && Shows(more, Outgoing(lines[1..], page.width))
    requires Bits.Parts(all, SentLine(page, runs), more)
    ensures Shows(all, Outgoing(lines, page.width))
  {
    Bits.PartsAre(all, SentLine(page, runs), more);
    LineShown(page, runs, more, lines);
  }

  /** The lines sent one by one from line j on. */
  lemma {:induction false} SinglesSent(page: Page, j: nat, n: nat, skip: nat, last: seq<int>, lines: seq<Line>)
    requires Room(page, 0, 0, []) && !page.decimate && n == (if page.standard then j + 14 else j)
    requires (page.standard ==> n >= 28) && Room(page, n, skip, last) && ComposedFrom(page, j, lines)
    ensures Shows(SentFrom(page, n, skip, last), Outgoing(lines, page.width))
    decreases |lines|
  {
    if lines != [] {
      SinglesSent(page, j + 1, n + 1, skip, last, lines[1..]);
      LineShown(page, WithHeader(page, n), SentFrom(page, n + 1, skip, last), lines);
    }
  }

  /** A last line without a partner is not sent. */
  lemma {:induction false} LastAlone(page: Page, j: nat, n: nat, last: seq<int>, lines: seq<Line>)
    requires Room(page, 0, 0, []) && n == 2 * j <= 20 + |page.lines| <= n + 1 && Room(page, n, n, last)
    requires (page.decimate || (page.standard && j < 14)) && ComposedFrom(page, j, lines)
    ensures Shows(SentFrom(page, n, n, last), Outgoing(lines, page.width))
  {
    NoneLeft(page, j, lines);
    if n < 20 + |page.lines| {
      assert SentFrom(page, n, n, last) == SentFrom(page, n + 1, n + 1, SavedLine(WithHeader(page, n), last));
    }
  }

  lemma {:induction false} NoneLeft(page: Page, j: nat, lines: seq<Line>)
    requires Room(page, 0, 0, []) && ComposedFrom(page, j, lines) && j >= LineCount(page)
    ensures lines == []
  {
  }

  /** The number of pairs. */
  function PairCount(page: Page): nat
  {
    if page.decimate || (page.standard && 20 + |page.lines| < 28) then (20 + |page.lines|) / 2
    else if page.standard then 14 else 0
  }

  lemma {:induction false} PairRoomNext(page: Page, j: nat, n: nat)
    requires Room(page, 0, 0, []) && j < PairCount(page) && n == 2 * j && Room(page, n, n, Kept(page, j))
    ensures Room(page, n + 2, n + 2, Kept(page, j + 1))
  {
    var _ := PairFrom(page, j, n, Kept(page, j), Kept(page, j + 1));
  }

  lemma {:induction false} PairRoom(page: Page, j: nat)
    requires Room(page, 0, 0, []) && j <= PairCount(page)
    ensures Room(page, 2 * j, 2 * j, Kept(page, j))
  {
    if j > 0 {
      PairRoom(page, j - 1);
      PairRoomNext(page, j - 1, 2 * (j - 1));
    }
  }

  /** The lines sent from pair j on. */
  function SentAfter(page: Page, j: nat): seq<seq<int>>
    requires Room(page, 0, 0, []) && j <= PairCount(page)
  {
    PairRoom(page, j);
    SentFrom(page, 2 * j, 2 * j, Kept(page, j))
  }

  /** One line is sent for the pair, or none, and then the rest. */
  lemma {:induction false} PairPut(page: Page, j: nat)
    requires Room(page, 0, 0, []) && j < PairCount(page)
    ensures j < LineCount(page)
    ensures Bits.Parts(SentAfter(page, j), SentLine(page, Runs(page, j)), SentAfter(page, j + 1))
  {
    PairRoom(page, j);
    var _ := PairFrom(page, j, 2 * j, Kept(page, j), Kept(page, j + 1));
  }

  /** If each list is the next one with one line put in front, the first shows all lines. */
  lemma {:induction false} ChainShown(page: Page, ss: seq<seq<seq<int>>>, cs: seq<seq<int>>, lines: seq<Line>, i: nat)
    requires i <= |cs| <= |lines| && |ss| == |cs| + 1
    requires forall k | 0 <= k < |cs| :: Composes(cs[k], lines[k], page.width)
    requires forall k | 0 <= k < |cs| :: Bits.Parts(ss[k], SentLine(page, cs[k]), ss[k + 1])
    requires Shows(ss[|cs|], Outgoing(lines[|cs|..], page.width))
    ensures Shows(ss[i], Outgoing(lines[i..], page.width))
    decreases |cs| - i
  {
    if i < |cs| {
      ChainShown(page, ss, cs, lines, i + 1);
      LinePut(page, ss[i], cs[i], ss[i + 1], lines[i..]);
    }
  }

  /** After the pairs, the other lines are sent one by one. */
  lemma {:induction false} AfterPairs(page: Page, n: nat)
    requires Room(page, 0, 0, []) && (page.decimate || page.standard) && n == PairCount(page)
    ensures n <= LineCount(page) && Shows(SentAfter(page, n), Outgoing(Lines(page)[n..], page.width))
  {
    PairRoom(page, n);
    AllComposed(page, n);
    if !page.decimate && n == 14 {
      SinglesSent(page, n, 2 * n, 2 * n, Kept(page, n), Lines(page)[n..]);
    } else {
      LastAlone(page, n, 2 * n, Kept(page, n), Lines(page)[n..]);
    }
  }

  /** The lines of a page that begins with pairs. */
  lemma {:induction false} PairsSent(page: Page)
    requires Room(page, 0, 0, []) && (page.decimate || page.standard)
    ensures Shows(SentLines(page), Outgoing(Lines(page), page.width))
  {
    var n := PairCount(page);
    var ss := seq(n + 1, j requires 0 <= j < n + 1 => SentAfter(page, j));
    var cs := seq(n, j requires 0 <= j < n => Runs(page, j));
    forall k | 0 <= k < n ensures Bits.Parts(ss[k], SentLine(page, cs[k]), ss[k + 1]) {
      PairPut(page, k);
    }
    forall k | 0 <= k < n ensures Composes(cs[k], Lines(page)[k], page.width) {
      RunsCompose(page, k);
    }
    AfterPairs(page, n);
    ChainShown(page, ss, cs, Lines(page), 0);
    assert Lines(page)[0..] == Lines(page);
  }

  /** The lines sent for a page show, in order and at the page's width, each line of the page or
      each pair of lines combined, except those without any pixels. */
  lemma {:induction false} SentPixels(page: Page)
    requires Room(page, 0, 0, [])
    ensures Shows(SentLines(page), Outgoing(Lines(page), page.width))
  {
    if page.decimate || page.standard {
      PairsSent(page);
    } else {
      AllComposed(page, 0);
      assert Lines(page)[0..] == Lines(page);
      SinglesSent(page, 0, 0, 0, [], Lines(page));
    }
  }

  lemma {:induction false} AllGo(lines: seq<Line>, w: nat)
    requires forall i | 0 <= i < |lines| :: lines[i].goes
    ensures |Outgoing(lines, w)| == |lines|
    ensures forall i | 0 <= i < |lines| :: Outgoing(lines, w)[i] == PageGeometry.Fit(lines[i].pixels, w)
  {
    if lines != [] {
      AllGo(lines[1..], w);
      assert lines == [lines[0]] + lines[1..];
    }
  }

  /** If no line is blank, every one is sent, in its place. */
  lemma {:induction false} EveryLineSent(page: Page)
    requires Room(page, 0, 0, []) && forall j | 0 <= j < LineCount(page) :: Goes(page, j)
    ensures var lines := SentLines(page);
      && |lines| == LineCount(page)
      && forall j | 0 <= j < |lines| ::
           Lengths(lines[j]) && Expand(lines[j]) == PageGeometry.Fit(Content(page, j), page.width)
  {
    SentPixels(page);
    AllGo(Lines(page), page.width);
  }
}
