/** Placing scan lines on a page: each scaled, shifted, and cut or padded to the page's width,
    and as many rows as the page is high. */
module PageLayout {
  import opened Bits
  import opened RunLines
  import opened PageGeometry
  import T4Coding

  /** A line scaled, shifted and made w pixels wide. */
  function Placed(runs: seq<int>, xs: int, s: int, w: int): seq<int>
    requires s < 0 ==> runs != []
  {
    var a := Scaled(runs, xs);
    PaddedTo(Shifted(a, s), Width(a) + (if runs == [] then 0 else s), w)
  }

  /** Scale unless the scale is one. */
  method Rescale(runs: array<int>, nr: nat, pels0: int, xs: int) returns (pels: int)
    requires nr <= runs.Length && pels0 == Width(runs[..nr])
    modifies runs
    ensures runs[..nr] == Scaled(old(runs[..nr]), xs) && pels == Width(Scaled(old(runs[..nr]), xs))
  {
    pels := pels0;
    ghost var was := runs[..nr];
    ScaledBySame(was);
    WholeWidth(was, xs);
    if xs != 256 {
      pels := XScale(runs, nr, xs);
    }
  }

  lemma {:induction false} WholeWidth(runs: seq<int>, xs: int)
    ensures Width(Scaled(runs, xs)) == Scale(Width(runs), xs)
  {
    ScaledBoundary(runs, xs, |runs|);
    assert runs[..|runs|] == runs && Scaled(runs, xs)[..|runs|] == Scaled(runs, xs);
  }

  /** Shift unless the shift is zero. */
  method Reposition(runs: array<int>, nr: nat, s: int) returns (n: int)
    requires nr <= runs.Length && (s < 0 ==> nr > 0)
    modifies runs
    ensures runs[..nr] == Shifted(old(runs[..nr]), s) && n == if nr > 0 then s else 0
  {
    n := 0;
    if s != 0 {
      n := XShift(runs, nr, s);
    }
  }

  method PlaceLine(runs: array<int>, nr0: nat, pels0: int, xs: int, ixsh: int, w: int) returns (nr: nat)
    requires nr0 < runs.Length && (ixsh < 0 ==> nr0 > 0) && pels0 == Width(runs[..nr0])
    modifies runs
    ensures nr <= runs.Length && runs[..nr] == Placed(old(runs[..nr0]), xs, ixsh, w)
  {
    var pels := Rescale(runs, nr0, pels0, xs);
    var n := Reposition(runs, nr0, ixsh);
    pels := pels + n;
    nr := nr0;
    if pels != w {
      nr := XPad(runs, nr, w - pels);
    }
  }

  /** What the placed line should show: the scaled line, moved, and cut or extended to w pixels. */
  predicate WellPlaced(runs: seq<int>, xs: nat, s: int, w: nat)
    requires Lengths(runs) && runs != []
  {
    ScaledLengths(runs, xs);
    && Lengths(Placed(runs, xs, s, w))
    && Expand(Placed(runs, xs, s, w)) == Fit(Moved(Expand(Scaled(runs, xs)), s), w)
  }

  lemma {:induction false} PlacedWithin(runs: seq<int>, xs: nat, s: int, w: nat)
    requires Lengths(runs) && runs != [] && -s <= Scale(Width(runs), xs)
    ensures WellPlaced(runs, xs, s, w)
  {
    ScaledLengths(runs, xs);
    var a := Scaled(runs, xs);
    ShiftedPixels(a, s);
    PaddedToWidth(Shifted(a, s), w);
  }

  /** A line shifted out of the page altogether. */
  lemma {:induction false} PlacedBeyond(runs: seq<int>, xs: nat, s: int, w: nat)
    requires Lengths(runs) && runs != [] && -s > Scale(Width(runs), xs)
    ensures WellPlaced(runs, xs, s, w) <==> |runs| % 2 == 1
  {
    ScaledLengths(runs, xs);
    var a, n := Scaled(runs, xs), |runs|;
    PixelsWidth(a, false);
    var t := Width(a) + s;
    DroppedTooMuch(a, 0, s);
    var b := Shifted(a, s);
    assert b == Zeroes(n - 1) + [t];
    assert Placed(runs, xs, s, w) == Padded(b, w - t);
    if n % 2 == 1 {
      assert b[n - 1 := t + (w - t)] == Zeroes(n - 1) + [w];
      WhiteLine(n - 1, w);
      NothingBefore(Solid(w, false));
    } else {
      assert (b + [w - t])[n - 1] == t;
    }
  }

  lemma {:induction false} WhiteLine(n: nat, w: nat)
    requires n % 2 == 0
    ensures Lengths(Zeroes(n) + [w]) && Expand(Zeroes(n) + [w]) == Solid(w, false)
  {
    var r := Zeroes(n) + [w];
    BeginsAt(r, n);
    assert r[n + 1..] == [];
    assert Solid(w, false) + [] == Solid(w, false);
  }

  /** A line comes out as it should exactly when it is not shifted left by more than its
      scaled width, or has an odd number of runs. */
  lemma {:induction false} PlacedLine(runs: seq<int>, xs: nat, s: int, w: nat)
    requires Lengths(runs) && runs != []
    ensures WellPlaced(runs, xs, s, w) <==> -s <= Scale(Width(runs), xs) || |runs| % 2 == 1
  {
    if -s <= Scale(Width(runs), xs) { PlacedWithin(runs, xs, s, w); } else { PlacedBeyond(runs, xs, s, w); }
  }

  /** The first output row of input line k. */
  function Row(k: nat, ys: nat): nat
  {
    MulNonNeg(k, ys);
    k * ys / 256
  }

  /** The scaled position of line k, rounded down. */
  lemma {:induction false} RowFloor(k: nat, ys: nat)
    ensures 256 * Row(k, ys) <= k * ys < 256 * (Row(k, ys) + 1)
  {
  }

  lemma {:induction false} RowMono(k: nat, ys: nat)
    ensures Row(k, ys) <= Row(k + 1, ys)
  {
    MulDistrib(ys, k, 1);
  }

  /** The rows of the first n input lines, each deleted or repeated as the scale demands. */
  function Rows(lines: seq<seq<int>>, ys: nat, n: nat): (r: seq<seq<int>>)
    requires n <= |lines|
    ensures |r| == Row(n, ys)
  {
    if n == 0 then []
    else
      RowMono(n - 1, ys);
      Rows(lines, ys, n - 1) + Copies(lines[n - 1], Row(n, ys) - Row(n - 1, ys))
  }

  /** Input line k is on the output rows from its own first row to the next line's. */
  lemma {:induction false} RowsAt(lines: seq<seq<int>>, ys: nat, n: nat, k: nat, j: nat)
    requires k < n <= |lines| && Row(k, ys) <= j < Row(k + 1, ys)
    ensures j < |Rows(lines, ys, n)| && Rows(lines, ys, n)[j] == lines[k]
    decreases n
  {
    if k < n - 1 {
      RowsAt(lines, ys, n - 1, k, j);
      RowMono(n - 1, ys);
    }
  }

  lemma {:induction false} RowsPrefix(lines: seq<seq<int>>, ys: nat, m: nat, n: nat)
    requires m <= n <= |lines|
    ensures |Rows(lines, ys, m)| <= |Rows(lines, ys, n)|
        && Rows(lines, ys, n)[..|Rows(lines, ys, m)|] == Rows(lines, ys, m)
    decreases n
  {
    if m < n {
      RowsPrefix(lines, ys, m, n - 1);
      RowMono(n - 1, ys);
    }
  }

  /** Exactly h rows: cut off, or extended with blank ones. */
  function FitRows(rows: seq<seq<int>>, h: nat, blank: seq<int>): (r: seq<seq<int>>)
    ensures |r| == h
  {
    if h <= |rows| then rows[..h] else rows + Copies(blank, h - |rows|)
  }

  function PlacedLines(lines: seq<seq<int>>, xs: int, s: int, w: int): (r: seq<seq<int>>)
    requires CanShift(lines, s)
    ensures |r| == |lines|
  {
    seq(|lines|, i requires 0 <= i < |lines| => Placed(lines[i], xs, s, w))
  }

  /** A line with the overlay's line on it, if there is one. */
  function OverlaidLine(line: seq<int>, over: seq<seq<int>>, k: nat): seq<int>
    requires k < |over| ==> over[k] != []
  {
    if k < |over| then OrInput(line, over[k]) else line
  }

  function Overlaid(lines: seq<seq<int>>, over: seq<seq<int>>): (r: seq<seq<int>>)
    requires forall k | 0 <= k < |over| :: over[k] != []
    ensures |r| == |lines|
  {
    seq(|lines|, k requires 0 <= k < |lines| => OverlaidLine(lines[k], over, k))
  }

  /** Each line can be combined with the overlay's line. */
  predicate CanOverlay(lines: seq<seq<int>>, over: seq<seq<int>>)
    requires forall k | 0 <= k < |over| :: over[k] != []
  {
    forall k | 0 <= k < |lines| && k < |over| :: CanOverlayLine(lines[k], over[k])
  }

  predicate CanOverlayLine(line: seq<int>, over: seq<int>)
  {
    Lengths(line) && Lengths(over) && |line| + |over| < T4Coding.MAXRUNS
  }

  /** Shifting to the left asks for lines with runs. */
  predicate CanShift(lines: seq<seq<int>>, ixsh: int)
  {
    ixsh < 0 ==> forall k | 0 <= k < |lines| :: lines[k] != []
  }

  /** The input lines that are left when a page is shifted up. */
  function Unskipped(lines: seq<seq<int>>, iysh: int): seq<seq<int>>
  {
    lines[if -iysh > |lines| then |lines| else AtLeastZero(-iysh)..]
  }

  /** The rows of a page: iysh blank ones or that many input lines fewer, the input lines with
      the overlay on them, and blank ones. */
  function PageRows(lines: seq<seq<int>>, over: seq<seq<int>>, w: int, h: nat, xs: int, ys: nat, ixsh: int, iysh: int):
      seq<seq<int>>
    requires forall k | 0 <= k < |over| :: over[k] != []
    requires CanShift(Overlaid(Unskipped(lines, iysh), over), ixsh)
  {
    var top := Copies([w], AtLeastZero(iysh));
    var placed := PlacedLines(Overlaid(Unskipped(lines, iysh), over), xs, ixsh, w);
    if iysh > h then top else FitRows(top + Rows(placed, ys, |placed|), h, [w])
  }

  /** Read a line into a run buffer. A line without runs leaves its end-of-line code there. */
  method ReadLine(line: seq<int>) returns (runs: array<int>, pels: int)
    ensures fresh(runs) && runs.Length > |line| && runs.Length >= T4Coding.MAXRUNS
    ensures runs[..|line|] == line && pels == Width(line) && (line == [] ==> runs[0] == NO_RUNS)
  {
    var size := if |line| < T4Coding.MAXRUNS then T4Coding.MAXRUNS else |line| + 1;
    runs := new int[size](_ => NO_RUNS);
    pels := 0;
    for i := 0 to |line|
      invariant runs[..i] == line[..i] && pels == Width(line[..i]) && (line == [] ==> runs[0] == NO_RUNS)
    {
      runs[i] := line[i];
      pels := pels + line[i];
      WidthSnoc(line, i);
    }
    assert line[..|line|] == line;
  }

  /** Put input line k on the page, with the overlay's line on it. */
  method PlaceOne(line: seq<int>, over: seq<seq<int>>, k: nat, xs: int, ixsh: int, w: int) returns (placed: seq<int>)
    requires k < |over| ==> over[k] != [] && CanOverlayLine(line, over[k])
    requires ixsh < 0 ==> OverlaidLine(line, over, k) != []
    ensures placed == Placed(OverlaidLine(line, over, k), xs, ixsh, w)
  {
    var runs, pels := ReadLine(line);
    var nr := |line|;
    if k < |over| {
      OrInputPixels(line, over[k]);
      WholeLine(over[k]);
      nr, pels := RunOr(runs, nr, over[k], |over[k]|);
    }
    nr := PlaceLine(runs, nr, pels, xs, ixsh, w);
    placed := runs[..nr];
  }

  lemma {:induction false} WholeLine(line: seq<int>)
    requires line != []
    ensures InUse(line, |line|) == line
  {
  }

  /** The rows written so far are the first rows of the page, up to h of them. */
  predicate RowsBegun(out: seq<seq<int>>, rows: seq<seq<int>>, h: nat)
  {
    if |rows| <= h then out == rows else out == rows[..h]
  }

  lemma {:induction false} RowsBegunNext(out: seq<seq<int>>, top: seq<seq<int>>, placed: seq<seq<int>>, ys: nat,
                                         n: nat, h: nat)
    requires n < |placed| && RowsBegun(out, top + Rows(placed, ys, n), h) && |out| < h
    ensures |out| == |top| + Row(n, ys) && Row(n, ys) <= Row(n + 1, ys)
    ensures var no := Row(n + 1, ys) - Row(n, ys);
      RowsBegun(out + Copies(placed[n], if |out| + no > h then h - |out| else no), top + Rows(placed, ys, n + 1), h)
  {
    RowMono(n, ys);
    var no := Row(n + 1, ys) - Row(n, ys);
    SeqAssoc(top, Rows(placed, ys, n), Copies(placed[n], no));
    if |out| + no > h {
      assert Copies(placed[n], no)[..h - |out|] == Copies(placed[n], h - |out|);
      assert (out + Copies(placed[n], no))[..h] == out + Copies(placed[n], no)[..h - |out|];
    }
  }

  lemma {:induction false} RowsBegunFull(out: seq<seq<int>>, top: seq<seq<int>>, placed: seq<seq<int>>, ys: nat,
                                         n: nat, h: nat, blank: seq<int>)
    requires n <= |placed| && RowsBegun(out, top + Rows(placed, ys, n), h) && (|out| >= h || n == |placed|)
    ensures |out| <= h && out + Copies(blank, h - |out|) == FitRows(top + Rows(placed, ys, |placed|), h, blank)
  {
    RowsPrefix(placed, ys, n, |placed|);
    var rows, all := top + Rows(placed, ys, n), top + Rows(placed, ys, |placed|);
    assert all[..|rows|] == rows;
    if |out| >= h {
      assert rows[..h] == all[..|rows|][..h] == all[..h];
      assert out + Copies(blank, 0) == out;
    }
  }

  /** Copy the input lines to the page. */
  method PlacePage(lines: seq<seq<int>>, over: seq<seq<int>>, w: int, h: nat, xs: int, ys: nat, ixsh: int, iysh: int)
      returns (out: seq<seq<int>>)
    requires forall k | 0 <= k < |over| :: over[k] != []
    requires CanOverlay(Unskipped(lines, iysh), over) && CanShift(Overlaid(Unskipped(lines, iysh), over), ixsh)
    ensures out == PageRows(lines, over, w, h, xs, ys, ixsh, iysh)
  {
    var next: nat := 0;
    out := [];
    if iysh > 0 {
      out := Copies([w], iysh);
    } else {
      next := if -iysh > |lines| then |lines| else -iysh;
    }
    if |out| <= h {
      out := CopyLines(lines[next..], over, w, h, xs, ys, ixsh, out);
    }
  }

  lemma {:induction false} RowsBegunStart(top: seq<seq<int>>, placed: seq<seq<int>>, ys: nat, h: nat)
    requires |top| <= h
    ensures RowsBegun(top, top + Rows(placed, ys, 0), h)
  {
    assert top + [] == top;
  }

  /** Write a line as often as the scale demands, but not beyond row h. */
  method CopyRow(line: seq<int>, row: nat, olines0: nat, out0: seq<seq<int>>, h: nat)
      returns (out: seq<seq<int>>, olines: nat)
    requires olines0 <= row && |out0| <= h
    ensures var no := row - olines0;
      && out == out0 + Copies(line, if |out0| + no > h then h - |out0| else no)
      && (|out| < h ==> olines == row)
  {
    var no := row - olines0;
    if |out0| + no > h {
      no := h - |out0|;
    }
    olines := olines0 + no;
    out := out0 + Copies(line, no);
  }

  /** The copying loop, and the blank rows after it. */
  method CopyLines(lines: seq<seq<int>>, over: seq<seq<int>>, w: int, h: nat, xs: int, ys: nat, ixsh: int,
                   top: seq<seq<int>>) returns (out: seq<seq<int>>)
    requires forall k | 0 <= k < |over| :: over[k] != []
    requires CanOverlay(lines, over) && CanShift(Overlaid(lines, over), ixsh)
    requires |top| <= h
    ensures out == FitRows(top + Rows(PlacedLines(Overlaid(lines, over), xs, ixsh, w), ys, |lines|), h, [w])
  {
    ghost var placed := PlacedLines(Overlaid(lines, over), xs, ixsh, w);
    var olines: nat, ilines: nat := 0, 0;
    out := top;
    RowsBegunStart(top, placed, ys, h);
    while |out| < h && ilines < |lines|
      invariant ilines <= |lines| && RowsBegun(out, top + Rows(placed, ys, ilines), h)
      invariant |out| < h ==> olines == Row(ilines, ys)
    {
      RowsBegunNext(out, top, placed, ys, ilines, h);
      assert Overlaid(lines, over)[ilines] == OverlaidLine(lines[ilines], over, ilines);
      var line := PlaceOne(lines[ilines], over, ilines, xs, ixsh, w);
      ilines := ilines + 1;
      out, olines := CopyRow(line, Row(ilines, ys), olines, out, h);
    }
    RowsBegunFull(out, top, placed, ys, ilines, h, [w]);
    out := out + Copies([w], h - |out|);
  }

  /** A page has exactly h rows as long as it is shifted down by at most h. */
  lemma {:induction false} PageHeight(lines: seq<seq<int>>, over: seq<seq<int>>, w: int, h: nat, xs: int, ys: nat,
                                      ixsh: int, iysh: int)
    requires forall k | 0 <= k < |over| :: over[k] != []
    requires CanShift(Overlaid(Unskipped(lines, iysh), over), ixsh)
    ensures |PageRows(lines, over, w, h, xs, ys, ixsh, iysh)| == h <==> iysh <= h
  {
  }

  /** Where an input line is on the page: lines are the input lines that are not skipped. */
  lemma {:induction false} PageRowAt(lines: seq<seq<int>>, w: int, h: nat, xs: int, ys: nat, ixsh: int,
                                     top: seq<seq<int>>, k: nat, j: nat)
    requires CanShift(lines, ixsh)
    requires k < |lines| && Row(k, ys) <= j < Row(k + 1, ys) && |top| + j < h
    ensures FitRows(top + Rows(PlacedLines(lines, xs, ixsh, w), ys, |lines|), h, [w])[|top| + j]
         == Placed(lines[k], xs, ixsh, w)
  {
    var placed := PlacedLines(lines, xs, ixsh, w);
    RowsAt(placed, ys, |placed|, k, j);
    FitRowAt(top, Rows(placed, ys, |placed|), h, [w], j);
  }

  lemma {:induction false} FitRowAt(top: seq<seq<int>>, rows: seq<seq<int>>, h: nat, blank: seq<int>, j: nat)
    requires j < |rows| && |top| + j < h
    ensures FitRows(top + rows, h, blank)[|top| + j] == rows[j]
  {
  }
}
