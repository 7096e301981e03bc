/** What a page shows, row by row and pixel by pixel: white rows, the input lines with the overlay
    on them, each scaled, moved and fitted, and white rows. */
module PagePixels {
  import opened Bits
  import opened RunLines
  import opened PageGeometry
  import opened PageLayout

  /** Pixels scaled by xs/256: pixel k reaches from the scaled position of k to that of k + 1. */
  function Stretch(pixels: seq<bool>, xs: nat): (r: seq<bool>)
    ensures |r| == Scale(|pixels|, xs)
  {
    if pixels == [] then []
    else
      var n := |pixels| - 1;
      ScaleMono(n, n + 1, xs);
      Stretch(pixels[..n], xs) + Solid(Scale(n + 1, xs) - Scale(n, xs), pixels[n])
  }

  lemma {:induction false} StretchAt(pixels: seq<bool>, xs: nat, k: nat, i: nat)
    requires k < |pixels| && Scale(k, xs) <= i < Scale(k + 1, xs)
    ensures i < |Stretch(pixels, xs)| && Stretch(pixels, xs)[i] == pixels[k]
    decreases |pixels|
  {
    var n := |pixels| - 1;
    ScaleMono(k + 1, |pixels|, xs);
    if k < n {
      ScaleMono(k + 1, n, xs);
      StretchAt(pixels[..n], xs, k, i);
    } else {
      SolidAt(Scale(n + 1, xs) - Scale(n, xs), pixels[n], i - Scale(n, xs));
    }
  }

  lemma {:induction false} StretchSnoc(pixels: seq<bool>, black: bool, xs: nat)
    ensures Scale(|pixels|, xs) <= Scale(|pixels| + 1, xs)
    ensures Stretch(pixels + [black], xs)
         == Stretch(pixels, xs) + Solid(Scale(|pixels| + 1, xs) - Scale(|pixels|, xs), black)
  {
    ScaleMono(|pixels|, |pixels| + 1, xs);
    assert (pixels + [black])[..|pixels|] == pixels;
  }

  lemma {:induction false} SolidAfter(s: seq<bool>, n: nat, black: bool)
    requires n > 0
    ensures s + Solid(n, black) == s + Solid(n - 1, black) + [black]
  {
    SolidSplit(n - 1, 1, black);
    assert Solid(1, black) == [black] + Solid(0, black) == [black];
    SeqAssoc(s, Solid(n - 1, black), [black]);
  }

  lemma {:induction false} SolidJoin(s: seq<bool>, m: nat, n: nat, black: bool)
    ensures s + Solid(m, black) + Solid(n, black) == s + Solid(m + n, black)
  {
    SolidSplit(m, n, black);
    SeqAssoc(s, Solid(m, black), Solid(n, black));
  }

  lemma {:induction false} StretchNext(p: seq<bool>, xs: nat, s: seq<bool>, m: nat, black: bool)
    requires Same(Stretch(p, xs), s + Solid(m, black))
    ensures Scale(|p|, xs) <= Scale(|p| + 1, xs)
    ensures Same(Stretch(p + [black], xs), s + Solid(m + (Scale(|p| + 1, xs) - Scale(|p|, xs)), black))
  {
    StretchSnoc(p, black, xs);
    SolidJoin(s, m, Scale(|p| + 1, xs) - Scale(|p|, xs), black);
  }

  /** Pixels of one colour at the end stay together. */
  lemma {:induction false} StretchSolid(pixels: seq<bool>, n: nat, black: bool, xs: nat)
    ensures Scale(|pixels|, xs) <= Scale(|pixels| + n, xs)
    ensures Same(Stretch(pixels + Solid(n, black), xs),
                 Stretch(pixels, xs) + Solid(Scale(|pixels| + n, xs) - Scale(|pixels|, xs), black))
    decreases n
  {
    if n == 0 {
      assert pixels + [] == pixels && Stretch(pixels, xs) + [] == Stretch(pixels, xs);
    } else {
      StretchSolid(pixels, n - 1, black, xs);
      StretchNext(pixels + Solid(n - 1, black), xs, Stretch(pixels, xs),
                  Scale(|pixels| + n - 1, xs) - Scale(|pixels|, xs), black);
      SolidAfter(pixels, n, black);
    }
  }

  lemma {:induction false} ScaledInit(runs: seq<int>, xs: nat)
    requires Lengths(runs) && runs != []
    ensures var n := |runs| - 1;
      && Scale(Width(runs[..n]), xs) <= Scale(Width(runs[..n]) + runs[n], xs)
      && Scaled(runs, xs)
         == Scaled(runs[..n], xs) + [Scale(Width(runs[..n]) + runs[n], xs) - Scale(Width(runs[..n]), xs)]
  {
    var n := |runs| - 1;
    var init := runs[..n];
    WidthSnoc(runs, n);
    ScaleMono(Width(init), Width(init) + runs[n], xs);
    forall k | 0 <= k < n ensures Scaled(runs, xs)[k] == Scaled(init, xs)[k] {
      assert init[..k] == runs[..k] && init[..k + 1] == runs[..k + 1];
    }
  }

  /** The last run of a line, and of the scaled line. */
  lemma {:induction false} LastScaled(runs: seq<int>, xs: nat)
    requires Lengths(runs) && runs != []
    ensures Lengths(Scaled(runs, xs)) && Lengths(Scaled(runs[..|runs| - 1], xs))
    ensures var n := |runs| - 1; var p := Expand(runs[..n]);
      && Scale(|p|, xs) <= Scale(|p| + runs[n], xs)
      && Same(Expand(runs), p + Solid(runs[n], Odd(n)))
      && Same(Expand(Scaled(runs, xs)),
              Expand(Scaled(runs[..n], xs)) + Solid(Scale(|p| + runs[n], xs) - Scale(|p|, xs), Odd(n)))
  {
    var n := |runs| - 1;
    var init, r := runs[..n], runs[n];
    assert runs == init + [r];
    ScaledLengths(runs, xs);
    ScaledLengths(init, xs);
    ScaledInit(runs, xs);
    PixelsWidth(init, false);
    ExpandSnoc(init, r);
    ExpandSnoc(Scaled(init, xs), Scale(Width(init) + r, xs) - Scale(Width(init), xs));
  }

  lemma {:induction false} StretchMore(p: seq<bool>, n: nat, black: bool, xs: nat, all: seq<bool>, a: seq<bool>,
                                       b: seq<bool>)
    requires Same(all, p + Solid(n, black)) && Same(a, Stretch(p, xs)) && Scale(|p|, xs) <= Scale(|p| + n, xs)
    requires Same(b, a + Solid(Scale(|p| + n, xs) - Scale(|p|, xs), black))
    ensures Same(b, Stretch(all, xs))
  {
    StretchSolid(p, n, black, xs);
  }

  /** Scaling the runs of a line scales its pixels. */
  lemma {:induction false} ScaledPixels(runs: seq<int>, xs: nat)
    requires Lengths(runs)
    ensures Lengths(Scaled(runs, xs)) && Same(Expand(Scaled(runs, xs)), Stretch(Expand(runs), xs))
  {
    ScaledLengths(runs, xs);
    if runs != [] {
      ScaledPixels(runs[..|runs| - 1], xs);
      LastScaled(runs, xs);
      StretchMore(Expand(runs[..|runs| - 1]), runs[|runs| - 1], Odd(|runs| - 1), xs, Expand(runs),
                  Expand(Scaled(runs[..|runs| - 1], xs)), Expand(Scaled(runs, xs)));
    }
  }

  /** The pixels of a line with the overlay's line on it, if there is one. */
  function OverlaidPixels(line: seq<int>, over: seq<seq<int>>, k: nat): seq<bool>
    requires Lengths(line) && (k < |over| ==> Lengths(over[k]))
  {
    if k < |over| then Or(Expand(line), Expand(over[k])) else Expand(line)
  }

  /** The pixels scaled, moved, and cut or extended to the page's width. */
  function Shown(pixels: seq<bool>, xs: nat, ixsh: int, w: nat): seq<bool>
  {
    Fit(Moved(Stretch(pixels, xs), ixsh), w)
  }

  predicate RowShows(row: seq<int>, pixels: seq<bool>)
  {
    Lengths(row) && Expand(row) == pixels
  }

  /** A line that is not moved out of the page altogether, or has an odd number of runs. */
  predicate Placeable(line: seq<int>, over: seq<seq<int>>, k: nat, xs: nat, ixsh: int)
    requires Lengths(line) && (k < |over| ==> over[k] != [] && Lengths(over[k]))
  {
    -ixsh <= Scale(|OverlaidPixels(line, over, k)|, xs) || |OverlaidLine(line, over, k)| % 2 == 1
  }

  lemma {:induction false} PlacedShows(line: seq<int>, over: seq<seq<int>>, k: nat, xs: nat, ixsh: int, w: nat)
    requires Lengths(line) && (k < |over| ==> over[k] != [] && Lengths(over[k]))
    requires (ixsh < 0 ==> OverlaidLine(line, over, k) != []) && Placeable(line, over, k, xs, ixsh)
    ensures RowShows(Placed(OverlaidLine(line, over, k), xs, ixsh, w),
                     Shown(OverlaidPixels(line, over, k), xs, ixsh, w))
  {
    var runs := OverlaidLine(line, over, k);
    if k < |over| { OrInputPixels(line, over[k]); }
    ScaledPixels(runs, xs);
    PixelsWidth(runs, false);
    if runs == [] {
      EmptyPlaced(xs, ixsh, w);
    } else {
      PlacedLine(runs, xs, ixsh, w);
    }
  }

  lemma {:induction false} EmptyPlaced(xs: nat, ixsh: nat, w: nat)
    ensures RowShows(Placed([], xs, ixsh, w), Shown([], xs, ixsh, w))
  {
    assert Scaled([], xs) == [];
    PaddedToWidth([], w);
    assert Placed([], xs, ixsh, w) == PaddedTo([], 0, w);
    assert Solid(ixsh, false) + [] == Solid(ixsh, false);
    WhiteFit(ixsh, w);
    WhiteFit(0, w);
  }

  lemma {:induction false} WhiteFit(n: nat, w: nat)
    ensures Fit(Solid(n, false), w) == Solid(w, false)
  {
    if w <= n { SolidPrefix(w, n, false); } else { SolidSplit(n, w - n, false); }
  }

  // The page.

  /** The number of input lines left out at the top. */
  function SkippedLines(lines: seq<seq<int>>, iysh: int): nat
  {
    if -iysh > |lines| then |lines| else AtLeastZero(-iysh)
  }

  /** Row j of the page belongs to input line k of those that are not left out: the scaled
      position of the line is at or above the row, and that of the next one below it. */
  predicate OnRow(j: nat, k: nat, ys: nat, iysh: int)
  {
    MulNonNeg(k, ys);
    MulNonNeg(k + 1, ys);
    k * ys / 256 <= j - AtLeastZero(iysh) < (k + 1) * ys / 256
  }

  /** Row j is after the last line. */
  predicate AfterLines(j: nat, n: nat, ys: nat, iysh: int)
  {
    MulNonNeg(n, ys);
    n * ys / 256 <= j - AtLeastZero(iysh)
  }

  /** Row j shows input line k with the overlay on it, if that can be placed. */
  predicate LineShown(out: seq<seq<int>>, j: nat, line: seq<int>, over: seq<seq<int>>, k: nat, xs: nat, ixsh: int,
                      w: nat)
    requires j < |out| && (k < |over| ==> over[k] != [])
  {
    Lengths(line) && (k < |over| ==> Lengths(over[k])) && Placeable(line, over, k, xs, ixsh) ==>
      RowShows(out[j], Shown(OverlaidPixels(line, over, k), xs, ixsh, w))
  }

  predicate RowsWhite(out: seq<seq<int>>, w: nat, n: nat, ys: nat, iysh: int)
  {
    forall j: nat | j < |out| && (j < iysh || AfterLines(j, n, ys, iysh)) :: RowShows(out[j], Solid(w, false))
  }

  predicate LinesShown(out: seq<seq<int>>, lines: seq<seq<int>>, over: seq<seq<int>>, w: nat, xs: nat, ys: nat,
                       ixsh: int, iysh: int)
    requires forall k | 0 <= k < |over| :: over[k] != []
  {
    forall j: nat, k: nat | j < |out| && k < |lines| && OnRow(j, k, ys, iysh) ::
      LineShown(out, j, lines[k], over, k, xs, ixsh, w)
  }

  /** White rows down to the vertical shift, then the input lines with the overlay on them, each
      on its own rows, and white rows to the end. */
  predicate PageShows(out: seq<seq<int>>, lines: seq<seq<int>>, over: seq<seq<int>>, w: nat, h: nat, xs: nat, ys: nat,
                      ixsh: int, iysh: int)
    requires forall k | 0 <= k < |over| :: over[k] != []
  {
    var used := lines[SkippedLines(lines, iysh)..];
    && |out| == (if iysh > h then iysh else h)
    && RowsWhite(out, w, |used|, ys, iysh)
    && LinesShown(out, used, over, w, xs, ys, ixsh, iysh)
  }

  /** Every row between the first and the last line belongs to one. */
  lemma {:induction false} RowHasLine(j: nat, n: nat, ys: nat, iysh: int) returns (k: nat)
    requires j >= AtLeastZero(iysh) && !AfterLines(j, n, ys, iysh)
    ensures k < n && OnRow(j, k, ys, iysh)
  {
    MulNonNeg(n - 1, ys);
    if AfterLines(j, n - 1, ys, iysh) { k := n - 1; } else { k := RowHasLine(j, n - 1, ys, iysh); }
  }

  lemma {:induction false} WhiteRow(w: nat)
    ensures RowShows([w], Solid(w, false))
  {
    PixelsSingle(w, false);
  }

  /** The rows of the page before they are cut off or extended. */
  function AllRows(lines: seq<seq<int>>, over: seq<seq<int>>, w: nat, xs: nat, ys: nat, ixsh: int, iysh: int):
      seq<seq<int>>
    requires (forall k | 0 <= k < |over| :: over[k] != []) && CanShift(Overlaid(lines, over), ixsh)
  {
    Copies([w as int], AtLeastZero(iysh)) + Rows(PlacedLines(Overlaid(lines, over), xs, ixsh, w), ys, |lines|)
  }

  /** The row of an input line shows it. */
  lemma {:induction false} RowShown(lines: seq<seq<int>>, over: seq<seq<int>>, w: nat, h: nat, xs: nat, ys: nat,
                                    ixsh: int, iysh: int, j: nat, k: nat)
    requires (forall k | 0 <= k < |over| :: over[k] != []) && CanShift(Overlaid(lines, over), ixsh)
    requires j < h && k < |lines| && OnRow(j, k, ys, iysh)
    ensures LineShown(FitRows(AllRows(lines, over, w, xs, ys, ixsh, iysh), h, [w]), j, lines[k], over, k, xs, ixsh, w)
  {
    var line := lines[k];
    assert Overlaid(lines, over)[k] == OverlaidLine(line, over, k);
    PageRowAt(Overlaid(lines, over), w, h, xs, ys, ixsh, Copies([w as int], AtLeastZero(iysh)), k,
              j - AtLeastZero(iysh));
    if Lengths(line) && (k < |over| ==> Lengths(over[k])) && Placeable(line, over, k, xs, ixsh) {
      PlacedShows(line, over, k, xs, ixsh, w);
    }
  }

  lemma {:induction false} LinesAre(lines: seq<seq<int>>, over: seq<seq<int>>, w: nat, h: nat, xs: nat, ys: nat,
                                    ixsh: int, iysh: int, out: seq<seq<int>>)
    requires (forall k | 0 <= k < |over| :: over[k] != []) && CanShift(Overlaid(lines, over), ixsh)
    requires out == FitRows(AllRows(lines, over, w, xs, ys, ixsh, iysh), h, [w])
    ensures LinesShown(out, lines, over, w, xs, ys, ixsh, iysh)
  {
    forall j: nat, k: nat | j < |out| && k < |lines| && OnRow(j, k, ys, iysh)
      ensures LineShown(out, j, lines[k], over, k, xs, ixsh, w)
    {
      RowShown(lines, over, w, h, xs, ys, ixsh, iysh, j, k);
    }
  }

  /** The rows before and after the input lines are white. */
  lemma {:induction false} WhiteAre(lines: seq<seq<int>>, over: seq<seq<int>>, w: nat, h: nat, xs: nat, ys: nat,
                                    ixsh: int, iysh: int, out: seq<seq<int>>)
    requires (forall k | 0 <= k < |over| :: over[k] != []) && CanShift(Overlaid(lines, over), ixsh)
    requires out == FitRows(AllRows(lines, over, w, xs, ys, ixsh, iysh), h, [w])
    ensures RowsWhite(out, w, |lines|, ys, iysh)
  {
    WhiteRow(w);
    forall j: nat | j < |out| && (j < iysh || AfterLines(j, |lines|, ys, iysh)) ensures out[j] == [w] {
    }
  }

  /** A page that ends above the first line is white. */
  lemma {:induction false} OnlyWhite(lines: seq<seq<int>>, over: seq<seq<int>>, w: nat, xs: nat, ys: nat, ixsh: int,
                                     iysh: nat)
    requires forall k | 0 <= k < |over| :: over[k] != []
    ensures RowsWhite(Copies([w as int], iysh), w, |lines|, ys, iysh)
    ensures LinesShown(Copies([w as int], iysh), lines, over, w, xs, ys, ixsh, iysh)
  {
    WhiteRow(w);
    forall j: nat, k: nat | j < iysh ensures !OnRow(j, k, ys, iysh) {
      MulNonNeg(k, ys);
    }
  }

  /** What the page shows, for any input, overlay, scale and shift. */
  lemma {:induction false} PageShown(lines: seq<seq<int>>, over: seq<seq<int>>, w: nat, h: nat, xs: nat, ys: nat,
                                     ixsh: int, iysh: int)
    requires forall k | 0 <= k < |over| :: over[k] != []
    requires CanShift(Overlaid(Unskipped(lines, iysh), over), ixsh)
    ensures PageShows(PageRows(lines, over, w, h, xs, ys, ixsh, iysh), lines, over, w, h, xs, ys, ixsh, iysh)
  {
    var used := Unskipped(lines, iysh);
    if iysh <= h {
      var out := FitRows(AllRows(used, over, w, xs, ys, ixsh, iysh), h, [w]);
      LinesAre(used, over, w, h, xs, ys, ixsh, iysh, out);
      WhiteAre(used, over, w, h, xs, ys, ixsh, iysh, out);
      PageIs(out, lines, over, w, h, xs, ys, ixsh, iysh);
    } else {
      OnlyWhite(used, over, w, xs, ys, ixsh, iysh);
      PageIs(Copies([w as int], iysh), lines, over, w, h, xs, ys, ixsh, iysh);
    }
  }

  lemma {:induction false} PageIs(out: seq<seq<int>>, lines: seq<seq<int>>, over: seq<seq<int>>, w: nat, h: nat,
                                  xs: nat, ys: nat, ixsh: int, iysh: int)
    requires forall k | 0 <= k < |over| :: over[k] != []
    requires |out| == (if iysh > h then iysh else h)
    requires RowsWhite(out, w, |Unskipped(lines, iysh)|, ys, iysh)
    requires LinesShown(out, Unskipped(lines, iysh), over, w, xs, ys, ixsh, iysh)
    ensures PageShows(out, lines, over, w, h, xs, ys, ixsh, iysh)
  {
  }
}
