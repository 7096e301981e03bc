/** Making scan lines fit: padding, shifting and scaling run lengths in place. */
module PageGeometry {
  import Bits
  import opened RunLines

  function AtLeastZero(n: int): nat
  {
    if n < 0 then 0 else n
  }

  // Padding and truncation.

  /** A line of exactly w pixels: cut off, or extended with white. */
  function Fit(pixels: seq<bool>, w: nat): (s: seq<bool>)
    ensures |s| == w
  {
    if w <= |pixels| then pixels[..w] else pixels + Solid(w - |pixels|, false)
  }

  /** Runs removed from the end until pad more pixels are missing; what is left of the last
      one removed is put back. */
  function Cut(runs: seq<int>, pad: int): seq<int>
  {
    if pad >= 0 then runs + [pad]
    else if runs == [] then [0]
    else Cut(runs[..|runs| - 1], pad + runs[|runs| - 1])
  }

  function Padded(runs: seq<int>, pad: int): (r: seq<int>)
    ensures pad != 0 || |runs| % 2 == 0 ==> r != []
    ensures |r| <= |runs| + 1
  {
    if pad < 0 then
      CutCount(runs, pad);
      Cut(runs, pad)
    else if |runs| % 2 == 1 then runs[|runs| - 1 := runs[|runs| - 1] + pad]
    else runs + [pad]
  }

  lemma {:induction false} CutCount(runs: seq<int>, pad: int)
    requires pad < 0
    ensures 0 < |Cut(runs, pad)| <= |runs| + 1
    decreases |runs|
  {
    if runs != [] {
      var pad' := pad + runs[|runs| - 1];
      if pad' < 0 { CutCount(runs[..|runs| - 1], pad'); }
    }
  }

  lemma {:induction false} LastRun(runs: seq<int>)
    requires Lengths(runs) && runs != []
    ensures var init, r := runs[..|runs| - 1], runs[|runs| - 1];
      && Lengths(init) && r >= 0
      && Width(runs) == Width(init) + r
      && Expand(runs) == Expand(init) + Solid(r, Odd(|init|))
      && |Expand(init)| == Width(init)
  {
    var init, r := runs[..|runs| - 1], runs[|runs| - 1];
    assert runs == init + [r];
    ExpandSnoc(init, r);
    WidthAppend(init, [r]);
    PixelsWidth(init, false);
  }

  lemma {:induction false} SolidPrefix(m: nat, n: nat, black: bool)
    requires m <= n
    ensures Solid(n, black)[..m] == Solid(m, black)
  {
    SolidSplit(m, n - m, black);
  }

  lemma {:induction false} PrefixOfConcat(a: seq<bool>, b: seq<bool>, w: nat)
    ensures w <= |a| ==> (a + b)[..w] == a[..w]
    ensures |a| <= w <= |a| + |b| ==> (a + b)[..w] == a + b[..w - |a|]
  {
  }

  lemma {:induction false} CutEmpty(pad: int)
    requires pad < 0
    ensures Lengths(Cut([], pad)) && Expand(Cut([], pad)) == [] == Fit(Expand([]), AtLeastZero(Width([]) + pad))
  {
    PixelsSingle(0, false);
  }

  /** Truncation keeps exactly the pixels that fit. */
  lemma {:induction false} CutPixels(runs: seq<int>, pad: int)
    requires Lengths(runs) && pad < 0
    ensures Lengths(Cut(runs, pad))
    ensures Expand(Cut(runs, pad)) == Fit(Expand(runs), AtLeastZero(Width(runs) + pad))
    decreases |runs|
  {
    hide Solid, Width;
    PixelsWidth(runs, false);
    if runs == [] {
      CutEmpty(pad);
    } else {
      var init, r := runs[..|runs| - 1], runs[|runs| - 1];
      var w := AtLeastZero(Width(runs) + pad);
      LastRun(runs);
      PrefixOfConcat(Expand(init), Solid(r, Odd(|init|)), w);
      if pad + r < 0 {
        CutPixels(init, pad + r);
      } else {
        ExpandSnoc(init, pad + r);
        SolidPrefix(pad + r, r, Odd(|init|));
      }
    }
  }

  /** Padding by pad gives the line with that many more pixels, or fewer, and no others. */
  lemma {:induction false} PaddedPixels(runs: seq<int>, pad: int)
    requires Lengths(runs)
    ensures Lengths(Padded(runs, pad))
    ensures Expand(Padded(runs, pad)) == Fit(Expand(runs), AtLeastZero(Width(runs) + pad))
    ensures Width(Padded(runs, pad)) == AtLeastZero(Width(runs) + pad)
  {
    PixelsWidth(runs, false);
    if pad < 0 {
      CutPixels(runs, pad);
    } else {
      WhiteExtension(runs, pad);
    }
    PixelsWidth(Padded(runs, pad), false);
  }

  lemma {:induction false} WhiteExtension(runs: seq<int>, pad: nat)
    requires Lengths(runs)
    ensures Lengths(Padded(runs, pad))
    ensures Expand(Padded(runs, pad)) == Expand(runs) + Solid(pad, false)
  {
    if |runs| % 2 == 1 { ExpandGrow(runs, pad); } else { ExpandSnoc(runs, pad); }
  }

  /** Pad or truncate the first nr runs of the buffer. */
  method XPad(runs: array<int>, nr: nat, pad: int) returns (n: nat)
    requires 0 < runs.Length && nr <= runs.Length
    requires nr == runs.Length ==> pad < 0 || nr % 2 == 1
    modifies runs
    ensures n <= runs.Length && runs[..n] == Padded(old(runs[..nr]), pad)
  {
    n := nr;
    if pad < 0 {
      var p := pad;
      while p < 0
        invariant n <= nr && runs[..] == old(runs[..])
        invariant n < nr || nr == 0 || p < 0
        invariant Cut(runs[..n], p) == Cut(runs[..nr], pad)
        decreases n, if p < 0 then 1 else 0
      {
        if n == 0 {
          p := 0;
        } else {
          n := n - 1;
          assert runs[..n + 1][..n] == runs[..n];
          p := p + runs[n];
        }
      }
      ghost var kept := runs[..n];
      runs[n] := p;
      n := n + 1;
      assert runs[..n] == kept + [p];
    } else if n % 2 == 1 {
      runs[n - 1] := runs[n - 1] + pad;
    } else {
      runs[n] := pad;
      n := n + 1;
    }
  }

  /** A line of width pels, padded or cut to width w when it has another width. */
  function PaddedTo(runs: seq<int>, pels: int, w: int): seq<int>
  {
    if pels == w then runs else Padded(runs, w - pels)
  }

  /** A line of its own width is made exactly w pixels wide. */
  lemma {:induction false} PaddedToWidth(runs: seq<int>, w: nat)
    requires Lengths(runs)
    ensures Lengths(PaddedTo(runs, Width(runs), w))
    ensures Width(PaddedTo(runs, Width(runs), w)) == w
    ensures Expand(PaddedTo(runs, Width(runs), w)) == Fit(Expand(runs), w)
  {
    PixelsWidth(runs, false);
    PaddedPixels(runs, w - Width(runs));
    assert Expand(runs)[..|Expand(runs)|] == Expand(runs);
  }

  // Shifting.

  /** Pixels moved right by s, with white in front, or left, with the first ones gone. */
  function Moved(pixels: seq<bool>, s: int): seq<bool>
  {
    if s >= 0 then Solid(s, false) + pixels
    else if -s <= |pixels| then pixels[-s..]
    else []
  }

  /** The runs before run i are zero. */
  predicate Gone(runs: seq<int>, i: nat)
  {
    i <= |runs| && forall k | 0 <= k < i :: runs[k] == 0
  }

  /** The first -s pixels taken away from run i on; runs used up are left with length zero,
      and the last run takes what is missing. */
  function Dropped(runs: seq<int>, i: nat, s: int): (r: seq<int>)
    requires i < |runs|
    ensures |r| == |runs|
    decreases |runs| - i
  {
    var t := s + runs[i];
    if t >= 0 || i + 1 == |runs| then runs[i := t] else Dropped(runs[i := 0], i + 1, t)
  }

  function Shifted(runs: seq<int>, s: int): (r: seq<int>)
    requires s < 0 ==> runs != []
    ensures |r| == |runs|
  {
    if s < 0 then Dropped(runs, 0, s)
    else if runs == [] then runs
    else runs[0 := runs[0] + s]
  }

  lemma {:induction false} GoneIsNothing(runs: seq<int>, i: nat, black: bool)
    requires Lengths(runs) && Gone(runs, i)
    ensures Pixels(runs[..i], black) == [] && Width(runs[..i]) == 0
    decreases i
  {
    if i > 0 {
      assert runs[..i][1..] == runs[1..][..i - 1];
      GoneIsNothing(runs[1..], i - 1, !black);
    }
  }

  /** A line whose first i runs are gone begins with run i. */
  lemma {:induction false} BeginsAt(runs: seq<int>, i: nat)
    requires Lengths(runs) && Gone(runs, i) && i < |runs|
    ensures Expand(runs) == Solid(runs[i], Odd(i)) + Pixels(runs[i + 1..], !Odd(i))
    ensures Width(runs) == runs[i] + Width(runs[i + 1..])
  {
    assert runs == runs[..i] + runs[i..];
    PixelsAppend(runs[..i], runs[i..], false);
    WidthAppend(runs[..i], runs[i..]);
    GoneIsNothing(runs, i, false);
    assert runs[i..][1..] == runs[i + 1..];
    NothingBefore(Pixels(runs[i..], Odd(i)));
  }

  lemma {:induction false} NothingBefore(s: seq<bool>)
    ensures Bits.Same([] + s, s)
  {
    assert [] + s == s;
  }

  lemma {:induction false} DropSolid(n: nat, k: nat, black: bool, rest: seq<bool>)
    requires k <= n
    ensures (Solid(n, black) + rest)[k..] == Solid(n - k, black) + rest
  {
    SolidSplit(k, n - k, black);
  }

  /** Shortening the first run left takes pixels away from the front. */
  lemma {:induction false} Shorten(runs: seq<int>, i: nat, k: nat)
    requires Lengths(runs) && Gone(runs, i) && i < |runs| && k <= runs[i]
    ensures var r := runs[i := runs[i] - k];
      && Lengths(r) && Gone(r, i) && Width(r) == Width(runs) - k && k <= |Expand(runs)| == Width(runs)
      && Expand(r) == Expand(runs)[k..]
  {
    var r := runs[i := runs[i] - k];
    BeginsAt(runs, i);
    BeginsAt(r, i);
    assert r[i + 1..] == runs[i + 1..];
    DropSolid(runs[i], k, Odd(i), Pixels(runs[i + 1..], !Odd(i)));
    PixelsWidth(runs, false);
    PixelsWidth(runs[i + 1..], !Odd(i));
  }

  /** The first k pixels are gone. */
  predicate FrontGone(runs: seq<int>, k: int, r: seq<int>)
  {
    && Lengths(runs) && Lengths(r) && 0 <= k <= |Expand(runs)| == Width(runs)
    && Width(r) == Width(runs) - k && Expand(r) == Expand(runs)[k..]
  }

  lemma {:induction false} FrontGoneTwice(runs: seq<int>, m: int, r: seq<int>, n: int, q: seq<int>)
    requires FrontGone(runs, m, r) && FrontGone(r, n, q)
    ensures FrontGone(runs, m + n, q)
  {
  }

  lemma {:induction false} ShortenAll(runs: seq<int>, i: nat, rest: seq<int>)
    requires Lengths(runs) && Gone(runs, i) && i < |runs| && rest == runs[i := 0]
    ensures FrontGone(runs, runs[i], rest) && Gone(rest, i + 1)
  {
    Shorten(runs, i, runs[i]);
  }

  lemma {:induction false} LastWidth(runs: seq<int>, i: nat)
    requires Lengths(runs) && Gone(runs, i) && i < |runs|
    ensures |Expand(runs)| == Width(runs)
    ensures i + 1 == |runs| ==> Width(runs) == runs[i]
  {
    PixelsWidth(runs, false);
    BeginsAt(runs, i);
  }

  /** Taking pixels away from the front takes away exactly the first ones. */
  lemma {:induction false} DroppedPixels(runs: seq<int>, i: nat, s: int)
    requires Lengths(runs) && Gone(runs, i) && i < |runs| && s < 0 && -s <= Width(runs)
    ensures FrontGone(runs, -s, Dropped(runs, i, s))
    decreases |runs| - i
  {
    if s + runs[i] >= 0 || i + 1 == |runs| {
      DroppedHere(runs, i, s);
    } else {
      var rest, t := runs[i := 0], s + runs[i];
      ShortenAll(runs, i, rest);
      DroppedPixels(rest, i + 1, t);
      DroppedOn(runs, i, s, rest);
    }
  }

  lemma {:induction false} DroppedHere(runs: seq<int>, i: nat, s: int)
    requires Lengths(runs) && Gone(runs, i) && i < |runs| && s < 0 && -s <= Width(runs)
    requires s + runs[i] >= 0 || i + 1 == |runs|
    ensures FrontGone(runs, -s, Dropped(runs, i, s))
  {
    LastWidth(runs, i);
    Shorten(runs, i, -s);
  }

  lemma {:induction false} DroppedOn(runs: seq<int>, i: nat, s: int, rest: seq<int>)
    requires i + 1 < |runs| && s + runs[i] < 0 && rest == runs[i := 0] && FrontGone(runs, runs[i], rest)
    requires FrontGone(rest, -(s + runs[i]), Dropped(rest, i + 1, s + runs[i]))
    ensures FrontGone(runs, -s, Dropped(runs, i, s))
  {
    var out := Dropped(runs, i, s);
    assert out == Dropped(rest, i + 1, s + runs[i]);
    FrontGoneTwice(runs, runs[i], rest, -(s + runs[i]), out);
  }

  /** A shift moves the pixels as long as it does not go past the end of the line. */
  lemma {:induction false} ShiftedPixels(runs: seq<int>, s: int)
    requires Lengths(runs) && runs != [] && -s <= Width(runs)
    ensures Lengths(Shifted(runs, s)) && Width(Shifted(runs, s)) == Width(runs) + s
    ensures Expand(Shifted(runs, s)) == Moved(Expand(runs), s)
  {
    PixelsWidth(runs, false);
    if s < 0 {
      DroppedPixels(runs, 0, s);
    } else {
      var tail := runs[1..];
      assert runs[0 := runs[0] + s][1..] == tail;
      SolidSplit(s, runs[0], false);
      Bits.SeqAssoc(Solid(s, false), Solid(runs[0], false), Pixels(tail, true));
    }
  }

  /** A left shift past the end of the line leaves its last run negative and the others zero. */
  lemma {:induction false} DroppedTooMuch(runs: seq<int>, i: nat, s: int)
    requires Lengths(runs) && Gone(runs, i) && i < |runs| && -s > Width(runs)
    ensures Dropped(runs, i, s) == Zeroes(|runs| - 1) + [Width(runs) + s]
    decreases |runs| - i
  {
    BeginsAt(runs, i);
    if i + 1 < |runs| {
      PixelsWidth(runs[i + 1..], false);
      Shorten(runs, i, runs[i]);
      DroppedTooMuch(runs[i := 0], i + 1, s + runs[i]);
    }
  }

  function Zeroes(n: nat): (r: seq<int>)
    ensures |r| == n
  {
    seq(n, _ => 0)
  }

  /** Shift the first nr runs of the buffer by s pixels; the result is the change in width. */
  method XShift(runs: array<int>, nr: nat, s0: int) returns (n: int)
    requires nr <= runs.Length && (s0 < 0 ==> nr > 0)
    modifies runs
    ensures runs[..nr] == Shifted(old(runs[..nr]), s0)
    ensures n == if nr > 0 then s0 else 0
  {
    var s, i: int := s0, 0;
    n := 0;
    if s < 0 {
      while s < 0 && i < nr
        invariant 0 <= i <= nr && n == s0 - s
        invariant i > 0 ==> runs[i - 1] == 0
        invariant s < 0 && i < nr ==> Dropped(runs[..nr], i, s) == old(Dropped(runs[..nr], 0, s0))
        invariant s >= 0 || i == nr ==> i > 0 && runs[..nr][i - 1 := s] == old(Dropped(runs[..nr], 0, s0))
        decreases nr - i
      {
        ghost var was := runs[..nr];
        s := s + runs[i];
        n := n - runs[i];
        runs[i] := 0;
        assert runs[..nr] == was[i := 0];
        i := i + 1;
      }
      i := i - 1;
    }
    ghost var now := runs[..nr];
    if i < nr {
      runs[i] := runs[i] + s;
      n := n + s;
      assert runs[..nr] == now[i := now[i] + s];
    }
  }

  // Scaling.

  /** Position b after scaling by xs/256, rounded. */
  function Scale(b: int, xs: int): int
  {
    (b * xs + 128) / 256
  }

  /** The nearest position, and the higher one of two that are equally near. */
  lemma {:induction false} ScaleNearest(b: int, xs: int)
    ensures -128 <= b * xs - 256 * Scale(b, xs) < 128
  {
  }

  /** Run k reaches from the scaled start of run k to the scaled end of it. */
  function Scaled(runs: seq<int>, xs: int): (r: seq<int>)
    ensures |r| == |runs|
  {
    seq(|runs|, k requires 0 <= k < |runs| => Scale(Width(runs[..k + 1]), xs) - Scale(Width(runs[..k]), xs))
  }

  lemma {:induction false} WidthSnoc(runs: seq<int>, k: nat)
    requires k < |runs|
    ensures Width(runs[..k + 1]) == Width(runs[..k]) + runs[k]
  {
    assert runs[..k + 1] == runs[..k] + [runs[k]];
    WidthAppend(runs[..k], [runs[k]]);
  }

  /** Every colour boundary of the scaled line is the scaled boundary of the line, with no
      error carried over from run to run. */
  lemma {:induction false} ScaledBoundary(runs: seq<int>, xs: int, k: nat)
    requires k <= |runs|
    ensures Width(Scaled(runs, xs)[..k]) == Scale(Width(runs[..k]), xs)
    decreases k
  {
    if k > 0 {
      ScaledBoundary(runs, xs, k - 1);
      WidthSnoc(Scaled(runs, xs), k - 1);
    }
  }

  lemma {:induction false} ScaleMono(a: int, b: int, xs: int)
    requires a <= b && xs >= 0
    ensures Scale(a, xs) <= Scale(b, xs)
  {
    Bits.MulNonNeg(b - a, xs);
    Bits.MulDistrib(xs, a, b - a);
  }

  lemma {:induction false} ScaledLengths(runs: seq<int>, xs: int)
    requires Lengths(runs) && xs >= 0
    ensures Lengths(Scaled(runs, xs)) && Width(Scaled(runs, xs)) == Scale(Width(runs), xs)
  {
    forall k | 0 <= k < |runs| ensures Scaled(runs, xs)[k] >= 0 {
      WidthSnoc(runs, k);
      ScaleMono(Width(runs[..k]), Width(runs[..k + 1]), xs);
    }
    ScaledBoundary(runs, xs, |runs|);
    assert runs[..|runs|] == runs && Scaled(runs, xs)[..|runs|] == Scaled(runs, xs);
  }

  /** Scaling by 256/256 changes nothing. */
  lemma {:induction false} ScaledBySame(runs: seq<int>)
    ensures Scaled(runs, 256) == runs
  {
    forall k | 0 <= k < |runs| ensures Scaled(runs, 256)[k] == runs[k] {
      WidthSnoc(runs, k);
    }
  }

  /** The pixels of run k. */
  lemma {:induction false} RunColour(runs: seq<int>, k: nat, i: nat)
    requires Lengths(runs) && k < |runs| && Width(runs[..k]) <= i < Width(runs[..k + 1])
    ensures i < |Expand(runs)| && Expand(runs)[i] == Odd(k)
  {
    var a, b := runs[..k + 1], runs[k + 1..];
    assert runs == a + b;
    PixelsAppend(a, b, false);
    assert a == runs[..k] + [runs[k]];
    ExpandSnoc(runs[..k], runs[k]);
    PixelsWidth(runs[..k], false);
    WidthSnoc(runs, k);
    SolidAt(runs[k], Odd(k), i - Width(runs[..k]));
  }

  lemma {:induction false} SolidAt(n: nat, black: bool, i: nat)
    requires i < n
    ensures Solid(n, black)[i] == black
    decreases n
  {
    if i > 0 { SolidAt(n - 1, black, i - 1); }
  }

  /** A pixel between two scaled boundaries has the colour of the run between them. */
  lemma {:induction false} ScaledColour(runs: seq<int>, xs: int, k: nat, i: nat)
    requires Lengths(runs) && xs >= 0 && k < |runs|
    requires Scale(Width(runs[..k]), xs) <= i < Scale(Width(runs[..k + 1]), xs)
    ensures Lengths(Scaled(runs, xs))
    ensures i < |Expand(Scaled(runs, xs))| && Expand(Scaled(runs, xs))[i] == Odd(k)
  {
    ScaledLengths(runs, xs);
    ScaledBoundary(runs, xs, k);
    ScaledBoundary(runs, xs, k + 1);
    RunColour(Scaled(runs, xs), k, i);
  }

  /** Scale the first nr runs of the buffer; the result is the new width. */
  method XScale(runs: array<int>, nr: nat, xs: int) returns (outlen: int)
    requires nr <= runs.Length
    modifies runs
    ensures runs[..nr] == Scaled(old(runs[..nr]), xs)
    ensures outlen == Scale(Width(old(runs[..nr])), xs)
  {
    ghost var was := runs[..nr];
    var inlen := 0;
    outlen := 0;
    for k := 0 to nr
      invariant inlen == Width(was[..k]) && outlen == Scale(inlen, xs)
      invariant runs[..k] == Scaled(was, xs)[..k]
      invariant runs[k..nr] == was[k..]
    {
      WidthSnoc(was, k);
      assert runs[k] == runs[k..nr][0] == was[k];
      inlen := inlen + runs[k];
      runs[k] := Scale(inlen, xs) - outlen;
      outlen := outlen + runs[k];
      assert Scaled(was, xs)[..k + 1] == Scaled(was, xs)[..k] + [Scaled(was, xs)[k]];
    }
    assert was[..nr] == was;
  }
}
